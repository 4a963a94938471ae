// The configuration object: settings in memory, sensitive ones sealed on their
// way to disk, a dirty flag and a one-slot channel that wakes the writer.

module ConfigStore {
  import Sorting

  /** Unstorable stands for functions, channels and other values JSON cannot hold. */
  datatype Value = Text(s: string) | Other(json: string) | Unstorable

  type Data = map<string, Value>

  /** Field encryption; encrypting is best effort and may hand the text back. */
  datatype Cipher = Cipher(isEncrypted: string -> bool, encrypt: string -> string, decrypt: string -> string)

  const SENSITIVE_KEYS: seq<string> := ["proxy_api_key", "coze_api_token", "cf_api_token", "cf_zone_id"]

  // --------------------------------------------------------- on-disk form

  function SealValue(c: Cipher, v: Value): Value
  {
    if v.Text? && v.s != "" && !c.isEncrypted(v.s) then Text(c.encrypt(v.s)) else v
  }

  function OpenValue(c: Cipher, v: Value): Value
  {
    if v.Text? && v.s != "" && c.isEncrypted(v.s) then Text(c.decrypt(v.s)) else v
  }

  function OnKeys(d: Data, keys: seq<string>, f: Value -> Value): Data
  {
    if keys == [] then d
    else
      var before := OnKeys(d, keys[..|keys| - 1], f);
      var k := keys[|keys| - 1];
      if k in before then before[k := f(before[k])] else before
  }

  /** What a save writes. */
  function Sealed(c: Cipher, d: Data): Data
  {
    OnKeys(d, SENSITIVE_KEYS, v => SealValue(c, v))
  }

  /** What a load makes of it. */
  function Opened(c: Cipher, d: Data): Data
  {
    OnKeys(d, SENSITIVE_KEYS, v => OpenValue(c, v))
  }

  ghost predicate Sound(c: Cipher)
  {
    forall s :: s != "" && !c.isEncrypted(s) ==>
      c.encrypt(s) == s || (c.encrypt(s) != "" && c.isEncrypted(c.encrypt(s)) && c.decrypt(c.encrypt(s)) == s)
  }

  lemma {:induction false} OnKeysAt(d: Data, keys: seq<string>, f: Value -> Value, k: string)
    requires Sorting.NoRepeats(keys)
    ensures k in OnKeys(d, keys, f) <==> k in d
    ensures k in d ==> OnKeys(d, keys, f)[k] == if k in keys then f(d[k]) else d[k]
  {
    if keys != [] {
      var n := |keys| - 1;
      OnKeysAt(d, keys[..n], f, k);
      OnKeysAt(d, keys[..n], f, keys[n]);
      assert keys == keys[..n] + [keys[n]];
      assert keys[n] !in keys[..n];
    }
  }

  lemma SensitiveDistinct()
    ensures Sorting.NoRepeats(SENSITIVE_KEYS)
  {
    assert "proxy_api_key"[0] == 'p' && "coze_api_token"[1] == 'o' && "cf_api_token"[3] == 'a'
      && "cf_zone_id"[3] == 'z';
    assert "cf_api_token"[1] == 'f' && "cf_zone_id"[1] == 'f';
  }

  /** A sensitive text that already looks encrypted is stored as it is, and decrypted on load. */
  predicate Survives(c: Cipher, v: Value)
  {
    v.Text? && v.s != "" && c.isEncrypted(v.s) ==> c.decrypt(v.s) == v.s
  }

  lemma SealOpenAt(c: Cipher, d: Data, k: string)
    requires Sound(c) && k in d
    ensures k in Opened(c, Sealed(c, d))
    ensures Opened(c, Sealed(c, d))[k] == d[k] <==> (k in SENSITIVE_KEYS ==> Survives(c, d[k]))
  {
    SensitiveDistinct();
    OnKeysAt(d, SENSITIVE_KEYS, v => SealValue(c, v), k);
    OnKeysAt(Sealed(c, d), SENSITIVE_KEYS, v => OpenValue(c, v), k);
  }

  /** Loading what was saved gives the settings back, except sensitive texts that looked encrypted before. */
  lemma SealOpenIff(c: Cipher, d: Data)
    requires Sound(c)
    ensures Opened(c, Sealed(c, d)) == d <==> forall k :: k in SENSITIVE_KEYS && k in d ==> Survives(c, d[k])
  {
    var back := Opened(c, Sealed(c, d));
    SensitiveDistinct();
    forall k ensures k in back <==> k in d {
      OnKeysAt(d, SENSITIVE_KEYS, v => SealValue(c, v), k);
      OnKeysAt(Sealed(c, d), SENSITIVE_KEYS, v => OpenValue(c, v), k);
    }
    forall k | k in d ensures back[k] == d[k] <==> (k in SENSITIVE_KEYS ==> Survives(c, d[k])) {
      SealOpenAt(c, d, k);
    }
  }

  // ------------------------------------------------------------ the object

  /** What setters and the writer share; token says whether the channel slot is taken. */
  datatype Shared = Shared(data: Data, dirty: bool, token: bool, stopped: bool, disk: Data)

  function SetOne(d: Data, key: string, v: Value, now: string): Data
  {
    d[key := v]["updated_at" := Text(now)]
  }

  function SetAll(d: Data, m: Data, now: string): Data
  {
    (d + map k | k in m && k != "" && m[k] != Unstorable :: m[k])["updated_at" := Text(now)]
  }

  function Marked(s: Shared): Shared { s.(dirty := true) }

  /** A non-blocking send on the one-slot channel. */
  function Signalled(s: Shared): Shared { s.(token := true) }

  /** The writer's locked section: save when dirty. The flag drops whether or not the save worked. */
  function Flushed(s: Shared, c: Cipher, ok: bool): Shared
  {
    if !s.dirty then s
    else s.(disk := if ok then Sealed(c, s.data) else s.disk, dirty := false)
  }

  class Config {
    const cipher: Cipher
    var data: Data
    var dirty: bool
    var token: bool
    var stopped: bool
    var disk: Data

    function State(): Shared
      reads this
    {
      Shared(data, dirty, token, stopped, disk)
    }

    constructor (cipher: Cipher, disk: Data)
      ensures State() == Shared(Opened(cipher, disk), false, false, false, disk) && this.cipher == cipher
    {
      this.cipher, this.disk := cipher, disk;
      data, dirty, token, stopped := Opened(cipher, disk), false, false, false;
    }

    /** The first locked section of Set; false when the value was rejected. */
    method Write(key: string, value: Value, now: string) returns (accepted: bool)
      modifies this`data
      ensures accepted <==> value != Unstorable
      ensures data == if accepted then SetOne(old(data), key, value, now) else old(data)
    {
      if value == Unstorable { return false; }
      data := data[key := value];
      data := data["updated_at" := Text(now)];
      accepted := true;
    }

    /** The first locked section of SetMany. */
    method WriteMany(m: Data, now: string)
      modifies this`data
      ensures data == SetAll(old(data), m, now)
    {
      var rest := m.Keys;
      while rest != {}
        invariant rest <= m.Keys
        invariant data == old(data) + map k | k in m && k !in rest && k != "" && m[k] != Unstorable :: m[k]
        decreases rest
      {
        var k :| k in rest;
        rest := rest - {k};
        if k != "" && m[k] != Unstorable { data := data[k := m[k]]; }
      }
      data := data["updated_at" := Text(now)];
    }

    method Mark()
      modifies this`dirty
      ensures State() == Marked(old(State()))
    {
      dirty := true;
    }

    method Signal()
      modifies this`token
      ensures State() == Signalled(old(State()))
    {
      if !token { token := true; }
    }

    /** Set the flag in one locked section, then wake the writer. */
    method Save()
      modifies this`dirty, this`token
      ensures State() == Signalled(Marked(old(State())))
    {
      Mark();
      Signal();
    }

    method Set(key: string, value: Value, now: string)
      modifies this`data, this`dirty, this`token
      ensures State() ==
        if value == Unstorable then old(State())
        else Signalled(Marked(old(State()).(data := SetOne(old(data), key, value, now))))
    {
      var accepted := Write(key, value, now);
      if accepted { Save(); }
    }

    method SetMany(m: Data, now: string)
      modifies this`data, this`dirty, this`token
      ensures State() == Signalled(Marked(old(State()).(data := SetAll(old(data), m, now))))
    {
      WriteMany(m, now);
      Save();
    }

    /** The writer's locked section. */
    method FlushLocked(ok: bool)
      modifies this`dirty, this`disk
      ensures State() == Flushed(old(State()), cipher, ok)
    {
      if dirty {
        var safe := Seal();
        if ok { disk := safe; }
        dirty := false;
      }
    }

    method Seal() returns (safe: Data)
      ensures safe == Sealed(cipher, data)
    {
      safe := data;
      for i := 0 to |SENSITIVE_KEYS|
        invariant safe == OnKeys(data, SENSITIVE_KEYS[..i], v => SealValue(cipher, v))
      {
        assert SENSITIVE_KEYS[..i + 1][..i] == SENSITIVE_KEYS[..i];
        var k := SENSITIVE_KEYS[i];
        if k in safe && safe[k].Text? && safe[k].s != "" && !cipher.isEncrypted(safe[k].s) {
          safe := safe[k := Text(cipher.encrypt(safe[k].s))];
        }
      }
      assert SENSITIVE_KEYS[..|SENSITIVE_KEYS|] == SENSITIVE_KEYS;
    }
  }
}
