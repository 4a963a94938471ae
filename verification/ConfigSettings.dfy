// What a setter leaves in the configuration and what reaches the file: a key holds
// what was set, the others stay, and a sensitive text is written encrypted.

module ConfigSettings {
  import opened ConfigStore
  import opened ConfigRuns

  // ------------------------------------------------------------------- setting

  /** A key that was set holds its value and the update time is this one; nothing else changes. */
  lemma SetSays(d: Data, key: string, v: Value, now: string, other: string)
    ensures
      var after := SetOne(d, key, v, now);
      && after["updated_at"] == Text(now)
      && (key != "updated_at" ==> key in after && after[key] == v)
      && (other != key && other != "updated_at" ==>
           (other in after <==> other in d) && (other in d ==> after[other] == d[other]))
  {
  }

  /** Many keys at once: those with a name and a value that can be stored are set, the others stay. */
  lemma SetManySays(d: Data, m: Data, now: string, key: string)
    ensures
      var after := SetAll(d, m, now);
      && "updated_at" in after && after["updated_at"] == Text(now)
      && (key != "updated_at" ==>
           if key in m && key != "" && m[key] != Unstorable then key in after && after[key] == m[key]
           else (key in after <==> key in d) && (key in d ==> after[key] == d[key]))
  {
  }

  /** The settings as a list of accepted writes leaves them: the last one of each key. */
  function LastSet(writes: seq<(string, Value)>, start: Data, key: string): (bool, Value)
  {
    if writes == [] then (if key in start then (true, start[key]) else (false, Unstorable))
    else if writes[|writes| - 1].0 == key then (true, writes[|writes| - 1].1)
    else LastSet(writes[..|writes| - 1], start, key)
  }

  function WriteAll(writes: seq<(string, Value)>, start: Data, now: string): Data
  {
    if writes == [] then start
    else
      var w := writes[|writes| - 1];
      SetOne(WriteAll(writes[..|writes| - 1], start, now), w.0, w.1, now)
  }

  /** After any writes every key but the update time holds what was last written to it, or what was there. */
  lemma {:induction false} LastWriteHolds(writes: seq<(string, Value)>, start: Data, now: string, key: string)
    requires key != "updated_at"
    ensures
      var after := WriteAll(writes, start, now);
      LastSet(writes, start, key) == if key in after then (true, after[key]) else (false, Unstorable)
  {
    if writes != [] {
      var n := |writes| - 1;
      LastWriteHolds(writes[..n], start, now, key);
      SetSays(WriteAll(writes[..n], start, now), writes[n].0, writes[n].1, now, key);
    }
  }

  // --------------------------------------------------------------- on the disk

  /** The four settings that hold secrets. */
  predicate Secret(key: string)
  {
    key == "proxy_api_key" || key == "coze_api_token" || key == "cf_api_token" || key == "cf_zone_id"
  }

  /** A text that has to be encrypted before it is written. */
  predicate Plaintext(c: Cipher, v: Value)
  {
    match v
    case Text(s) => |s| > 0 && !c.isEncrypted(s)
    case _ => false
  }

  /** A save writes every setting as it is, but a secret in plain text encrypted. */
  lemma SavedSays(c: Cipher, d: Data, key: string)
    ensures key in Sealed(c, d) <==> key in d
    ensures key in d ==>
      Sealed(c, d)[key] == if Secret(key) && Plaintext(c, d[key]) then Text(c.encrypt(d[key].s)) else d[key]
  {
    SensitiveDistinct();
    OnKeysAt(d, SENSITIVE_KEYS, v => SealValue(c, v), key);
  }

  /** A load takes every setting as it is, but a secret that is encrypted in plain text. */
  lemma LoadedSays(c: Cipher, d: Data, key: string)
    ensures key in Opened(c, d) <==> key in d
    ensures key in d ==>
      Opened(c, d)[key] ==
        if Secret(key) && d[key].Text? && d[key].s != "" && !Plaintext(c, d[key]) then Text(c.decrypt(d[key].s))
        else d[key]
  {
    SensitiveDistinct();
    OnKeysAt(d, SENSITIVE_KEYS, v => OpenValue(c, v), key);
  }

  /** No secret is in the file in plain text. */
  ghost predicate NoPlaintext(c: Cipher, disk: Data)
  {
    forall key :: key in disk && Secret(key) ==> !Plaintext(c, disk[key])
  }

  /** Encrypting works: what it makes of a text counts as encrypted. */
  ghost predicate Encrypts(c: Cipher)
  {
    forall s :: |s| > 0 && !c.isEncrypted(s) ==> c.isEncrypted(c.encrypt(s))
  }

  lemma SealedHasNoPlaintext(c: Cipher, d: Data)
    requires Encrypts(c)
    ensures NoPlaintext(c, Sealed(c, d))
  {
    forall key | key in Sealed(c, d) && Secret(key) ensures !Plaintext(c, Sealed(c, d)[key]) {
      SavedSays(c, d, key);
    }
  }

  /** In every interleaving of setters and writer, whatever is set: a file without plain secrets never gets one. */
  lemma FileKeepsSecrets(c: Cipher, disk: Data, ops: seq<Op>)
    requires Encrypts(c) && NoPlaintext(c, disk)
    ensures NoPlaintext(c, Run(Start(c, disk), c, ops).shared.disk)
  {
    var s := Run(Start(c, disk), c, ops);
    RunKeepsInv(c, disk, ops);
    if s.saved > 0 { SealedHasNoPlaintext(c, s.history[s.saved]); }
  }
}
