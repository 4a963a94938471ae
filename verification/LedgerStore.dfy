// The ledger in the key-value store: what each key serialises to, one flush of
// the keys marked dirty, and rebuilding a ledger from a store read in key order.

module LedgerStore {
  import opened Wrappers
  import opened ByteText
  import opened Ledgers
  import Sorting

  /** A stored value, decoded; Corrupt stands for text that does not unmarshal. */
  datatype Blob =
    | IdentityBlob(peer: string, seqNo: nat, pub: string, priv: string)
    | RecordBlob(kind: Kind, record: Record)
    | TxBlob(tx: Transaction)
    | Corrupt

  datatype WriteError = NotInMemory(key: string) | NotEncodable(key: string) | CommitFailed

  datatype LoadError = BadIdentity | IdentityMissing

  type Store = map<string, Blob>

  function Find(s: Store, key: string): Option<Blob>
  {
    if key in s then Some(s[key]) else None
  }

  /** The value a key has in memory, None when nothing is there. */
  function Marshal(l: Ledger, key: string): Option<Blob>
  {
    ValueAt(l, Parse(key))
  }

  function ValueAt(l: Ledger, t: Target): Option<Blob>
  {
    match t
    case Identity => Some(IdentityBlob(l.peer, l.seqNo, l.pub, l.priv))
    case RecordAt(k, id) => if id in l.Table(k) then Some(RecordBlob(k, l.Table(k)[id])) else None
    case TxAt(id) => if id in l.txIndex then Some(TxBlob(l.txIndex[id])) else None
    case Unknown => None
  }

  function TableKeys(l: Ledger, k: Kind): set<string>
  {
    set id | id in l.Table(k) :: Key(RecordAt(k, id))
  }

  function TxKeys(l: Ledger): set<string>
  {
    set t | t in l.txs :: Key(TxAt(t.id))
  }

  /** Everything there is to write. */
  function AllKeys(l: Ledger): set<string>
  {
    {IDENTITY_KEY} + TableKeys(l, Contribution) + TableKeys(l, Trust) + TableKeys(l, Claim) + TableKeys(l, Penalty)
      + TxKeys(l)
  }

  predicate InMemory(l: Ledger, keys: set<string>)
  {
    forall k :: k in keys ==> Marshal(l, k).Some?
  }

  predicate Encodable(l: Ledger, keys: set<string>, encodes: Blob -> bool)
    requires InMemory(l, keys)
  {
    forall k :: k in keys ==> encodes(Marshal(l, k).value)
  }

  function Image(l: Ledger, keys: set<string>): Store
    requires InMemory(l, keys)
  {
    map k | k in keys :: Marshal(l, k).value
  }

  // --------------------------------------------------------------- saving

  class BboltHandle {
    var bucket: Store

    constructor ()
      ensures bucket == map[]
    {
      bucket := map[];
    }

    /** One write transaction: all of it or nothing. */
    method PutAll(puts: Store, commits: bool) returns (ok: bool)
      modifies this
      ensures ok == commits
      ensures bucket == if ok then old(bucket) + puts else old(bucket)
    {
      if commits { bucket := bucket + puts; }
      ok := commits;
    }

    /** The keys of the bucket in cursor order. */
    method Cursor() returns (keys: seq<string>)
      ensures IsCursor(bucket, keys)
    {
      var rest := bucket.Keys;
      var found: seq<string> := [];
      while rest != {}
        invariant Sorting.NoRepeats(found)
        invariant forall k :: k in found <==> k in bucket && k !in rest
        invariant rest <= bucket.Keys
        decreases rest
      {
        var k :| k in rest;
        rest := rest - {k};
        found := found + [k];
      }
      LessIsWeakOrder();
      keys := Sorting.SortBy(found, Less);
      SortedIsCursor(bucket, found, keys);
    }
  }

  /** keys lists the bucket's keys in increasing byte order. */
  ghost predicate IsCursor(bucket: Store, keys: seq<string>)
  {
    Sorting.Increasing(keys, Less) && forall k :: k in keys <==> k in bucket
  }

  lemma LessIsWeakOrder()
    ensures Sorting.WeakOrder(Less)
    ensures forall x, y :: Less(x, y) ==> !Less(y, x)
  {
    forall x, y ensures Less(x, y) ==> !Less(y, x) { LessTotal(x, y); }
    forall x, y, z | !Less(x, y) && !Less(y, z) ensures !Less(x, z) {
      LessTotal(x, y);
      LessTotal(y, z);
      LessTotal(x, z);
      if Less(y, x) && Less(z, y) { LessTransitive(z, y, x); }
    }
  }

  lemma SortedIsCursor(bucket: Store, found: seq<string>, keys: seq<string>)
    requires Sorting.SortedBy(keys, Less) && multiset(keys) == multiset(found)
    requires Sorting.NoRepeats(found) && forall k :: k in found <==> k in bucket
    ensures IsCursor(bucket, keys)
  {
    Sorting.SameElements(keys, found);
    forall i, j | 0 <= i < j < |keys| ensures Less(keys[i], keys[j]) {
      LessTotal(keys[i], keys[j]);
      if keys[i] == keys[j] {
        Sorting.NoRepeatsCount(found, keys[i]);
        TwiceCounts(keys, i, j);
      }
    }
  }

  lemma TwiceCounts(s: seq<string>, i: nat, j: nat)
    requires i < j < |s| && s[i] == s[j]
    ensures multiset(s)[s[i]] >= 2
  {
    assert s == s[..i] + [s[i]] + s[i + 1..j] + [s[j]] + s[j + 1..];
  }

  /** Serialise the keys one by one; the first failure ends it. */
  method SerializeKeys(g: GossipLedger, keys: set<string>, encodes: Blob -> bool) returns (r: Result<Store, WriteError>)
    ensures r.Success? <==> InMemory(g.State(), keys) && Encodable(g.State(), keys, encodes)
    ensures r.Success? ==> r.value == Image(g.State(), keys)
  {
    var rest := keys;
    var puts: Store := map[];
    while rest != {}
      invariant rest <= keys
      invariant InMemory(g.State(), keys - rest)
      invariant Encodable(g.State(), keys - rest, encodes)
      invariant puts == Image(g.State(), keys - rest)
      decreases rest
    {
      var k :| k in rest;
      var v := Marshal(g.State(), k);
      if v.None? {
        return Failure(NotInMemory(k));
      }
      if !encodes(v.value) {
        return Failure(NotEncodable(k));
      }
      puts := puts[k := v.value];
      rest := rest - {k};
    }
    assert keys - rest == keys;
    r := Success(puts);
  }

  /** One flush with nothing else running: dirty keys go out in one transaction or stay dirty. */
  method SaveBbolt(g: GossipLedger, h: BboltHandle, encodes: Blob -> bool, commits: bool)
      returns (r: Result<(), WriteError>)
    modifies g, h
    ensures r.Success? <==>
      || old(g.dirty) == {}
      || (&& InMemory(old(g.State()), old(g.dirty))
          && Encodable(old(g.State()), old(g.dirty), encodes)
          && commits)
    ensures r.Success? && old(g.dirty) != {} ==>
      && InMemory(old(g.State()), old(g.dirty))
      && h.bucket == old(h.bucket) + Image(old(g.State()), old(g.dirty))
    ensures r.Failure? || old(g.dirty) == {} ==> h.bucket == old(h.bucket)
    ensures g.State() == if r.Success? then old(g.State()).(dirty := {}) else old(g.State())
  {
    if g.dirty == {} { return Success(()); }
    var pending := g.dirty;
    g.dirty := {};
    DirtyIrrelevant(old(g.State()), pending);
    var puts := SerializeKeys(g, pending, encodes);
    if puts.Failure? {
      g.dirty := g.dirty + pending;
      return Failure(puts.error);
    }
    var ok := h.PutAll(puts.value, commits);
    if !ok {
      g.dirty := g.dirty + pending;
      return Failure(CommitFailed);
    }
    r := Success(());
  }

  /** Write everything, dirty or not. */
  method WriteAllBbolt(g: GossipLedger, h: BboltHandle, encodes: Blob -> bool, commits: bool)
      returns (r: Result<(), WriteError>)
    modifies h
    ensures r.Success? <==>
      && InMemory(g.State(), AllKeys(g.State()))
      && Encodable(g.State(), AllKeys(g.State()), encodes)
      && commits
    ensures r.Success? ==> h.bucket == old(h.bucket) + Image(g.State(), AllKeys(g.State()))
    ensures r.Failure? ==> h.bucket == old(h.bucket)
  {
    var puts := SerializeKeys(g, AllKeys(g.State()), encodes);
    if puts.Failure? { return Failure(puts.error); }
    var ok := h.PutAll(puts.value, commits);
    r := if ok then Success(()) else Failure(CommitFailed);
  }

  lemma DirtyIrrelevant(l: Ledger, keys: set<string>)
    ensures forall k :: Marshal(l.(dirty := {}), k) == Marshal(l, k)
    ensures InMemory(l, keys) ==> Image(l.(dirty := {}), keys) == Image(l, keys)
  {
  }

  // -------------------------------------------------------------- loading

  datatype Loading = Loading(ledger: Ledger, identity: Option<Blob>)

  const BLANK: Loading := Loading(Fresh("", "", ""), None)

  /** One cursor entry. Unreadable records are skipped, an unreadable identity is fatal. */
  function LoadEntry(x: Loading, key: string, v: Blob): Result<Loading, LoadError>
  {
    match Parse(key)
    case Identity => if v.IdentityBlob? then Success(x.(identity := Some(v))) else Failure(BadIdentity)
    case RecordAt(k, _) =>
      if v.RecordBlob? && v.kind == k
      then Success(x.(ledger := x.ledger.WithTable(k, x.ledger.Table(k)[v.record.id := v.record])))
      else Success(x)
    case TxAt(_) => Success(if v.TxBlob? then x.(ledger := LoadTx(x.ledger, v.tx)) else x)
    case Unknown => Success(x)
  }

  function LoadTx(l: Ledger, t: Transaction): Ledger
  {
    l.(txs := l.txs + [t],
       txIndex := l.txIndex[t.id := t],
       daily := if t.kind == "contribution" then Bump(l.daily, DailyKey(t.node, t.day), t.amount) else l.daily)
  }

  function Scanned(bucket: Store, keys: seq<string>): Result<Loading, LoadError>
    requires forall k :: k in keys ==> k in bucket
  {
    if keys == [] then Success(BLANK)
    else
      var n := |keys| - 1;
      match Scanned(bucket, keys[..n])
      case Failure(e) => Failure(e)
      case Success(x) => LoadEntry(x, keys[n], bucket[keys[n]])
  }

  function Finished(x: Loading): Result<Ledger, LoadError>
  {
    match x.identity
    case Some(IdentityBlob(peer, seqNo, pub, priv)) =>
      Success(x.ledger.(peer := peer, seqNo := seqNo, pub := pub, priv := priv))
    case _ => Failure(IdentityMissing)
  }

  function Loaded(bucket: Store, keys: seq<string>): Result<Ledger, LoadError>
    requires forall k :: k in keys ==> k in bucket
  {
    match Scanned(bucket, keys)
    case Failure(e) => Failure(e)
    case Success(x) => Finished(x)
  }

  lemma {:induction false} FailureStays(bucket: Store, keys: seq<string>, i: nat)
    requires (forall k :: k in keys ==> k in bucket) && i <= |keys|
    requires Scanned(bucket, keys[..i]).Failure?
    ensures Scanned(bucket, keys) == Scanned(bucket, keys[..i])
    decreases |keys|
  {
    if i == |keys| {
      assert keys[..i] == keys;
    } else {
      var n := |keys| - 1;
      assert keys[..n][..i] == keys[..i];
      FailureStays(bucket, keys[..n], i);
    }
  }

  /** Rebuild a ledger from the store. */
  method LoadLedgerBbolt(h: BboltHandle, env: Env) returns (r: Result<GossipLedger, LoadError>)
    ensures forall keys | IsCursor(h.bucket, keys) ::
      match r
      case Success(g) => Loaded(h.bucket, keys) == Success(g.State()) && g.env == env
      case Failure(e) => Loaded(h.bucket, keys) == Failure(e)
  {
    var keys := h.Cursor();
    forall other | IsCursor(h.bucket, other) ensures other == keys {
      LessIsWeakOrder();
      Sorting.IncreasingUnique(other, keys, Less);
    }
    var x := BLANK;
    for i := 0 to |keys|
      invariant Scanned(h.bucket, keys[..i]) == Success(x)
    {
      assert keys[..i + 1][..i] == keys[..i];
      var step := LoadEntry(x, keys[i], h.bucket[keys[i]]);
      if step.Failure? {
        FailureStays(h.bucket, keys, i + 1);
        return Failure(step.error);
      }
      x := step.value;
    }
    assert keys[..|keys|] == keys;
    var done := Finished(x);
    if done.Failure? { return Failure(done.error); }
    var g := new GossipLedger.Restore(env, done.value);
    r := Success(g);
  }
}
