// What survives a reload of the contribution ledger: everything except,
// sometimes, the order of the transactions, because the store hands them back
// in the byte order of keys whose sequence number is not zero-padded.

module LedgerReload {
  import opened Wrappers
  import opened ByteText
  import opened Ledgers
  import opened LedgerStore
  import opened LedgerSums
  import opened LedgerRuns
  import opened LedgerChain
  import opened Hashing
  import Sorting

  predicate TxLess(t: Transaction, u: Transaction)
  {
    Less(t.id, u.id)
  }

  ghost predicate ScanValues(store: Store, ks: seq<string>, l: Ledger)
    requires forall k :: k in ks ==> k in store
  {
    forall t: Target :: t.RecordAt? || t.TxAt? ==>
      ValueAt(l, t) == if Key(t) in ks then Some(store[Key(t)]) else None
  }

  /** What has been rebuilt once the keys ks were read. */
  ghost predicate ScanInv(store: Store, ks: seq<string>, x: Loading)
    requires forall k :: k in ks ==> k in store
  {
    && ScanValues(store, ks, x.ledger)
    && x.identity == (if IDENTITY_KEY in ks then Some(store[IDENTITY_KEY]) else None)
    && x.ledger.dirty == {} && x.ledger.daily == Rebuilt(x.ledger.txs)
    && TxsListed(x.ledger)
    && Sorting.Increasing(x.ledger.txs, TxLess)
  }

  ghost predicate TxsListed(l: Ledger)
  {
    && (forall id :: id in l.txIndex ==> l.txIndex[id].id == id && l.txIndex[id] in l.txs)
    && (forall t :: t in l.txs ==> t.id in l.txIndex && l.txIndex[t.id] == t)
  }

  ghost predicate Readable(store: Store)
  {
    && (forall key :: key in store ==> EntryOk(key, store[key]))
    && IDENTITY_KEY in store
  }

  lemma KeyInMore(ks: seq<string>, key: string, t: Target)
    requires t != Unknown
    ensures Key(t) in ks + [key] <==> Key(t) in ks || Parse(key) == t
  {
    KeyIffTarget(key, t);
  }

  function WithRecord(l: Ledger, k: Kind, r: Record): Ledger
  {
    l.WithTable(k, l.Table(k)[r.id := r])
  }

  lemma ValueAfterRecord(l: Ledger, k: Kind, r: Record, t: Target)
    ensures ValueAt(WithRecord(l, k, r), t) == if t == RecordAt(k, r.id) then Some(RecordBlob(k, r)) else ValueAt(l, t)
    ensures WithRecord(l, k, r).txs == l.txs && WithRecord(l, k, r).txIndex == l.txIndex
    ensures WithRecord(l, k, r).dirty == l.dirty && WithRecord(l, k, r).daily == l.daily
  {
  }

  lemma ScanRecordStep(store: Store, ks: seq<string>, key: string, l: Ledger, k: Kind, r: Record)
    requires (forall k :: k in ks ==> k in store) && ScanValues(store, ks, l)
    requires key in store && store[key] == RecordBlob(k, r) && Parse(key) == RecordAt(k, r.id)
    ensures ScanValues(store, ks + [key], WithRecord(l, k, r))
  {
    forall t: Target | t.RecordAt? || t.TxAt?
      ensures ValueAt(WithRecord(l, k, r), t) == if Key(t) in ks + [key] then Some(store[Key(t)]) else None
    {
      KeyInMore(ks, key, t);
      ValueAfterRecord(l, k, r, t);
      KeyIffTarget(key, t);
    }
  }

  lemma ScanRecord(store: Store, ks: seq<string>, key: string, x: Loading)
    requires Readable(store) && key in store && Parse(key).RecordAt?
    requires (forall k :: k in ks ==> k in store) && ScanInv(store, ks, x)
    ensures LoadEntry(x, key, store[key]).Success?
    ensures ScanInv(store, ks + [key], LoadEntry(x, key, store[key]).value)
  {
    assert EntryOk(key, store[key]);
    var k, r := store[key].kind, store[key].record;
    ScanRecordStep(store, ks, key, x.ledger, k, r);
    ValueAfterRecord(x.ledger, k, r, Identity);
    KeyIffTarget(key, Identity);
    assert LoadEntry(x, key, store[key]).value == x.(ledger := WithRecord(x.ledger, k, r));
  }

  lemma TxKeyOrder(a: string, b: string)
    requires Less(Key(TxAt(a)), Key(TxAt(b)))
    ensures Less(a, b)
  {
    LessUnderPrefix(TX_PREFIX, a, b);
  }

  lemma ListedMore(l: Ledger, t: Transaction)
    requires TxsListed(l) && t.id !in l.txIndex
    ensures TxsListed(LoadTx(l, t))
  {
    var after := LoadTx(l, t);
    assert after.txs == l.txs + [t];
  }

  lemma IncreasingMore(l: Ledger, ks: seq<string>, t: Transaction)
    requires Sorting.Increasing(l.txs, TxLess)
    requires forall u :: u in l.txs ==> Key(TxAt(u.id)) in ks
    requires forall k :: k in ks ==> Less(k, Key(TxAt(t.id)))
    ensures Sorting.Increasing(l.txs + [t], TxLess)
  {
    forall i | 0 <= i < |l.txs| ensures TxLess(l.txs[i], t) {
      TxKeyOrder(l.txs[i].id, t.id);
    }
  }

  lemma TxKeysSeen(store: Store, ks: seq<string>, x: Loading)
    requires (forall k :: k in ks ==> k in store) && ScanInv(store, ks, x)
    ensures forall u :: u in x.ledger.txs ==> Key(TxAt(u.id)) in ks
    ensures forall id :: id in x.ledger.txIndex ==> Key(TxAt(id)) in ks
  {
    forall id | id in x.ledger.txIndex ensures Key(TxAt(id)) in ks {
      assert ValueAt(x.ledger, TxAt(id)).Some?;
    }
  }

  lemma ScanTx(store: Store, ks: seq<string>, key: string, x: Loading)
    requires Readable(store) && key in store && Parse(key).TxAt?
    requires (forall k :: k in ks ==> k in store) && ScanInv(store, ks, x)
    requires forall k :: k in ks ==> Less(k, key)
    ensures LoadEntry(x, key, store[key]).Success?
    ensures ScanInv(store, ks + [key], LoadEntry(x, key, store[key]).value)
  {
    assert EntryOk(key, store[key]);
    ParseInverse(key);
    ScanTxStep(store, ks, key, x, store[key].tx);
  }

  lemma ScanTxStep(store: Store, ks: seq<string>, key: string, x: Loading, tx: Transaction)
    requires (forall k :: k in ks ==> k in store) && ScanInv(store, ks, x)
    requires key in store && store[key] == TxBlob(tx) && Parse(key) == TxAt(tx.id) && key == Key(TxAt(tx.id))
    requires forall k :: k in ks ==> Less(k, key)
    ensures ScanInv(store, ks + [key], x.(ledger := LoadTx(x.ledger, tx)))
  {
    ScanTxLists(store, ks, key, x, tx);
    ScanTxValues(store, ks, key, x, tx);
    RebuiltMore(x.ledger, tx);
    KeyIffTarget(key, Identity);
  }

  lemma RebuiltMore(l: Ledger, tx: Transaction)
    requires l.daily == Rebuilt(l.txs)
    ensures LoadTx(l, tx).daily == Rebuilt(LoadTx(l, tx).txs) && LoadTx(l, tx).dirty == l.dirty
  {
    assert (l.txs + [tx])[..|l.txs|] == l.txs;
  }

  lemma ScanTxLists(store: Store, ks: seq<string>, key: string, x: Loading, t: Transaction)
    requires (forall k :: k in ks ==> k in store) && ScanInv(store, ks, x)
    requires key == Key(TxAt(t.id)) && forall k :: k in ks ==> Less(k, key)
    ensures TxsListed(LoadTx(x.ledger, t)) && Sorting.Increasing(LoadTx(x.ledger, t).txs, TxLess)
  {
    TxKeysSeen(store, ks, x);
    LessTotal(key, key);
    ListedMore(x.ledger, t);
    IncreasingMore(x.ledger, ks, t);
  }

  lemma ScanTxValues(store: Store, ks: seq<string>, key: string, x: Loading, tx: Transaction)
    requires (forall k :: k in ks ==> k in store) && ScanInv(store, ks, x)
    requires key in store && store[key] == TxBlob(tx) && Parse(key) == TxAt(tx.id) && key == Key(TxAt(tx.id))
    ensures ScanValues(store, ks + [key], LoadTx(x.ledger, tx))
  {
    forall t: Target | t.RecordAt? || t.TxAt?
      ensures ValueAt(LoadTx(x.ledger, tx), t) == if Key(t) in ks + [key] then Some(store[Key(t)]) else None
    {
      KeyInMore(ks, key, t);
      ValueAfterLoadTx(x.ledger, tx, t);
    }
  }

  lemma ValueAfterLoadTx(l: Ledger, t: Transaction, target: Target)
    requires target.RecordAt? || target.TxAt?
    ensures ValueAt(LoadTx(l, t), target) == if target == TxAt(t.id) then Some(TxBlob(t)) else ValueAt(l, target)
  {
    assert forall k: Kind :: LoadTx(l, t).Table(k) == l.Table(k);
  }

  lemma ScanIdentity(store: Store, ks: seq<string>, key: string, x: Loading)
    requires Readable(store) && key in store && Parse(key).Identity?
    requires (forall k :: k in ks ==> k in store) && ScanInv(store, ks, x)
    ensures LoadEntry(x, key, store[key]).Success?
    ensures ScanInv(store, ks + [key], LoadEntry(x, key, store[key]).value)
  {
    ParseInverse(key);
    forall t: Target | t.RecordAt? || t.TxAt?
      ensures Key(t) in ks + [key] <==> Key(t) in ks
    {
      KeyInMore(ks, key, t);
    }
  }

  lemma ScanEntry(store: Store, ks: seq<string>, key: string, x: Loading)
    requires Readable(store) && key in store
    requires (forall k :: k in ks ==> k in store) && ScanInv(store, ks, x)
    requires forall k :: k in ks ==> Less(k, key)
    ensures LoadEntry(x, key, store[key]).Success?
    ensures ScanInv(store, ks + [key], LoadEntry(x, key, store[key]).value)
  {
    assert EntryOk(key, store[key]);
    match Parse(key)
    case Identity => ScanIdentity(store, ks, key, x);
    case RecordAt(_, _) => ScanRecord(store, ks, key, x);
    case TxAt(_) => ScanTx(store, ks, key, x);
  }

  ghost predicate ScanDone(store: Store, ks: seq<string>)
    requires forall k :: k in ks ==> k in store
  {
    Scanned(store, ks).Success? && ScanInv(store, ks, Scanned(store, ks).value)
  }

  lemma ScanMore(store: Store, ks: seq<string>, key: string)
    requires Readable(store) && key in store
    requires (forall k :: k in ks ==> k in store) && ScanDone(store, ks)
    requires forall k :: k in ks ==> Less(k, key)
    ensures ScanDone(store, ks + [key])
  {
    ScanEntry(store, ks, key, Scanned(store, ks).value);
    assert (ks + [key])[..|ks|] == ks;
  }

  lemma {:induction false} ScanFinds(store: Store, ks: seq<string>)
    requires Readable(store) && (forall k :: k in ks ==> k in store) && Sorting.Increasing(ks, Less)
    ensures ScanDone(store, ks)
  {
    if ks != [] {
      var n := |ks| - 1;
      ScanFinds(store, ks[..n]);
      ScanMore(store, ks[..n], ks[n]);
      assert ks[..n] + [ks[n]] == ks;
    } else {
      ScanNothing(store);
    }
  }

  lemma ScanNothing(store: Store)
    ensures ScanInv(store, [], BLANK)
  {
    assert forall k: Kind :: BLANK.ledger.Table(k) == map[];
  }

  /** Memory and store agree on every key. */
  ghost predicate Persisted(l: Ledger, store: Store)
  {
    forall key :: Find(store, key) == Marshal(l, key)
  }

  lemma FinishedReflects(store: Store, peer: string, keys: seq<string>, x: Loading)
    requires StoreOk(store, peer) && (forall k :: k in keys <==> k in store) && ScanInv(store, keys, x)
    ensures Finished(x).Success?
    ensures
      var l := Finished(x).value;
      && ValueAt(l, Identity) == Some(store[IDENTITY_KEY])
      && (forall t: Target :: t.RecordAt? || t.TxAt? ==> ValueAt(l, t) == Find(store, Key(t)))
      && l.txs == x.ledger.txs && l.txIndex == x.ledger.txIndex && l.daily == x.ledger.daily
      && l.dirty == {} && l.peer == peer && l.seqNo == store[IDENTITY_KEY].seqNo
  {
    assert x.identity == Some(store[IDENTITY_KEY]);
    var l := Finished(x).value;
    forall t: Target | t.RecordAt? || t.TxAt? ensures ValueAt(l, t) == Find(store, Key(t)) {
      assert ValueAt(l, t) == ValueAt(x.ledger, t) by {
        assert forall k: Kind :: l.Table(k) == x.ledger.Table(k);
      }
    }
  }

  /** A consistent store always loads, and the result is what the store says. */
  lemma LoadReflectsStore(store: Store, peer: string, keys: seq<string>)
    requires StoreOk(store, peer) && IsCursor(store, keys)
    ensures Loaded(store, keys).Success?
    ensures
      var l := Loaded(store, keys).value;
      && Persisted(l, store) && LedgerOk(l)
      && l.peer == peer && l.dirty == {}
      && Sorting.Increasing(l.txs, TxLess)
  {
    ScanFinds(store, keys);
    var x := Scanned(store, keys).value;
    FinishedReflects(store, peer, keys, x);
    var l := Finished(x).value;
    LoadedPersisted(l, store);
    LoadedWellFormed(l, store);
    RebuiltMatches(l.txs);
    forall id | id in l.txIndex ensures IdUpTo(l.peer, l.seqNo, id) {
      assert ValueAt(l, TxAt(id)).Some?;
      assert Key(TxAt(id)) in store;
    }
  }

  lemma LoadedPersisted(l: Ledger, store: Store)
    requires Readable(store) && ValueAt(l, Identity) == Some(store[IDENTITY_KEY])
    requires forall t: Target :: t.RecordAt? || t.TxAt? ==> ValueAt(l, t) == Find(store, Key(t))
    ensures Persisted(l, store)
  {
    forall key ensures Find(store, key) == Marshal(l, key) {
      if Parse(key) != Unknown { ParseInverse(key); }
      if key in store { assert EntryOk(key, store[key]); }
    }
  }

  lemma LoadedWellFormed(l: Ledger, store: Store)
    requires Readable(store) && TxsListed(l) && Sorting.Increasing(l.txs, TxLess)
    requires forall t: Target :: t.RecordAt? || t.TxAt? ==> ValueAt(l, t) == Find(store, Key(t))
    ensures WellFormed(l)
  {
    forall k: Kind, id | id in l.Table(k) ensures l.Table(k)[id].id == id {
      var t := RecordAt(k, id);
      ParseKey(t);
      assert ValueAt(l, t) == Find(store, Key(t));
      assert EntryOk(Key(t), store[Key(t)]);
    }
    forall i, j | 0 <= i < j < |l.txs| ensures l.txs[i].id != l.txs[j].id {
      assert TxLess(l.txs[i], l.txs[j]);
      LessTotal(l.txs[i].id, l.txs[j].id);
    }
  }

  // -------------------------------------------------------- whole runs

  lemma CallKeepsInv(s: System, l: Ledger)
    requires Inv(s) && Covers(s.l, l) && LedgerOk(l)
    ensures Inv(s.(l := l))
  {
    CallKeepsSafe(s, l);
  }

  lemma RecordStepKeepsInv(s: System, env: Env, k: Kind, r: Record, now: int)
    requires Inv(s)
    ensures Inv(RecordLocked(s, env, k, r, now))
  {
    RecordStepSafe(s, env, k, r, now);
    RecordOk(s.l, env, k, r, now);
    RecordCovers(s.l, env, k, r, now);
  }

  lemma AppendKeepsInv(s: System, t: Transaction)
    requires Inv(s) && t.id == TxId(s.l.peer, s.l.seqNo + 1)
    ensures Inv(s.(l := Appended(s.l, t)))
  {
    AppendCovers(s.l, t);
    AppendOk(s.l, t);
    CallKeepsInv(s, Appended(s.l, t));
  }

  lemma SyncKeepsInv(s: System, offer: Offer)
    requires Inv(s)
    ensures Inv(s.(l := SyncedAll(s.l, offer)))
  {
    SyncAllCovers(s.l, offer);
    CallKeepsInv(s, SyncedAll(s.l, offer));
  }

  lemma StoreAgainKeepsInv(s: System, r: Record)
    requires Inv(s)
    ensures Inv(StoreAgainStep(s, r))
  {
    StoreAgainSafe(s, r);
    PutWellFormed(s.l, Contribution, r);
  }

  lemma FillProofKeepsInv(s: System, id: string, proof: StorageProof)
    requires Inv(s)
    ensures Inv(FillStep(s, id, proof))
  {
    FillProofSafe(s, id, proof);
    if id in s.l.recs { FilledOk(s.l, id, proof); }
  }

  lemma DirtyOk(l: Ledger, dirty: set<string>)
    requires LedgerOk(l)
    ensures LedgerOk(l.(dirty := dirty))
  {
    assert forall k: Kind :: l.(dirty := dirty).Table(k) == l.Table(k);
  }

  lemma SwapKeepsInv(s: System, encodes: Blob -> bool)
    requires Inv(s)
    ensures Inv(SwapStep(s, encodes))
  {
    SwapSafe(s, encodes);
    DirtyOk(s.l, {});
    if s.flight.Idle? && SwapStep(s, encodes).flight.Writing? { SwapStoreOk(s, encodes); }
  }

  lemma CommitKeepsInv(s: System, ok: bool)
    requires Inv(s)
    ensures Inv(CommitStep(s, ok))
  {
    CommitSafe(s, ok);
  }

  lemma MergeBackKeepsInv(s: System)
    requires Inv(s)
    ensures Inv(MergeStep(s))
  {
    MergeBackSafe(s);
    DirtyOk(s.l, s.l.dirty + FlightKeys(s.flight));
  }

  lemma PersistedSafe(l: Ledger, store: Store)
    requires Persisted(l, store) && l.dirty == {}
    ensures Safe(System(l, store, Idle, multiset{}))
  {
  }

  lemma CrashKeepsInv(s: System, keys: seq<string>)
    requires Inv(s)
    ensures Inv(CrashStep(s, keys))
  {
    if IsCursor(s.store, keys) {
      LoadReflectsStore(s.store, s.l.peer, keys);
      PersistedSafe(Loaded(s.store, keys).value, s.store);
    }
  }

  lemma StepKeepsInv(s: System, env: Env, op: Op)
    requires Inv(s)
    ensures Inv(Step(s, env, op))
  {
    match op
    case RecordStep(k, r, now) => RecordStepKeepsInv(s, env, k, r, now);
    case FillProof(id, proof) => FillProofKeepsInv(s, id, proof);
    case StoreAgain(r) => StoreAgainKeepsInv(s, r);
    case SyncStep(offer) => SyncKeepsInv(s, offer);
    case AppendStep(k, node, amount, model, request, day) =>
      AppendKeepsInv(s, NewTransaction(s.l, env, k, node, amount, model, request, day));
    case Swap(encodes) => SwapKeepsInv(s, encodes);
    case Commit(ok) => CommitKeepsInv(s, ok);
    case MergeBack => MergeBackKeepsInv(s);
    case Crash(keys) => CrashKeepsInv(s, keys);
  }

  /** Write-back safety over every interleaving, failed commits and crashes included. */
  lemma {:induction false} RunKeepsInv(s: System, env: Env, ops: seq<Op>)
    requires Inv(s)
    ensures Inv(Run(s, env, ops))
  {
    if ops != [] {
      RunKeepsInv(s, env, ops[..|ops| - 1]);
      StepKeepsInv(Run(s, env, ops[..|ops| - 1]), env, ops[|ops| - 1]);
    }
  }

  /** The system right after a ledger was written in full to an empty bucket. */
  ghost predicate Started(s: System)
  {
    && LedgerOk(s.l) && s.l.dirty == {} && s.flight == Idle && s.racing == multiset{}
    && InMemory(s.l, AllKeys(s.l)) && s.store == Image(s.l, AllKeys(s.l))
  }

  lemma TableKeysParse(l: Ledger, k: Kind, key: string)
    ensures key in TableKeys(l, k) <==> Parse(key).RecordAt? && Parse(key).kind == k && Parse(key).id in l.Table(k)
  {
    if key in TableKeys(l, k) {
      var id :| id in l.Table(k) && key == Key(RecordAt(k, id));
      ParseKey(RecordAt(k, id));
    }
    if Parse(key).RecordAt? { ParseInverse(key); }
  }

  lemma TxKeysParse(l: Ledger, key: string)
    requires WellFormed(l)
    ensures key in TxKeys(l) <==> Parse(key).TxAt? && Parse(key).id in l.txIndex
  {
    if key in TxKeys(l) {
      var t :| t in l.txs && key == Key(TxAt(t.id));
      ParseKey(TxAt(t.id));
    }
    if Parse(key).TxAt? && Parse(key).id in l.txIndex {
      ParseInverse(key);
      assert l.txIndex[Parse(key).id] in l.txs;
    }
  }

  lemma AllKeysInMemory(l: Ledger, key: string)
    requires WellFormed(l)
    ensures key in AllKeys(l) <==> Marshal(l, key).Some?
  {
    KeyIffTarget(key, Identity);
    TableKeysParse(l, Contribution, key);
    TableKeysParse(l, Trust, key);
    TableKeysParse(l, Claim, key);
    TableKeysParse(l, Penalty, key);
    TxKeysParse(l, key);
  }

  lemma StartInv(s: System)
    requires Started(s)
    ensures Inv(s)
  {
    forall key ensures Find(s.store, key) == Marshal(s.l, key) {
      AllKeysInMemory(s.l, key);
    }
    PersistedStoreOk(s.l, s.store);
  }

  lemma PersistedStoreOk(l: Ledger, store: Store)
    requires LedgerOk(l) && Persisted(l, store)
    ensures StoreOk(store, l.peer)
  {
    ParseKey(Identity);
    assert Find(store, IDENTITY_KEY) == Marshal(l, IDENTITY_KEY);
    forall key | key in store ensures EntryOk(key, store[key]) {
      assert Find(store, key) == Marshal(l, key);
      if Parse(key).RecordAt? { assert Parse(key).id in l.Table(Parse(key).kind); }
    }
    forall id | Key(TxAt(id)) in store ensures IdUpTo(l.peer, l.seqNo, id) {
      ParseKey(TxAt(id));
      assert Find(store, Key(TxAt(id))) == Marshal(l, Key(TxAt(id)));
    }
  }

  lemma FreshStarts(peer: string, pub: string, priv: string)
    ensures
      var l := Fresh(peer, pub, priv);
      LedgerOk(l) && InMemory(l, AllKeys(l)) && Started(System(l, Image(l, AllKeys(l)), Idle, multiset{}))
  {
    var l := Fresh(peer, pub, priv);
    NothingMatches();
    assert forall k: Kind :: l.Table(k) == map[];
    forall key | key in AllKeys(l) ensures Marshal(l, key).Some? {
      AllKeysInMemory(l, key);
    }
  }

  // ------------------------------------------------ consequences for a run

  /** Serialising never meets a key that is not in memory: a flush can only fail to encode or commit. */
  lemma SwapFailsOnlyToEncode(start: System, env: Env, ops: seq<Op>, encodes: Blob -> bool)
    requires Started(start)
    ensures
      var s := Run(start, env, ops);
      && InMemory(s.l, s.l.dirty)
      && (s.l.dirty != {} && s.flight.Idle? ==>
           (SwapStep(s, encodes).flight.Writing? <==> Encodable(s.l, s.l.dirty, encodes)))
  {
    StartInv(start);
    RunKeepsInv(start, env, ops);
    DirtyInMemory(Run(start, env, ops));
  }

  lemma DirtyInMemory(s: System)
    requires Safe(s)
    ensures InMemory(s.l, s.l.dirty)
  {
    forall key | key in s.l.dirty ensures Marshal(s.l, key).Some? {
      assert key in s.l.dirty + FlightKeys(s.flight);
    }
  }

  // ------------------------------------------- why racing keys are excluded

  /** Filling in a proof outside the lock leaves a settled value stale, with nothing marked. */
  lemma RacingGoesStale(s: System, id: string, proof: StorageProof)
    requires Key(RecordAt(Contribution, id)) in s.racing && id in s.l.recs && s.l.recs[id].proof != proof
    requires Find(s.store, Key(RecordAt(Contribution, id))) == Marshal(s.l, Key(RecordAt(Contribution, id)))
    ensures
      var key := Key(RecordAt(Contribution, id));
      var next := FillStep(s, id, proof);
      && next.l.dirty == s.l.dirty && next.flight == s.flight && next.store == s.store
      && Find(next.store, key) != Marshal(next.l, key)
  {
    ParseKey(RecordAt(Contribution, id));
  }

  function EncodesAll(b: Blob): bool
  {
    true
  }

  /** A flush that falls between the two locked sections of RecordContribution. */
  function FlushBetween(r: Record, now: int, proof: StorageProof): seq<Op>
  {
    [RecordStep(Contribution, r, now), Swap(EncodesAll), Commit(true), FillProof(r.id, proof)]
  }

  lemma RunPrefix(s: System, env: Env, ops: seq<Op>, k: nat)
    requires k < |ops|
    ensures Run(s, env, ops[..k + 1]) == Step(Run(s, env, ops[..k]), env, ops[k])
  {
    assert ops[..k + 1][..k] == ops[..k];
  }

  /** After one recorded contribution and one flush, store and memory agree on its key again. */
  lemma FlushedRecord(s: System, env: Env, r: Record, now: int)
    requires Inv(s) && s.flight.Idle? && s.racing == multiset{} && r.id != ""
    requires env.contentId(Completed(s.l, env, Contribution, r, now)).Some?
    ensures
      var key := Key(RecordAt(Contribution, r.id));
      var after := Flushed(s, env, r, now);
      && after.l.dirty == {} && after.flight.Idle? && key in after.racing
      && r.id in after.l.recs && after.l.recs[r.id] == Completed(s.l, env, Contribution, r, now)
      && Find(after.store, key) == Marshal(after.l, key)
  {
    var key := Key(RecordAt(Contribution, r.id));
    var one := RecordLocked(s, env, Contribution, r, now);
    RecordStepKeepsInv(s, env, Contribution, r, now);
    DirtyInMemory(one);
    assert key in one.l.dirty;
    var two := SwapStep(one, EncodesAll);
    DirtyIrrelevant(one.l, one.l.dirty);
    assert two.flight == Writing(Image(one.l, one.l.dirty));
    assert Marshal(two.l, key) == Marshal(one.l, key);
  }

  /** The system when that flush is over. */
  function Flushed(s: System, env: Env, r: Record, now: int): System
  {
    CommitStep(SwapStep(RecordLocked(s, env, Contribution, r, now), EncodesAll), true)
  }

  /** The flush and the proof, once the record is stored. */
  lemma FlushThenProof(s: System, env: Env, ops: seq<Op>, one: System, id: string, proof: StorageProof)
    requires |ops| == 4 && ops[1] == Swap(EncodesAll) && ops[2] == Commit(true) && ops[3] == FillProof(id, proof)
    requires Run(s, env, ops[..1]) == one
    ensures Run(s, env, ops) == FillStep(CommitStep(SwapStep(one, EncodesAll), true), id, proof)
  {
    RunPrefix(s, env, ops, 1);
    RunPrefix(s, env, ops, 2);
    RunPrefix(s, env, ops, 3);
    assert ops[..4] == ops;
  }

  lemma FlushBetweenRuns(s: System, env: Env, r: Record, now: int, proof: StorageProof)
    ensures Run(s, env, FlushBetween(r, now, proof)) == FillStep(Flushed(s, env, r, now), r.id, proof)
  {
    var ops := FlushBetween(r, now, proof);
    RunPrefix(s, env, ops, 0);
    assert ops[..0] == [];
    FlushThenProof(s, env, ops, RecordLocked(s, env, Contribution, r, now), r.id, proof);
  }

  /** Such a run exists from every start: its end is idle with nothing dirty, yet the store is stale. */
  lemma StaleWhileRacing(start: System, env: Env, r: Record, now: int, proof: StorageProof)
    requires Started(start) && r.id != "" && proof != r.proof
    requires env.contentId(Completed(start.l, env, Contribution, r, now)).Some?
    ensures
      var s := Run(start, env, FlushBetween(r, now, proof));
      var key := Key(RecordAt(Contribution, r.id));
      && s.l.dirty == {} && s.flight.Idle? && key in s.racing
      && Find(s.store, key) != Marshal(s.l, key)
  {
    StartInv(start);
    FlushBetweenRuns(start, env, r, now, proof);
    FlushedRecord(start, env, r, now);
    RacingGoesStale(Flushed(start, env, r, now), r.id, proof);
  }

  predicate Pending(s: System, key: string)
  {
    key in s.l.dirty || key in FlightKeys(s.flight)
  }

  lemma CommitStores(s: System, key: string)
    requires Safe(s) && Pending(s, key) && key !in s.racing
    ensures Pending(CommitStep(s, true), key) || Find(CommitStep(s, true).store, key) == Marshal(s.l, key)
  {
    CommitSafe(s, true);
    if !Pending(CommitStep(s, true), key) { assert Settled(CommitStep(s, true), key); }
  }

  /** Only a successful commit takes a key off the list, and then the store has its value. */
  lemma PendingUntilCommitted(s: System, env: Env, op: Op, key: string)
    requires Inv(s) && Pending(s, key) && !op.Crash?
    ensures
      var next := Step(s, env, op);
      || Pending(next, key)
      || (op == Commit(true) && (key !in s.racing ==> Find(next.store, key) == Marshal(next.l, key)))
  {
    if op.Commit? {
      if op.ok && key !in s.racing { CommitStores(s, key); }
    } else {
      OtherStepsKeepPending(s, env, op, key);
    }
  }

  lemma OtherStepsKeepPending(s: System, env: Env, op: Op, key: string)
    requires Pending(s, key) && !op.Crash? && !op.Commit?
    ensures Pending(Step(s, env, op), key)
  {
    match op
    case RecordStep(k, r, now) => RecordCovers(s.l, env, k, r, now);
    case SyncStep(offer) => SyncAllCovers(s.l, offer);
    case Swap(encodes) => SwapKeepsPending(s, encodes, key);
    case _ =>
  }

  lemma SwapKeepsPending(s: System, encodes: Blob -> bool, key: string)
    requires Pending(s, key)
    ensures Pending(SwapStep(s, encodes), key)
  {
  }

  /** Nothing dirty, nothing in flight, nothing racing: the store is the memory. */
  predicate Quiet(s: System)
  {
    s.l.dirty == {} && s.flight.Idle? && s.racing == multiset{}
  }

  lemma QuietIsPersisted(start: System, env: Env, ops: seq<Op>)
    requires Started(start) && Quiet(Run(start, env, ops))
    ensures Persisted(Run(start, env, ops).l, Run(start, env, ops).store)
  {
    StartInv(start);
    RunKeepsInv(start, env, ops);
    var s := Run(start, env, ops);
    forall key ensures Find(s.store, key) == Marshal(s.l, key) {
      assert Settled(s, key);
    }
  }

  /** The daily counter equals the scan after any run, reloads included. */
  lemma DailyEqualsScan(start: System, env: Env, ops: seq<Op>)
    requires Started(start)
    ensures DailyMatches(Run(start, env, ops).l.daily, Run(start, env, ops).l.txs)
  {
    RunLedgerOk(start, env, ops);
  }

  /** So the daily lookup of a ledger in such a state is what scanning its transactions would give. */
  lemma GetDailyIsScan(start: System, env: Env, ops: seq<Op>, g: GossipLedger, node: string, day: Day)
    requires Started(start) && g.State() == Run(start, env, ops).l
    ensures g.GetDailyContributions(node, day) == Wrap64(Contributed(g.txs, node, day))
  {
    DailyEqualsScan(start, env, ops);
    assert Lookup(g.dailyContrib, DailyKey(node, day)) == Wrap64(Contributed(g.txs, node, day));
  }

  /** The next transaction id is unused after any run, even when a crash lost unsaved work. */
  lemma NextIdUnused(start: System, env: Env, ops: seq<Op>)
    requires Started(start)
    ensures NextUnused(Run(start, env, ops).l)
  {
    RunLedgerOk(start, env, ops);
    NewIdUnused(Run(start, env, ops).l);
  }

  predicate NextUnused(l: Ledger)
  {
    TxId(l.peer, l.seqNo + 1) !in l.txIndex
  }

  lemma RunLedgerOk(start: System, env: Env, ops: seq<Op>)
    requires Started(start)
    ensures LedgerOk(Run(start, env, ops).l)
  {
    StartInv(start);
    RunKeepsInv(start, env, ops);
  }

  // ---------------------------------------------------------- round trip

  lemma SameValuesSameTables(a: Ledger, b: Ledger, store: Store)
    requires Persisted(a, store) && Persisted(b, store)
    ensures a.recs == b.recs && a.trusts == b.trusts && a.claims == b.claims && a.penalties == b.penalties
    ensures a.txIndex == b.txIndex
    ensures a.peer == b.peer && a.seqNo == b.seqNo && a.pub == b.pub && a.priv == b.priv
  {
    forall t: Target | t != Unknown ensures ValueAt(a, t) == ValueAt(b, t) {
      ParseKey(t);
      assert Marshal(a, Key(t)) == Find(store, Key(t)) == Marshal(b, Key(t));
    }
    forall k: Kind ensures a.Table(k) == b.Table(k) {
      SameTable(a, b, k);
    }
    assert a.Table(Contribution) == b.Table(Contribution) && a.Table(Trust) == b.Table(Trust);
    assert a.Table(Claim) == b.Table(Claim) && a.Table(Penalty) == b.Table(Penalty);
    SameIndex(a, b);
    assert ValueAt(a, Identity) == ValueAt(b, Identity);
  }

  lemma SameTable(a: Ledger, b: Ledger, k: Kind)
    requires forall t: Target :: t != Unknown ==> ValueAt(a, t) == ValueAt(b, t)
    ensures a.Table(k) == b.Table(k)
  {
    forall id ensures id in a.Table(k) <==> id in b.Table(k)
              ensures id in a.Table(k) && id in b.Table(k) ==> a.Table(k)[id] == b.Table(k)[id]
    {
      assert ValueAt(a, RecordAt(k, id)) == ValueAt(b, RecordAt(k, id));
    }
  }

  lemma SameIndex(a: Ledger, b: Ledger)
    requires forall t: Target :: t != Unknown ==> ValueAt(a, t) == ValueAt(b, t)
    ensures a.txIndex == b.txIndex
  {
    forall id ensures id in a.txIndex <==> id in b.txIndex
              ensures id in a.txIndex && id in b.txIndex ==> a.txIndex[id] == b.txIndex[id]
    {
      assert ValueAt(a, TxAt(id)) == ValueAt(b, TxAt(id));
    }
  }

  lemma SameIndexPermutes(a: Ledger, b: Ledger)
    requires WellFormed(a) && WellFormed(b) && a.txIndex == b.txIndex
    ensures multiset(a.txs) == multiset(b.txs)
  {
    forall t ensures t in a.txs <==> t in b.txs {
      if t in a.txs { assert a.txIndex[t.id] == t; }
      if t in b.txs { assert b.txIndex[t.id] == t; }
    }
    Sorting.SameSetSameBag(a.txs, b.txs);
  }

  /** Everything a reload gives back, the transactions up to their order. */
  ghost predicate Restores(l: Ledger, back: Ledger)
  {
    && back.recs == l.recs && back.trusts == l.trusts && back.claims == l.claims && back.penalties == l.penalties
    && back.txIndex == l.txIndex && back.seqNo == l.seqNo
    && back.peer == l.peer && back.pub == l.pub && back.priv == l.priv
    && multiset(back.txs) == multiset(l.txs) && back.dirty == {}
    && (forall node, day: Day :: Lookup(back.daily, DailyKey(node, day)) == Lookup(l.daily, DailyKey(node, day)))
    && (forall node :: Balance(back.txs, node) == Balance(l.txs, node))
  }

  lemma RestoresFrom(l: Ledger, back: Ledger, store: Store)
    requires LedgerOk(l) && LedgerOk(back) && Persisted(l, store) && Persisted(back, store) && back.dirty == {}
    ensures Restores(l, back)
  {
    SameValuesSameTables(l, back, store);
    SameIndexPermutes(l, back);
    forall node, day: Day ensures Lookup(back.daily, DailyKey(node, day)) == Lookup(l.daily, DailyKey(node, day)) {
      ScanIgnoresOrder(l.txs, back.txs, node, day);
    }
    forall node ensures Balance(back.txs, node) == Balance(l.txs, node) {
      BalanceIgnoresOrder(l.txs, back.txs, node);
    }
  }

  /** After any run that ends quiet, loading restores the ledger up to transaction order. */
  lemma RoundTrip(start: System, env: Env, ops: seq<Op>, keys: seq<string>)
    requires Started(start) && Quiet(Run(start, env, ops)) && IsCursor(Run(start, env, ops).store, keys)
    ensures
      var s := Run(start, env, ops);
      && Loaded(s.store, keys).Success?
      && Restores(s.l, Loaded(s.store, keys).value)
      && Sorting.Increasing(Loaded(s.store, keys).value.txs, TxLess)
  {
    var s := Run(start, env, ops);
    QuietIsPersisted(start, env, ops);
    RunLedgerOk(start, env, ops);
    PersistedStoreOk(s.l, s.store);
    LoadReflectsStore(s.store, s.l.peer, keys);
    RestoresFrom(s.l, Loaded(s.store, keys).value, s.store);
  }

  // ------------------------------------------------------ order and chain

  lemma TxLessAsymmetric()
    ensures forall t, u :: TxLess(t, u) ==> !TxLess(u, t)
  {
    forall t, u | TxLess(t, u) ensures !TxLess(u, t) {
      LessTotal(t.id, u.id);
    }
  }

  lemma {:induction false} NeighboursSuffice(txs: seq<Transaction>, i: nat, j: nat)
    requires i < j < |txs| && InIdOrder(txs)
    ensures TxLess(txs[i], txs[j])
  {
    if j > i + 1 {
      NeighboursSuffice(txs, i, j - 1);
      assert TxLess(txs[j - 1], txs[j - 1 + 1]);
      LessTransitive(txs[i].id, txs[j - 1].id, txs[j].id);
    }
  }

  ghost predicate InIdOrder(txs: seq<Transaction>)
  {
    forall k :: 0 <= k < |txs| - 1 ==> TxLess(txs[k], txs[k + 1])
  }

  /** A reload keeps the order exactly when neighbouring ids were already in byte order. */
  lemma OrderRestoredIff(l: Ledger, back: Ledger)
    requires Restores(l, back) && Sorting.Increasing(back.txs, TxLess)
    ensures back.txs == l.txs <==> InIdOrder(l.txs)
  {
    if InIdOrder(l.txs) {
      forall i, j | 0 <= i < j < |l.txs| ensures TxLess(l.txs[i], l.txs[j]) {
        NeighboursSuffice(l.txs, i, j);
      }
      TxLessAsymmetric();
      Sorting.SameElements(back.txs, l.txs);
      Sorting.IncreasingUnique(back.txs, l.txs, TxLess);
    }
  }

  /** nums are the sequence numbers of the transactions, in append order. */
  ghost predicate NumberedBy(l: Ledger, nums: seq<nat>)
  {
    && |nums| == |l.txs|
    && (forall i :: 0 <= i < |nums| ==> l.txs[i].id == TxId(l.peer, nums[i]))
    && (forall i :: 0 <= i < |nums| - 1 ==> nums[i] < nums[i + 1])
  }

  /** a's numeral sorts before b's: a does not exceed b cut to a's width. */
  predicate SortsBefore(a: nat, b: nat)
  {
    |Dec(a)| <= |Dec(b)| && a <= DropDigits(b, |Dec(b)| - |Dec(a)|)
  }

  lemma IdsLessIff(peer: string, a: nat, b: nat)
    requires a < b
    ensures Less(TxId(peer, a), TxId(peer, b)) <==> SortsBefore(a, b)
  {
    var p := "tx" + "-" + peer + "-";
    assert TxId(peer, a) == p + Dec(a) && TxId(peer, b) == p + Dec(b);
    LessUnderPrefix(p, Dec(a), Dec(b));
    DecOrder(a, b);
  }

  predicate NumbersSort(nums: seq<nat>)
  {
    forall i :: 0 <= i < |nums| - 1 ==> SortsBefore(nums[i], nums[i + 1])
  }

  lemma IdOrderByNumbers(l: Ledger, nums: seq<nat>)
    requires NumberedBy(l, nums)
    ensures InIdOrder(l.txs) <==> NumbersSort(nums)
  {
    forall i | 0 <= i < |nums| - 1 ensures TxLess(l.txs[i], l.txs[i + 1]) <==> SortsBefore(nums[i], nums[i + 1]) {
      IdsLessIff(l.peer, nums[i], nums[i + 1]);
    }
  }

  /** The same in terms of the sequence numbers. */
  lemma OrderRestoredByNumbers(l: Ledger, back: Ledger, nums: seq<nat>)
    requires Restores(l, back) && Sorting.Increasing(back.txs, TxLess) && NumberedBy(l, nums)
    ensures back.txs == l.txs <==> NumbersSort(nums)
  {
    OrderRestoredIff(l, back);
    IdOrderByNumbers(l, nums);
  }

  lemma EqualWidthRestores(l: Ledger, back: Ledger, nums: seq<nat>)
    requires Restores(l, back) && Sorting.Increasing(back.txs, TxLess) && NumberedBy(l, nums)
    requires forall i, j :: 0 <= i < |nums| && 0 <= j < |nums| ==> |Dec(nums[i])| == |Dec(nums[j])|
    ensures back.txs == l.txs
  {
    OrderRestoredByNumbers(l, back, nums);
    forall i | 0 <= i < |nums| - 1 ensures SortsBefore(nums[i], nums[i + 1]) {
      assert |Dec(nums[i])| == |Dec(nums[i + 1])|;
    }
  }

  /** Two valid transactions with one hash are one transaction. */
  lemma HashIdentifies(sha: string -> string, l: Ledger, i: nat, j: nat)
    requires CollisionFree(sha, Texts(l.txs)) && WellFormed(l) && ChainValid(sha, l.txs) && AllPlain(l.txs)
    requires i < |l.txs| && j < |l.txs| && l.txs[i].hash == l.txs[j].hash
    ensures i == j
  {
    assert Texts(l.txs) + Texts(l.txs) == Texts(l.txs);
    SameHashSameText(sha, l.txs, l.txs, i, j);
    PlainTextParses(l.txs[i], l.txs[j]);
    assert l.txs[i].id == l.txs[j].id;
  }

  /** Where a transaction goes in a valid chain is settled by its prev. */
  lemma SuccessorIsNext(sha: string -> string, l: Ledger, k: nat, m: nat)
    requires CollisionFree(sha, Texts(l.txs)) && (forall x :: sha(x) != "") && WellFormed(l)
    requires ChainValid(sha, l.txs) && AllPlain(l.txs) && Genesis(l.txs)
    requires k < |l.txs| && m < |l.txs| && l.txs[m].prev == l.txs[k].hash
    ensures m == k + 1
  {
    HashNonEmpty(sha, l.txs, k);
    assert m > 0;
    assert LinkValid(sha, l.txs, m);
    HashIdentifies(sha, l, m - 1, k);
  }

  /** Whoever names a transaction as its predecessor comes right after it. */
  ghost predicate SuccessorsUnique(txs: seq<Transaction>)
  {
    forall k, m :: 0 <= k < |txs| && 0 <= m < |txs| && txs[m].prev == txs[k].hash ==> m == k + 1
  }

  ghost predicate Linked(txs: seq<Transaction>)
  {
    forall i :: 1 <= i < |txs| ==> txs[i].prev == txs[i - 1].hash
  }

  /** In a linked rearrangement every transaction follows its predecessor. */
  lemma {:induction false} Follows(txs: seq<Transaction>, back: seq<Transaction>, j: nat, i: nat)
    requires SuccessorsUnique(txs) && Linked(back) && forall t :: t in back ==> t in txs
    requires i < |back| && j < |txs| && back[0] == txs[j]
    ensures j + i < |txs| && back[i] == txs[j + i]
  {
    if i > 0 {
      Follows(txs, back, j, i - 1);
      assert back[i] in txs;
      var m :| 0 <= m < |txs| && txs[m] == back[i];
      assert back[i].prev == back[i - 1].hash;
    }
  }

  lemma LinkedSame(txs: seq<Transaction>, back: seq<Transaction>)
    requires SuccessorsUnique(txs) && Linked(back) && multiset(back) == multiset(txs)
    ensures back == txs
  {
    Sorting.SameElements(back, txs);
    if back != [] {
      assert back[0] in txs;
      var j :| 0 <= j < |txs| && txs[j] == back[0];
      Follows(txs, back, j, |back| - 1);
      forall i | 0 <= i < |back| ensures back[i] == txs[i] {
        Follows(txs, back, j, i);
      }
    }
  }

  lemma ValidMeansLinked(sha: string -> string, txs: seq<Transaction>)
    requires ChainValid(sha, txs)
    ensures Linked(txs)
  {
    forall i | 1 <= i < |txs| ensures txs[i].prev == txs[i - 1].hash {
      assert LinkValid(sha, txs, i);
    }
  }

  lemma HashNonEmpty(sha: string -> string, txs: seq<Transaction>, i: nat)
    requires (forall x :: sha(x) != "") && ChainValid(sha, txs) && i < |txs|
    ensures txs[i].hash != ""
  {
    assert LinkValid(sha, txs, i);
  }

  /** A reloaded chain verifies exactly when the reload kept the order. */
  lemma ChainRestoredIff(sha: string -> string, l: Ledger, back: Ledger)
    requires CollisionFree(sha, Texts(l.txs)) && (forall x :: sha(x) != "") && WellFormed(l)
    requires ChainValid(sha, l.txs) && AllPlain(l.txs) && Genesis(l.txs)
    requires Restores(l, back)
    ensures ChainValid(sha, back.txs) <==> back.txs == l.txs
  {
    if ChainValid(sha, back.txs) {
      ValidMeansLinked(sha, back.txs);
      forall k, m | 0 <= k < |l.txs| && 0 <= m < |l.txs| && l.txs[m].prev == l.txs[k].hash ensures m == k + 1 {
        SuccessorIsNext(sha, l, k, m);
      }
      LinkedSame(l.txs, back.txs);
    }
  }
}
