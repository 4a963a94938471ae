// The write-back protocol of the contribution ledger as a state machine: any
// ledger call may fall between swapping the dirty set out and committing it,
// a commit may fail, and the process may die and reload at any point.

module LedgerRuns {
  import opened Wrappers
  import opened ByteText
  import opened Ledgers
  import opened LedgerStore
  import opened LedgerSums

  /** The one flusher: idle, holding serialised values, or about to merge its keys back. */
  datatype Flight = Idle | Writing(puts: Store) | Failed(keys: set<string>)

  /**
   racing holds the keys of contributions whose proof is being filled in outside
   the lock, between the two locked sections of RecordContribution.
   */
  datatype System = System(l: Ledger, store: Store, flight: Flight, racing: multiset<string>)

  datatype Op =
    | RecordStep(kind: Kind, r: Record, now: int)
    | FillProof(id: string, proof: StorageProof)
    | StoreAgain(r: Record)
    | SyncStep(offer: Offer)
    | AppendStep(txKind: string, node: string, amount: int, model: string, request: string, day: Day)
    | Swap(encodes: Blob -> bool)
    | Commit(ok: bool)
    | MergeBack
    | Crash(keys: seq<string>)

  /** The first locked section of RecordContribution, or all of the other three calls. */
  function RecordFirst(l: Ledger, env: Env, k: Kind, r: Record, now: int): Ledger
  {
    Put(Counted(l, r), k, Completed(l, env, k, r, now))
  }

  /** The proof of a stored contribution changes, nothing is marked. */
  function Filled(l: Ledger, id: string, proof: StorageProof): Ledger
    requires id in l.recs
  {
    l.(recs := l.recs[id := l.recs[id].(proof := proof)])
  }

  function FlightKeys(f: Flight): set<string>
  {
    match f
    case Idle => {}
    case Writing(puts) => puts.Keys
    case Failed(keys) => keys
  }

  function SwapStep(s: System, encodes: Blob -> bool): System
  {
    if s.l.dirty == {} || !s.flight.Idle? then s
    else
      s.(l := s.l.(dirty := {}),
         flight := if InMemory(s.l, s.l.dirty) && Encodable(s.l, s.l.dirty, encodes)
                   then Writing(Image(s.l, s.l.dirty))
                   else Failed(s.l.dirty))
  }

  function RecordLocked(s: System, env: Env, k: Kind, r: Record, now: int): System
  {
    var stored := Completed(s.l, env, k, r, now);
    s.(l := RecordFirst(s.l, env, k, r, now),
       racing := s.racing + if k.Contribution? && env.contentId(stored).Some?
                            then multiset{Key(RecordAt(k, stored.id))} else multiset{})
  }

  function FillStep(s: System, id: string, proof: StorageProof): System
  {
    if Key(RecordAt(Contribution, id)) in s.racing && id in s.l.recs
    then s.(l := Filled(s.l, id, proof))
    else s
  }

  function StoreAgainStep(s: System, r: Record): System
  {
    var key := Key(RecordAt(Contribution, r.id));
    if key in s.racing
    then s.(l := Put(s.l, Contribution, r), racing := s.racing - multiset{key})
    else s
  }

  function CommitStep(s: System, ok: bool): System
  {
    if !s.flight.Writing? then s
    else if ok then s.(store := s.store + s.flight.puts, flight := Idle)
    else s.(flight := Failed(s.flight.puts.Keys))
  }

  function MergeStep(s: System): System
  {
    if !s.flight.Failed? then s
    else s.(l := Mark(s.l, s.flight.keys), flight := Idle)
  }

  ghost function CrashStep(s: System, keys: seq<string>): System
  {
    if !IsCursor(s.store, keys) || Loaded(s.store, keys).Failure? then s
    else System(Loaded(s.store, keys).value, s.store, Idle, multiset{})
  }

  ghost function Step(s: System, env: Env, op: Op): System
  {
    match op
    case RecordStep(k, r, now) => RecordLocked(s, env, k, r, now)
    case FillProof(id, proof) => FillStep(s, id, proof)
    case StoreAgain(r) => StoreAgainStep(s, r)
    case SyncStep(offer) => s.(l := SyncedAll(s.l, offer))
    case AppendStep(k, node, amount, model, request, day) =>
      s.(l := Appended(s.l, NewTransaction(s.l, env, k, node, amount, model, request, day)))
    case Swap(encodes) => SwapStep(s, encodes)
    case Commit(ok) => CommitStep(s, ok)
    case MergeBack => MergeStep(s)
    case Crash(keys) => CrashStep(s, keys)
  }

  ghost function Run(s: System, env: Env, ops: seq<Op>): System
  {
    if ops == [] then s else Step(Run(s, env, ops[..|ops| - 1]), env, ops[|ops| - 1])
  }

  // ------------------------------------------------------------ invariants

  /** Records sit under their own ids; the index and the list hold the same transactions. */
  ghost predicate WellFormed(l: Ledger)
  {
    && (forall k: Kind, id :: id in l.Table(k) ==> l.Table(k)[id].id == id)
    && (forall id :: id in l.txIndex ==> l.txIndex[id].id == id && l.txIndex[id] in l.txs)
    && (forall t :: t in l.txs ==> t.id in l.txIndex && l.txIndex[t.id] == t)
    && (forall i, j :: 0 <= i < j < |l.txs| ==> l.txs[i].id != l.txs[j].id)
  }

  ghost predicate IdUpTo(peer: string, seqNo: nat, id: string)
  {
    exists n: nat :: 0 < n <= seqNo && id == TxId(peer, n)
  }

  /** Every transaction id was handed out by this node's own counter. */
  ghost predicate Numbered(l: Ledger)
  {
    forall id :: id in l.txIndex ==> IdUpTo(l.peer, l.seqNo, id)
  }

  ghost predicate LedgerOk(l: Ledger)
  {
    WellFormed(l) && Numbered(l) && DailyMatches(l.daily, l.txs)
  }

  /** Keys decode to what is stored under them, and no stored id is ahead of the stored counter. */
  ghost predicate StoreOk(store: Store, peer: string)
  {
    && IDENTITY_KEY in store && store[IDENTITY_KEY].IdentityBlob? && store[IDENTITY_KEY].peer == peer
    && (forall key :: key in store ==> EntryOk(key, store[key]))
    && (forall id :: Key(TxAt(id)) in store ==> IdUpTo(peer, store[IDENTITY_KEY].seqNo, id))
  }

  predicate EntryOk(key: string, v: Blob)
  {
    match Parse(key)
    case Identity => v.IdentityBlob?
    case RecordAt(k, id) => v.RecordBlob? && v.kind == k && v.record.id == id
    case TxAt(id) => v.TxBlob? && v.tx.id == id
    case Unknown => false
  }

  predicate Settled(s: System, key: string)
  {
    key !in s.l.dirty && key !in FlightKeys(s.flight) && key !in s.racing
  }

  /** The write-back guarantee. */
  ghost predicate Safe(s: System)
  {
    && (forall key :: Settled(s, key) ==> Find(s.store, key) == Marshal(s.l, key))
    && (s.flight.Writing? ==> forall key :: key in s.flight.puts && key !in s.l.dirty && key !in s.racing ==>
         Some(s.flight.puts[key]) == Marshal(s.l, key))
    && InMemory(s.l, s.l.dirty + FlightKeys(s.flight))
    && forall key :: key in s.racing ==> Parse(key).RecordAt? && Marshal(s.l, key).Some?
  }

  ghost predicate Inv(s: System)
  {
    && LedgerOk(s.l) && Safe(s) && StoreOk(s.store, s.l.peer)
    && (s.flight.Writing? ==> StoreOk(s.store + s.flight.puts, s.l.peer))
  }

  // ------------------------------------- ledger calls cover what they change

  /** What changed is marked, nothing marked is lost, nothing disappears. */
  ghost predicate Covers(a: Ledger, b: Ledger)
  {
    && a.dirty <= b.dirty && InMemory(b, b.dirty - a.dirty)
    && (forall key :: Marshal(a, key).Some? ==> Marshal(b, key).Some?)
    && (forall key :: Marshal(a, key) != Marshal(b, key) ==> key in b.dirty)
    && a.peer == b.peer
  }

  lemma CoversChain(a: Ledger, b: Ledger, c: Ledger)
    requires Covers(a, b) && Covers(b, c)
    ensures Covers(a, c)
  {
    forall key | key in c.dirty - a.dirty ensures Marshal(c, key).Some? {
      if key in b.dirty { assert Marshal(b, key).Some?; }
    }
    forall key | Marshal(a, key) != Marshal(c, key) ensures key in c.dirty {
      if Marshal(a, key) == Marshal(b, key) { assert key in c.dirty; }
    }
  }

  lemma ValueAfterPut(l: Ledger, k: Kind, r: Record, t: Target)
    ensures ValueAt(Put(l, k, r), t) == if t == RecordAt(k, r.id) then Some(RecordBlob(k, r)) else ValueAt(l, t)
  {
  }

  lemma KeyIffTarget(key: string, t: Target)
    requires t != Unknown
    ensures key == Key(t) <==> Parse(key) == t
  {
    ParseKey(t);
    if Parse(key) == t { ParseInverse(key); }
  }

  lemma MarshalAfterPut(l: Ledger, k: Kind, r: Record, key: string)
    ensures Marshal(Put(l, k, r), key) ==
      if key == Key(RecordAt(k, r.id)) then Some(RecordBlob(k, r)) else Marshal(l, key)
  {
    KeyIffTarget(key, RecordAt(k, r.id));
    ValueAfterPut(l, k, r, Parse(key));
  }

  lemma PutCovers(l: Ledger, k: Kind, r: Record)
    ensures Covers(l, Put(l, k, r))
  {
    forall key
      ensures Marshal(Put(l, k, r), key) ==
        if key == Key(RecordAt(k, r.id)) then Some(RecordBlob(k, r)) else Marshal(l, key)
    {
      MarshalAfterPut(l, k, r, key);
    }
  }

  lemma PutFields(l: Ledger, k: Kind, r: Record)
    ensures
      var b := Put(l, k, r);
      && b.txs == l.txs && b.txIndex == l.txIndex && b.daily == l.daily
      && b.seqNo == l.seqNo && b.peer == l.peer
  {
  }

  lemma PutTables(l: Ledger, k: Kind, r: Record, other: Kind)
    ensures Put(l, k, r).Table(other) == if other == k then l.Table(k)[r.id := r] else l.Table(other)
  {
  }

  lemma PutWellFormed(l: Ledger, k: Kind, r: Record)
    requires LedgerOk(l)
    ensures LedgerOk(Put(l, k, r))
  {
    var b := Put(l, k, r);
    PutFields(l, k, r);
    forall other: Kind ensures b.Table(other) == if other == k then l.Table(k)[r.id := r] else l.Table(other) {
      PutTables(l, k, r, other);
    }
    assert WellFormed(b);
    assert Numbered(b);
  }

  lemma ValueAfterCount(l: Ledger, r: Record, t: Target)
    ensures t != Identity ==> ValueAt(Counted(l, r), t) == ValueAt(l, t)
  {
    assert forall kind: Kind :: Counted(l, r).Table(kind) == l.Table(kind);
  }

  lemma CountedCovers(l: Ledger, r: Record)
    ensures Covers(l, Counted(l, r))
  {
    if r.id == "" {
      var b := Counted(l, r);
      forall key ensures key == IDENTITY_KEY || Marshal(l, key) == Marshal(b, key) {
        KeyIffTarget(key, Identity);
        ValueAfterCount(l, r, Parse(key));
      }
      IdentityCovers(l, b);
    }
  }

  /** Only the identity changed, and it is marked. */
  lemma IdentityCovers(a: Ledger, b: Ledger)
    requires forall key :: key == IDENTITY_KEY || Marshal(a, key) == Marshal(b, key)
    requires b.dirty == a.dirty + {IDENTITY_KEY} && a.peer == b.peer
    ensures Covers(a, b)
  {
    ParseKey(Identity);
  }

  lemma CountedOk(l: Ledger, r: Record)
    requires LedgerOk(l)
    ensures LedgerOk(Counted(l, r))
  {
    var b := Counted(l, r);
    CountedFields(l, r);
    assert WellFormed(b);
    CountedNumbered(l, r);
  }

  lemma CountedFields(l: Ledger, r: Record)
    ensures
      var b := Counted(l, r);
      && b.txs == l.txs && b.txIndex == l.txIndex && b.daily == l.daily && b.peer == l.peer && b.seqNo >= l.seqNo
      && forall kind: Kind :: b.Table(kind) == l.Table(kind)
  {
  }

  lemma CountedNumbered(l: Ledger, r: Record)
    requires Numbered(l)
    ensures Numbered(Counted(l, r))
  {
    var b := Counted(l, r);
    forall id | id in b.txIndex ensures IdUpTo(b.peer, b.seqNo, id) {
      assert IdUpTo(l.peer, l.seqNo, id);
    }
  }

  lemma RecordCovers(l: Ledger, env: Env, k: Kind, r: Record, now: int)
    ensures Covers(l, RecordFirst(l, env, k, r, now))
  {
    var l1, r1 := Counted(l, r), Completed(l, env, k, r, now);
    CountedCovers(l, r);
    PutCovers(l1, k, r1);
    CoversChain(l, l1, Put(l1, k, r1));
  }

  lemma RecordOk(l: Ledger, env: Env, k: Kind, r: Record, now: int)
    requires LedgerOk(l)
    ensures LedgerOk(RecordFirst(l, env, k, r, now))
  {
    CountedOk(l, r);
    PutWellFormed(Counted(l, r), k, Completed(l, env, k, r, now));
  }

  lemma {:induction false} SyncCovers(l: Ledger, k: Kind, offered: seq<Option<Record>>)
    ensures Covers(l, Synced(l, k, offered))
    ensures LedgerOk(l) ==> LedgerOk(Synced(l, k, offered))
  {
    if offered != [] {
      var n := |offered| - 1;
      SyncCovers(l, k, offered[..n]);
      var before := Synced(l, k, offered[..n]);
      var r := offered[n];
      if r.Some? && r.value.id != "" && r.value.id !in before.Table(k) {
        PutCovers(before, k, r.value);
        CoversChain(l, before, Put(before, k, r.value));
        if LedgerOk(l) { PutWellFormed(before, k, r.value); }
      }
    }
  }

  lemma SyncAllCovers(l: Ledger, o: Offer)
    ensures Covers(l, SyncedAll(l, o))
    ensures LedgerOk(l) ==> LedgerOk(SyncedAll(l, o))
  {
    var l1 := Synced(l, Contribution, o.contributions);
    var l2 := Synced(l1, Trust, o.trusts);
    var l3 := Synced(l2, Claim, o.claims);
    var l4 := Synced(l3, Penalty, o.penalties);
    SyncCovers(l, Contribution, o.contributions);
    SyncCovers(l1, Trust, o.trusts);
    SyncCovers(l2, Claim, o.claims);
    SyncCovers(l3, Penalty, o.penalties);
    CoversChain(l, l1, l2);
    CoversChain(l, l2, l3);
    CoversChain(l, l3, l4);
  }

  lemma TxIdInjective(peer: string, m: nat, n: nat)
    requires TxId(peer, m) == TxId(peer, n)
    ensures m == n
  {
    var p := "tx" + "-" + peer + "-";
    assert TxId(peer, m)[|p|..] == Dec(m) && TxId(peer, n)[|p|..] == Dec(n);
    DecInjective(m, n);
  }

  lemma NewIdUnused(l: Ledger)
    requires Numbered(l)
    ensures TxId(l.peer, l.seqNo + 1) !in l.txIndex
  {
    var id := TxId(l.peer, l.seqNo + 1);
    if id in l.txIndex {
      assert IdUpTo(l.peer, l.seqNo, id);
      var n: nat :| 0 < n <= l.seqNo && id == TxId(l.peer, n);
      TxIdInjective(l.peer, n, l.seqNo + 1);
    }
  }

  lemma ValueAfterAppend(l: Ledger, t: Transaction, target: Target)
    ensures ValueAt(Appended(l, t), target) ==
      if target == TxAt(t.id) then Some(TxBlob(t))
      else if target == Identity then Some(IdentityBlob(l.peer, l.seqNo + 1, l.pub, l.priv))
      else ValueAt(l, target)
  {
    assert forall k: Kind :: Appended(l, t).Table(k) == l.Table(k);
  }

  lemma AppendCovers(l: Ledger, t: Transaction)
    ensures Covers(l, Appended(l, t))
  {
    var b := Appended(l, t);
    ParseKey(Identity);
    ParseKey(TxAt(t.id));
    forall key
      ensures Marshal(l, key).Some? ==> Marshal(b, key).Some?
      ensures Marshal(l, key) != Marshal(b, key) ==> key in b.dirty
    {
      KeyIffTarget(key, TxAt(t.id));
      KeyIffTarget(key, Identity);
      ValueAfterAppend(l, t, Parse(key));
    }
    ValueAfterAppend(l, t, TxAt(t.id));
    ValueAfterAppend(l, t, Identity);
  }

  lemma AppendWellFormed(l: Ledger, t: Transaction)
    requires WellFormed(l) && t.id !in l.txIndex
    ensures WellFormed(Appended(l, t))
  {
    var b := Appended(l, t);
    assert forall k: Kind :: b.Table(k) == l.Table(k);
    assert b.txs == l.txs + [t];
    forall i, j | 0 <= i < j < |b.txs| ensures b.txs[i].id != b.txs[j].id {
      assert b.txs[i] in l.txs;
    }
  }

  lemma AppendNumbered(l: Ledger, t: Transaction)
    requires Numbered(l) && t.id == TxId(l.peer, l.seqNo + 1)
    ensures Numbered(Appended(l, t))
  {
    var b := Appended(l, t);
    forall id | id in b.txIndex ensures IdUpTo(b.peer, b.seqNo, id) {
      if id != t.id { assert IdUpTo(l.peer, l.seqNo, id); }
    }
  }

  lemma AppendOk(l: Ledger, t: Transaction)
    requires LedgerOk(l) && t.id == TxId(l.peer, l.seqNo + 1)
    ensures LedgerOk(Appended(l, t))
  {
    NewIdUnused(l);
    AppendMatches(l, t);
    AppendWellFormed(l, t);
    AppendNumbered(l, t);
  }

  // ---------------------------------------------- each step keeps the invariant

  lemma CallKeepsSafe(s: System, l: Ledger)
    requires Safe(s) && Covers(s.l, l)
    ensures Safe(s.(l := l))
  {
    forall key | key in l.dirty + FlightKeys(s.flight) ensures Marshal(l, key).Some? {
      if key in s.l.dirty + FlightKeys(s.flight) { assert Marshal(s.l, key).Some?; }
    }
    forall key | Settled(s.(l := l), key) ensures Find(s.store, key) == Marshal(l, key) {
      assert Settled(s, key);
    }
  }

  lemma RecordStepSafe(s: System, env: Env, k: Kind, r: Record, now: int)
    requires Safe(s)
    ensures Safe(RecordLocked(s, env, k, r, now))
  {
    var after := RecordFirst(s.l, env, k, r, now);
    var stored := Completed(s.l, env, k, r, now);
    RecordCovers(s.l, env, k, r, now);
    CallKeepsSafe(s, after);
    var key := Key(RecordAt(k, stored.id));
    ParseKey(RecordAt(k, stored.id));
    MarshalAfterPut(Counted(s.l, r), k, stored, key);
    var next := RecordLocked(s, env, k, r, now);
    forall other | Settled(next, other) ensures Find(s.store, other) == Marshal(after, other) {
      assert Settled(s.(l := after), other);
    }
  }

  lemma ValueAfterFill(l: Ledger, id: string, proof: StorageProof, t: Target)
    requires id in l.recs
    ensures t != RecordAt(Contribution, id) ==> ValueAt(Filled(l, id, proof), t) == ValueAt(l, t)
    ensures ValueAt(l, t).Some? ==> ValueAt(Filled(l, id, proof), t).Some?
  {
  }

  lemma FilledOk(l: Ledger, id: string, proof: StorageProof)
    requires LedgerOk(l) && id in l.recs
    ensures LedgerOk(Filled(l, id, proof))
  {
    var b := Filled(l, id, proof);
    assert forall kind: Kind :: kind != Contribution ==> b.Table(kind) == l.Table(kind);
    forall other | other in b.recs ensures b.recs[other].id == other {
      assert other in l.Table(Contribution);
    }
    assert b.Table(Contribution) == b.recs;
    assert b.txs == l.txs && b.txIndex == l.txIndex;
  }

  /** An unlocked change to a racing key stays outside the guarantee. */
  lemma RacingChangeSafe(s: System, l: Ledger, raced: string)
    requires Safe(s) && raced in s.racing && l.dirty == s.l.dirty
    requires forall key :: key != raced ==> Marshal(l, key) == Marshal(s.l, key)
    requires forall key :: Marshal(s.l, key).Some? ==> Marshal(l, key).Some?
    ensures Safe(s.(l := l))
  {
    forall key | Settled(s.(l := l), key) ensures Find(s.store, key) == Marshal(l, key) {
      assert Settled(s, key);
    }
    forall key | key in l.dirty + FlightKeys(s.flight) ensures Marshal(l, key).Some? {
      assert Marshal(s.l, key).Some?;
    }
  }

  lemma FillProofSafe(s: System, id: string, proof: StorageProof)
    requires Safe(s)
    ensures Safe(FillStep(s, id, proof))
  {
    var raced := Key(RecordAt(Contribution, id));
    if raced in s.racing && id in s.l.recs {
      var l := Filled(s.l, id, proof);
      forall key
        ensures key != raced ==> Marshal(l, key) == Marshal(s.l, key)
        ensures Marshal(s.l, key).Some? ==> Marshal(l, key).Some?
      {
        KeyIffTarget(key, RecordAt(Contribution, id));
        ValueAfterFill(s.l, id, proof, Parse(key));
      }
      RacingChangeSafe(s, l, raced);
    }
  }

  lemma StoreAgainSafe(s: System, r: Record)
    requires Safe(s)
    ensures Safe(StoreAgainStep(s, r))
  {
    var key := Key(RecordAt(Contribution, r.id));
    if key in s.racing {
      var after := Put(s.l, Contribution, r);
      PutCovers(s.l, Contribution, r);
      CallKeepsSafe(s, after);
      var next := StoreAgainStep(s, r);
      forall other | Settled(next, other) ensures Find(s.store, other) == Marshal(after, other) {
        assert Settled(s.(l := after), other);
      }
    }
  }

  lemma SwapSafe(s: System, encodes: Blob -> bool)
    requires Safe(s)
    ensures Safe(SwapStep(s, encodes))
  {
    var next := SwapStep(s, encodes);
    if next != s {
      DirtyIrrelevant(s.l, s.l.dirty);
      assert InMemory(s.l, s.l.dirty);
      forall key | Settled(next, key) ensures Find(next.store, key) == Marshal(next.l, key) {
        assert Settled(s, key);
      }
    }
  }

  lemma CommitSafe(s: System, ok: bool)
    requires Safe(s)
    ensures Safe(CommitStep(s, ok))
  {
    var next := CommitStep(s, ok);
    if s.flight.Writing? {
      forall key | Settled(next, key) ensures Find(next.store, key) == Marshal(next.l, key) {
        if key !in s.flight.puts { assert Settled(s, key); }
      }
    }
  }

  lemma MarkIrrelevant(l: Ledger, dirty: set<string>)
    ensures forall key :: Marshal(l.(dirty := dirty), key) == Marshal(l, key)
  {
    forall key ensures Marshal(l.(dirty := dirty), key) == Marshal(l, key) {
      assert forall k: Kind :: l.(dirty := dirty).Table(k) == l.Table(k);
    }
  }

  lemma MergeBackSafe(s: System)
    requires Safe(s)
    ensures Safe(MergeStep(s))
  {
    var next := MergeStep(s);
    if s.flight.Failed? {
      MarkIrrelevant(s.l, next.l.dirty);
      forall key | Settled(next, key) ensures Find(next.store, key) == Marshal(next.l, key) {
        assert Settled(s, key);
      }
    }
  }

  /** What a swap puts in flight leaves the store consistent, identity included. */
  lemma SwapStoreOk(s: System, encodes: Blob -> bool)
    requires Inv(s) && s.flight.Idle? && SwapStep(s, encodes).flight.Writing?
    ensures StoreOk(s.store + SwapStep(s, encodes).flight.puts, s.l.peer)
  {
    var puts := SwapStep(s, encodes).flight.puts;
    var after := s.store + puts;
    ParseKey(Identity);
    forall key | key in after ensures EntryOk(key, after[key]) {
      if key in puts { assert Marshal(s.l, key) == Some(puts[key]); }
    }
    assert after[IDENTITY_KEY] == Marshal(s.l, IDENTITY_KEY).value by {
      if IDENTITY_KEY !in puts {
        assert IDENTITY_KEY !in s.racing;
        assert Settled(s, IDENTITY_KEY);
      }
    }
    var n := s.l.seqNo;
    forall id | Key(TxAt(id)) in after ensures IdUpTo(s.l.peer, n, id) {
      ParseKey(TxAt(id));
      var key := Key(TxAt(id));
      if key in puts {
        assert Marshal(s.l, key) == Some(puts[key]);
      } else {
        assert key !in s.racing;
        assert Settled(s, key);
        assert Marshal(s.l, key).Some?;
      }
    }
  }
}
