// Laws of the ledger's peer exchange, and the reload of a ledger that did
// nothing but append.

module LedgerLaws {
  import opened Wrappers
  import opened ByteText
  import opened Ledgers
  import opened LedgerEntries
  import opened LedgerStore
  import opened LedgerChain
  import opened Hashing
  import opened LedgerRuns
  import opened LedgerReload

  // ---------------------------------------------------------- peer exchange

  /** The first usable record offered under an id. */
  function FirstOffer(offered: seq<Option<Record>>, id: string): Option<Record>
  {
    if offered == [] || id == "" then None
    else if offered[0].Some? && offered[0].value.id == id then offered[0]
    else FirstOffer(offered[1..], id)
  }

  lemma {:induction false} FirstOfferAppend(offered: seq<Option<Record>>, last: Option<Record>, id: string)
    ensures FirstOffer(offered + [last], id) ==
      if FirstOffer(offered, id).Some? then FirstOffer(offered, id)
      else if last.Some? && last.value.id == id && id != "" then last
      else None
  {
    if offered == [] {
      assert (offered + [last])[1..] == [];
    } else {
      assert (offered + [last])[1..] == offered[1..] + [last];
      FirstOfferAppend(offered[1..], last, id);
    }
  }

  function At(t: map<string, Record>, id: string): Option<Record>
  {
    if id in t then Some(t[id]) else None
  }

  /** First wins: what was there stays, otherwise the first record offered under the id is taken. */
  lemma {:induction false} SyncMeaning(l: Ledger, k: Kind, offered: seq<Option<Record>>, id: string)
    ensures At(Synced(l, k, offered).Table(k), id) ==
      if id in l.Table(k) then Some(l.Table(k)[id]) else FirstOffer(offered, id)
  {
    if offered != [] {
      var n := |offered| - 1;
      SyncMeaning(l, k, offered[..n], id);
      FirstOfferAppend(offered[..n], offered[n], id);
      assert offered[..n] + [offered[n]] == offered;
    }
  }

  lemma {:induction false} SyncOtherKinds(l: Ledger, k: Kind, offered: seq<Option<Record>>, other: Kind)
    requires other != k
    ensures Synced(l, k, offered).Table(other) == l.Table(other)
  {
    if offered != [] { SyncOtherKinds(l, k, offered[..|offered| - 1], other); }
  }

  lemma {:induction false} FirstOfferInAll(offered: seq<Option<Record>>, i: nat)
    requires i < |offered| && offered[i].Some? && offered[i].value.id != ""
    ensures FirstOffer(offered, offered[i].value.id).Some?
  {
    if i > 0 { FirstOfferInAll(offered[1..], i - 1); }
  }

  lemma {:induction false} NothingNew(l: Ledger, k: Kind, offered: seq<Option<Record>>)
    requires forall r :: r in offered && r.Some? && r.value.id != "" ==> r.value.id in l.Table(k)
    ensures Synced(l, k, offered) == l
  {
    if offered != [] { NothingNew(l, k, offered[..|offered| - 1]); }
  }

  /** Offering the same records again changes nothing, so it reports zero additions. */
  lemma SyncAgain(l: Ledger, k: Kind, offered: seq<Option<Record>>)
    ensures Synced(Synced(l, k, offered), k, offered) == Synced(l, k, offered)
  {
    var after := Synced(l, k, offered);
    forall r | r in offered && r.Some? && r.value.id != "" ensures r.value.id in after.Table(k) {
      var i :| 0 <= i < |offered| && offered[i] == r;
      FirstOfferInAll(offered, i);
      SyncMeaning(l, k, offered, r.value.id);
    }
    NothingNew(after, k, offered);
  }

  /** The four passes of GossipSync do not disturb each other. */
  lemma SyncAllTables(l: Ledger, o: Offer, k: Kind, id: string)
    ensures At(SyncedAll(l, o).Table(k), id) ==
      if id in l.Table(k) then Some(l.Table(k)[id]) else FirstOffer(o.Of(k), id)
  {
    var l1 := Synced(l, Contribution, o.contributions);
    var l2 := Synced(l1, Trust, o.trusts);
    var l3 := Synced(l2, Claim, o.claims);
    if k != Contribution {
      SyncOtherKinds(l, Contribution, o.contributions, k);
    } else {
      SyncMeaning(l, k, o.contributions, id);
    }
    if k != Trust { SyncOtherKinds(l1, Trust, o.trusts, k); } else { SyncMeaning(l1, k, o.trusts, id); }
    if k != Claim { SyncOtherKinds(l2, Claim, o.claims, k); } else { SyncMeaning(l2, k, o.claims, id); }
    if k != Penalty { SyncOtherKinds(l3, Penalty, o.penalties, k); } else { SyncMeaning(l3, k, o.penalties, id); }
  }

  // ------------------------------------------------------- straight appends

  /** A new ledger that only ever appended these transactions. */
  function Straight(peer: string, pub: string, priv: string, env: Env, qs: seq<Request>): Ledger
  {
    if qs == [] then Fresh(peer, pub, priv)
    else AppendRequest(Straight(peer, pub, priv, env, qs[..|qs| - 1]), env, qs[|qs| - 1])
  }

  predicate PlainRequest(q: Request)
  {
    BarFree(q.kind) && BarFree(q.node) && BarFree(q.model) && BarFree(q.request)
  }

  function Counting(n: nat): seq<nat>
  {
    seq(n, i requires 0 <= i < n => i + 1)
  }

  lemma IdPlain(peer: string, n: nat)
    requires BarFree(peer)
    ensures BarFree(TxId(peer, n))
  {
    SignedPlain(n);
    assert TxId(peer, n) == "tx" + "-" + peer + "-" + Dec(n);
  }

  /** The head hash of a valid chain is a hash or empty, free of bars either way. */
  lemma HeadPlain(sha: string -> string, txs: seq<Transaction>)
    requires ChainValid(sha, txs) && forall x :: BarFree(sha(x))
    ensures BarFree(HeadHash(txs))
  {
    if txs != [] { assert LinkValid(sha, txs, |txs| - 1); }
  }

  lemma NewPlain(l: Ledger, env: Env, q: Request)
    requires BarFree(l.peer) && PlainRequest(q) && BarFree(HeadHash(l.txs))
    ensures Plain(NewTransaction(l, env, q.kind, q.node, q.amount, q.model, q.request, q.day))
  {
    IdPlain(l.peer, l.seqNo + 1);
  }

  lemma AppendStaysPlain(l: Ledger, env: Env, q: Request)
    requires BarFree(l.peer) && PlainRequest(q) && AllPlain(l.txs) && (forall x :: BarFree(env.sha(x)))
    requires ChainValid(env.sha, l.txs)
    ensures AllPlain(AppendRequest(l, env, q).txs)
  {
    HeadPlain(env.sha, l.txs);
    NewPlain(l, env, q);
  }

  lemma {:induction false} StraightOk(peer: string, pub: string, priv: string, env: Env, qs: seq<Request>)
    ensures
      var l := Straight(peer, pub, priv, env, qs);
      && LedgerOk(l) && l.peer == peer && l.seqNo == |qs|
      && ChainValid(env.sha, l.txs) && Genesis(l.txs)
  {
    if qs == [] {
      FreshStarts(peer, pub, priv);
    } else {
      var n := |qs| - 1;
      StraightOk(peer, pub, priv, env, qs[..n]);
      var l, q := Straight(peer, pub, priv, env, qs[..n]), qs[n];
      AppendOk(l, NewTransaction(l, env, q.kind, q.node, q.amount, q.model, q.request, q.day));
      AppendKeepsChain(l, env, q.kind, q.node, q.amount, q.model, q.request, q.day);
    }
  }

  lemma NumberedMore(l: Ledger, t: Transaction, nums: seq<nat>)
    requires NumberedBy(l, nums) && t.id == TxId(l.peer, l.seqNo + 1)
    requires nums != [] ==> nums[|nums| - 1] <= l.seqNo
    ensures NumberedBy(Appended(l, t), nums + [l.seqNo + 1])
  {
    var more := nums + [l.seqNo + 1];
    assert forall i :: 0 <= i < |nums| ==> more[i] == nums[i] && Appended(l, t).txs[i] == l.txs[i];
  }

  lemma {:induction false} StraightCounts(peer: string, pub: string, priv: string, env: Env, qs: seq<Request>)
    ensures Straight(peer, pub, priv, env, qs).peer == peer && Straight(peer, pub, priv, env, qs).seqNo == |qs|
  {
    if qs != [] { StraightCounts(peer, pub, priv, env, qs[..|qs| - 1]); }
  }

  lemma RequestNumbered(l: Ledger, env: Env, q: Request)
    requires NumberedBy(l, Counting(l.seqNo))
    ensures NumberedBy(AppendRequest(l, env, q), Counting(l.seqNo + 1))
  {
    NumberedMore(l, NewTransaction(l, env, q.kind, q.node, q.amount, q.model, q.request, q.day), Counting(l.seqNo));
    assert Counting(l.seqNo + 1) == Counting(l.seqNo) + [l.seqNo + 1];
  }

  lemma {:induction false} StraightNumbers(peer: string, pub: string, priv: string, env: Env, qs: seq<Request>)
    ensures NumberedBy(Straight(peer, pub, priv, env, qs), Counting(|qs|))
  {
    if qs != [] {
      var n := |qs| - 1;
      StraightNumbers(peer, pub, priv, env, qs[..n]);
      StraightCounts(peer, pub, priv, env, qs[..n]);
      RequestNumbered(Straight(peer, pub, priv, env, qs[..n]), env, qs[n]);
    }
  }

  lemma {:induction false} StraightPlain(peer: string, pub: string, priv: string, env: Env, qs: seq<Request>)
    requires BarFree(peer) && (forall q :: q in qs ==> PlainRequest(q)) && (forall x :: BarFree(env.sha(x)))
    ensures AllPlain(Straight(peer, pub, priv, env, qs).txs)
  {
    if qs != [] {
      var n := |qs| - 1;
      StraightPlain(peer, pub, priv, env, qs[..n]);
      StraightOk(peer, pub, priv, env, qs[..n]);
      AppendStaysPlain(Straight(peer, pub, priv, env, qs[..n]), env, qs[n]);
    }
  }

  lemma CountingSortsIff(n: nat)
    ensures n < 10 <==> NumbersSort(Counting(n))
  {
    assert Dec(1) == [Digit(1)];
    assert |Dec(9)| == 1 && Dec(10) == Dec(1) + [Digit(0)];
    assert DropDigits(10, 1) == DropDigits(1, 0) == 1;
    assert !SortsBefore(9, 10);
    if n >= 10 {
      assert Counting(n)[8] == 9 && Counting(n)[8 + 1] == 10;
    }
  }

  /**
   A ledger that appended n transactions in a row, was written out and loaded
   again still verifies its chain exactly when n is below ten.
   */
  lemma StraightChainSurvivesIff(
    peer: string, pub: string, priv: string, env: Env, qs: seq<Request>, store: Store, keys: seq<string>)
    requires CollisionFree(env.sha, Texts(Straight(peer, pub, priv, env, qs).txs))
      && (forall x :: env.sha(x) != "" && BarFree(env.sha(x)))
    requires BarFree(peer) && forall q :: q in qs ==> PlainRequest(q)
    requires Persisted(Straight(peer, pub, priv, env, qs), store) && IsCursor(store, keys)
    ensures Loaded(store, keys).Success?
    ensures ChainValid(env.sha, Loaded(store, keys).value.txs) <==> |qs| < 10
  {
    var l := Straight(peer, pub, priv, env, qs);
    StraightOk(peer, pub, priv, env, qs);
    PersistedStoreOk(l, store);
    LoadReflectsStore(store, l.peer, keys);
    var back := Loaded(store, keys).value;
    RestoresFrom(l, back, store);
    StraightPlain(peer, pub, priv, env, qs);
    ChainRestoredIff(env.sha, l, back);
    StraightNumbers(peer, pub, priv, env, qs);
    OrderRestoredByNumbers(l, back, Counting(|qs|));
    CountingSortsIff(|qs|);
  }
}
