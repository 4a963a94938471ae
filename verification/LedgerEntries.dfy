// What the ledger takes down for its callers: a transaction with exactly what was
// asked, the balances and counters moved by exactly that, and a record under the
// right id with its gaps filled.

module LedgerEntries {
  import opened Wrappers
  import opened ByteText
  import opened Ledgers
  import opened LedgerSums

  // ------------------------------------------------------------- transactions

  datatype Request = Request(kind: string, node: string, amount: int, model: string, request: string, day: Day)

  function AppendRequest(l: Ledger, env: Env, q: Request): Ledger
  {
    Appended(l, NewTransaction(l, env, q.kind, q.node, q.amount, q.model, q.request, q.day))
  }

  /** A transaction that carries what was asked for. */
  predicate Carries(t: Transaction, q: Request)
  {
    && t.kind == q.kind && t.node == q.node && t.amount == q.amount
    && t.model == q.model && t.request == q.request && t.day == q.day
  }

  /** It is numbered n, stands behind the one with hash prev, and is hashed and signed over what was asked. */
  predicate Stands(t: Transaction, q: Request, env: Env, peer: string, n: nat, prev: string)
  {
    && t.id == "tx-" + peer + "-" + Dec(n) && t.prev == prev
    && t.hash == env.sha(t.id + "|" + q.kind + "|" + q.node + "|" + ByteText.Signed(q.amount) + "|" + q.model + "|"
                         + q.request + "|" + prev)
    && t.signature == env.signTx(t.(signature := ""))
  }

  /** What a request is to a node's balance: more for a contribution, less for a consumption. */
  function Moves(q: Request, node: string): int
  {
    if q.node != node then 0
    else if q.kind == "contribution" then q.amount
    else if q.kind == "consumption" then 0 - q.amount
    else 0
  }

  /** What a request is to a node's contributions of one day. */
  function Contributes(q: Request, node: string, day: Day): int
  {
    if q.kind == "contribution" && q.node == node && q.day == day then q.amount else 0
  }

  lemma AppendSays(l: Ledger, env: Env, q: Request)
    ensures
      var after := AppendRequest(l, env, q);
      && |after.txs| == |l.txs| + 1 && after.txs[..|l.txs|] == l.txs
      && Carries(after.txs[|l.txs|], q)
      && Stands(after.txs[|l.txs|], q, env, l.peer, l.seqNo + 1, if l.txs == [] then "" else l.txs[|l.txs| - 1].hash)
      && after.txIndex == l.txIndex[after.txs[|l.txs|].id := after.txs[|l.txs|]]
      && after.seqNo == l.seqNo + 1 && after.peer == l.peer
      && after.recs == l.recs && after.trusts == l.trusts && after.claims == l.claims && after.penalties == l.penalties
  {
    var prev := if l.txs == [] then "" else l.txs[|l.txs| - 1].hash;
    SameText(TxId(l.peer, l.seqNo + 1), "tx-" + l.peer + "-" + Dec(l.seqNo + 1), q, prev);
  }

  lemma SameText(a: string, b: string, q: Request, prev: string)
    requires a == b
    ensures HashText(Transaction(a, q.kind, q.node, q.amount, q.model, q.request, prev, "", q.day, "")) ==
      b + "|" + q.kind + "|" + q.node + "|" + ByteText.Signed(q.amount) + "|" + q.model + "|" + q.request + "|" + prev
  {
  }

  lemma CounterMoves(l: Ledger, env: Env, q: Request, node: string, day: Day)
    ensures
      Lookup(AppendRequest(l, env, q).daily, node + "|" + day) ==
        if Contributes(q, node, day) == 0 then Lookup(l.daily, node + "|" + day)
        else Wrap64(Lookup(l.daily, node + "|" + day) + Contributes(q, node, day))
  {
    if DailyKey(node, day) == DailyKey(q.node, q.day) { DailyKeyInjective(node, day, q.node, q.day); }
  }

  lemma SumsMore(txs: seq<Transaction>, t: Transaction, node: string, day: Day)
    ensures Balance(txs + [t], node) == Balance(txs, node) + if t.node == node then Effect(t) else 0
    ensures Contributed(txs + [t], node, day) == Contributed(txs, node, day) + Only(t, node, day)
  {
    assert (txs + [t])[..|txs|] == txs;
  }

  /** Every balance, and every day's counter, moves by what was asked and by nothing else. */
  lemma AppendMoves(l: Ledger, env: Env, q: Request, node: string, day: Day)
    ensures
      var after := AppendRequest(l, env, q);
      && Balance(after.txs, node) == Balance(l.txs, node) + Moves(q, node)
      && Contributed(after.txs, node, day) == Contributed(l.txs, node, day) + Contributes(q, node, day)
      && Lookup(after.daily, node + "|" + day) ==
           if Contributes(q, node, day) == 0 then Lookup(l.daily, node + "|" + day)
           else Wrap64(Lookup(l.daily, node + "|" + day) + Contributes(q, node, day))
  {
    SumsMore(l.txs, NewTransaction(l, env, q.kind, q.node, q.amount, q.model, q.request, q.day), node, day);
    CounterMoves(l, env, q, node, day);
  }

  /**
   What one append does to the ledger, hashes aside: the request is put at the end, and
   every balance and every day's counter moves by it.
   */
  ghost predicate TakesDown(before: Ledger, after: Ledger, q: Request)
  {
    && |after.txs| == |before.txs| + 1 && after.peer == before.peer && after.seqNo == before.seqNo + 1
    && (forall k :: 0 <= k < |before.txs| ==> after.txs[k] == before.txs[k])
    && Placed(after.txs, |before.txs|, q)
    && (forall node :: Balance(after.txs, node) == Balance(before.txs, node) + Moves(q, node))
    && (forall node, day: Day :: CounterMoved(before, after, q, node, day))
  }

  /** The transaction at this place carries the request and points to the one before it. */
  predicate Placed(txs: seq<Transaction>, at: nat, q: Request)
  {
    at < |txs| && Carries(txs[at], q) && txs[at].prev == if at == 0 then "" else txs[at - 1].hash
  }

  predicate CounterMoved(before: Ledger, after: Ledger, q: Request, node: string, day: Day)
  {
    Lookup(after.daily, node + "|" + day) ==
      if Contributes(q, node, day) == 0 then Lookup(before.daily, node + "|" + day)
      else Wrap64(Lookup(before.daily, node + "|" + day) + Contributes(q, node, day))
  }

  lemma AppendTakesDown(l: Ledger, env: Env, q: Request)
    ensures TakesDown(l, AppendRequest(l, env, q), q)
  {
    AppendSays(l, env, q);
    var after := AppendRequest(l, env, q);
    assert forall k :: 0 <= k < |l.txs| ==> after.txs[k] == after.txs[..|l.txs|][k];
    forall node ensures Balance(after.txs, node) == Balance(l.txs, node) + Moves(q, node) {
      AppendMoves(l, env, q, node, "1970-01-01");
    }
    forall node, day: Day ensures CounterMoved(l, after, q, node, day) {
      AppendMoves(l, env, q, node, day);
    }
  }

  // ------------------------------------------------------- a list of requests

  /** The ledger as one request after the other is appended. */
  ghost predicate Appends(tr: seq<Ledger>, env: Env, qs: seq<Request>)
  {
    |tr| == |qs| + 1 && forall i :: 0 <= i < |qs| ==> tr[i + 1] == AppendRequest(tr[i], env, qs[i])
  }

  ghost predicate TakenDown(tr: seq<Ledger>, qs: seq<Request>)
  {
    |tr| == |qs| + 1 && forall i :: 0 <= i < |qs| ==> TakesDown(tr[i], tr[i + 1], qs[i])
  }

  lemma AppendsTakeDown(tr: seq<Ledger>, env: Env, qs: seq<Request>)
    requires Appends(tr, env, qs)
    ensures TakenDown(tr, qs)
  {
    forall i | 0 <= i < |qs| ensures TakesDown(tr[i], tr[i + 1], qs[i]) {
      AppendTakesDown(tr[i], env, qs[i]);
    }
  }

  function AllMoves(qs: seq<Request>, node: string): int
  {
    if qs == [] then 0 else AllMoves(qs[..|qs| - 1], node) + Moves(qs[|qs| - 1], node)
  }

  function AllContributes(qs: seq<Request>, node: string, day: Day): int
  {
    if qs == [] then 0 else AllContributes(qs[..|qs| - 1], node, day) + Contributes(qs[|qs| - 1], node, day)
  }

  lemma TakenFront(tr: seq<Ledger>, qs: seq<Request>)
    requires TakenDown(tr, qs) && qs != []
    ensures TakenDown(tr[..|qs|], qs[..|qs| - 1])
    ensures TakesDown(tr[|qs| - 1], tr[|qs|], qs[|qs| - 1])
  {
  }

  lemma PlacedStays(txs: seq<Transaction>, more: seq<Transaction>, at: nat, q: Request)
    requires Placed(txs, at, q) && |txs| <= |more| && forall k :: 0 <= k < |txs| ==> more[k] == txs[k]
    ensures Placed(more, at, q)
  {
  }

  lemma {:induction false} TakenPlaces(tr: seq<Ledger>, qs: seq<Request>, i: nat)
    requires TakenDown(tr, qs) && i < |qs|
    ensures |tr[|qs|].txs| == |tr[0].txs| + |qs| && Placed(tr[|qs|].txs, |tr[0].txs| + i, qs[i])
  {
    var n := |qs| - 1;
    TakenFront(tr, qs);
    if n > 0 { TakenPlaces(tr[..n + 1], qs[..n], if i < n then i else 0); }
    if i < n { PlacedStays(tr[n].txs, tr[n + 1].txs, |tr[0].txs| + i, qs[i]); }
  }

  /** A list of requests: the ledger holds them behind what was there, in their order, each linked to the one before. */
  lemma LedgerSays(tr: seq<Ledger>, env: Env, qs: seq<Request>, i: nat)
    requires Appends(tr, env, qs) && i < |qs|
    ensures |tr[|qs|].txs| == |tr[0].txs| + |qs| && Placed(tr[|qs|].txs, |tr[0].txs| + i, qs[i])
  {
    AppendsTakeDown(tr, env, qs);
    TakenPlaces(tr, qs, i);
  }

  lemma {:induction false} TakenMoves(tr: seq<Ledger>, qs: seq<Request>, node: string)
    requires TakenDown(tr, qs)
    ensures Balance(tr[|qs|].txs, node) == Balance(tr[0].txs, node) + AllMoves(qs, node)
  {
    if qs != [] {
      TakenFront(tr, qs);
      TakenMoves(tr[..|qs|], qs[..|qs| - 1], node);
    }
  }

  /** And every balance is what it was and what the requests come to. */
  lemma LedgerMoves(tr: seq<Ledger>, env: Env, qs: seq<Request>, node: string)
    requires Appends(tr, env, qs)
    ensures Balance(tr[|qs|].txs, node) == Balance(tr[0].txs, node) + AllMoves(qs, node)
  {
    AppendsTakeDown(tr, env, qs);
    TakenMoves(tr, qs, node);
  }

  lemma CounterStep(before: int, sum: int, more: int, after: int)
    requires before == Wrap64(sum) && after == if more == 0 then before else Wrap64(before + more)
    ensures after == Wrap64(sum + more)
  {
    WrapAdds(sum, more);
  }

  lemma {:induction false} TakenCounts(tr: seq<Ledger>, qs: seq<Request>, node: string, day: Day, start: int)
    requires TakenDown(tr, qs) && Lookup(tr[0].daily, node + "|" + day) == Wrap64(start)
    ensures Lookup(tr[|qs|].daily, node + "|" + day) == Wrap64(start + AllContributes(qs, node, day))
  {
    if qs != [] {
      var n := |qs| - 1;
      var key := node + "|" + day;
      TakenFront(tr, qs);
      TakenCounts(tr[..n + 1], qs[..n], node, day, start);
      assert CounterMoved(tr[n], tr[n + 1], qs[n], node, day);
      CounterStep(Lookup(tr[n].daily, key), start + AllContributes(qs[..n], node, day),
        Contributes(qs[n], node, day), Lookup(tr[n + 1].daily, key));
    }
  }

  /** A day's counter that stood for an amount stands for what was contributed that day as well. */
  lemma LedgerCounts(tr: seq<Ledger>, env: Env, qs: seq<Request>, node: string, day: Day, start: int)
    requires Appends(tr, env, qs) && Lookup(tr[0].daily, node + "|" + day) == Wrap64(start)
    ensures Lookup(tr[|qs|].daily, node + "|" + day) == Wrap64(start + AllContributes(qs, node, day))
  {
    AppendsTakeDown(tr, env, qs);
    TakenCounts(tr, qs, node, day, start);
  }

  // ------------------------------------------------------------------ records

  /** The id a record gets if it has none. */
  function GivenId(k: Kind, peer: string, n: nat): string
  {
    match k
    case Contribution => "contrib-" + peer + "-" + Dec(n)
    case Trust => "trust-" + peer + "-" + Dec(n)
    case Claim => "claim-" + peer + "-" + Dec(n)
    case Penalty => "penalty-" + peer + "-" + Dec(n)
  }

  lemma GivenIdIs(k: Kind, peer: string, n: nat)
    ensures NumberedId(IdWord(k), peer, n) == GivenId(k, peer, n)
  {
    var rest := peer + "-" + Dec(n);
    match k
    case Contribution => assert "contrib" + "-" == "contrib-";
    case Trust => assert "trust" + "-" == "trust-";
    case Claim => assert "claim" + "-" == "claim-";
    case Penalty => assert "penalty" + "-" == "penalty-";
  }

  /** A record as it is stored: what it said, its gaps filled, signed if it is a contribution or a penalty. */
  predicate StoredAs(stored: Record, r: Record, env: Env, k: Kind, id: string, peer: string, now: int)
  {
    var filled := r.(id := id,
                     peer := if r.peer == "" then peer else r.peer,
                     stamp := if r.stamp == None then Some(now) else r.stamp);
    var signature := env.signRecord(filled);
    var signed := if (k == Contribution || k == Penalty) && signature.Some?
                  then filled.(signature := signature.value) else filled;
    var content := env.contentId(signed);
    stored == if k == Contribution && content.Some?
              then signed.(proof := StorageProof(content.value, "local-hash", r.proof.verified)) else signed
  }

  lemma CompletedSays(l: Ledger, env: Env, k: Kind, r: Record, now: int)
    ensures
      var id := if r.id == "" then GivenId(k, l.peer, l.seqNo + 1) else r.id;
      var r1 := Completed(l, env, k, r, now);
      r1.id == id && StoredAs(if k.Contribution? then WithProof(env, r1) else r1, r, env, k, id, l.peer, now)
  {
    GivenIdIs(k, l.peer, l.seqNo + 1);
  }

  lemma PutSays(l: Ledger, k: Kind, r: Record)
    ensures
      var after := Put(l, k, r);
      && after.Table(k) == l.Table(k)[r.id := r]
      && (forall other :: other != k ==> after.Table(other) == l.Table(other))
      && after.seqNo == l.seqNo && after.txs == l.txs && after.txIndex == l.txIndex && after.daily == l.daily
  {
  }

  /** A record is stored under its own id or a fresh number, and no other record changes. */
  lemma RecordSays(l: Ledger, env: Env, k: Kind, r: Record, now: int)
    ensures
      var after := Recorded(l, env, k, r, now);
      var id := if r.id == "" then GivenId(k, l.peer, l.seqNo + 1) else r.id;
      && id in after.Table(k) && StoredAs(after.Table(k)[id], r, env, k, id, l.peer, now)
      && after.Table(k) == l.Table(k)[id := after.Table(k)[id]]
      && (forall other :: other != k ==> after.Table(other) == l.Table(other))
      && after.seqNo == (if r.id == "" then l.seqNo + 1 else l.seqNo)
      && after.txs == l.txs && after.txIndex == l.txIndex && after.daily == l.daily
  {
    var r1 := Completed(l, env, k, r, now);
    var stored := if k.Contribution? then WithProof(env, r1) else r1;
    CompletedSays(l, env, k, r, now);
    PutSays(Counted(l, r), k, stored);
    CountedSays(l, r);
  }

  lemma CountedSays(l: Ledger, r: Record)
    ensures
      var after := Counted(l, r);
      && (forall k :: after.Table(k) == l.Table(k))
      && after.seqNo == (if r.id == "" then l.seqNo + 1 else l.seqNo)
      && after.txs == l.txs && after.txIndex == l.txIndex && after.daily == l.daily
  {
  }
}
