// The Kademlia RPC layer: one node's message handling and iterative lookups, and
// the in-process network of nodes as a step system.

module DhtNetwork {
  import opened Wrappers
  import opened XorMetric
  import opened Kademlia
  import Sorting

  const MAX_ROUNDS: nat := 256
  const MAX_STORE_VALUE: nat := 16 * 1024
  const MAX_KEY_LEN: nat := 256

  datatype MsgType =
    | Ping | Pong | FindNode | FindNodeResp | FindValue | FindValueResp | Store | StoreAck | Unknown(text: string)

  datatype Message = Message(
    msgId: string, from: Id, fromAddr: string, kind: MsgType, target: Id, key: string, value: seq<bv8>,
    entries: seq<Entry>, found: bool, keyId: string, pubKey: string, sig: string)

  /** One node: its table, its record store and its address book. */
  datatype NodeState = NodeState(id: Id, addr: string, table: Table, records: map<string, Record>,
                                 book: map<Id, string>)

  ghost predicate NodeInv(n: NodeState)
  {
    TableInv(n.id, n.table)
  }

  // ------------------------------------------------------ nearest-k as a function

  ghost predicate IdsApart(all: set<Entry>)
  {
    forall a, b :: a in all && b in all && a.id == b.id ==> a == b
  }

  lemma NearestExists(all: set<Entry>, target: Id) returns (m: Entry)
    requires all != {} && IdsApart(all)
    ensures m in all && forall e :: e in all && e != m ==> Far(target, m) < Far(target, e)
    decreases |all|
  {
    m :| m in all;
    var rest := all - {m};
    if rest != {} {
      var n := NearestExists(rest, target);
      if Far(target, m) == Far(target, n) { DistanceUnique(target, m.id, n.id); }
      if Far(target, n) < Far(target, m) { m := n; }
    }
  }

  lemma {:induction false} ClosestExists(all: set<Entry>, target: Id, count: nat) returns (out: seq<Entry>)
    requires IdsApart(all)
    ensures IsClosest(all, target, count, out)
    decreases count
  {
    if count == 0 || all == {} {
      out := [];
    } else {
      var m := NearestExists(all, target);
      var rest := ClosestExists(all - {m}, target, count - 1);
      ClosestCons(all, target, count, m, rest);
      out := [m] + rest;
    }
  }

  lemma ClosestCons(all: set<Entry>, target: Id, count: nat, m: Entry, rest: seq<Entry>)
    requires count > 0 && m in all && IsClosest(all - {m}, target, count - 1, rest)
    requires forall e :: e in all && e != m ==> Far(target, m) < Far(target, e)
    ensures IsClosest(all, target, count, [m] + rest)
  {
    var out := [m] + rest;
    assert |all - {m}| == |all| - 1;
    ClosestConsOrder(all, target, m, rest);
    forall e, i | e in all && e !in out && 0 <= i < |out| ensures Far(target, out[i]) < Far(target, e) {
      assert e in all - {m} && e !in rest;
      if i > 0 { assert out[i] == rest[i - 1]; }
    }
  }

  lemma ClosestConsOrder(all: set<Entry>, target: Id, m: Entry, rest: seq<Entry>)
    requires m in all && forall i :: 0 <= i < |rest| ==> rest[i] in all - {m}
    requires forall i, j :: 0 <= i < j < |rest| ==> Far(target, rest[i]) < Far(target, rest[j])
    requires forall e :: e in all && e != m ==> Far(target, m) < Far(target, e)
    ensures var out := [m] + rest;
            && (forall i :: 0 <= i < |out| ==> out[i] in all)
            && (forall i, j :: 0 <= i < j < |out| ==> Far(target, out[i]) < Far(target, out[j]))
  {
    var out := [m] + rest;
    assert forall i :: 0 < i < |out| ==> out[i] == rest[i - 1];
  }

  lemma TableApart(self: Id, t: Table)
    requires TableInv(self, t)
    ensures IdsApart(Entries(t))
  {
    FlattenDistinct(self, t);
  }

  lemma ClosestHasAnswer(self: Id, t: Table, target: Id, count: nat)
    requires TableInv(self, t)
    ensures exists out :: IsClosest(Entries(t), target, count, out)
  {
    TableApart(self, t);
    var out := ClosestExists(Entries(t), target, count);
  }

  /** The count nearest entries; ClosestUnique makes this the only possible answer. */
  ghost function Closest(self: Id, t: Table, target: Id, count: nat): (out: seq<Entry>)
    requires TableInv(self, t)
    ensures IsClosest(Entries(t), target, count, out)
  {
    ClosestHasAnswer(self, t, target, count);
    var out :| IsClosest(Entries(t), target, count, out);
    out
  }

  // ------------------------------------------------------------- one node's steps

  function Learn(n: NodeState, e: Entry, now: int): (r: NodeState)
    requires NodeInv(n)
    ensures NodeInv(r) && r.id == n.id && r.addr == n.addr && r.records == n.records
  {
    if e.id == n.id then n
    else
      AddKeepsInv(n.id, n.table, e, now);
      n.(book := if |e.addresses| > 0 then n.book[e.id := e.addresses[0]] else n.book,
         table := Add(n.id, n.table, e, now))
  }

  function LearnAll(n: NodeState, es: seq<Entry>, now: int): (r: NodeState)
    requires NodeInv(n)
    ensures NodeInv(r) && r.id == n.id && r.addr == n.addr && r.records == n.records
  {
    if es == [] then n else Learn(LearnAll(n, es[..|es| - 1], now), es[|es| - 1], now)
  }

  function RespType(t: MsgType): MsgType
  {
    match t
    case Ping => Pong
    case FindNode => FindNodeResp
    case FindValue => FindValueResp
    case Store => StoreAck
    case _ => t
  }

  function SelfEntry(n: NodeState): Entry { Entry(n.id, [n.addr], 0) }

  function BlankId(): Id { seq(ID_BYTES, _ => 0) }

  function Blank(n: NodeState, msg: Message): Message
  {
    Message(msg.msgId, n.id, n.addr, RespType(msg.kind), BlankId(), "", [], [], false, "", "", "")
  }

  predicate Oversized(msg: Message) { |msg.key| > MAX_KEY_LEN || |msg.value| > MAX_STORE_VALUE }

  /** The requester is learned before the message is looked at. */
  function AfterHello(n: NodeState, msg: Message, now: int): (r: NodeState)
    requires NodeInv(n)
    ensures NodeInv(r) && r.id == n.id && r.addr == n.addr && r.records == n.records
    ensures msg.from == n.id ==> r == n
  {
    if msg.from != n.id && msg.fromAddr != "" then Learn(n, Entry(msg.from, [msg.fromAddr], 0), now) else n
  }

  ghost function Handle(n: NodeState, msg: Message, now: int): (r: (NodeState, Message))
    requires NodeInv(n)
    ensures NodeInv(r.0) && r.0.id == n.id && r.0.addr == n.addr
  {
    var n1 := AfterHello(n, msg, now);
    var resp := Blank(n1, msg);
    match msg.kind
    case FindNode => (n1, resp.(entries := [SelfEntry(n1)] + Closest(n1.id, n1.table, msg.target, K)))
    case FindValue =>
      if msg.key in n1.records && now <= n1.records[msg.key].expiresAt
      then (n1, resp.(found := true, value := n1.records[msg.key].value))
      else (n1, resp.(entries := [SelfEntry(n1)] + Closest(n1.id, n1.table, msg.target, K)))
    case Store =>
      if Oversized(msg) then (n1, resp)
      else (n1.(records := n1.records[msg.key := Record(msg.key, msg.value, msg.from, now + RECORD_TTL)]), resp)
    case _ => (n1, resp)
  }

  /** A STORE is always acknowledged, yet it stores the value exactly when it is within the caps. */
  lemma StoreAckedButStoredIff(n: NodeState, msg: Message, now: int)
    requires NodeInv(n) && msg.kind == Store
    ensures var r := Handle(n, msg, now);
            && r.1.kind == StoreAck
            && (!Oversized(msg) ==> msg.key in r.0.records && r.0.records[msg.key].value == msg.value
                                    && r.0.records[msg.key].expiresAt == now + RECORD_TTL)
            && (Oversized(msg) ==> r.0.records == n.records)
            && (forall key :: key != msg.key ==> (key in r.0.records <==> key in n.records)
                                                 && (key in n.records ==> r.0.records[key] == n.records[key]))
  {
  }

  /** Only a STORE within the caps touches the records. */
  lemma HandleRecords(n: NodeState, msg: Message, now: int)
    requires NodeInv(n)
    ensures Handle(n, msg, now).0.records ==
      if msg.kind == Store && !Oversized(msg)
      then n.records[msg.key := Record(msg.key, msg.value, msg.from, now + RECORD_TTL)]
      else n.records
  {
  }

  // ------------------------------------------------------------ iterative lookup

  /** What the transport answers to one query: nothing (an error), or a message, at some time. */
  datatype Reply = Reply(now: int, answer: Option<Message>)

  ghost predicate Queryable(n: NodeState, queried: seq<Id>, e: Entry)
  {
    e.id != n.id && e.id !in queried && e.id in n.book
  }

  /** The nearest of the 20 closest entries that is not self, not queried and has an address. */
  ghost function NextUnqueried(n: NodeState, target: Id, queried: seq<Id>): (r: Option<Entry>)
    requires NodeInv(n)
    ensures r.Some? ==> Queryable(n, queried, r.value) && r.value in Closest(n.id, n.table, target, K)
    ensures r.None? ==> forall e :: e in Closest(n.id, n.table, target, K) ==> !Queryable(n, queried, e)
    ensures r.Some? ==> forall e :: e in Closest(n.id, n.table, target, K) && Queryable(n, queried, e) ==>
                                    Far(target, r.value) <= Far(target, e)
  {
    FirstQueryable(n, target, Closest(n.id, n.table, target, K), queried)
  }

  ghost function FirstQueryable(n: NodeState, target: Id, es: seq<Entry>, queried: seq<Id>): (r: Option<Entry>)
    requires forall i, j :: 0 <= i < j < |es| ==> Far(target, es[i]) < Far(target, es[j])
    ensures r.Some? ==> r.value in es && Queryable(n, queried, r.value)
    ensures r.None? ==> forall e :: e in es ==> !Queryable(n, queried, e)
    ensures r.Some? ==> forall e :: e in es && Queryable(n, queried, e) ==> Far(target, r.value) <= Far(target, e)
  {
    if es == [] then None
    else if Queryable(n, queried, es[0]) then Some(es[0])
    else FirstQueryable(n, target, es[1..], queried)
  }

  lemma NextFrom(n: NodeState, target: Id, es: seq<Entry>, i: nat, queried: seq<Id>)
    requires i < |es| && forall j, k :: 0 <= j < k < |es| ==> Far(target, es[j]) < Far(target, es[k])
    ensures FirstQueryable(n, target, es[i..], queried) ==
      if Queryable(n, queried, es[i]) then Some(es[i]) else FirstQueryable(n, target, es[i + 1..], queried)
  {
    assert es[i..][0] == es[i] && es[i..][1..] == es[i + 1..];
  }

  ghost function Absorb(n: NodeState, reply: Reply): (r: NodeState)
    requires NodeInv(n)
    ensures NodeInv(r) && r.id == n.id && r.addr == n.addr && r.records == n.records
  {
    if reply.answer.Some? then LearnAll(n, reply.answer.value.entries, reply.now) else n
  }

  /** The lookup loop, one round per reply: the final node and the ids queried, in order. */
  ghost function Lookup(n: NodeState, target: Id, replies: seq<Reply>, queried: seq<Id>): (r: (NodeState, seq<Id>))
    requires NodeInv(n)
    ensures NodeInv(r.0) && r.0.id == n.id && r.0.addr == n.addr && r.0.records == n.records
    decreases |replies|
  {
    if replies == [] then (n, queried)
    else match NextUnqueried(n, target, queried)
      case None => (n, queried)
      case Some(e) => Lookup(Absorb(n, replies[0]), target, replies[1..], queried + [e.id])
  }

  /** No node is queried twice, self never, and there are no more queries than rounds. */
  lemma {:induction false} LookupQueriesOnce(n: NodeState, target: Id, replies: seq<Reply>, queried: seq<Id>)
    requires NodeInv(n) && Sorting.NoRepeats(queried) && n.id !in queried
    ensures var r := Lookup(n, target, replies, queried);
            Sorting.NoRepeats(r.1) && n.id !in r.1 && queried <= r.1 && |r.1| <= |queried| + |replies|
    decreases |replies|
  {
    if replies != [] {
      var next := NextUnqueried(n, target, queried);
      if next.Some? {
        LookupQueriesOnce(Absorb(n, replies[0]), target, replies[1..], queried + [next.value.id]);
      }
    }
  }

  /** If the rounds were not used up, every addressed non-self entry of the 20 closest has been queried. */
  lemma {:induction false} LookupEarlyExit(n: NodeState, target: Id, replies: seq<Reply>, queried: seq<Id>)
    requires NodeInv(n)
    ensures var r := Lookup(n, target, replies, queried);
            |r.1| < |queried| + |replies| ==>
              forall e :: e in Closest(r.0.id, r.0.table, target, K) && e.id != r.0.id && e.id in r.0.book ==>
                e.id in r.1
    decreases |replies|
  {
    if replies != [] {
      var next := NextUnqueried(n, target, queried);
      if next.Some? {
        LookupEarlyExit(Absorb(n, replies[0]), target, replies[1..], queried + [next.value.id]);
      } else {
        forall e | e in Closest(n.id, n.table, target, K) && e.id != n.id && e.id in n.book ensures e.id in queried {
          assert !Queryable(n, queried, e);
        }
      }
    }
  }

  lemma LearnGrows(n: NodeState, e: Entry, now: int, id: Id)
    requires NodeInv(n)
    ensures InTable(n.table, id) ==> InTable(Learn(n, e, now).table, id)
  {
    if e.id != n.id { AddMembers(n.id, n.table, e, now, id); }
  }

  lemma {:induction false} LearnAllGrows(n: NodeState, es: seq<Entry>, now: int, id: Id)
    requires NodeInv(n)
    ensures InTable(n.table, id) ==> InTable(LearnAll(n, es, now).table, id)
  {
    if es != [] {
      LearnAllGrows(n, es[..|es| - 1], now, id);
      LearnGrows(LearnAll(n, es[..|es| - 1], now), es[|es| - 1], now, id);
    }
  }

  lemma {:induction false} LookupGrows(n: NodeState, target: Id, replies: seq<Reply>, queried: seq<Id>, id: Id)
    requires NodeInv(n)
    ensures InTable(n.table, id) ==> InTable(Lookup(n, target, replies, queried).0.table, id)
    decreases |replies|
  {
    if replies != [] {
      var next := NextUnqueried(n, target, queried);
      if next.Some? {
        if replies[0].answer.Some? { LearnAllGrows(n, replies[0].answer.value.entries, replies[0].now, id); }
        LookupGrows(Absorb(n, replies[0]), target, replies[1..], queried + [next.value.id], id);
      }
    }
  }

  lemma TableHasEntry(t: Table, id: Id) returns (e: Entry)
    requires InTable(t, id)
    ensures e in Entries(t) && e.id == id
  {
    var b :| 0 <= b < |t| && InBucket(t[b], id);
    var i :| 0 <= i < |t[b]| && t[b][i].id == id;
    e := t[b][i];
    FlattenMembers(t, e);
  }

  lemma EntryInTable(t: Table, e: Entry)
    requires e in Entries(t)
    ensures InTable(t, e.id)
  {
    FlattenMembers(t, e);
    var b :| 0 <= b < |t| && e in t[b];
    var i :| 0 <= i < |t[b]| && t[b][i] == e;
    assert InBucket(t[b], e.id);
  }

  /** The closest known distance to the target never grows, over any number of rounds. */
  lemma LookupNeverRetreats(n: NodeState, target: Id, replies: seq<Reply>, queried: seq<Id>)
    requires NodeInv(n)
    requires Closest(n.id, n.table, target, 1) != []
    ensures var r := Lookup(n, target, replies, queried).0;
            && Closest(r.id, r.table, target, 1) != []
            && Far(target, Closest(r.id, r.table, target, 1)[0]) <= Far(target, Closest(n.id, n.table, target, 1)[0])
  {
    var r := Lookup(n, target, replies, queried).0;
    var e := Closest(n.id, n.table, target, 1)[0];
    EntryInTable(n.table, e);
    LookupGrows(n, target, replies, queried, e.id);
    var e' := TableHasEntry(r.table, e.id);
    var c := Closest(r.id, r.table, target, 1);
    assert |Entries(r.table)| > 0;
    NearestFirst(Entries(r.table), target, 1, c, e');
  }

  /** The value lookup: it stops at the first answer that carries the value. */
  ghost function LookupValue(n: NodeState, target: Id, replies: seq<Reply>, queried: seq<Id>)
    : (r: (NodeState, seq<Id>, Option<seq<bv8>>))
    requires NodeInv(n)
    ensures NodeInv(r.0) && r.0.id == n.id && r.0.addr == n.addr && r.0.records == n.records
    decreases |replies|
  {
    if replies == [] then (n, queried, None)
    else match NextUnqueried(n, target, queried)
      case None => (n, queried, None)
      case Some(e) =>
        if replies[0].answer.Some? && replies[0].answer.value.found
        then (n, queried + [e.id], Some(replies[0].answer.value.value))
        else LookupValue(Absorb(n, replies[0]), target, replies[1..], queried + [e.id])
  }

  // -------------------------------------------------------------- bucket refresh

  predicate Pingable(self: Id, e: Entry) { |e.addresses| > 0 && e.id != self }

  /** A stale entry of the node that can be pinged does not answer. */
  ghost predicate Evicts(n: NodeState, cutoff: int, answers: Id -> bool, id: Id)
  {
    exists e :: e in Entries(n.table) && e.id == id && e.lastSeen < cutoff && Pingable(n.id, e) && !answers(id)
  }

  ghost predicate Dead(self: Id, stale: seq<Entry>, answers: Id -> bool, id: Id)
  {
    exists k :: 0 <= k < |stale| && Pingable(self, stale[k]) && !answers(stale[k].id) && stale[k].id == id
  }

  lemma DeadSnoc(self: Id, stale: seq<Entry>, e: Entry, answers: Id -> bool, id: Id)
    ensures Dead(self, stale + [e], answers, id) <==>
      Dead(self, stale, answers, id) || (Pingable(self, e) && !answers(e.id) && id == e.id)
  {
    var more := stale + [e];
    if Dead(self, stale, answers, id) {
      var k :| 0 <= k < |stale| && Pingable(self, stale[k]) && !answers(stale[k].id) && stale[k].id == id;
      assert more[k] == stale[k];
    }
    assert more[|stale|] == e;
    if Dead(self, more, answers, id) {
      var k :| 0 <= k < |more| && Pingable(self, more[k]) && !answers(more[k].id) && more[k].id == id;
      assert k < |stale| ==> stale[k] == more[k];
    }
  }

  lemma DeadIsEvicts(n: NodeState, stale: seq<Entry>, cutoff: int, answers: Id -> bool)
    requires forall e :: e in stale <==> e in Entries(n.table) && e.lastSeen < cutoff
    ensures forall id :: Dead(n.id, stale, answers, id) <==> Evicts(n, cutoff, answers, id)
  {
    forall id ensures Dead(n.id, stale, answers, id) <==> Evicts(n, cutoff, answers, id) {
      if Dead(n.id, stale, answers, id) {
        var k :| 0 <= k < |stale| && Pingable(n.id, stale[k]) && !answers(stale[k].id) && stale[k].id == id;
        assert stale[k] in stale;
      }
      if Evicts(n, cutoff, answers, id) {
        var e :| e in Entries(n.table) && e.id == id && e.lastSeen < cutoff && Pingable(n.id, e) && !answers(id);
        assert e in stale;
      }
    }
  }

  /** One ping: a dead entry leaves table and address book, a live one is stamped. */
  function RefreshStep(n: NodeState, e: Entry, answers: Id -> bool, now: int): (r: NodeState)
    requires |n.table| == BUCKETS
    ensures |r.table| == BUCKETS
  {
    if !Pingable(n.id, e) then n
    else if answers(e.id) then n.(table := Add(n.id, n.table, e, now))
    else n.(table := Remove(n.id, n.table, e.id), book := n.book - {e.id})
  }

  function RefreshAll(n: NodeState, stale: seq<Entry>, answers: Id -> bool, now: int): (r: NodeState)
    requires |n.table| == BUCKETS
    ensures |r.table| == BUCKETS
  {
    if stale == [] then n
    else RefreshStep(RefreshAll(n, stale[..|stale| - 1], answers, now), stale[|stale| - 1], answers, now)
  }

  lemma {:induction false} RefreshMembers(n: NodeState, stale: seq<Entry>, answers: Id -> bool, now: int, id: Id)
    requires NodeInv(n) && forall e :: e in stale ==> e in Entries(n.table)
    ensures var r := RefreshAll(n, stale, answers, now);
            && NodeInv(r) && r.id == n.id && r.records == n.records
            && (InTable(r.table, id) <==> InTable(n.table, id) && !Dead(n.id, stale, answers, id))
            && (id in r.book <==> id in n.book && !Dead(n.id, stale, answers, id))
            && (id in r.book ==> r.book[id] == n.book[id])
  {
    if stale != [] {
      var rest, e := stale[..|stale| - 1], stale[|stale| - 1];
      var m := RefreshAll(n, rest, answers, now);
      assert stale == rest + [e];
      RefreshMembers(n, rest, answers, now, id);
      DeadSnoc(n.id, rest, e, answers, id);
      AddKeepsInv(n.id, m.table, e, now);
      AddMembers(n.id, m.table, e, now, id);
      RemoveKeepsInv(n.id, m.table, e.id);
      RemoveMembers(n.id, m.table, e.id, id);
      EntryInTable(n.table, e);
      if answers(e.id) { StillThere(n.id, rest, answers, e.id); }
    }
  }

  /** A refresh evicts exactly the stale entries that could be pinged and did not answer. */
  lemma RefreshEvictsExactly(n: NodeState, stale: seq<Entry>, cutoff: int, answers: Id -> bool, now: int, id: Id)
    requires NodeInv(n) && forall e :: e in stale <==> e in Entries(n.table) && e.lastSeen < cutoff
    ensures var r := RefreshAll(n, stale, answers, now);
            && NodeInv(r) && r.records == n.records
            && (InTable(r.table, id) <==> InTable(n.table, id) && !Evicts(n, cutoff, answers, id))
            && (id in r.book <==> id in n.book && !Evicts(n, cutoff, answers, id))
  {
    RefreshMembers(n, stale, answers, now, id);
    DeadIsEvicts(n, stale, cutoff, answers);
  }

  /** How many entries of a list pass a test. */
  function CountIf(es: seq<Entry>, test: Entry -> bool): nat
  {
    if es == [] then 0 else CountIf(es[..|es| - 1], test) + if test(es[|es| - 1]) then 1 else 0
  }

  function Passing(es: seq<Entry>, test: Entry -> bool): set<Entry>
  {
    set e | e in es && test(e)
  }

  lemma PassingSnoc(front: seq<Entry>, last: Entry, test: Entry -> bool)
    ensures Passing(front + [last], test) == Passing(front, test) + if test(last) then {last} else {}
  {
  }

  /** In a list without repeats they are as many as the set of them. */
  lemma {:induction false} CountIfIsSize(es: seq<Entry>, test: Entry -> bool)
    requires DistinctIds(es)
    ensures CountIf(es, test) == |Passing(es, test)|
  {
    if es == [] {
      assert Passing(es, test) == {};
    } else {
      var front, last := es[..|es| - 1], es[|es| - 1];
      assert es == front + [last];
      CountIfIsSize(front, test);
      PassingSnoc(front, last, test);
      assert last !in front;
    }
  }

  /** The stale entries of a node that a refresh pings. */
  ghost function Due(n: NodeState, cutoff: int): set<Entry>
  {
    set e | e in Entries(n.table) && e.lastSeen < cutoff && Pingable(n.id, e)
  }

  /** Those that do not answer. */
  ghost function Unanswered(n: NodeState, cutoff: int, answers: Id -> bool): set<Entry>
  {
    set e | e in Due(n, cutoff) && !answers(e.id)
  }

  function PingTest(self: Id): Entry -> bool
  {
    (e: Entry) => Pingable(self, e)
  }

  function SilentTest(self: Id, answers: Id -> bool): Entry -> bool
  {
    (e: Entry) => Pingable(self, e) && !answers(e.id)
  }

  lemma DueCounts(n: NodeState, stale: seq<Entry>, cutoff: int, answers: Id -> bool)
    requires DistinctIds(stale) && forall e :: e in stale <==> e in Entries(n.table) && e.lastSeen < cutoff
    ensures CountIf(stale, PingTest(n.id)) == |Due(n, cutoff)|
    ensures CountIf(stale, SilentTest(n.id, answers)) == |Unanswered(n, cutoff, answers)|
  {
    CountIfIsSize(stale, PingTest(n.id));
    CountIfIsSize(stale, SilentTest(n.id, answers));
    assert Passing(stale, PingTest(n.id)) == Due(n, cutoff);
    assert Passing(stale, SilentTest(n.id, answers)) == Unanswered(n, cutoff, answers);
  }

  lemma CountMore(es: seq<Entry>, i: nat, self: Id, answers: Id -> bool)
    requires i < |es|
    ensures CountIf(es[..i + 1], PingTest(self)) ==
      CountIf(es[..i], PingTest(self)) + if Pingable(self, es[i]) then 1 else 0
    ensures CountIf(es[..i + 1], SilentTest(self, answers)) ==
      CountIf(es[..i], SilentTest(self, answers)) + if Pingable(self, es[i]) && !answers(es[i].id) then 1 else 0
  {
    assert es[..i + 1][..i] == es[..i];
  }

  lemma StillThere(self: Id, stale: seq<Entry>, answers: Id -> bool, id: Id)
    requires answers(id)
    ensures !Dead(self, stale, answers, id)
  {
  }

  // ------------------------------------------------------------------ the class

  /** The first entry of a nearest-k list that is not self, not queried and has an address. */
  method FirstOpen(self: Id, book: map<Id, string>, closest: seq<Entry>, queried: seq<Id>, ghost n: NodeState,
                   ghost target: Id)
    returns (next: Option<Entry>)
    requires n.id == self && n.book == book
    requires forall j, k :: 0 <= j < k < |closest| ==> Far(target, closest[j]) < Far(target, closest[k])
    ensures next == FirstQueryable(n, target, closest, queried)
  {
    for i := 0 to |closest|
      invariant FirstQueryable(n, target, closest, queried) == FirstQueryable(n, target, closest[i..], queried)
    {
      NextFrom(n, target, closest, i, queried);
      var e := closest[i];
      if e.id != self && e.id !in queried && e.id in book {
        return Some(e);
      }
    }
    return None;
  }

  class DHTNode {
    const id: Id
    const addr: string
    const dht: DHT
    var addrBook: map<Id, string>

    ghost predicate Valid()
      reads this, dht, dht.buckets
    {
      dht.Valid() && dht.self == id
    }

    ghost function State(): (s: NodeState)
      requires Valid()
      reads this, dht, dht.buckets
      ensures NodeInv(s)
    {
      NodeState(id, addr, dht.buckets[..], dht.records, addrBook)
    }

    constructor (selfId: Id, address: string)
      ensures Valid() && State() == NodeState(selfId, address, NoEntries(), map[], map[])
      ensures fresh(dht) && fresh(dht.buckets)
    {
      id := selfId;
      addr := address;
      addrBook := map[];
      dht := new DHT(selfId);
    }

    method LearnEntry(e: Entry, now: int)
      requires Valid()
      modifies this, dht.buckets
      ensures Valid() && State() == Learn(old(State()), e, now)
    {
      if e.id == id {
        return;
      }
      if |e.addresses| > 0 {
        addrBook := addrBook[e.id := e.addresses[0]];
      }
      dht.AddNode(e, now);
    }

    method LearnEntries(es: seq<Entry>, now: int)
      requires Valid()
      modifies this, dht.buckets
      ensures Valid() && State() == LearnAll(old(State()), es, now)
    {
      for i := 0 to |es|
        invariant Valid() && State() == LearnAll(old(State()), es[..i], now)
      {
        assert es[..i + 1][..i] == es[..i];
        LearnEntry(es[i], now);
      }
      assert es[..|es|] == es;
    }

    method HandleMessage(msg: Message, now: int) returns (resp: Message)
      requires Valid()
      modifies this, dht, dht.buckets
      ensures Valid() && (State(), resp) == Handle(old(State()), msg, now)
    {
      if msg.from != id && msg.fromAddr != "" {
        LearnEntry(Entry(msg.from, [msg.fromAddr], 0), now);
      }
      resp := Message(msg.msgId, id, addr, RespType(msg.kind), BlankId(), "", [], [], false, "", "", "");
      match msg.kind {
        case FindNode =>
          var closest := NearestK(msg.target);
          resp := resp.(entries := [Entry(id, [addr], 0)] + closest);
        case FindValue =>
          var rec := dht.Get(msg.key, now);
          if rec.Some? {
            resp := resp.(found := true, value := rec.value.value);
          } else {
            var closest := NearestK(msg.target);
            resp := resp.(entries := [Entry(id, [addr], 0)] + closest);
          }
        case Store =>
          if |msg.key| > MAX_KEY_LEN || |msg.value| > MAX_STORE_VALUE {
            return;
          }
          dht.Put(msg.key, msg.value, msg.from, now);
        case _ =>
      }
    }

    method NearestK(target: Id) returns (closest: seq<Entry>)
      requires Valid()
      ensures closest == Closest(id, dht.buckets[..], target, K)
    {
      closest := dht.FindClosest(target, K);
      ClosestUnique(Entries(dht.buckets[..]), target, K, closest, Closest(id, dht.buckets[..], target, K));
    }

    method FindNext(target: Id, queried: seq<Id>) returns (next: Option<Entry>)
      requires Valid()
      ensures next == NextUnqueried(State(), target, queried)
    {
      var closest := NearestK(target);
      next := FirstOpen(id, addrBook, closest, queried, State(), target);
    }

    /**
     Ping every entry not seen for maxAge and evict those that do not answer;
     `answers` stands for the transport.
     */
    method RefreshBuckets(maxAge: int, now: int, answers: Id -> bool)
        returns (pinged: nat, evicted: nat, ghost stale: seq<Entry>)
      requires Valid()
      modifies this, dht.buckets
      ensures Valid() && State() == RefreshAll(old(State()), stale, answers, now)
      ensures forall e :: e in stale <==> e in Entries(old(dht.buckets[..])) && e.lastSeen < now - maxAge
      ensures pinged == |Due(old(State()), now - maxAge)|
      ensures evicted == |Unanswered(old(State()), now - maxAge, answers)|
    {
      var due := StaleDue(maxAge, now, answers);
      stale := due;
      pinged, evicted := PingAll(due, now, answers);
    }

    /** The stale entries; as many can be pinged, and will not answer, as the sets say. */
    method StaleDue(maxAge: int, now: int, ghost answers: Id -> bool) returns (due: seq<Entry>)
      requires Valid()
      ensures forall e :: e in due <==> e in Entries(dht.buckets[..]) && e.lastSeen < now - maxAge
      ensures CountIf(due, PingTest(id)) == |Due(State(), now - maxAge)|
      ensures CountIf(due, SilentTest(id, answers)) == |Unanswered(State(), now - maxAge, answers)|
    {
      ghost var n := State();
      due := dht.StaleEntries(maxAge, now);
      DueCounts(n, due, now - maxAge, answers);
    }

    method PingAll(due: seq<Entry>, now: int, answers: Id -> bool) returns (pinged: nat, evicted: nat)
      requires Valid()
      modifies this, dht.buckets
      ensures Valid() && State() == RefreshAll(old(State()), due, answers, now)
      ensures pinged == CountIf(due, PingTest(id)) && evicted == CountIf(due, SilentTest(id, answers))
    {
      pinged, evicted := 0, 0;
      for i := 0 to |due|
        invariant Valid() && State() == RefreshAll(old(State()), due[..i], answers, now)
        invariant pinged == CountIf(due[..i], PingTest(id))
        invariant evicted == CountIf(due[..i], SilentTest(id, answers))
      {
        assert due[..i + 1][..i] == due[..i];
        CountMore(due, i, id, answers);
        if |due[i].addresses| > 0 && due[i].id != id {
          pinged := pinged + 1;
          var answered := Refresh(due[i], now, answers);
          if !answered { evicted := evicted + 1; }
        }
      }
      assert due[..|due|] == due;
    }

    /** One ping: a dead entry goes, a live one is stamped. */
    method Refresh(e: Entry, now: int, answers: Id -> bool) returns (answered: bool)
      requires Valid() && Pingable(id, e)
      modifies this, dht.buckets
      ensures Valid() && State() == RefreshStep(old(State()), e, answers, now) && answered == answers(e.id)
    {
      answered := answers(e.id);
      if !answered {
        var present := dht.RemoveNode(e.id);
        addrBook := addrBook - {e.id};
      } else {
        dht.AddNode(e, now);
      }
    }

    /** `replies` stands for the transport: its i-th element answers the i-th query. */
    method IterativeFindNode(target: Id, replies: seq<Reply>) returns (queried: seq<Id>)
      requires Valid() && |replies| == MAX_ROUNDS
      modifies this, dht.buckets
      ensures Valid() && (State(), queried) == Lookup(old(State()), target, replies, [])
    {
      queried := [];
      for round := 0 to MAX_ROUNDS
        invariant Valid()
        invariant Lookup(old(State()), target, replies, []) == Lookup(State(), target, replies[round..], queried)
      {
        var next := FindNext(target, queried);
        if next.None? {
          return;
        }
        queried := queried + [next.value.id];
        assert replies[round..][0] == replies[round] && replies[round..][1..] == replies[round + 1..];
        if replies[round].answer.Some? {
          LearnEntries(replies[round].answer.value.entries, replies[round].now);
        }
      }
    }

    method IterativeFindValue(target: Id, replies: seq<Reply>) returns (queried: seq<Id>, value: Option<seq<bv8>>)
      requires Valid() && |replies| == MAX_ROUNDS
      modifies this, dht.buckets
      ensures Valid() && (State(), queried, value) == LookupValue(old(State()), target, replies, [])
    {
      queried := [];
      for round := 0 to MAX_ROUNDS
        invariant Valid()
        invariant LookupValue(old(State()), target, replies, []) ==
          LookupValue(State(), target, replies[round..], queried)
      {
        var next := FindNext(target, queried);
        if next.None? {
          return queried, None;
        }
        queried := queried + [next.value.id];
        assert replies[round..][0] == replies[round] && replies[round..][1..] == replies[round + 1..];
        if replies[round].answer.Some? {
          if replies[round].answer.value.found {
            return queried, Some(replies[round].answer.value.value);
          }
          LearnEntries(replies[round].answer.value.entries, replies[round].now);
        }
      }
      value := None;
    }
  }
}
