// Runs of the in-process network: whatever messages are sent, a value found by a
// lookup was stored under that very key, within the caps, and has not expired.

module DhtRuns {
  import opened Wrappers
  import opened XorMetric
  import opened Kademlia
  import opened DhtNetwork

  /** A STORE that was accepted by the node registered at `addr`. */
  datatype StoreEvent = StoreEvent(addr: string, key: string, value: seq<bv8>, at: int)

  /** The nodes by address, and the history of accepted STOREs. */
  datatype Net = Net(nodes: map<string, NodeState>, log: set<StoreEvent>)

  datatype Step =
    | Register(addr: string, id: Id)
    | Send(addr: string, msg: Message, now: int)
    | LearnAt(addr: string, entry: Entry, now: int)
    | Evict(addr: string, id: Id)
    | Expire(addr: string, now: int)

  /** Delivery by the in-process transport: an unregistered address is an error. */
  ghost function Deliver(net: Net, addr: string, msg: Message, now: int): (r: (Net, Option<Message>))
    requires NetInv(net)
    ensures r.1.Some? <==> addr in net.nodes
    ensures r.0.nodes.Keys == net.nodes.Keys
    ensures forall a :: a in net.nodes ==> NodeInv(r.0.nodes[a])
  {
    if addr !in net.nodes then (net, None)
    else
      var h := Handle(net.nodes[addr], msg, now);
      var log := if msg.kind == Store && !Oversized(msg)
                 then net.log + {StoreEvent(addr, msg.key, msg.value, now)} else net.log;
      (Net(net.nodes[addr := h.0], log), Some(h.1))
  }

  function DropExpired(n: NodeState, now: int): NodeState
  {
    n.(records := map key | key in n.records && now <= n.records[key].expiresAt :: n.records[key])
  }

  ghost function Apply(net: Net, s: Step): Net
    requires NetInv(net)
  {
    match s
    case Register(addr, id) => net.(nodes := net.nodes[addr := NodeState(id, addr, NoEntries(), map[], map[])])
    case Send(addr, msg, now) => Deliver(net, addr, msg, now).0
    case LearnAt(addr, entry, now) =>
      if addr in net.nodes then net.(nodes := net.nodes[addr := Learn(net.nodes[addr], entry, now)]) else net
    case Evict(addr, id) =>
      if addr in net.nodes
      then
        var n := net.nodes[addr];
        net.(nodes := net.nodes[addr := n.(table := Remove(n.id, n.table, id), book := n.book - {id})])
      else net
    case Expire(addr, now) =>
      if addr in net.nodes then net.(nodes := net.nodes[addr := DropExpired(net.nodes[addr], now)]) else net
  }

  /** The record was put under this key by an accepted STORE at this address, and its deadline says when. */
  ghost predicate Justified(log: set<StoreEvent>, addr: string, key: string, r: Record)
  {
    exists at: int ::
      && StoreEvent(addr, key, r.value, at) in log
      && r.expiresAt == at + RECORD_TTL
      && |key| <= MAX_KEY_LEN && |r.value| <= MAX_STORE_VALUE
  }

  ghost predicate RecordsJustified(net: Net, addr: string)
    requires addr in net.nodes
  {
    forall key :: key in net.nodes[addr].records ==> Justified(net.log, addr, key, net.nodes[addr].records[key])
  }

  ghost predicate NetInv(net: Net)
  {
    forall a :: a in net.nodes ==> NodeInv(net.nodes[a])
  }

  ghost predicate Provenance(net: Net)
  {
    NetInv(net) && forall a :: a in net.nodes ==> RecordsJustified(net, a)
  }

  lemma JustifiedGrows(log: set<StoreEvent>, more: set<StoreEvent>, addr: string, key: string, r: Record)
    requires Justified(log, addr, key, r) && log <= more
    ensures Justified(more, addr, key, r)
  {
    var at :| StoreEvent(addr, key, r.value, at) in log && r.expiresAt == at + RECORD_TTL;
    assert StoreEvent(addr, key, r.value, at) in more;
  }

  lemma DeliverKeepsRecords(net: Net, addr: string, msg: Message, now: int, a: string)
    requires Provenance(net) && a in net.nodes
    ensures RecordsJustified(Deliver(net, addr, msg, now).0, a)
  {
    var after := Deliver(net, addr, msg, now).0;
    assert RecordsJustified(net, a);
    if a == addr { HandleRecords(net.nodes[a], msg, now); }
    forall key | key in after.nodes[a].records ensures Justified(after.log, a, key, after.nodes[a].records[key]) {
      var r := after.nodes[a].records[key];
      if a == addr && msg.kind == Store && !Oversized(msg) && key == msg.key {
        assert StoreEvent(addr, key, r.value, now) in after.log;
      } else {
        JustifiedGrows(net.log, after.log, a, key, r);
      }
    }
  }

  lemma SendKeepsProvenance(net: Net, addr: string, msg: Message, now: int)
    requires Provenance(net)
    ensures Provenance(Deliver(net, addr, msg, now).0)
    ensures net.log <= Deliver(net, addr, msg, now).0.log
    ensures msg.kind != Store ==> Deliver(net, addr, msg, now).0.log == net.log
  {
    forall a | a in net.nodes ensures RecordsJustified(Deliver(net, addr, msg, now).0, a) {
      DeliverKeepsRecords(net, addr, msg, now, a);
    }
  }

  lemma ApplyKeepsProvenance(net: Net, s: Step)
    requires Provenance(net)
    ensures Provenance(Apply(net, s)) && net.log <= Apply(net, s).log
  {
    match s
    case Send(addr, msg, now) => SendKeepsProvenance(net, addr, msg, now);
    case Register(addr, id) => EmptyTable(id);
    case Evict(addr, id) => if addr in net.nodes { RemoveKeepsInv(net.nodes[addr].id, net.nodes[addr].table, id); }
    case _ =>
    var net' := Apply(net, s);
    forall a | a in net'.nodes && !s.Send? ensures NodeInv(net'.nodes[a]) && RecordsJustified(net', a) {
      if a in net.nodes { assert RecordsJustified(net, a); }
    }
  }

  /** Folding a run, from the empty network. */
  ghost predicate Run(tr: seq<Net>, steps: seq<Step>)
  {
    && |tr| == |steps| + 1 && tr[0] == Net(map[], {})
    && forall k :: 0 <= k < |steps| ==> NetInv(tr[k]) && tr[k + 1] == Apply(tr[k], steps[k])
  }

  lemma {:induction false} RunKeepsProvenance(tr: seq<Net>, steps: seq<Step>, k: nat)
    requires Run(tr, steps) && k < |tr|
    ensures Provenance(tr[k])
  {
    if k > 0 {
      RunKeepsProvenance(tr, steps, k - 1);
      NextKeepsProvenance(tr, steps, k - 1);
    } else {
      NoNodesJustified();
    }
  }

  lemma NextKeepsProvenance(tr: seq<Net>, steps: seq<Step>, k: nat)
    requires Run(tr, steps) && k < |steps| && Provenance(tr[k])
    ensures Provenance(tr[k + 1])
  {
    ApplyKeepsProvenance(tr[k], steps[k]);
  }

  lemma NoNodesJustified()
    ensures Provenance(Net(map[], {}))
  {
  }

  /** Every logged event is a STORE sent earlier in the run, within the caps. */
  lemma {:induction false} LogIsHistory(tr: seq<Net>, steps: seq<Step>, k: nat, e: StoreEvent)
    requires Run(tr, steps) && k < |tr| && e in tr[k].log
    ensures exists j :: 0 <= j < k && SentStore(steps[j], e)
  {
    var prev := tr[k - 1];
    if e in prev.log {
      LogIsHistory(tr, steps, k - 1, e);
    } else {
      assert SentStore(steps[k - 1], e);
    }
  }

  ghost predicate SentStore(s: Step, e: StoreEvent)
  {
    s.Send? && s.msg.kind == Store && !Oversized(s.msg) && s.addr == e.addr && s.msg.key == e.key
      && s.msg.value == e.value && s.now == e.at
  }

  // ---------------------------------------------------- the value lookup, end to end

  ghost function LearnedNet(net: Net, me: string, es: seq<Entry>, now: int): (r: Net)
    requires NetInv(net) && me in net.nodes
    ensures NetInv(r) && me in r.nodes && r.log == net.log
  {
    net.(nodes := net.nodes[me := LearnAll(net.nodes[me], es, now)])
  }

  function Query(n: NodeState, key: string, target: Id): Message
  {
    Message("", n.id, n.addr, FindValue, target, key, [], [], false, "", "", "")
  }

  /** One round of the lookup asked of the network. */
  ghost function Asked(net: Net, me: string, key: string, target: Id, e: Entry, now: int): (d: (Net, Option<Message>))
    requires NetInv(net) && me in net.nodes && e.id in net.nodes[me].book
    ensures NetInv(d.0) && me in d.0.nodes
  {
    Deliver(net, net.nodes[me].book[e.id], Query(net.nodes[me], key, target), now)
  }

  /** The network after a round that found nothing. */
  ghost function Onward(net: Net, me: string, key: string, target: Id, e: Entry, now: int): (r: Net)
    requires NetInv(net) && me in net.nodes && e.id in net.nodes[me].book
    ensures NetInv(r) && me in r.nodes
  {
    var d := Asked(net, me, key, target, e, now);
    if d.1.None? then d.0 else LearnedNet(d.0, me, d.1.value.entries, now)
  }

  /** IterativeFindValue run by the node at `me` over the network itself. */
  ghost function FindValueAt(net: Net, me: string, key: string, target: Id, queried: seq<Id>, rounds: nat, now: int)
    : (r: (Net, Option<seq<bv8>>))
    requires NetInv(net) && me in net.nodes
    ensures NetInv(r.0)
    decreases rounds
  {
    if rounds == 0 then (net, None)
    else match NextUnqueried(net.nodes[me], target, queried)
      case None => (net, None)
      case Some(e) =>
        var d := Asked(net, me, key, target, e, now);
        if d.1.Some? && d.1.value.found then (d.0, Some(d.1.value.value))
        else FindValueAt(Onward(net, me, key, target, e, now), me, key, target, queried + [e.id], rounds - 1, now)
  }

  lemma LearningKeepsProvenance(net: Net, me: string, es: seq<Entry>, now: int)
    requires Provenance(net) && me in net.nodes
    ensures Provenance(LearnedNet(net, me, es, now))
  {
    var r := LearnedNet(net, me, es, now);
    forall a | a in r.nodes ensures RecordsJustified(r, a) {
      assert RecordsJustified(net, a);
    }
  }

  /** Some accepted STORE of exactly this key and value has not expired at `now`. */
  ghost predicate StoredAndFresh(log: set<StoreEvent>, key: string, value: seq<bv8>, now: int)
  {
    exists addr, at :: StoreEvent(addr, key, value, at) in log && now <= at + RECORD_TTL
                       && |key| <= MAX_KEY_LEN && |value| <= MAX_STORE_VALUE
  }

  lemma FoundIsStored(net: Net, addr: string, msg: Message, now: int)
    requires Provenance(net) && msg.kind == FindValue
    requires Deliver(net, addr, msg, now).1.Some? && Deliver(net, addr, msg, now).1.value.found
    ensures StoredAndFresh(net.log, msg.key, Deliver(net, addr, msg, now).1.value.value, now)
  {
    assert RecordsJustified(net, addr);
    var r := net.nodes[addr].records[msg.key];
    var at :| StoreEvent(addr, msg.key, r.value, at) in net.log && r.expiresAt == at + RECORD_TTL;
  }

  lemma FindValueRound(net: Net, me: string, key: string, target: Id, queried: seq<Id>, rounds: nat, left: nat,
                       now: int, e: Entry)
    requires NetInv(net) && me in net.nodes && rounds == left + 1
      && NextUnqueried(net.nodes[me], target, queried) == Some(e)
    ensures FindValueAt(net, me, key, target, queried, rounds, now) ==
      AfterAsking(net, me, key, target, queried, left, now, e)
  {
    SameRounds(net, me, key, target, queried, rounds, left + 1, now);
  }

  /** How a lookup goes on once it asks e. */
  ghost function AfterAsking(net: Net, me: string, key: string, target: Id, queried: seq<Id>, left: nat, now: int,
                             e: Entry): (Net, Option<seq<bv8>>)
    requires NetInv(net) && me in net.nodes && e.id in net.nodes[me].book
  {
    var d := Asked(net, me, key, target, e, now);
    if d.1.Some? && d.1.value.found then (d.0, Some(d.1.value.value))
    else FindValueAt(Onward(net, me, key, target, e, now), me, key, target, queried + [e.id], left, now)
  }

  lemma SameRounds(net: Net, me: string, key: string, target: Id, queried: seq<Id>, a: nat, b: nat, now: int)
    requires NetInv(net) && me in net.nodes && a == b
    ensures FindValueAt(net, me, key, target, queried, a, now) == FindValueAt(net, me, key, target, queried, b, now)
  {
  }

  lemma OnwardKeepsProvenance(net: Net, me: string, key: string, target: Id, e: Entry, now: int)
    requires Provenance(net) && me in net.nodes && e.id in net.nodes[me].book
    ensures Provenance(Asked(net, me, key, target, e, now).0) && Asked(net, me, key, target, e, now).0.log == net.log
    ensures Provenance(Onward(net, me, key, target, e, now)) && Onward(net, me, key, target, e, now).log == net.log
  {
    SendKeepsProvenance(net, net.nodes[me].book[e.id], Query(net.nodes[me], key, target), now);
    var d := Asked(net, me, key, target, e, now);
    if d.1.Some? { LearningKeepsProvenance(d.0, me, d.1.value.entries, now); }
  }

  /** The outcome of a lookup that any accepted STORE in the log explains. */
  ghost predicate Explained(log: set<StoreEvent>, key: string, now: int, r: (Net, Option<seq<bv8>>))
  {
    Provenance(r.0) && r.0.log == log && (r.1.Some? ==> StoredAndFresh(log, key, r.1.value, now))
  }

  lemma FoundExplained(net: Net, me: string, key: string, target: Id, e: Entry, now: int)
    requires Provenance(net) && me in net.nodes && e.id in net.nodes[me].book
    requires Asked(net, me, key, target, e, now).1.Some? && Asked(net, me, key, target, e, now).1.value.found
    ensures Explained(net.log, key, now,
      (Asked(net, me, key, target, e, now).0, Some(Asked(net, me, key, target, e, now).1.value.value)))
  {
    OnwardKeepsProvenance(net, me, key, target, e, now);
    FoundIsStored(net, net.nodes[me].book[e.id], Query(net.nodes[me], key, target), now);
  }

  /** What a lookup comes to from here on. */
  ghost function Rest(net: Net, me: string, key: string, target: Id, queried: seq<Id>, rounds: nat, now: int)
      : (Net, Option<seq<bv8>>)
    requires NetInv(net) && me in net.nodes
  {
    FindValueAt(net, me, key, target, queried, rounds, now)
  }

  lemma RoundExplained(log: set<StoreEvent>, net: Net, me: string, key: string, target: Id, queried: seq<Id>,
                       rounds: nat, left: nat, now: int, e: Entry)
    requires Provenance(net) && net.log == log && me in net.nodes
    requires rounds == left + 1 && NextUnqueried(net.nodes[me], target, queried) == Some(e)
    requires Explained(log, key, now,
      Rest(Onward(net, me, key, target, e, now), me, key, target, queried + [e.id], left, now))
    ensures Explained(log, key, now, Rest(net, me, key, target, queried, rounds, now))
  {
    FindValueRound(net, me, key, target, queried, rounds, left, now, e);
    var d := Asked(net, me, key, target, e, now);
    if d.1.Some? && d.1.value.found { FoundExplained(net, me, key, target, e, now); }
  }

  /** A value the lookup returns was stored, under the key asked for, before the lookup began. */
  lemma {:induction false} FindValueProvenance(
    log: set<StoreEvent>, net: Net, me: string, key: string, target: Id, queried: seq<Id>, rounds: nat, now: int)
    requires Provenance(net) && net.log == log && me in net.nodes
    ensures Explained(log, key, now, Rest(net, me, key, target, queried, rounds, now))
    decreases rounds
  {
    if rounds > 0 && NextUnqueried(net.nodes[me], target, queried).Some? {
      var e := NextUnqueried(net.nodes[me], target, queried).value;
      var left := rounds - 1;
      OnwardKeepsProvenance(net, me, key, target, e, now);
      FindValueProvenance(log, Onward(net, me, key, target, e, now), me, key, target, queried + [e.id], left, now);
      RoundExplained(log, net, me, key, target, queried, rounds, left, now, e);
    } else {
      NothingExplained(log, net, me, key, target, queried, rounds, now);
    }
  }

  lemma NothingExplained(log: set<StoreEvent>, net: Net, me: string, key: string, target: Id, queried: seq<Id>,
                         rounds: nat, now: int)
    requires Provenance(net) && net.log == log && me in net.nodes
    requires rounds > 0 ==> NextUnqueried(net.nodes[me], target, queried).None?
    ensures Explained(log, key, now, Rest(net, me, key, target, queried, rounds, now))
  {
  }

  /** Asking leaves the asker as it was; what it learns is what its own loop would absorb. */
  lemma AskerLearns(net: Net, me: string, key: string, target: Id, e: Entry, now: int)
    requires NetInv(net) && me in net.nodes && e.id in net.nodes[me].book
    ensures Asked(net, me, key, target, e, now).0.nodes[me] == net.nodes[me]
    ensures Onward(net, me, key, target, e, now).nodes[me] ==
      Absorb(net.nodes[me], Reply(now, Asked(net, me, key, target, e, now).1))
  {
  }

  lemma LookupRound(n: NodeState, target: Id, reply: Reply, rest: seq<Reply>, queried: seq<Id>, e: Entry)
    requires NodeInv(n) && NextUnqueried(n, target, queried) == Some(e)
    ensures LookupValue(n, target, [reply] + rest, queried) ==
      if reply.answer.Some? && reply.answer.value.found then (n, queried + [e.id], Some(reply.answer.value.value))
      else LookupValue(Absorb(n, reply), target, rest, queried + [e.id])
  {
    assert ([reply] + rest)[1..] == rest;
  }

  /** The network's lookup and the node's own loop over these replies end alike. */
  ghost predicate Matches(net: Net, me: string, key: string, target: Id, queried: seq<Id>, replies: seq<Reply>,
                          now: int)
    requires NetInv(net) && me in net.nodes
  {
    var r := FindValueAt(net, me, key, target, queried, |replies|, now);
    var l := LookupValue(net.nodes[me], target, replies, queried);
    me in r.0.nodes && r.0.nodes[me] == l.0 && r.1 == l.2
  }

  lemma RoundMatches(net: Net, me: string, key: string, target: Id, queried: seq<Id>, rest: seq<Reply>, now: int,
                     e: Entry)
    requires NetInv(net) && me in net.nodes && NextUnqueried(net.nodes[me], target, queried) == Some(e)
    requires Matches(Onward(net, me, key, target, e, now), me, key, target, queried + [e.id], rest, now)
    ensures Matches(net, me, key, target, queried, [Reply(now, Asked(net, me, key, target, e, now).1)] + rest, now)
  {
    FindValueRound(net, me, key, target, queried, |rest| + 1, |rest|, now, e);
    AskerLearns(net, me, key, target, e, now);
    LookupRound(net.nodes[me], target, Reply(now, Asked(net, me, key, target, e, now).1), rest, queried, e);
  }

  /** Seen from the node itself this is its own lookup loop, the network being the transport. */
  lemma {:induction false} FindValueIsLookup(net: Net, me: string, key: string, target: Id, queried: seq<Id>,
      rounds: nat, now: int)
    returns (replies: seq<Reply>)
    requires NetInv(net) && me in net.nodes
    ensures |replies| == rounds && Matches(net, me, key, target, queried, replies, now)
    decreases rounds
  {
    var next := NextUnqueried(net.nodes[me], target, queried);
    if rounds == 0 || next.None? {
      replies := seq(rounds, _ => Reply(now, None));
    } else {
      var e := next.value;
      var rest := FindValueIsLookup(
        Onward(net, me, key, target, e, now), me, key, target, queried + [e.id], rounds - 1, now);
      RoundMatches(net, me, key, target, queried, rest, now, e);
      replies := [Reply(now, Asked(net, me, key, target, e, now).1)] + rest;
    }
  }

  /** In every run of the network, at any point, for any node, key and time. */
  lemma LookupInAnyRun(tr: seq<Net>, steps: seq<Step>, k: nat, me: string, key: string, target: Id, now: int)
    requires Run(tr, steps) && k < |tr| && me in tr[k].nodes
    ensures Provenance(tr[k])
    ensures var r := FindValueAt(tr[k], me, key, target, [], MAX_ROUNDS, now).1;
            r.Some? ==> exists j, e :: 0 <= j < k && SentStore(steps[j], e)
                                       && e.key == key && e.value == r.value && now <= e.at + RECORD_TTL
  {
    RunKeepsProvenance(tr, steps, k);
    FindValueProvenance(tr[k].log, tr[k], me, key, target, [], MAX_ROUNDS, now);
    var r := FindValueAt(tr[k], me, key, target, [], MAX_ROUNDS, now).1;
    if r.Some? {
      var addr, at :| StoreEvent(addr, key, r.value, at) in tr[k].log && now <= at + RECORD_TTL;
      var e := StoreEvent(addr, key, r.value, at);
      LogIsHistory(tr, steps, k, e);
      var j :| 0 <= j < k && SentStore(steps[j], e);
      assert SentStore(steps[j], e) && e.key == key && e.value == r.value;
    }
  }
}
