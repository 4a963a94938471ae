// Storing a value on the nearest known nodes, over the in-process network: what
// the count of acknowledgements tells, and what it does not.

module DhtStore {
  import opened XorMetric
  import opened Kademlia
  import opened DhtNetwork
  import opened DhtRuns

  function StoreMessage(n: NodeState, target: Id, key: string, value: seq<bv8>): Message
  {
    Message("", n.id, n.addr, MsgType.Store, target, key, value, [], false, "", "", "")
  }

  datatype Outcome = Outcome(net: Net, stored: nat)

  /** Send the value to the listed entries in turn and count the acknowledgements. */
  ghost function StoreAll(net: Net, me: NodeState, es: seq<Entry>, target: Id, key: string, value: seq<bv8>, now: int)
      : (r: Outcome)
    requires NetInv(net)
    ensures NetInv(r.net) && r.net.nodes.Keys == net.nodes.Keys
  {
    if es == [] then Outcome(net, 0)
    else
      var before := StoreAll(net, me, es[..|es| - 1], target, key, value, now);
      var e := es[|es| - 1];
      if e.id == me.id || e.id !in me.book then before
      else
        var d := Deliver(before.net, me.book[e.id], StoreMessage(me, target, key, value), now);
        Outcome(d.0, before.stored + if d.1.Some? && d.1.value.kind == StoreAck then 1 else 0)
  }

  predicate Sendable(me: NodeState, e: Entry)
  {
    e.id != me.id && e.id in me.book
  }

  /** Entries that are not the sender, have an address, and answer at it. */
  function Reached(net: Net, me: NodeState, es: seq<Entry>): seq<Entry>
  {
    if es == [] then []
    else
      var e := es[|es| - 1];
      Reached(net, me, es[..|es| - 1]) + if Sendable(me, e) && me.book[e.id] in net.nodes then [e] else []
  }

  predicate TooLarge(key: string, value: seq<bv8>)
  {
    |key| > MAX_KEY_LEN || |value| > MAX_STORE_VALUE
  }

  /** Records once this STORE was delivered to them. */
  function RecordsWith(m: map<string, Record>, me: NodeState, key: string, value: seq<bv8>, now: int)
      : map<string, Record>
  {
    if TooLarge(key, value) then m else m[key := Record(key, value, me.id, now + RECORD_TTL)]
  }

  lemma DeliverStore(net: Net, me: NodeState, addr: string, target: Id, key: string, value: seq<bv8>, now: int,
                     a: string)
    requires NetInv(net)
    ensures
      var d := Deliver(net, addr, StoreMessage(me, target, key, value), now);
      && (d.1.Some? ==> d.1.value.kind == StoreAck)
      && (a in net.nodes ==>
           d.0.nodes[a].records ==
             (if a == addr then RecordsWith(net.nodes[a].records, me, key, value, now) else net.nodes[a].records))
  {
    if addr in net.nodes {
      HandleRecords(net.nodes[addr], StoreMessage(me, target, key, value), now);
      StoreAckedButStoredIff(net.nodes[addr], StoreMessage(me, target, key, value), now);
    }
  }

  /** What the node at addr has on record after the round of STOREs. */
  ghost function KeptAt(net: Net, me: NodeState, es: seq<Entry>, target: Id, key: string, value: seq<bv8>, now: int,
                        addr: string): map<string, Record>
    requires NetInv(net) && addr in net.nodes
  {
    StoreAll(net, me, es, target, key, value, now).net.nodes[addr].records
  }

  lemma KeptStep(net: Net, me: NodeState, es: seq<Entry>, target: Id, key: string, value: seq<bv8>, now: int,
                 addr: string)
    requires NetInv(net) && addr in net.nodes && es != []
    ensures
      var e := es[|es| - 1];
      var before := KeptAt(net, me, es[..|es| - 1], target, key, value, now, addr);
      KeptAt(net, me, es, target, key, value, now, addr) ==
        if Sendable(me, e) && me.book[e.id] == addr then RecordsWith(before, me, key, value, now) else before
  {
    var e := es[|es| - 1];
    if Sendable(me, e) {
      DeliverStore(
        StoreAll(net, me, es[..|es| - 1], target, key, value, now).net, me, me.book[e.id],
        target, key, value, now, addr);
    }
  }

  /** The nodes reached hold the value exactly when it is within the caps; all other records stay. */
  lemma {:induction false} StoreOnAll(net: Net, me: NodeState, es: seq<Entry>, target: Id, key: string,
                                      value: seq<bv8>, now: int, addr: string)
    requires NetInv(net) && addr in net.nodes
    ensures KeptAt(net, me, es, target, key, value, now, addr) ==
      if Hit(net, me, es, addr) then RecordsWith(net.nodes[addr].records, me, key, value, now)
      else net.nodes[addr].records
  {
    if es == [] {
      assert Reached(net, me, es) == [];
    } else {
      StoreOnAll(net, me, es[..|es| - 1], target, key, value, now, addr);
      KeptStep(net, me, es, target, key, value, now, addr);
      ReachedLast(net, me, es, addr);
      RecordsTwice(net.nodes[addr].records, me, key, value, now);
    }
  }

  lemma RecordsTwice(m: map<string, Record>, me: NodeState, key: string, value: seq<bv8>, now: int)
    ensures RecordsWith(RecordsWith(m, me, key, value, now), me, key, value, now) == RecordsWith(m, me, key, value, now)
  {
  }

  ghost predicate Hit(net: Net, me: NodeState, es: seq<Entry>, addr: string)
  {
    exists e :: e in Reached(net, me, es) && Sendable(me, e) && me.book[e.id] == addr
  }

  lemma {:induction false} ReachedSendable(net: Net, me: NodeState, es: seq<Entry>)
    ensures forall e :: e in Reached(net, me, es) ==> e in es && Sendable(me, e) && me.book[e.id] in net.nodes
  {
    if es != [] { ReachedSendable(net, me, es[..|es| - 1]); }
  }

  lemma ReachedLast(net: Net, me: NodeState, es: seq<Entry>, addr: string)
    requires es != [] && addr in net.nodes
    ensures
      var e := es[|es| - 1];
      Hit(net, me, es, addr) <==> Hit(net, me, es[..|es| - 1], addr) || (Sendable(me, e) && me.book[e.id] == addr)
  {
    var n := |es| - 1;
    var e := es[n];
    ReachedSendable(net, me, es[..n]);
    if Hit(net, me, es[..n], addr) {
      var f :| f in Reached(net, me, es[..n]) && Sendable(me, f) && me.book[f.id] == addr;
      assert f in Reached(net, me, es);
    }
    if Sendable(me, e) && me.book[e.id] == addr {
      assert e in Reached(net, me, es);
    }
  }

  /** The count is that of the nodes reached, whether or not any of them kept the value. */
  lemma {:induction false} StoreCountsReached(net: Net, me: NodeState, es: seq<Entry>, target: Id, key: string,
      value: seq<bv8>, now: int)
    requires NetInv(net)
    ensures StoreAll(net, me, es, target, key, value, now).stored == |Reached(net, me, es)|
  {
    if es != [] {
      var n := |es| - 1;
      StoreCountsReached(net, me, es[..n], target, key, value, now);
      if Sendable(me, es[n]) {
        DeliverStore(
          StoreAll(net, me, es[..n], target, key, value, now).net, me, me.book[es[n].id], target, key, value, now, "");
      }
    }
  }

  /**
   A lookup message straight to a reached node: a value within the caps is found
   exactly while it is fresh, whatever was there before; one over the caps leaves the
   answer to what was there.
   */
  lemma StoreThenFind(
    net: Net, me: NodeState, es: seq<Entry>, target: Id, key: string, value: seq<bv8>, now: int, addr: string,
    asker: NodeState, later: int)
    requires NetInv(net) && addr in net.nodes && Hit(net, me, es, addr)
    ensures
      var after := StoreAll(net, me, es, target, key, value, now).net;
      var answer := Deliver(after, addr, Query(asker, key, target), later).1;
      var before := net.nodes[addr].records;
      && answer.Some?
      && (!TooLarge(key, value) ==>
           (answer.value.found <==> later <= now + RECORD_TTL) && (answer.value.found ==> answer.value.value == value))
      && (TooLarge(key, value) ==>
           && (answer.value.found <==> key in before && later <= before[key].expiresAt)
           && (answer.value.found ==> answer.value.value == before[key].value))
  {
    StoreOnAll(net, me, es, target, key, value, now, addr);
    FindAnswers(StoreAll(net, me, es, target, key, value, now).net.nodes[addr], Query(asker, key, target), later);
  }

  lemma FindAnswers(n: NodeState, msg: Message, now: int)
    requires NodeInv(n) && msg.kind == FindValue
    ensures
      var answer := Handle(n, msg, now).1;
      && (answer.found <==> msg.key in n.records && now <= n.records[msg.key].expiresAt)
      && (answer.found ==> answer.value == n.records[msg.key].value)
  {
  }
}
