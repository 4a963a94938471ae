// What a node answers and what it learns, entry by entry: every request type's reply,
// the nearest entries it lists, and how an entry it hears of is taken into the table.

module DhtAnswers {
  import opened XorMetric
  import opened Kademlia
  import opened DhtNetwork
  import opened DhtRuns
  import DhtStore

  // ------------------------------------------------------------------- entries

  /** Every entry of a table is in one bucket, the one its id belongs to. */
  lemma EntryAtHome(self: Id, t: Table, e: Entry)
    requires TableInv(self, t)
    ensures e in Entries(t) <==> e in t[BucketOf(self, e.id)]
  {
    FlattenMembers(t, e);
    if e in t[BucketOf(self, e.id)] {
      assert Holds(t, e);
    }
    if Holds(t, e) {
      var b :| 0 <= b < |t| && e in t[b];
      var i :| 0 <= i < |t[b]| && t[b][i] == e;
      assert BucketOf(self, t[b][i].id) == b;
    }
  }

  lemma InsertedEntry(es: seq<Entry>, e: Entry, now: int, x: Entry)
    requires DistinctIds(es)
    ensures x in Insert(es, e, now) <==>
      if x.id != e.id then x in es
      else x == Entry(e.id, e.addresses, now) && (InBucket(es, e.id) || |es| < 20)
  {
    var k, r := EntryIndex(es, e.id), Insert(es, e, now);
    IndexInBucket(es, e.id);
    InsertedIds(es, e, now);
    if x in r {
      var i :| 0 <= i < |r| && r[i] == x;
      assert i < |es| && i != k ==> r[i] == es[i];
      assert i < |es| && i != k && k < |es| ==> es[i].id != es[k].id;
    }
    if x in es && x.id != e.id {
      var i :| 0 <= i < |es| && es[i] == x;
      assert r[i] == x;
    }
    if k < |r| { assert r[k] in r; }
  }

  lemma DroppedEntry(es: seq<Entry>, id: Id, x: Entry)
    requires DistinctIds(es)
    ensures x in Drop(es, id) <==> x in es && x.id != id
  {
    var k, r := EntryIndex(es, id), Drop(es, id);
    if x in r {
      var i :| 0 <= i < |r| && r[i] == x;
      assert k < |es| ==> r[i] == es[if i < k then i else i + 1];
    }
    if x in es && x.id != id {
      var i :| 0 <= i < |es| && es[i] == x;
      assert r[if i < k then i else i - 1] == x;
    }
  }

  /**
   After an addition the table has, under the new id, one entry with the new addresses
   and the current time, if the id was known or its bucket had room; all other entries
   are as they were.
   */
  lemma AddedEntries(self: Id, t: Table, e: Entry, now: int, x: Entry)
    requires TableInv(self, t)
    ensures x in Entries(Add(self, t, e, now)) <==>
      if x.id != e.id then x in Entries(t)
      else x == Entry(e.id, e.addresses, now) && (InTable(t, e.id) || |t[BucketIndex(Xor(self, e.id))]| < 20)
  {
    AddKeepsInv(self, t, e, now);
    EntryAtHome(self, t, x);
    EntryAtHome(self, Add(self, t, e, now), x);
    HomeBucket(self, t, e.id);
    InsertedEntry(t[BucketOf(self, e.id)], e, now, x);
  }

  /** After a removal it has all entries but those under the id. */
  lemma RemovedEntries(self: Id, t: Table, id: Id, x: Entry)
    requires TableInv(self, t)
    ensures x in Entries(Remove(self, t, id)) <==> x in Entries(t) && x.id != id
  {
    RemoveKeepsInv(self, t, id);
    EntryAtHome(self, t, x);
    EntryAtHome(self, Remove(self, t, id), x);
    DroppedEntry(t[BucketOf(self, id)], id, x);
  }

  /** One entry heard of at a time: what the node then has in its table and its address book. */
  ghost predicate HasLearned(before: NodeState, after: NodeState, id: Id, addresses: seq<string>, now: int)
  {
    && NodeInv(before) && NodeInv(after)
    && after.id == before.id && after.addr == before.addr && after.records == before.records
    && after.book == (if |addresses| > 0 then before.book[id := addresses[0]] else before.book)
    && forall x ::
         x in Entries(after.table) <==>
           if x.id != id then x in Entries(before.table)
           else x == Entry(id, addresses, now)
                && (InTable(before.table, id) || |before.table[BucketIndex(Xor(before.id, id))]| < 20)
  }

  /** A node learns every entry but itself: stamped, with its addresses, the first of them for the address book. */
  lemma LearnTakesEntry(n: NodeState, e: Entry, now: int)
    requires NodeInv(n)
    ensures e.id == n.id ==> Learn(n, e, now) == n
    ensures e.id != n.id ==> HasLearned(n, Learn(n, e, now), e.id, e.addresses, now)
  {
    if e.id != n.id {
      forall x ensures x in Entries(Add(n.id, n.table, e, now)) <==>
        if x.id != e.id then x in Entries(n.table)
        else x == Entry(e.id, e.addresses, now)
             && (InTable(n.table, e.id) || |n.table[BucketIndex(Xor(n.id, e.id))]| < 20)
      {
        AddedEntries(n.id, n.table, e, now, x);
      }
    }
  }

  // ------------------------------------------------------------------- answers

  /** The type a message of each type is answered with. */
  predicate Answers(request: MsgType, response: MsgType)
  {
    match request
    case Ping => response == Pong
    case FindNode => response == FindNodeResp
    case FindValue => response == FindValueResp
    case Store => response == StoreAck
    case _ => response == request
  }

  /** The node asked comes first, then the 20 entries it knows nearest the target. */
  ghost predicate ListsNearest(n: NodeState, target: Id, entries: seq<Entry>)
  {
    && entries != [] && entries[0] == Entry(n.id, [n.addr], 0)
    && IsClosest(Entries(n.table), target, 20, entries[1..])
  }

  /** A record under the key that has not expired. */
  predicate HoldsFresh(n: NodeState, key: string, now: int)
  {
    key in n.records && now <= n.records[key].expiresAt
  }

  /** The reply to a message: whose it is, to what, and what is in it. */
  lemma AnswerSays(n: NodeState, msg: Message, now: int)
    requires NodeInv(n)
    ensures
      var (after, resp) := Handle(n, msg, now);
      && resp.msgId == msg.msgId && resp.from == n.id && resp.fromAddr == n.addr && Answers(msg.kind, resp.kind)
      && (resp.found <==> msg.kind == FindValue && HoldsFresh(n, msg.key, now))
      && resp.value == (if resp.found then n.records[msg.key].value else [])
      && (msg.kind == FindNode || (msg.kind == FindValue && !HoldsFresh(n, msg.key, now)) ==>
           ListsNearest(after, msg.target, resp.entries))
      && (msg.kind != FindNode && (msg.kind != FindValue || HoldsFresh(n, msg.key, now)) ==> resp.entries == [])
  {
    var after := Handle(n, msg, now).0;
    var out := Closest(after.id, after.table, msg.target, K);
    assert ([SelfEntry(after)] + out)[1..] == out;
  }

  lemma HandleLearns(n: NodeState, msg: Message, now: int)
    requires NodeInv(n)
    ensures Handle(n, msg, now).0.(records := n.records) ==
      if msg.from != n.id && msg.fromAddr != "" then Learn(n, Entry(msg.from, [msg.fromAddr], 0), now) else n
  {
  }

  /** What a message leaves behind: its sender is learned, and a STORE within the caps is put on record. */
  lemma AnswerLeaves(n: NodeState, msg: Message, now: int)
    requires NodeInv(n)
    ensures
      var after := Handle(n, msg, now).0;
      && after.records ==
           (if msg.kind == Store && |msg.key| <= 256 && |msg.value| <= 16384
            then n.records[msg.key := Record(msg.key, msg.value, msg.from, now + 48 * 3600 * 1_000_000_000)]
            else n.records)
      && (msg.from == n.id || msg.fromAddr == "" ==> after.table == n.table && after.book == n.book)
      && (msg.from != n.id && msg.fromAddr != "" ==>
           HasLearned(n, after.(records := n.records), msg.from, [msg.fromAddr], now))
  {
    HandleRecords(n, msg, now);
    HandleLearns(n, msg, now);
    if msg.from != n.id && msg.fromAddr != "" {
      LearnTakesEntry(n, Entry(msg.from, [msg.fromAddr], 0), now);
    }
  }

  /** So whoever asks for itself is not among strangers: its own entry heads the list, if the table took it. */
  lemma AskerIsListed(n: NodeState, msg: Message, now: int)
    requires NodeInv(n) && msg.kind == FindNode && msg.from == msg.target && msg.from != n.id && msg.fromAddr != ""
    ensures
      var (after, resp) := Handle(n, msg, now);
      InTable(after.table, msg.from) ==> |resp.entries| > 1 && resp.entries[1] == Entry(msg.from, [msg.fromAddr], now)
  {
    var (after, resp) := Handle(n, msg, now);
    AnswerSays(n, msg, now);
    AnswerLeaves(n, msg, now);
    if InTable(after.table, msg.from) {
      var e := TableHasEntry(after.table, msg.from);
      DistanceZeroIff(msg.target, e.id);
      NearestFirst(Entries(after.table), msg.target, 20, resp.entries[1..], e);
      assert resp.entries[1] == resp.entries[1..][0];
      DistanceZeroIff(msg.target, resp.entries[1].id);
    }
  }

  /**
   One round of a value lookup over the network: the node at that address looks for
   this key, lists what it knows nearest this target if it has no fresh record, and
   learns the asker under the asker's own address.
   */
  lemma RoundAnswers(net: Net, me: string, key: string, target: Id, e: Entry, now: int)
    requires NetInv(net) && me in net.nodes && e.id in net.nodes[me].book
    ensures
      var (asker, addr) := (net.nodes[me], net.nodes[me].book[e.id]);
      var d := Asked(net, me, key, target, e, now);
      if addr !in net.nodes then d.1.None? && d.0 == net
      else
        var peer, after, answer := net.nodes[addr], d.0.nodes[addr], d.1.value;
        && d.1.Some? && answer.from == peer.id && answer.kind == FindValueResp
        && (answer.found <==> HoldsFresh(peer, key, now))
        && (if answer.found then answer.value == peer.records[key].value
            else ListsNearest(after, target, answer.entries))
        && (peer.id != asker.id && asker.addr != "" ==> HasLearned(peer, after, asker.id, [asker.addr], now))
  {
    var addr, msg := net.nodes[me].book[e.id], Query(net.nodes[me], key, target);
    if addr in net.nodes {
      AnswerSays(net.nodes[addr], msg, now);
      AnswerLeaves(net.nodes[addr], msg, now);
    }
  }

  /**
   One STORE of a round: the node at that address acknowledges it, keeps it within the
   caps, and learns the sender.
   */
  lemma StoreAnswers(net: Net, me: NodeState, addr: string, target: Id, key: string, value: seq<bv8>, now: int)
    requires NetInv(net) && addr in net.nodes
    ensures
      var d := Deliver(net, addr, DhtStore.StoreMessage(me, target, key, value), now);
      var peer, after := net.nodes[addr], d.0.nodes[addr];
      && d.1.Some? && d.1.value.from == peer.id && d.1.value.kind == StoreAck
      && (|key| <= 256 && |value| <= 16384 ==>
           key in after.records && after.records[key] == Record(key, value, me.id, now + 48 * 3600 * 1_000_000_000))
      && (peer.id != me.id && me.addr != "" ==>
           HasLearned(peer, after.(records := peer.records), me.id, [me.addr], now))
  {
    var msg := DhtStore.StoreMessage(me, target, key, value);
    AnswerSays(net.nodes[addr], msg, now);
    AnswerLeaves(net.nodes[addr], msg, now);
  }

  // ------------------------------------------------------------------- refresh

  /** What a refresh pings: an old entry of another node that has an address. */
  predicate Pinged(n: NodeState, cutoff: int, e: Entry)
  {
    e.lastSeen < cutoff && |e.addresses| > 0 && e.id != n.id
  }

  lemma RefreshedEntry(n: NodeState, e: Entry, answers: Id -> bool, now: int, x: Entry)
    requires NodeInv(n) && e in Entries(n.table)
    ensures x in Entries(RefreshStep(n, e, answers, now).table) <==>
      if x.id != e.id || |e.addresses| == 0 || e.id == n.id then x in Entries(n.table)
      else answers(e.id) && x == Entry(e.id, e.addresses, now)
  {
    AddedEntries(n.id, n.table, e, now, x);
    RemovedEntries(n.id, n.table, e.id, x);
    EntryInTable(n.table, e);
  }

  lemma FrontIndex(es: seq<Entry>, id: Id)
    requires es != []
    ensures var front := es[..|es| - 1];
            EntryIndex(es, id) == if EntryIndex(front, id) < |front| || es[|front|].id == id
                                  then EntryIndex(front, id) else |es|
  {
    var front := es[..|es| - 1];
    var i, j := EntryIndex(front, id), EntryIndex(es, id);
    assert forall k :: 0 <= k < |front| ==> front[k] == es[k];
  }

  /** What the pings of a list of distinct entries leave under an id. */
  predicate LeftBy(n: NodeState, stale: seq<Entry>, answers: Id -> bool, now: int, x: Entry, was: bool)
  {
    var k := EntryIndex(stale, x.id);
    if k < |stale| && |stale[k].addresses| > 0 && stale[k].id != n.id
    then answers(x.id) && x == Entry(stale[k].id, stale[k].addresses, now)
    else was
  }

  lemma {:induction false} RefreshedEntries(n: NodeState, stale: seq<Entry>, answers: Id -> bool, now: int, x: Entry)
    requires NodeInv(n) && DistinctIds(stale) && forall e :: e in stale ==> e in Entries(n.table)
    ensures var r := RefreshAll(n, stale, answers, now);
            && NodeInv(r) && r.id == n.id
            && (x in Entries(r.table) <==> LeftBy(n, stale, answers, now, x, x in Entries(n.table)))
  {
    if stale != [] {
      var rest, e := stale[..|stale| - 1], stale[|stale| - 1];
      assert stale == rest + [e];
      RefreshMembers(n, stale, answers, now, x.id);
      RefreshedEntries(n, rest, answers, now, x);
      RefreshedEntries(n, rest, answers, now, e);
      FrontIndex(stale, x.id);
      FrontIndex(stale, e.id);
      RefreshedEntry(RefreshAll(n, rest, answers, now), e, answers, now, x);
    }
  }

  /**
   A refresh of the old entries: one that was pinged and answered is there with its
   addresses and the current time, one that did not answer is gone, and every other
   entry is as it was.
   */
  lemma RefreshStamps(n: NodeState, stale: seq<Entry>, cutoff: int, answers: Id -> bool, now: int, e: Entry, x: Entry)
    requires NodeInv(n) && DistinctIds(stale)
    requires forall o :: o in stale <==> o in Entries(n.table) && o.lastSeen < cutoff
    requires e in Entries(n.table) && x.id == e.id
    ensures x in Entries(RefreshAll(n, stale, answers, now).table) <==>
      if Pinged(n, cutoff, e) then answers(e.id) && x == Entry(e.id, e.addresses, now) else x == e
  {
    RefreshedEntries(n, stale, answers, now, x);
    OneEntry(n.id, n.table, e, x);
    var k := EntryIndex(stale, x.id);
    if k < |stale| {
      assert stale[k] in stale;
      OneEntry(n.id, n.table, e, stale[k]);
    }
    if e in stale {
      var i :| 0 <= i < |stale| && stale[i] == e;
      assert k <= i;
    }
  }

  lemma OneEntry(self: Id, t: Table, a: Entry, b: Entry)
    requires TableInv(self, t) && a in Entries(t) && a.id == b.id
    ensures b in Entries(t) <==> b == a
  {
    FlattenDistinct(self, t);
  }
}
