// The federation manager: the imperative merge, and the operations that change
// the trust pool and the gossip-learned peers.

module Federation {
  import opened Wrappers
  import opened ByteText
  import opened TrustPools
  import opened TrustPoolMerge
  import Sorting

  // ------------------------------------------------------------- state, steps

  datatype FedState = FedState(pool: TrustPool, peers: map<string, NodeInfo>, enabled: bool)

  datatype Op =
    | Update(offered: TrustPool, now: int)
    | AddKnown(records: seq<NodeInfo>, stamp: Stamp)
    | Gossip(info: NodeInfo)
    | Remove(id: string, reason: string, stamp: Stamp, now: int)

  const EMPTY_STATE := FedState(TrustPool(0, Stamp("", None), "", [], []), map[], false)

  function AddKnownResult(s: FedState, records: seq<NodeInfo>, stamp: Stamp): FedState
  {
    if !s.enabled || !AnyNamed(records) then s
    else
      var pool := UpsertAll(s.pool, records, stamp);
      s.(pool := pool.(version := pool.version + 1, updatedAt := stamp))
  }

  function GossipResult(s: FedState, info: NodeInfo): FedState
  {
    match Gate(s.pool.tombstones, info.nodeId, info.lastSeen)
    case Suppressed => s
    case Passed(ts) =>
      var k := NodeIndex(s.pool.nodes, info.nodeId);
      if k < |s.pool.nodes|
      then s.(pool := s.pool.(nodes := s.pool.nodes[k := info], tombstones := ts))
      else s.(pool := s.pool.(tombstones := ts), peers := s.peers[info.nodeId := info])
  }

  function RemovedPool(p: TrustPool, id: string, stamp: Stamp, tombs: seq<Tombstone>): TrustPool
  {
    p.(nodes := Without(p.nodes, id), tombstones := tombs, version := p.version + 1, updatedAt := stamp)
  }

  /** One operation. Only the order of map walks and sort ties is left open. */
  ghost predicate Step(s: FedState, op: Op, s': FedState)
  {
    match op
    case Update(offered, now) =>
      if offered.version <= s.pool.version then s' == s
      else IsMerge(s.pool, offered, now, s'.pool) && s' == s.(pool := s'.pool)
    case AddKnown(records, stamp) => s' == AddKnownResult(s, records, stamp)
    case Gossip(info) => s' == GossipResult(s, info)
    case Remove(id, reason, stamp, now) =>
      if id == "" then s' == s
      else
        && IsUnion(MarkRemoved(s.pool.tombstones, id, stamp, reason), [], now, s'.pool.tombstones)
        && s' == FedState(RemovedPool(s.pool, id, stamp, s'.pool.tombstones), s.peers - {id}, s.enabled)
  }

  /** The lookup used by callers: the trust pool first, then the gossip-learned peers. */
  function Lookup(s: FedState, id: string): Option<NodeInfo>
  {
    var k := NodeIndex(s.pool.nodes, id);
    if k < |s.pool.nodes| then Some(s.pool.nodes[k])
    else if id in s.peers then Some(s.peers[id])
    else None
  }

  // ------------------------------------------------------------ merge, in place

  lemma {:induction false} DistinctCount(ts: seq<Tombstone>, ids: set<string>)
    requires DistinctTombs(ts)
    requires forall id :: id in ids <==> HasTomb(ts, id)
    ensures |ids| == |ts|
  {
    if ts == [] {
      assert forall id :: id in ids ==> HasTomb(ts, id);
      assert ids == {};
    } else {
      var rest, last := ts[..|ts| - 1], ts[|ts| - 1].nodeId;
      assert ts[|ts| - 1].nodeId == last;
      assert last in ids;
      forall id ensures id in ids - {last} <==> HasTomb(rest, id) {
        if id in ids - {last} {
          var k :| 0 <= k < |ts| && ts[k].nodeId == id;
          assert rest[k].nodeId == id;
        }
        if HasTomb(rest, id) {
          var k :| 0 <= k < |rest| && rest[k].nodeId == id;
          assert ts[k].nodeId == id;
        }
      }
      DistinctCount(rest, ids - {last});
    }
  }

  predicate OlderText(x: Tombstone, y: Tombstone) { Less(x.removedAt.text, y.removedAt.text) }

  lemma OlderTextIsWeakOrder()
    ensures Sorting.WeakOrder(OlderText)
  {
    forall x, y | OlderText(x, y) ensures !OlderText(y, x) {
      LessTotal(x.removedAt.text, y.removedAt.text);
    }
    forall x, y, z | !OlderText(x, y) && !OlderText(y, z) ensures !OlderText(x, z) {
      var a, b, c := x.removedAt.text, y.removedAt.text, z.removedAt.text;
      LessTotal(a, b);
      LessTotal(b, c);
      LessTotal(a, c);
      if Less(a, c) && Less(c, b) { LessTransitive(a, c, b); }
    }
  }

  /** Keep the 256 markers with the greatest RemovedAt text. */
  method CapTombstones(all: seq<Tombstone>) returns (out: seq<Tombstone>)
    requires DistinctTombs(all)
    ensures DistinctTombs(out) && |out| <= MAX_TOMBSTONES
    ensures |all| <= MAX_TOMBSTONES ==> out == all
    ensures |all| > MAX_TOMBSTONES ==> |out| == MAX_TOMBSTONES
    ensures forall k :: 0 <= k < |out| ==> out[k] in all
    ensures forall t, k :: t in all && t !in out && 0 <= k < |out| ==> !OlderText(out[k], t)
  {
    if |all| <= MAX_TOMBSTONES {
      return all;
    }
    OlderTextIsWeakOrder();
    var sorted := Sorting.SortBy(all, OlderText);
    Sorting.SameElements(sorted, all);
    Sorting.PermutedDistinctBy(all, sorted, (t: Tombstone) => t.nodeId);
    assert DistinctTombs(sorted);
    var cut := |sorted| - MAX_TOMBSTONES;
    out := sorted[cut..];
    assert sorted == sorted[..cut] + out;
    forall t, k | t in all && t !in out && 0 <= k < |out| ensures !OlderText(out[k], t) {
      assert t in sorted[..cut];
      var i :| 0 <= i < cut && sorted[i] == t;
      assert out[k] == sorted[cut + k];
    }
    forall k | 0 <= k < |out| ensures out[k] in all {
      assert out[k] == sorted[cut + k];
    }
  }

  method UnionTombstones(a: seq<Tombstone>, b: seq<Tombstone>, now: int) returns (out: seq<Tombstone>)
    ensures IsUnion(a, b, now, out)
  {
    var all := a + b;
    var byId: map<string, Tombstone> := map[];
    for i := 0 to |all|
      invariant byId == Newest(all[..i])
    {
      var t := all[i];
      assert all[..i + 1][..i] == all[..i];
      if t.nodeId != "" && (t.nodeId !in byId || TombstoneNewer(t.removedAt, byId[t.nodeId].removedAt)) {
        byId := byId[t.nodeId := t];
      }
    }
    assert all[..|all|] == all;
    var live: seq<Tombstone> := [];
    var todo := byId.Keys;
    while todo != {}
      invariant todo <= byId.Keys
      invariant DistinctTombs(live)
      invariant forall k :: 0 <= k < |live| ==>
        live[k].nodeId in Kept(byId, now) - todo && byId[live[k].nodeId] == live[k]
      invariant forall id :: id in Kept(byId, now) && id !in todo ==> HasTomb(live, id)
      decreases todo
    {
      var id :| id in todo;
      NewestEntry(all, id);
      var before := live;
      if !Expired(byId[id], now) {
        live := live + [byId[id]];
        assert live[|live| - 1].nodeId == id;
      }
      forall other | HasTomb(before, other) ensures HasTomb(live, other) {
        var k :| 0 <= k < |before| && before[k].nodeId == other;
        assert live[k].nodeId == other;
      }
      todo := todo - {id};
    }
    DistinctCount(live, Kept(byId, now));
    out := CapTombstones(live);
    forall k | 0 <= k < |out| ensures out[k].nodeId in Kept(byId, now) && byId[out[k].nodeId] == out[k] {
      assert out[k] in live;
    }
    forall k, id | 0 <= k < |out| && id in Kept(byId, now) && !HasTomb(out, id)
      ensures !Less(out[k].removedAt.text, byId[id].removedAt.text)
    {
      var l :| 0 <= l < |live| && live[l].nodeId == id;
      assert forall i :: 0 <= i < |out| ==> out[i].nodeId != id;
      assert live[l] in live && live[l] !in out;
    }
  }

  /** m maps every id of ns to its position; in particular the ids are distinct. */
  ghost predicate Indexes(m: map<string, nat>, ns: seq<NodeInfo>)
  {
    && (forall id :: id in m ==> m[id] < |ns| && ns[m[id]].nodeId == id)
    && (forall k :: 0 <= k < |ns| ==> ns[k].nodeId in m && m[ns[k].nodeId] == k)
  }

  lemma IndexFromMap(m: map<string, nat>, ns: seq<NodeInfo>, id: string)
    requires Indexes(m, ns)
    ensures NodeIndex(ns, id) == if id in m then m[id] else |ns|
  {
    var k := NodeIndex(ns, id);
    assert k < |ns| ==> ns[k].nodeId == id;
  }

  method DedupeNodeInfos(ns: seq<NodeInfo>) returns (out: seq<NodeInfo>)
    ensures out == Dedupe(ns)
  {
    var seen: map<string, nat> := map[];
    out := [];
    for i := 0 to |ns|
      invariant out == Dedupe(ns[..i])
      invariant Indexes(seen, out)
    {
      var n := ns[i];
      assert ns[..i + 1][..i] == ns[..i];
      IndexFromMap(seen, out, n.nodeId);
      if n.nodeId != "" {
        if n.nodeId in seen {
          var idx := seen[n.nodeId];
          if Fresher(n.lastSeen, out[idx].lastSeen) {
            out := out[idx := FillNodeInfoRich(n, out[idx])];
          }
        } else {
          seen := seen[n.nodeId := |out|];
          out := out + [n];
        }
      }
    }
    assert ns[..|ns|] == ns;
  }

  lemma SameIndex(a: seq<NodeInfo>, b: seq<NodeInfo>, id: string)
    requires |a| == |b| && forall i :: 0 <= i < |a| ==> a[i].nodeId == b[i].nodeId
    ensures NodeIndex(a, id) == NodeIndex(b, id)
  {
    var i, j := NodeIndex(a, id), NodeIndex(b, id);
    assert i < |a| ==> b[i].nodeId == a[i].nodeId;
    assert j < |b| ==> b[j].nodeId == a[j].nodeId;
  }

  /** Scan for the first marker of id: refuse the record, or cut the marker out. */
  method ApplyGate(ts: seq<Tombstone>, id: string, lastSeen: Stamp) returns (r: GateResult)
    ensures r == Gate(ts, id, lastSeen)
  {
    var i := 0;
    while i < |ts| && ts[i].nodeId != id
      invariant 0 <= i <= |ts|
      invariant forall j :: 0 <= j < i ==> ts[j].nodeId != id
    {
      i := i + 1;
    }
    assert i == TombIndex(ts, id);
    if i == |ts| {
      r := Passed(ts);
    } else if Suppresses(lastSeen, ts[i].removedAt) {
      r := Suppressed;
    } else {
      r := Passed(ts[..i] + ts[i + 1..]);
    }
  }

  /** The incoming records that pass the gate, with their positions. */
  method KeepIncoming(union: seq<Tombstone>, ns: seq<NodeInfo>) returns (m: Merging, incomingIdx: map<string, nat>)
    requires DistinctNodes(ns)
    ensures m == FoldIncoming(union, ns)
    ensures Indexes(incomingIdx, m.nodes)
  {
    var nodes: seq<NodeInfo>, tombs := [], union;
    incomingIdx := map[];
    for i := 0 to |ns|
      invariant Merging(nodes, tombs) == FoldIncoming(union, ns[..i])
      invariant Indexes(incomingIdx, nodes)
      invariant forall k, j :: 0 <= k < |nodes| && i <= j < |ns| ==> nodes[k].nodeId != ns[j].nodeId
    {
      var n := ns[i];
      assert ns[..i + 1][..i] == ns[..i];
      if n.nodeId != "" {
        var gate := ApplyGate(tombs, n.nodeId, n.lastSeen);
        if gate.Passed? {
          tombs := gate.tombstones;
          incomingIdx := incomingIdx[n.nodeId := |nodes|];
          nodes := nodes + [n];
        }
      }
    }
    assert ns[..|ns|] == ns;
    m := Merging(nodes, tombs);
  }

  method MergeTrustPools(local: TrustPool, incoming: TrustPool, now: int) returns (merged: TrustPool)
    ensures IsMerge(local, incoming, now, merged)
  {
    var union := UnionTombstones(local.tombstones, incoming.tombstones, now);
    var deduped := DedupeNodeInfos(incoming.nodes);
    DedupeDistinct(incoming.nodes);
    var start, incomingIdx := KeepIncoming(union, deduped);
    var m := start;
    for i := 0 to |local.nodes|
      invariant m == FoldLocal(start, local.nodes[..i])
    {
      assert local.nodes[..i + 1][..i] == local.nodes[..i];
      m := MergeLocal(start, incomingIdx, local.nodes[..i], m, local.nodes[i]);
    }
    assert local.nodes[..|local.nodes|] == local.nodes;
    merged := TrustPool(incoming.version, incoming.updatedAt, incoming.registry, m.nodes, m.tombstones);
    assert merged == MergeWith(local, incoming, union);
  }

  /** The body of the loop over local records. */
  method MergeLocal(start: Merging, incomingIdx: map<string, nat>, ghost done: seq<NodeInfo>, m: Merging, ln: NodeInfo)
    returns (r: Merging)
    requires Indexes(incomingIdx, start.nodes) && m == FoldLocal(start, done)
    ensures r == TakeLocal(m, |start.nodes|, ln)
  {
    r := m;
    if ln.nodeId == "" {
      return;
    }
    var gate := ApplyGate(m.tombstones, ln.nodeId, ln.lastSeen);
    if gate.Suppressed? {
      return;
    }
    r := r.(tombstones := gate.tombstones);
    FoldLocalPrefix(start, done);
    SameIndex(start.nodes, m.nodes[..|start.nodes|], ln.nodeId);
    IndexFromMap(incomingIdx, start.nodes, ln.nodeId);
    if ln.nodeId in incomingIdx {
      var idx := incomingIdx[ln.nodeId];
      r := r.(nodes := r.nodes[idx := Reconcile(ln, r.nodes[idx])]);
    } else if ln.status == "active" {
      r := r.(nodes := r.nodes + [ln]);
    }
  }

  // ---------------------------------------------------------------- the class

  lemma AnyNamedMore(records: seq<NodeInfo>, i: nat)
    requires i < |records|
    ensures AnyNamed(records[..i + 1]) <==> AnyNamed(records[..i]) || records[i].nodeId != ""
  {
    if AnyNamed(records[..i]) {
      var k :| 0 <= k < i && records[..i][k].nodeId != "";
      assert records[..i + 1][k].nodeId != "";
    }
    if AnyNamed(records[..i + 1]) {
      var k :| 0 <= k < i + 1 && records[..i + 1][k].nodeId != "";
      assert k < i ==> records[..i][k].nodeId != "";
    }
    assert records[..i + 1][i] == records[i];
  }

  class FederationManager {
    var trustPool: TrustPool
    var localPeers: map<string, NodeInfo>
    var enabled: bool

    ghost function State(): FedState
      reads this
    {
      FedState(trustPool, localPeers, enabled)
    }

    constructor ()
      ensures State() == EMPTY_STATE
    {
      trustPool := TrustPool(0, Stamp("", None), "", [], []);
      localPeers := map[];
      enabled := false;
    }

    method UpdateTrustPool(pool: TrustPool, now: int)
      modifies this
      ensures Step(old(State()), Update(pool, now), State())
    {
      if pool.version <= trustPool.version {
        return;
      }
      trustPool := MergeTrustPools(trustPool, pool, now);
    }

    method UpdateNodeInfo(info: NodeInfo)
      modifies this
      ensures Step(old(State()), Gossip(info), State())
    {
      var gate := ApplyGate(trustPool.tombstones, info.nodeId, info.lastSeen);
      if gate.Suppressed? {
        return;
      }
      trustPool := trustPool.(tombstones := gate.tombstones);
      var i := FindNode(info.nodeId);
      if i < |trustPool.nodes| {
        trustPool := trustPool.(nodes := trustPool.nodes[i := info]);
      } else {
        localPeers := localPeers[info.nodeId := info];
      }
    }

    method FindNode(id: string) returns (i: nat)
      ensures i == NodeIndex(trustPool.nodes, id)
    {
      i := 0;
      while i < |trustPool.nodes| && trustPool.nodes[i].nodeId != id
        invariant 0 <= i <= |trustPool.nodes|
        invariant forall j :: 0 <= j < i ==> trustPool.nodes[j].nodeId != id
      {
        i := i + 1;
      }
    }

    method RemoveNodeReason(nodeId: string, reason: string, stamp: Stamp, now: int)
      modifies this
      ensures Step(old(State()), Remove(nodeId, reason, stamp, now), State())
    {
      if nodeId == "" {
        return;
      }
      var filtered: seq<NodeInfo> := [];
      for i := 0 to |trustPool.nodes|
        invariant filtered == Without(trustPool.nodes[..i], nodeId)
        invariant State() == old(State())
      {
        assert trustPool.nodes[..i + 1][..i] == trustPool.nodes[..i];
        if trustPool.nodes[i].nodeId != nodeId {
          filtered := filtered + [trustPool.nodes[i]];
        }
      }
      assert trustPool.nodes[..|trustPool.nodes|] == trustPool.nodes;
      localPeers := localPeers - {nodeId};
      var i := 0;
      while i < |trustPool.tombstones| && trustPool.tombstones[i].nodeId != nodeId
        invariant 0 <= i <= |trustPool.tombstones|
        invariant forall j :: 0 <= j < i ==> trustPool.tombstones[j].nodeId != nodeId
        invariant trustPool == old(trustPool) && localPeers == old(localPeers) - {nodeId} && enabled == old(enabled)
      {
        i := i + 1;
      }
      var marked;
      if i < |trustPool.tombstones| {
        var t := trustPool.tombstones[i];
        marked := trustPool.tombstones[
          i := t.(removedAt := stamp, reason := if reason != "" then reason else t.reason)];
      } else {
        marked := trustPool.tombstones + [Tombstone(nodeId, stamp, reason)];
      }
      assert marked == MarkRemoved(trustPool.tombstones, nodeId, stamp, reason);
      var tombs := UnionTombstones(marked, [], now);
      trustPool := trustPool.(
        nodes := filtered, tombstones := tombs, version := trustPool.version + 1, updatedAt := stamp);
    }

    method UpsertKnownNode(n: NodeInfo, stamp: Stamp)
      modifies this`trustPool
      ensures trustPool == Upsert(old(trustPool), n, stamp)
    {
      var record := n.(status := "active");
      if record.lastSeen.text == "" {
        record := record.(lastSeen := stamp);
      }
      var gate := ApplyGate(trustPool.tombstones, record.nodeId, record.lastSeen);
      if gate.Suppressed? {
        return;
      }
      trustPool := trustPool.(tombstones := gate.tombstones);
      var i := FindNode(record.nodeId);
      if i < |trustPool.nodes| {
        var merged := FillNodeInfoRich(record, trustPool.nodes[i]);
        if trustPool.nodes[i].pubKey != "" {
          merged := merged.(pubKey := trustPool.nodes[i].pubKey);
        }
        trustPool := trustPool.(nodes := trustPool.nodes[i := merged]);
      } else {
        trustPool := trustPool.(nodes := trustPool.nodes + [record]);
      }
    }

    method AddKnownNodes(records: seq<NodeInfo>, stamp: Stamp)
      modifies this
      ensures Step(old(State()), AddKnown(records, stamp), State())
    {
      if !enabled {
        return;
      }
      var applied := 0;
      for i := 0 to |records|
        invariant trustPool == UpsertAll(old(trustPool), records[..i], stamp)
        invariant localPeers == old(localPeers) && enabled
        invariant applied > 0 <==> AnyNamed(records[..i])
        invariant applied >= 0
        invariant !AnyNamed(records[..i]) ==> trustPool == old(trustPool)
      {
        assert records[..i + 1][..i] == records[..i];
        AnyNamedMore(records, i);
        if records[i].nodeId != "" {
          UpsertKnownNode(records[i], stamp);
          applied := applied + 1;
        }
      }
      assert records[..|records|] == records;
      if applied == 0 {
        return;
      }
      trustPool := trustPool.(version := trustPool.version + 1, updatedAt := stamp);
    }

    method GetNode(nodeId: string) returns (r: Option<NodeInfo>)
      ensures r == Lookup(State(), nodeId)
    {
      var i := FindNode(nodeId);
      if i < |trustPool.nodes| {
        return Some(trustPool.nodes[i]);
      }
      if nodeId in localPeers {
        return Some(localPeers[nodeId]);
      }
      return None;
    }
  }
}
