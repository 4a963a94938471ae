// The replicated trust pool: node records, removal markers (tombstones) and the
// pure rules by which two copies of the pool are reconciled.

module TrustPools {
  import opened Wrappers
  import opened ByteText

  // ------------------------------------------------------------- data model

  /** A timestamp field: its text, and the instant (in nanoseconds) it parses to, if it does. */
  datatype Stamp = Stamp(text: string, parsed: Option<int>) {
    /** The empty text never parses. */
    function When(): Option<int> { if text == "" then None else parsed }
  }

  datatype SharedProvider = SharedProvider(providerId: string, platform: string, models: seq<string>, capacity: int)

  datatype NodeInfo = NodeInfo(
    nodeId: string, gitHubUser: string, gitHubId: int, endpoint: string, pubKey: string,
    sharedModels: seq<string>, sharedProviders: seq<SharedProvider>, joinedAt: string,
    lastSeen: Stamp, status: string, seedNode: bool, reputation: int, version: string,
    inviteBy: string, tokenBudget: int, tokenUsed: int, addresses: seq<string>)

  datatype Tombstone = Tombstone(nodeId: string, removedAt: Stamp, reason: string)

  datatype TrustPool = TrustPool(version: int, updatedAt: Stamp, registry: string,
                                 nodes: seq<NodeInfo>, tombstones: seq<Tombstone>)

  const MAX_TOMBSTONES: nat := 256
  const TOMBSTONE_TTL: int := 30 * 24 * 3600 * 1_000_000_000

  // ---------------------------------------------------------- time comparisons

  /** A record loses to a removal marker unless it is strictly newer; undated times lose. */
  predicate Suppresses(lastSeen: Stamp, removedAt: Stamp)
  {
    !(lastSeen.When().Some? && removedAt.When().Some? && lastSeen.When().value > removedAt.When().value)
  }

  predicate TombstoneNewer(a: Stamp, b: Stamp)
  {
    a.When().Some? && (b.When().Some? ==> a.When().value > b.When().value)
  }

  predicate Fresher(a: Stamp, b: Stamp)
  {
    a.When().Some? && b.When().Some? && a.When().value > b.When().value
  }

  predicate Expired(t: Tombstone, now: int)
  {
    t.removedAt.When().Some? && now - t.removedAt.When().value > TOMBSTONE_TTL
  }

  // ------------------------------------------------------------------ lookups

  function NodeIndex(ns: seq<NodeInfo>, id: string): (k: nat)
    ensures k <= |ns|
    ensures k < |ns| ==> ns[k].nodeId == id
    ensures forall j :: 0 <= j < k ==> ns[j].nodeId != id
  {
    if ns == [] || ns[0].nodeId == id then 0 else 1 + NodeIndex(ns[1..], id)
  }

  function TombIndex(ts: seq<Tombstone>, id: string): (k: nat)
    ensures k <= |ts|
    ensures k < |ts| ==> ts[k].nodeId == id
    ensures forall j :: 0 <= j < k ==> ts[j].nodeId != id
  {
    if ts == [] || ts[0].nodeId == id then 0 else 1 + TombIndex(ts[1..], id)
  }

  ghost predicate HasNode(ns: seq<NodeInfo>, id: string) { exists k :: 0 <= k < |ns| && ns[k].nodeId == id }

  ghost predicate HasTomb(ts: seq<Tombstone>, id: string) { exists k :: 0 <= k < |ts| && ts[k].nodeId == id }

  ghost predicate DistinctNodes(ns: seq<NodeInfo>)
  {
    forall i, j :: 0 <= i < j < |ns| ==> ns[i].nodeId != ns[j].nodeId
  }

  ghost predicate DistinctTombs(ts: seq<Tombstone>)
  {
    forall i, j :: 0 <= i < j < |ts| ==> ts[i].nodeId != ts[j].nodeId
  }

  // --------------------------------------------------------------- gate, union

  datatype GateResult = Suppressed | Passed(tombstones: seq<Tombstone>)

  /** The tombstone gate: a stale record is refused, a strictly newer one clears the marker. */
  function Gate(ts: seq<Tombstone>, id: string, lastSeen: Stamp): GateResult
  {
    var k := TombIndex(ts, id);
    if k == |ts| then Passed(ts)
    else if Suppresses(lastSeen, ts[k].removedAt) then Suppressed
    else Passed(ts[..k] + ts[k + 1..])
  }

  /** One tombstone folded into the newest-per-node map. */
  function Absorb(m: map<string, Tombstone>, t: Tombstone): map<string, Tombstone>
  {
    if t.nodeId == "" then m
    else if t.nodeId !in m || TombstoneNewer(t.removedAt, m[t.nodeId].removedAt) then m[t.nodeId := t]
    else m
  }

  /** The newest marker of each node, in order of arrival. */
  function Newest(ts: seq<Tombstone>): map<string, Tombstone>
  {
    if ts == [] then map[] else Absorb(Newest(ts[..|ts| - 1]), ts[|ts| - 1])
  }

  function Kept(m: map<string, Tombstone>, now: int): set<string>
  {
    set id | id in m && !Expired(m[id], now)
  }

  /**
   out is a union of two tombstone sets: the newest marker per node, expired ones
   dropped, and at most 256 kept. Past the cap the survivors are those with the
   greatest RemovedAt text (the code compares the texts, not the instants).
   */
  ghost predicate IsUnion(a: seq<Tombstone>, b: seq<Tombstone>, now: int, out: seq<Tombstone>)
  {
    var m := Newest(a + b);
    var kept := Kept(m, now);
    && DistinctTombs(out)
    && |out| <= MAX_TOMBSTONES
    && (forall k :: 0 <= k < |out| ==> out[k].nodeId in kept && m[out[k].nodeId] == out[k])
    && (|kept| <= MAX_TOMBSTONES ==> forall id :: id in kept ==> HasTomb(out, id))
    && (|kept| > MAX_TOMBSTONES ==> |out| == MAX_TOMBSTONES)
    && (forall k, id :: 0 <= k < |out| && id in kept && !HasTomb(out, id) ==>
          !Less(out[k].removedAt.text, m[id].removedAt.text))
  }

  // -------------------------------------------------------------- node records

  function FillNodeInfoRich(dst: NodeInfo, src: NodeInfo): NodeInfo
  {
    dst.(pubKey := if dst.pubKey == "" then src.pubKey else dst.pubKey,
         gitHubUser := if dst.gitHubUser == "" then src.gitHubUser else dst.gitHubUser,
         gitHubId := if dst.gitHubId == 0 then src.gitHubId else dst.gitHubId,
         inviteBy := if dst.inviteBy == "" then src.inviteBy else dst.inviteBy,
         sharedModels := if dst.sharedModels == [] then src.sharedModels else dst.sharedModels,
         sharedProviders := if dst.sharedProviders == [] then src.sharedProviders else dst.sharedProviders,
         endpoint := if dst.endpoint == "" then src.endpoint else dst.endpoint,
         addresses := if dst.addresses == [] then src.addresses else dst.addresses,
         joinedAt := if dst.joinedAt == "" then src.joinedAt else dst.joinedAt)
  }

  /** One record folded into a list without duplicates: the fresher record wins. */
  function DedupeStep(out: seq<NodeInfo>, n: NodeInfo): seq<NodeInfo>
  {
    if n.nodeId == "" then out
    else
      var k := NodeIndex(out, n.nodeId);
      if k == |out| then out + [n]
      else if Fresher(n.lastSeen, out[k].lastSeen) then out[k := FillNodeInfoRich(n, out[k])]
      else out
  }

  function Dedupe(ns: seq<NodeInfo>): seq<NodeInfo>
  {
    if ns == [] then [] else DedupeStep(Dedupe(ns[..|ns| - 1]), ns[|ns| - 1])
  }

  // -------------------------------------------------------------------- merge

  datatype Merging = Merging(nodes: seq<NodeInfo>, tombstones: seq<Tombstone>)

  function TakeIncoming(m: Merging, n: NodeInfo): Merging
  {
    if n.nodeId == "" then m
    else match Gate(m.tombstones, n.nodeId, n.lastSeen)
      case Suppressed => m
      case Passed(ts) => Merging(m.nodes + [n], ts)
  }

  function FoldIncoming(tombs: seq<Tombstone>, ns: seq<NodeInfo>): (m: Merging)
  {
    if ns == [] then Merging([], tombs) else TakeIncoming(FoldIncoming(tombs, ns[..|ns| - 1]), ns[|ns| - 1])
  }

  /** Both sides know the node: the fresher record wins, the local key stays. */
  function Reconcile(ln: NodeInfo, cur: NodeInfo): NodeInfo
  {
    if Fresher(ln.lastSeen, cur.lastSeen) then FillNodeInfoRich(ln, cur)
    else if ln.pubKey != "" then cur.(pubKey := ln.pubKey)
    else cur
  }

  /** One local record; the first `count` merged nodes came from the incoming pool. */
  function TakeLocal(m: Merging, count: nat, ln: NodeInfo): (r: Merging)
    requires count <= |m.nodes|
    ensures |m.nodes| <= |r.nodes|
  {
    if ln.nodeId == "" then m
    else match Gate(m.tombstones, ln.nodeId, ln.lastSeen)
      case Suppressed => m
      case Passed(ts) =>
        var k := NodeIndex(m.nodes[..count], ln.nodeId);
        if k < count then Merging(m.nodes[k := Reconcile(ln, m.nodes[k])], ts)
        else if ln.status != "active" then Merging(m.nodes, ts)
        else Merging(m.nodes + [ln], ts)
  }

  function FoldLocal(start: Merging, ns: seq<NodeInfo>): (m: Merging)
    ensures |start.nodes| <= |m.nodes|
  {
    if ns == [] then start else TakeLocal(FoldLocal(start, ns[..|ns| - 1]), |start.nodes|, ns[|ns| - 1])
  }

  /** The merge, once the union of the tombstones is fixed. */
  function MergeWith(local: TrustPool, incoming: TrustPool, tombs: seq<Tombstone>): TrustPool
  {
    var m := FoldLocal(FoldIncoming(tombs, Dedupe(incoming.nodes)), local.nodes);
    TrustPool(incoming.version, incoming.updatedAt, incoming.registry, m.nodes, m.tombstones)
  }

  /** merged is a possible result of merging incoming into local at time now. */
  ghost predicate IsMerge(local: TrustPool, incoming: TrustPool, now: int, merged: TrustPool)
  {
    exists tombs :: IsUnion(local.tombstones, incoming.tombstones, now, tombs)
      && merged == MergeWith(local, incoming, tombs)
  }

  // -------------------------------------------------------------- upsert, gossip

  function Upsert(pool: TrustPool, n: NodeInfo, stamp: Stamp): TrustPool
  {
    var node := n.(status := "active", lastSeen := EffectiveSeen(n, stamp));
    match Gate(pool.tombstones, node.nodeId, node.lastSeen)
    case Suppressed => pool
    case Passed(ts) =>
      var k := NodeIndex(pool.nodes, node.nodeId);
      if k == |pool.nodes| then pool.(nodes := pool.nodes + [node], tombstones := ts)
      else
        var filled := FillNodeInfoRich(node, pool.nodes[k]);
        var kept := if pool.nodes[k].pubKey != "" then filled.(pubKey := pool.nodes[k].pubKey) else filled;
        pool.(nodes := pool.nodes[k := kept], tombstones := ts)
  }

  /** A record offered without a LastSeen counts as seen now. */
  function EffectiveSeen(n: NodeInfo, stamp: Stamp): Stamp
  {
    if n.lastSeen.text == "" then stamp else n.lastSeen
  }

  function UpsertAll(pool: TrustPool, ns: seq<NodeInfo>, stamp: Stamp): TrustPool
  {
    if ns == [] then pool
    else
      var rest := UpsertAll(pool, ns[..|ns| - 1], stamp);
      var n := ns[|ns| - 1];
      if n.nodeId == "" then rest else Upsert(rest, n, stamp)
  }

  predicate AnyNamed(ns: seq<NodeInfo>) { exists k :: 0 <= k < |ns| && ns[k].nodeId != "" }

  /** The marker for id is refreshed in place, or appended. */
  function MarkRemoved(ts: seq<Tombstone>, id: string, stamp: Stamp, reason: string): seq<Tombstone>
  {
    var k := TombIndex(ts, id);
    if k == |ts| then ts + [Tombstone(id, stamp, reason)]
    else ts[k := ts[k].(removedAt := stamp, reason := if reason != "" then reason else ts[k].reason)]
  }

  function Without(ns: seq<NodeInfo>, id: string): (r: seq<NodeInfo>)
  {
    if ns == [] then []
    else
      var rest := Without(ns[..|ns| - 1], id);
      if ns[|ns| - 1].nodeId != id then rest + [ns[|ns| - 1]] else rest
  }
}
