// Which side each field of a node record comes from, in the words of its callers:
// after a merge, the removal of duplicates, an upsert, a gossiped record, a removal,
// and what a lookup then returns.

module RecordFields {
  import opened Wrappers
  import opened TrustPools
  import opened TrustPoolMerge
  import opened Federation
  import opened FederationRuns
  import opened TombstoneRank
  import opened MergedRecords

  // -------------------------------------------------------------- vocabulary

  /** Both times parse and the first is later. */
  predicate Later(a: Stamp, b: Stamp)
  {
    && a.text != "" && a.parsed.Some? && b.text != "" && b.parsed.Some?
    && b.parsed.value < a.parsed.value
  }

  function OrText(a: string, b: string): string { if |a| > 0 then a else b }

  function OrList<T>(a: seq<T>, b: seq<T>): seq<T> { if |a| > 0 then a else b }

  /** What a node says about its present state comes from one record alone. */
  predicate StateOf(r: NodeInfo, winner: NodeInfo)
  {
    && r.nodeId == winner.nodeId && r.lastSeen == winner.lastSeen && r.status == winner.status
    && r.seedNode == winner.seedNode && r.reputation == winner.reputation && r.version == winner.version
    && r.tokenBudget == winner.tokenBudget && r.tokenUsed == winner.tokenUsed
  }

  /** Every other field but the key is the winner's, or the other's where the winner has none. */
  predicate FilledFrom(r: NodeInfo, winner: NodeInfo, other: NodeInfo)
  {
    && StateOf(r, winner)
    && r.endpoint == OrText(winner.endpoint, other.endpoint)
    && r.addresses == OrList(winner.addresses, other.addresses)
    && r.sharedModels == OrList(winner.sharedModels, other.sharedModels)
    && r.sharedProviders == OrList(winner.sharedProviders, other.sharedProviders)
    && r.joinedAt == OrText(winner.joinedAt, other.joinedAt)
    && r.gitHubUser == OrText(winner.gitHubUser, other.gitHubUser)
    && r.gitHubId == (if winner.gitHubId != 0 then winner.gitHubId else other.gitHubId)
    && r.inviteBy == OrText(winner.inviteBy, other.inviteBy)
  }

  /** A record that is later than the marker, if there is one. */
  predicate PastMarker(n: NodeInfo, t: Option<Tombstone>)
  {
    t.Some? ==> Later(n.lastSeen, t.value.removedAt)
  }

  // -------------------------------------------------------------------- merge

  /** The record a merge should leave, said field by field. */
  predicate MergedFields(after: Option<NodeInfo>, local: Option<NodeInfo>, offered: Option<NodeInfo>,
                         t: Option<Tombstone>)
  {
    if offered.Some? && PastMarker(offered.value, t) then
      after.Some? &&
      if local.None? then after == offered
      else
        && after.value.pubKey == OrText(local.value.pubKey, offered.value.pubKey)
        && if Later(local.value.lastSeen, offered.value.lastSeen)
           then FilledFrom(after.value, local.value, offered.value)
           else FilledFrom(after.value, offered.value, offered.value)
    else if local.Some? && local.value.status == "active" && PastMarker(local.value, t) then after == local
    else after.None?
  }

  lemma RecordFieldsHold(local: Option<NodeInfo>, offered: Option<NodeInfo>, t: Option<Tombstone>)
    ensures MergedFields(MergedRecord(local, offered, t), local, offered, t)
  {
  }

  /**
   After a merge: of a node both sides offer, the strictly later record wins and takes
   from the other what it lacks if it is the local one; the offered one is taken as it
   is, but for an established key. The pool's own header is the offered one's.
   */
  lemma MergeFields(local: TrustPool, incoming: TrustPool, now: int, tombs: seq<Tombstone>, id: string)
    requires IsUnion(local.tombstones, incoming.tombstones, now, tombs) && DistinctNodes(local.nodes) && id != ""
    ensures
      var merged := MergeWith(local, incoming, tombs);
      && merged.version == incoming.version && merged.updatedAt == incoming.updatedAt
      && merged.registry == incoming.registry
      && MergedFields(
           NodeAt(merged.nodes, id), NodeAt(local.nodes, id), NodeAt(Dedupe(incoming.nodes), id), TombAt(tombs, id))
  {
    MergeRecordAt(local, incoming, now, tombs, id);
    RecordFieldsHold(NodeAt(local.nodes, id), NodeAt(Dedupe(incoming.nodes), id), TombAt(tombs, id));
  }

  // --------------------------------------------------------------- duplicates

  /** One more record in a list: it fills its gaps from the one before it if it is later, else it is ignored. */
  lemma DedupeFields(ns: seq<NodeInfo>, n: NodeInfo)
    requires n.nodeId != ""
    ensures
      var before := NodeAt(Dedupe(ns), n.nodeId);
      var after := NodeAt(Dedupe(ns + [n]), n.nodeId);
      && after.Some?
      && (before.None? ==> after.value == n)
      && (before.Some? && Later(n.lastSeen, before.value.lastSeen) ==>
           FilledFrom(after.value, n, before.value) && after.value.pubKey == OrText(n.pubKey, before.value.pubKey))
      && (before.Some? && !Later(n.lastSeen, before.value.lastSeen) ==> after == before)
    ensures forall id :: id != n.nodeId ==> NodeAt(Dedupe(ns + [n]), id) == NodeAt(Dedupe(ns), id)
  {
    var out := Dedupe(ns);
    assert (ns + [n])[..|ns + [n]| - 1] == ns;
    forall id ensures id != n.nodeId ==> NodeAt(Dedupe(ns + [n]), id) == NodeAt(out, id) {
      DedupeStepAt(out, n, id);
    }
    DedupeStepAt(out, n, n.nodeId);
  }

  lemma DedupeStepAt(out: seq<NodeInfo>, n: NodeInfo, id: string)
    requires n.nodeId != ""
    ensures
      var k := NodeIndex(out, n.nodeId);
      NodeAt(DedupeStep(out, n), id) ==
        if id != n.nodeId then NodeAt(out, id)
        else if k == |out| then Some(n)
        else if Fresher(n.lastSeen, out[k].lastSeen) then Some(FillNodeInfoRich(n, out[k]))
        else Some(out[k])
  {
    var k := NodeIndex(out, n.nodeId);
    if k == |out| {
      NodeAtAppend(out, n, id);
    } else {
      NodeAtReplace(out, k, FillNodeInfoRich(n, out[k]), id);
    }
  }

  lemma LastUnnamed(ns: seq<NodeInfo>, n: NodeInfo)
    requires n.nodeId == ""
    ensures Dedupe(ns + [n]) == Dedupe(ns)
  {
    assert (ns + [n])[..|ns + [n]| - 1] == ns;
  }

  /** Some record of the list that no other record of the node is later than. */
  ghost predicate Latest(ns: seq<NodeInfo>, w: NodeInfo)
  {
    w in ns && forall n :: n in ns && n.nodeId == w.nodeId ==> !Later(n.lastSeen, w.lastSeen)
  }

  /** With times that parse, the record kept for a node has the state of its latest one, and the fields that one has. */
  lemma {:induction false} DedupeKeepsLatest(ns: seq<NodeInfo>, id: string) returns (w: NodeInfo)
    requires DatedNodes(ns) && id != "" && HasNode(ns, id)
    ensures w.nodeId == id && Latest(ns, w)
    ensures NodeAt(Dedupe(ns), id).Some?
    ensures var r := NodeAt(Dedupe(ns), id).value; FilledFrom(r, w, r)
  {
    var front, n := ns[..|ns| - 1], ns[|ns| - 1];
    assert ns == front + [n];
    LastNode(ns, id);
    if n.nodeId == "" { LastUnnamed(front, n); } else { DedupeFields(front, n); }
    if !HasNode(front, id) {
      w := n;
      FirstRecord(front, n);
    } else {
      var v := DedupeKeepsLatest(front, id);
      LatestMore(front, n, v);
      w := if n.nodeId == id && Later(n.lastSeen, v.lastSeen) then n else v;
      if n.nodeId == id {
        StillFromLatest(NodeAt(Dedupe(front), id).value, NodeAt(Dedupe(ns), id).value, n, v);
      }
    }
  }

  lemma FirstRecord(front: seq<NodeInfo>, n: NodeInfo)
    requires n.nodeId != "" && !HasNode(front, n.nodeId)
    ensures Latest(front + [n], n) && NodeAt(Dedupe(front), n.nodeId).None?
  {
    DedupeDistinct(front);
    NodeAtIff(Dedupe(front), n.nodeId);
    Unlisted(front, n.nodeId);
  }

  lemma StillFromLatest(before: NodeInfo, after: NodeInfo, n: NodeInfo, w: NodeInfo)
    requires FilledFrom(before, w, before)
    requires if Later(n.lastSeen, before.lastSeen) then FilledFrom(after, n, before) else after == before
    ensures FilledFrom(after, if Later(n.lastSeen, w.lastSeen) then n else w, after)
  {
  }

  lemma LatestMore(front: seq<NodeInfo>, n: NodeInfo, w: NodeInfo)
    requires DatedNodes(front + [n]) && Latest(front, w)
    ensures Latest(front + [n], if n.nodeId == w.nodeId && Later(n.lastSeen, w.lastSeen) then n else w)
  {
    var ns := front + [n];
    forall k | 0 <= k < |ns| ensures ns[k].lastSeen.When().Some? {
    }
    assert n in ns && w in ns && forall m :: m in ns ==> m in front || m == n;
  }

  lemma Unlisted(ns: seq<NodeInfo>, id: string)
    requires !HasNode(ns, id)
    ensures forall m :: m in ns ==> m.nodeId != id
  {
  }

  // ------------------------------------------------------------------- upsert

  /** The marker of the node refuses a record seen then. */
  predicate Refused(p: TrustPool, id: string, seen: Stamp)
  {
    TombAt(p.tombstones, id).Some? && !Later(seen, TombAt(p.tombstones, id).value.removedAt)
  }

  lemma GateIs(ts: seq<Tombstone>, id: string, seen: Stamp)
    ensures Gate(ts, id, seen).Suppressed? <==> TombAt(ts, id).Some? && !Later(seen, TombAt(ts, id).value.removedAt)
  {
  }

  /**
   A known node that is upserted: refused by a marker it is not later than, or else
   active, seen when it says or now, with the established key, and with the fields it
   brings before those that were there. Nobody else's record changes.
   */
  lemma UpsertFields(p: TrustPool, n: NodeInfo, stamp: Stamp, id: string)
    requires Tidy(p.nodes, p.tombstones)
    ensures
      var seen := if n.lastSeen.text == "" then stamp else n.lastSeen;
      var after := Upsert(p, n, stamp);
      var was := NodeAt(p.nodes, n.nodeId);
      var r := NodeAt(after.nodes, n.nodeId);
      && after.version == p.version && after.updatedAt == p.updatedAt && after.registry == p.registry
      && (Refused(p, n.nodeId, seen) ==> after == p)
      && (!Refused(p, n.nodeId, seen) ==>
           && r.Some? && TombAt(after.tombstones, n.nodeId).None?
           && var sent := n.(status := "active", lastSeen := seen);
              if was.None? then r.value == sent
              else FilledFrom(r.value, sent, was.value) && r.value.pubKey == OrText(was.value.pubKey, n.pubKey))
      && (id != n.nodeId ==>
           NodeAt(after.nodes, id) == NodeAt(p.nodes, id) && TombAt(after.tombstones, id) == TombAt(p.tombstones, id))
  {
    var sent := n.(status := "active", lastSeen := EffectiveSeen(n, stamp));
    GateIs(p.tombstones, n.nodeId, sent.lastSeen);
    if Gate(p.tombstones, n.nodeId, sent.lastSeen).Passed? {
      UpsertedAt(p, n, stamp, id);
      UpsertedAt(p, n, stamp, n.nodeId);
      UpsertedRecord(p, n, stamp);
      GateTombs(p.tombstones, n.nodeId, sent.lastSeen, id);
    }
  }

  lemma GateTombs(ts: seq<Tombstone>, node: string, seen: Stamp, id: string)
    requires DistinctTombs(ts) && Gate(ts, node, seen).Passed?
    ensures TombAt(Gate(ts, node, seen).tombstones, node).None?
    ensures id != node ==> TombAt(Gate(ts, node, seen).tombstones, id) == TombAt(ts, id)
  {
    GateTombAt(ts, node, seen, id);
    GateTombAt(ts, node, seen, node);
  }

  lemma UpsertedRecord(p: TrustPool, n: NodeInfo, stamp: Stamp)
    requires Gate(p.tombstones, n.nodeId, EffectiveSeen(n, stamp)).Passed?
    ensures
      var was := NodeAt(p.nodes, n.nodeId);
      var sent := n.(status := "active", lastSeen := EffectiveSeen(n, stamp));
      var r := Upsert(p, n, stamp).nodes[NodeIndex(p.nodes, n.nodeId)];
      if was.None? then r == sent
      else FilledFrom(r, sent, was.value) && r.pubKey == OrText(was.value.pubKey, n.pubKey)
  {
  }

  lemma UpsertedAt(p: TrustPool, n: NodeInfo, stamp: Stamp, id: string)
    requires Gate(p.tombstones, n.nodeId, EffectiveSeen(n, stamp)).Passed?
    ensures
      var after := Upsert(p, n, stamp);
      var k := NodeIndex(p.nodes, n.nodeId);
      NodeAt(after.nodes, id) == if id == n.nodeId then Some(after.nodes[k]) else NodeAt(p.nodes, id)
  {
    var after := Upsert(p, n, stamp);
    var k := NodeIndex(p.nodes, n.nodeId);
    if k == |p.nodes| {
      NodeAtAppend(p.nodes, after.nodes[k], id);
    } else {
      NodeAtReplace(p.nodes, k, after.nodes[k], id);
    }
  }

  // ------------------------------------------------------------------- lookups

  /** The pool's record comes first, whatever the gossip peers say. */
  lemma LookupPrefersPool(s: FedState, id: string)
    ensures HasNode(s.pool.nodes, id) ==> Lookup(s, id) == NodeAt(s.pool.nodes, id)
    ensures !HasNode(s.pool.nodes, id) ==> Lookup(s, id) == if id in s.peers then Some(s.peers[id]) else None
  {
    IndexFinds(s.pool.nodes, id);
  }

  /**
   A gossiped record that is not refused is what a lookup returns next, as it came;
   nothing is found differently for other nodes. A refused one changes nothing.
   */
  lemma GossipIsFound(s: FedState, info: NodeInfo, s': FedState, id: string)
    requires Inv(s) && Step(s, Gossip(info), s')
    ensures Refused(s.pool, info.nodeId, info.lastSeen) ==> s' == s
    ensures !Refused(s.pool, info.nodeId, info.lastSeen) ==>
      && Lookup(s', info.nodeId) == Some(info) && TombAt(s'.pool.tombstones, info.nodeId).None?
      && (HasNode(s.pool.nodes, info.nodeId) ==> s'.peers == s.peers)
    ensures id != info.nodeId ==>
      Lookup(s', id) == Lookup(s, id) && TombAt(s'.pool.tombstones, id) == TombAt(s.pool.tombstones, id)
    ensures s'.pool.version == s.pool.version && s'.enabled == s.enabled
  {
    GateIs(s.pool.tombstones, info.nodeId, info.lastSeen);
    if Gate(s.pool.tombstones, info.nodeId, info.lastSeen).Passed? {
      GateTombs(s.pool.tombstones, info.nodeId, info.lastSeen, id);
      IndexFinds(s.pool.nodes, info.nodeId);
      LookupAfterGossip(s, info, id);
      LookupAfterGossip(s, info, info.nodeId);
    }
  }

  lemma LookupAfterGossip(s: FedState, info: NodeInfo, id: string)
    requires Gate(s.pool.tombstones, info.nodeId, info.lastSeen).Passed?
    ensures Lookup(GossipResult(s, info), id) == if id == info.nodeId then Some(info) else Lookup(s, id)
  {
    var k := NodeIndex(s.pool.nodes, info.nodeId);
    var after := GossipResult(s, info);
    LookupIs(s, id);
    LookupIs(after, id);
    if k < |s.pool.nodes| { NodeAtReplace(s.pool.nodes, k, info, id); }
  }

  lemma LookupIs(s: FedState, id: string)
    ensures Lookup(s, id) ==
      if NodeAt(s.pool.nodes, id).Some? then NodeAt(s.pool.nodes, id)
      else if id in s.peers then Some(s.peers[id])
      else None
  {
  }

  /**
   A node that is known by gossip and then added as a known node, unless it is refused:
   both records are there, and a lookup returns the pool's.
   */
  lemma PoolShadowsPeer(s: FedState, info: NodeInfo, n: NodeInfo, stamp: Stamp, s1: FedState, s2: FedState)
    requires Inv(s) && s.enabled && !HasNode(s.pool.nodes, info.nodeId) && n.nodeId == info.nodeId != ""
    requires !Refused(s.pool, info.nodeId, info.lastSeen)
    requires Step(s, Gossip(info), s1) && Step(s1, AddKnown([n], stamp), s2)
    ensures info.nodeId in s2.peers && s2.peers[info.nodeId] == info
    ensures Lookup(s2, info.nodeId) ==
      Some(n.(status := "active", lastSeen := if n.lastSeen.text == "" then stamp else n.lastSeen))
    ensures s2.pool.version == s1.pool.version + 1 && s2.pool.updatedAt == stamp
  {
    StepKeepsInv(s, Gossip(info), s1);
    GossipIsFound(s, info, s1, info.nodeId);
    GateIs(s.pool.tombstones, info.nodeId, info.lastSeen);
    IndexFinds(s.pool.nodes, info.nodeId);
    UpsertFields(s1.pool, n, stamp, n.nodeId);
    assert [n][..0] == [] && UpsertAll(s1.pool, [n], stamp) == Upsert(s1.pool, n, stamp);
    assert [n][0].nodeId != "";
    LookupPrefersPool(s2, info.nodeId);
    NodeAtIff(s2.pool.nodes, info.nodeId);
  }

  /** A removal touches nobody else; its marker, if the cap leaves it, has its time and its reason. */
  lemma RemovalFields(s: FedState, id: string, reason: string, stamp: Stamp, now: int, s': FedState, other: string)
    requires Inv(s) && id != "" && Step(s, Remove(id, reason, stamp, now), s')
    ensures Lookup(s', id).None? && (other != id ==> Lookup(s', other) == Lookup(s, other))
    ensures s'.pool.version == s.pool.version + 1 && s'.pool.updatedAt == stamp && s'.pool.registry == s.pool.registry
    ensures
      var was, t := TombAt(s.pool.tombstones, id), TombAt(s'.pool.tombstones, id);
      t.Some? ==> t.value.removedAt == stamp
                  && t.value.reason == OrText(reason, if was.Some? then was.value.reason else "")
  {
    RemoveTidy(s, id, reason, stamp, now, s');
    LookupPrefersPool(s', id);
    WithoutAt(s.pool.nodes, id, other);
    LookupPrefersPool(s', other);
    LookupPrefersPool(s, other);
    NodeAtIff(s.pool.nodes, other);
    NodeAtIff(s'.pool.nodes, other);
    RemovalMarker(s.pool.tombstones, id, reason, stamp, now, s'.pool.tombstones);
  }

  lemma RemovalMarker(ts: seq<Tombstone>, id: string, reason: string, stamp: Stamp, now: int, out: seq<Tombstone>)
    requires DistinctTombs(ts) && id != "" && IsUnion(MarkRemoved(ts, id, stamp, reason), [], now, out)
    ensures
      var was := TombAt(ts, id);
      TombAt(out, id).Some? ==>
        TombAt(out, id).value == Tombstone(id, stamp, OrText(reason, if was.Some? then was.value.reason else ""))
  {
    var marked := MarkRemoved(ts, id, stamp, reason);
    HasTombAt(out, id);
    if HasTomb(out, id) {
      UnionTomb(marked, [], now, out, id);
      assert marked + [] == marked;
      MarkedParts(ts, id, stamp, reason);
      NewestOfDistinct(marked, TombIndex(ts, id));
    }
  }

  lemma {:induction false} WithoutAt(ns: seq<NodeInfo>, id: string, other: string)
    ensures NodeAt(Without(ns, id), other) == if other == id then None else NodeAt(ns, other)
  {
    if ns == [] {
    } else {
      var front, n := ns[..|ns| - 1], ns[|ns| - 1];
      assert ns == front + [n];
      WithoutAt(front, id, other);
      NodeAtAppend(front, n, other);
      NodeAtAppend(Without(front, id), n, other);
    }
  }

  // ------------------------------------------------------------- known nodes

  /** Adding known nodes does nothing in personal mode or without a named record, and else moves the version once. */
  lemma AddKnownSays(s: FedState, records: seq<NodeInfo>, stamp: Stamp, s': FedState)
    requires Step(s, AddKnown(records, stamp), s')
    ensures !s.enabled || (forall k :: 0 <= k < |records| ==> records[k].nodeId == "") ==> s' == s
    ensures s.enabled && (exists k :: 0 <= k < |records| && records[k].nodeId != "") ==>
      && s'.pool.version == s.pool.version + 1 && s'.pool.updatedAt == stamp && s'.pool.registry == s.pool.registry
      && s'.pool.nodes == UpsertAll(s.pool, records, stamp).nodes
      && s'.pool.tombstones == UpsertAll(s.pool, records, stamp).tombstones
      && s'.peers == s.peers && s'.enabled
  {
    UpsertAllHeader(s.pool, records, stamp);
  }

  lemma {:induction false} UpsertAllHeader(p: TrustPool, ns: seq<NodeInfo>, stamp: Stamp)
    ensures var r := UpsertAll(p, ns, stamp);
            r.version == p.version && r.updatedAt == p.updatedAt && r.registry == p.registry
  {
    if ns != [] { UpsertAllHeader(p, ns[..|ns| - 1], stamp); }
  }

  // ------------------------------------------------------------------- markers

  /** Older than thirty days, if its time parses at all. */
  predicate Over30Days(t: Tombstone, now: int)
  {
    t.removedAt.text != "" && t.removedAt.parsed.Some?
      && now - t.removedAt.parsed.value > 30 * 24 * 3600 * 1_000_000_000
  }

  lemma {:induction false} NewestIsLatest(ts: seq<Tombstone>, t: Tombstone)
    requires t in ts && t.nodeId != ""
    ensures t.nodeId in Newest(ts)
    ensures t.removedAt.When().Some? ==>
      var m := Newest(ts)[t.nodeId].removedAt.When(); m.Some? && t.removedAt.When().value <= m.value
  {
    var front, last := ts[..|ts| - 1], ts[|ts| - 1];
    if t in front { NewestIsLatest(front, t); }
    assert t in front || t == last by {
      var k :| 0 <= k < |ts| && ts[k] == t;
      assert k < |front| ==> front[k] == t;
    }
  }

  lemma {:induction false} NewestSize(ts: seq<Tombstone>)
    ensures |Newest(ts)| <= |ts|
  {
    if ts != [] {
      NewestSize(ts[..|ts| - 1]);
      AbsorbSize(Newest(ts[..|ts| - 1]), ts[|ts| - 1]);
    }
  }

  lemma AbsorbSize(m: map<string, Tombstone>, t: Tombstone)
    ensures |Absorb(m, t)| <= |m| + 1
  {
    assert t.nodeId in m ==> m[t.nodeId := t].Keys == m.Keys;
    assert t.nodeId !in m ==> m[t.nodeId := t].Keys == m.Keys + {t.nodeId};
    assert |m[t.nodeId := t]| == |m[t.nodeId := t].Keys| && |m| == |m.Keys|;
  }

  /** Both sides are small, and the node has markers there, none of them older than thirty days. */
  ghost predicate AllYoung(a: seq<Tombstone>, b: seq<Tombstone>, now: int, id: string)
  {
    && |a| + |b| <= 256 && HasTomb(a + b, id)
    && forall o :: o in a + b && o.nodeId == id ==> !Over30Days(o, now)
  }

  /**
   What a union keeps of a node's markers: one of them, that none of them is later than
   and that is not older than thirty days. While both sides have no more than 256
   together it keeps one whenever none of the node's is that old.
   */
  lemma UnionSays(a: seq<Tombstone>, b: seq<Tombstone>, now: int, out: seq<Tombstone>, id: string)
    requires IsUnion(a, b, now, out) && id != ""
    ensures TombAt(out, id).Some? ==>
      var t := TombAt(out, id).value;
      && t.nodeId == id && t in a + b && !Over30Days(t, now)
      && forall o :: o in a + b && o.nodeId == id ==> !Later(o.removedAt, t.removedAt)
    ensures AllYoung(a, b, now, id) ==> TombAt(out, id).Some?
  {
    HasTombAt(out, id);
    if HasTomb(out, id) {
      UnionTomb(a, b, now, out, id);
      NewestEntry(a + b, id);
      forall o | o in a + b && o.nodeId == id ensures !Later(o.removedAt, Newest(a + b)[id].removedAt) {
        NewestIsLatest(a + b, o);
      }
    }
    if AllYoung(a, b, now, id) {
      YoungIsKept(a, b, now, id);
    }
  }

  lemma YoungIsKept(a: seq<Tombstone>, b: seq<Tombstone>, now: int, id: string)
    requires id != "" && AllYoung(a, b, now, id)
    ensures var kept := Kept(Newest(a + b), now); id in kept && |kept| <= 256
  {
    var m := Newest(a + b);
    var k :| 0 <= k < |a + b| && (a + b)[k].nodeId == id;
    NewestIsLatest(a + b, (a + b)[k]);
    NewestEntry(a + b, id);
    NewestSize(a + b);
    Fewer(Kept(m, now), m.Keys);
  }
}
