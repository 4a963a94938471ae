// What every run of the federation manager keeps: the shape of the pool, removals
// that stick, and keys that never rotate.

module FederationRuns {
  import opened Wrappers
  import opened TrustPools
  import opened TrustPoolMerge
  import opened Federation

  // ----------------------------------------------------------------- invariant

  ghost predicate Disjoint(ns: seq<NodeInfo>, ts: seq<Tombstone>)
  {
    forall i, j :: 0 <= i < |ns| && 0 <= j < |ts| ==> ns[i].nodeId != ts[j].nodeId
  }

  ghost predicate Tidy(ns: seq<NodeInfo>, ts: seq<Tombstone>)
  {
    && DistinctNodes(ns) && DistinctTombs(ts) && Disjoint(ns, ts)
    && |ts| <= MAX_TOMBSTONES
  }

  /** Live ids distinct, tombstoned ids distinct, no id both, at most 256 markers. */
  ghost predicate Inv(s: FedState)
  {
    Tidy(s.pool.nodes, s.pool.tombstones)
  }

  lemma GateTidy(ns: seq<NodeInfo>, ts: seq<Tombstone>, id: string, seen: Stamp)
    requires Tidy(ns, ts) && Gate(ts, id, seen).Passed?
    ensures var r := Gate(ts, id, seen).tombstones;
            Tidy(ns, r) && !HasTomb(r, id) && forall other :: other != id ==>
              (HasTomb(r, other) <==> HasTomb(ts, other))
  {
    var k := TombIndex(ts, id);
    if k < |ts| {
      var r := ts[..k] + ts[k + 1..];
      assert forall i :: 0 <= i < |r| ==> r[i] == ts[if i < k then i else i + 1];
      forall other | other != id ensures HasTomb(r, other) <==> HasTomb(ts, other) {
        if HasTomb(ts, other) {
          var i :| 0 <= i < |ts| && ts[i].nodeId == other;
          assert r[if i < k then i else i - 1].nodeId == other;
        }
        if HasTomb(r, other) {
          var i :| 0 <= i < |r| && r[i].nodeId == other;
          assert ts[if i < k then i else i + 1].nodeId == other;
        }
      }
    }
  }

  lemma SuppressedHasTomb(ts: seq<Tombstone>, id: string, seen: Stamp)
    requires Gate(ts, id, seen).Suppressed?
    ensures HasTomb(ts, id)
  {
    assert ts[TombIndex(ts, id)].nodeId == id;
  }

  /** Appending a record of an unknown, unmarked node keeps the pool tidy. */
  lemma AppendTidy(ns: seq<NodeInfo>, ts: seq<Tombstone>, n: NodeInfo)
    requires Tidy(ns, ts) && !HasTomb(ts, n.nodeId) && !HasNode(ns, n.nodeId)
    ensures Tidy(ns + [n], ts)
  {
  }

  lemma ReplaceTidy(ns: seq<NodeInfo>, ts: seq<Tombstone>, k: nat, n: NodeInfo)
    requires Tidy(ns, ts) && k < |ns| && ns[k].nodeId == n.nodeId
    ensures Tidy(ns[k := n], ts)
  {
  }

  lemma {:induction false} FoldIncomingTidy(tombs: seq<Tombstone>, ns: seq<NodeInfo>)
    requires DistinctTombs(tombs) && |tombs| <= MAX_TOMBSTONES && DistinctNodes(ns)
    ensures var m := FoldIncoming(tombs, ns);
            && Tidy(m.nodes, m.tombstones)
            && (forall id :: HasNode(m.nodes, id) ==> HasNode(ns, id))
            && (forall id :: HasTomb(m.tombstones, id) ==> HasTomb(tombs, id))
  {
    if ns != [] {
      var rest, n := ns[..|ns| - 1], ns[|ns| - 1];
      var m := FoldIncoming(tombs, rest);
      FoldIncomingTidy(tombs, rest);
      forall id ensures HasNode(ns, id) <==> HasNode(rest, id) || n.nodeId == id { LastNode(ns, id); }
      if n.nodeId != "" && Gate(m.tombstones, n.nodeId, n.lastSeen).Passed? {
        GateTidy(m.nodes, m.tombstones, n.nodeId, n.lastSeen);
        assert !HasNode(rest, n.nodeId);
        AppendTidy(m.nodes, Gate(m.tombstones, n.nodeId, n.lastSeen).tombstones, n);
        var r := m.nodes + [n];
        forall id ensures HasNode(r, id) <==> HasNode(m.nodes, id) || n.nodeId == id {
          LastNode(r, id);
          assert r[..|r| - 1] == m.nodes;
        }
      }
    }
  }

  lemma {:induction false} FoldLocalTidy(start: Merging, ns: seq<NodeInfo>)
    requires Tidy(start.nodes, start.tombstones) && DistinctNodes(ns)
    ensures var m := FoldLocal(start, ns);
            && Tidy(m.nodes, m.tombstones)
            && (forall id :: HasNode(m.nodes, id) ==> HasNode(start.nodes, id) || HasNode(ns, id))
            && (forall id :: HasTomb(m.tombstones, id) ==> HasTomb(start.tombstones, id))
  {
    if ns != [] {
      var rest, ln := ns[..|ns| - 1], ns[|ns| - 1];
      var m := FoldLocal(start, rest);
      FoldLocalTidy(start, rest);
      FoldLocalPrefix(start, rest);
      forall id ensures HasNode(ns, id) <==> HasNode(rest, id) || ln.nodeId == id { LastNode(ns, id); }
      assert !HasNode(rest, ln.nodeId);
      TakeLocalTidy(start, m, ln);
    }
  }

  lemma TakeLocalTidy(start: Merging, m: Merging, ln: NodeInfo)
    requires Tidy(m.nodes, m.tombstones) && |start.nodes| <= |m.nodes|
    requires forall i :: 0 <= i < |start.nodes| ==> m.nodes[i].nodeId == start.nodes[i].nodeId
    requires HasNode(m.nodes, ln.nodeId) ==> HasNode(start.nodes, ln.nodeId)
    ensures var r := TakeLocal(m, |start.nodes|, ln);
            && Tidy(r.nodes, r.tombstones)
            && (forall id :: HasNode(r.nodes, id) ==> HasNode(m.nodes, id) || ln.nodeId == id)
            && (forall id :: HasTomb(r.tombstones, id) ==> HasTomb(m.tombstones, id))
  {
    if ln.nodeId != "" && Gate(m.tombstones, ln.nodeId, ln.lastSeen).Passed? {
      var ts := Gate(m.tombstones, ln.nodeId, ln.lastSeen).tombstones;
      GateTidy(m.nodes, m.tombstones, ln.nodeId, ln.lastSeen);
      SamePrefixIds(start.nodes, m.nodes, ln.nodeId);
      var k := NodeIndex(m.nodes[..|start.nodes|], ln.nodeId);
      if k < |start.nodes| {
        ReplaceTidy(m.nodes, ts, k, Reconcile(ln, m.nodes[k]));
        ReplacedIds(m.nodes, k, Reconcile(ln, m.nodes[k]));
      } else if ln.status == "active" {
        AppendTidy(m.nodes, ts, ln);
        AppendedIds(m.nodes, ln);
      }
    }
  }

  lemma ReplacedIds(ns: seq<NodeInfo>, k: nat, n: NodeInfo)
    requires k < |ns| && ns[k].nodeId == n.nodeId
    ensures forall id :: HasNode(ns[k := n], id) <==> HasNode(ns, id)
  {
    forall id ensures HasNode(ns[k := n], id) <==> HasNode(ns, id) {
      if HasNode(ns, id) {
        var i :| 0 <= i < |ns| && ns[i].nodeId == id;
        assert ns[k := n][i].nodeId == id;
      }
      if HasNode(ns[k := n], id) {
        var i :| 0 <= i < |ns| && ns[k := n][i].nodeId == id;
        assert ns[i].nodeId == id;
      }
    }
  }

  lemma AppendedIds(ns: seq<NodeInfo>, n: NodeInfo)
    ensures forall id :: HasNode(ns + [n], id) <==> HasNode(ns, id) || n.nodeId == id
  {
    forall id ensures HasNode(ns + [n], id) <==> HasNode(ns, id) || n.nodeId == id {
      LastNode(ns + [n], id);
      assert (ns + [n])[..|ns + [n]| - 1] == ns;
    }
  }

  lemma MergeTidy(local: TrustPool, incoming: TrustPool, now: int, merged: TrustPool)
    requires IsMerge(local, incoming, now, merged) && DistinctNodes(local.nodes)
    ensures Tidy(merged.nodes, merged.tombstones)
  {
    var tombs :| IsUnion(local.tombstones, incoming.tombstones, now, tombs)
      && merged == MergeWith(local, incoming, tombs);
    DedupeDistinct(incoming.nodes);
    FoldIncomingTidy(tombs, Dedupe(incoming.nodes));
    FoldLocalTidy(FoldIncoming(tombs, Dedupe(incoming.nodes)), local.nodes);
  }

  lemma UpsertTidy(p: TrustPool, n: NodeInfo, stamp: Stamp)
    requires Tidy(p.nodes, p.tombstones)
    ensures var r := Upsert(p, n, stamp); Tidy(r.nodes, r.tombstones)
  {
    var seen := EffectiveSeen(n, stamp);
    if Gate(p.tombstones, n.nodeId, seen).Passed? {
      GateTidy(p.nodes, p.tombstones, n.nodeId, seen);
      var k := NodeIndex(p.nodes, n.nodeId);
      assert k == |p.nodes| ==> !HasNode(p.nodes, n.nodeId);
    }
  }

  lemma {:induction false} UpsertAllTidy(p: TrustPool, ns: seq<NodeInfo>, stamp: Stamp)
    requires Tidy(p.nodes, p.tombstones)
    ensures var r := UpsertAll(p, ns, stamp); Tidy(r.nodes, r.tombstones)
  {
    if ns != [] {
      UpsertAllTidy(p, ns[..|ns| - 1], stamp);
      UpsertTidy(UpsertAll(p, ns[..|ns| - 1], stamp), ns[|ns| - 1], stamp);
    }
  }

  lemma {:induction false} WithoutIds(ns: seq<NodeInfo>, id: string)
    requires DistinctNodes(ns)
    ensures DistinctNodes(Without(ns, id))
    ensures forall other :: HasNode(Without(ns, id), other) <==> HasNode(ns, other) && other != id
  {
    if ns != [] {
      var rest, n := ns[..|ns| - 1], ns[|ns| - 1];
      WithoutIds(rest, id);
      assert n.nodeId != id ==> !HasNode(Without(rest, id), n.nodeId);
      AppendedIds(rest, n);
      AppendedIds(Without(rest, id), n);
      assert ns == rest + [n];
    }
  }

  /** A marker kept by the union was a marker of one of the sides. */
  lemma UnionIds(a: seq<Tombstone>, b: seq<Tombstone>, now: int, out: seq<Tombstone>, id: string)
    requires IsUnion(a, b, now, out) && HasTomb(out, id)
    ensures id != "" && HasTomb(a + b, id)
  {
    var k :| 0 <= k < |out| && out[k].nodeId == id;
    NewestEntry(a + b, id);
    var i :| 0 <= i < |a + b| && (a + b)[i] == Newest(a + b)[id];
    assert (a + b)[i].nodeId == id;
  }

  lemma RemoveTidy(s: FedState, id: string, reason: string, stamp: Stamp, now: int, s': FedState)
    requires Inv(s) && id != "" && Step(s, Remove(id, reason, stamp, now), s')
    ensures Inv(s') && !HasNode(s'.pool.nodes, id) && id !in s'.peers
  {
    WithoutIds(s.pool.nodes, id);
    var marked := MarkRemoved(s.pool.tombstones, id, stamp, reason);
    var tombs := s'.pool.tombstones;
    forall i, j | 0 <= i < |s'.pool.nodes| && 0 <= j < |tombs|
      ensures s'.pool.nodes[i].nodeId != tombs[j].nodeId
    {
      var other := s'.pool.nodes[i].nodeId;
      assert HasNode(s'.pool.nodes, other);
      assert HasTomb(tombs, tombs[j].nodeId);
      UnionIds(marked, [], now, tombs, tombs[j].nodeId);
      assert marked + [] == marked;
      MarkedIds(s.pool.tombstones, id, stamp, reason, tombs[j].nodeId);
    }
  }

  lemma MarkedIds(ts: seq<Tombstone>, id: string, stamp: Stamp, reason: string, other: string)
    ensures HasTomb(MarkRemoved(ts, id, stamp, reason), other) <==> HasTomb(ts, other) || other == id
  {
    var r := MarkRemoved(ts, id, stamp, reason);
    var k := TombIndex(ts, id);
    assert r[k].nodeId == id;
    if HasTomb(ts, other) {
      var i :| 0 <= i < |ts| && ts[i].nodeId == other;
      assert r[i].nodeId == other;
    }
    if HasTomb(r, other) {
      var i :| 0 <= i < |r| && r[i].nodeId == other;
      assert i < |ts| ==> ts[i].nodeId == r[i].nodeId;
    }
  }

  lemma StepKeepsInv(s: FedState, op: Op, s': FedState)
    requires Inv(s) && Step(s, op, s')
    ensures Inv(s')
  {
    match op
    case Update(offered, now) =>
      if offered.version > s.pool.version { MergeTidy(s.pool, offered, now, s'.pool); }
    case AddKnown(records, stamp) => UpsertAllTidy(s.pool, records, stamp);
    case Gossip(info) =>
      if Gate(s.pool.tombstones, info.nodeId, info.lastSeen).Passed? {
        GateTidy(s.pool.nodes, s.pool.tombstones, info.nodeId, info.lastSeen);
      }
    case Remove(id, reason, stamp, now) =>
      if id != "" { RemoveTidy(s, id, reason, stamp, now, s'); }
  }

  // --------------------------------------------------------------------- runs

  ghost predicate Run(tr: seq<FedState>, ops: seq<Op>)
  {
    && |tr| == |ops| + 1
    && forall k :: 0 <= k < |ops| ==> Step(tr[k], ops[k], tr[k + 1])
  }

  /** Every state of every run from the empty manager is tidy, whatever is offered to it. */
  lemma {:induction false} RunKeepsInv(tr: seq<FedState>, ops: seq<Op>, k: nat)
    requires Run(tr, ops) && Inv(tr[0]) && k < |tr|
    ensures Inv(tr[k])
  {
    if k > 0 {
      RunKeepsInv(tr, ops, k - 1);
      StepKeepsInv(tr[k - 1], ops[k - 1], tr[k]);
    }
  }

  /** So does every run of a new manager. */
  lemma NewManagerInv(tr: seq<FedState>, ops: seq<Op>, k: nat)
    requires Run(tr, ops) && tr[0] == EMPTY_STATE && k < |tr|
    ensures Inv(tr[k])
  {
    assert Inv(EMPTY_STATE);
    RunKeepsInv(tr, ops, k);
  }

  // ------------------------------------------------------------ removals stick

  /** A record that is undated or not later than since. */
  predicate NotLater(seen: Stamp, since: int)
  {
    seen.When().Some? ==> seen.When().value <= since
  }

  /** Nothing the operation offers for id is later than the removal time. */
  ghost predicate Stale(op: Op, id: string, since: int)
  {
    match op
    case Update(offered, _) => forall k :: 0 <= k < |offered.nodes| && offered.nodes[k].nodeId == id ==>
      NotLater(offered.nodes[k].lastSeen, since)
    case AddKnown(records, stamp) => forall k :: 0 <= k < |records| && records[k].nodeId == id ==>
      NotLater(EffectiveSeen(records[k], stamp), since)
    case Gossip(info) => info.nodeId == id ==> NotLater(info.lastSeen, since)
    case Remove(rid, _, stamp, _) => rid == id ==> stamp.When().Some? && stamp.When().value >= since
  }

  predicate SinceTomb(t: Tombstone, since: int)
  {
    t.removedAt.When().Some? && t.removedAt.When().value >= since
  }

  ghost predicate MarkedSince(ts: seq<Tombstone>, id: string, since: int)
  {
    exists k :: 0 <= k < |ts| && ts[k].nodeId == id && SinceTomb(ts[k], since)
  }

  /** id is in neither the pool nor the gossip-learned peers. */
  ghost predicate Gone(s: FedState, id: string)
  {
    !HasNode(s.pool.nodes, id) && id !in s.peers
  }

  lemma {:induction false} NewestSince(ts: seq<Tombstone>, id: string, since: int)
    requires id != "" && MarkedSince(ts, id, since)
    ensures id in Newest(ts) && SinceTomb(Newest(ts)[id], since)
  {
    var rest, t := ts[..|ts| - 1], ts[|ts| - 1];
    if t.nodeId != id || !SinceTomb(t, since) {
      var k :| 0 <= k < |ts| && ts[k].nodeId == id && SinceTomb(ts[k], since);
      assert rest[k] == ts[k];
      NewestSince(rest, id, since);
    } else if MarkedSince(rest, id, since) {
      NewestSince(rest, id, since);
    }
  }

  lemma UnionSince(a: seq<Tombstone>, b: seq<Tombstone>, now: int, out: seq<Tombstone>, id: string, since: int)
    requires IsUnion(a, b, now, out) && id != "" && HasTomb(out, id) && MarkedSince(a, id, since)
    ensures forall k :: 0 <= k < |out| && out[k].nodeId == id ==> SinceTomb(out[k], since)
    ensures MarkedSince(out, id, since)
  {
    var i :| 0 <= i < |a| && a[i].nodeId == id && SinceTomb(a[i], since);
    assert (a + b)[i] == a[i];
    NewestSince(a + b, id, since);
    var k :| 0 <= k < |out| && out[k].nodeId == id;
    assert SinceTomb(out[k], since);
  }

  /** With a marker since then, the gate refuses every record that is not later. */
  lemma GateRefuses(ts: seq<Tombstone>, id: string, seen: Stamp, since: int)
    requires DistinctTombs(ts) && MarkedSince(ts, id, since) && NotLater(seen, since)
    ensures Gate(ts, id, seen).Suppressed?
  {
    var k :| 0 <= k < |ts| && ts[k].nodeId == id && SinceTomb(ts[k], since);
    assert TombIndex(ts, id) == k;
  }

  lemma GateElsewhere(ts: seq<Tombstone>, id: string, seen: Stamp, other: string, since: int)
    requires DistinctTombs(ts) && MarkedSince(ts, other, since) && id != other && Gate(ts, id, seen).Passed?
    ensures DistinctTombs(Gate(ts, id, seen).tombstones) && MarkedSince(Gate(ts, id, seen).tombstones, other, since)
  {
    var k := TombIndex(ts, id);
    if k < |ts| {
      var r := ts[..k] + ts[k + 1..];
      assert forall i :: 0 <= i < |r| ==> r[i] == ts[if i < k then i else i + 1];
      var i :| 0 <= i < |ts| && ts[i].nodeId == other && SinceTomb(ts[i], since);
      assert r[if i < k then i else i - 1] == ts[i];
    }
  }

  /** The folds neither admit id nor clear its marker while it is only offered stale records. */
  ghost predicate Blocked(ns: seq<NodeInfo>, ts: seq<Tombstone>, id: string, since: int)
  {
    DistinctTombs(ts) && MarkedSince(ts, id, since) && !HasNode(ns, id)
  }

  ghost predicate AllNotLater(ns: seq<NodeInfo>, id: string, since: int)
  {
    forall k :: 0 <= k < |ns| && ns[k].nodeId == id ==> NotLater(ns[k].lastSeen, since)
  }

  lemma {:induction false} DedupeNotLater(ns: seq<NodeInfo>, id: string, since: int)
    requires AllNotLater(ns, id, since)
    ensures AllNotLater(Dedupe(ns), id, since)
  {
    if ns != [] { DedupeNotLater(ns[..|ns| - 1], id, since); }
  }

  lemma {:induction false} FoldIncomingBlocked(tombs: seq<Tombstone>, ns: seq<NodeInfo>, id: string, since: int)
    requires id != "" && DistinctTombs(tombs) && MarkedSince(tombs, id, since) && AllNotLater(ns, id, since)
    ensures var m := FoldIncoming(tombs, ns); Blocked(m.nodes, m.tombstones, id, since)
  {
    if ns != [] {
      var rest, n := ns[..|ns| - 1], ns[|ns| - 1];
      var m := FoldIncoming(tombs, rest);
      FoldIncomingBlocked(tombs, rest, id, since);
      if n.nodeId == id {
        GateRefuses(m.tombstones, id, n.lastSeen, since);
      } else if n.nodeId != "" && Gate(m.tombstones, n.nodeId, n.lastSeen).Passed? {
        GateElsewhere(m.tombstones, n.nodeId, n.lastSeen, id, since);
        AppendedIds(m.nodes, n);
      }
    }
  }

  lemma {:induction false} FoldLocalBlocked(start: Merging, ns: seq<NodeInfo>, id: string, since: int)
    requires id != "" && Blocked(start.nodes, start.tombstones, id, since) && !HasNode(ns, id)
    ensures var m := FoldLocal(start, ns); Blocked(m.nodes, m.tombstones, id, since)
  {
    if ns != [] {
      var rest, ln := ns[..|ns| - 1], ns[|ns| - 1];
      var m := FoldLocal(start, rest);
      LastNode(ns, id);
      FoldLocalBlocked(start, rest, id, since);
      if ln.nodeId != "" && Gate(m.tombstones, ln.nodeId, ln.lastSeen).Passed? {
        GateElsewhere(m.tombstones, ln.nodeId, ln.lastSeen, id, since);
        TakeLocalIds(m, |start.nodes|, ln, id);
      }
    }
  }

  lemma {:induction false} FoldLocalTombs(start: Merging, ns: seq<NodeInfo>, id: string)
    ensures HasTomb(FoldLocal(start, ns).tombstones, id) ==> HasTomb(start.tombstones, id)
  {
    if ns != [] {
      var m := FoldLocal(start, ns[..|ns| - 1]);
      FoldLocalTombs(start, ns[..|ns| - 1], id);
      GateShrinks(m.tombstones, ns[|ns| - 1].nodeId, ns[|ns| - 1].lastSeen, id);
    }
  }

  lemma {:induction false} FoldIncomingTombs(tombs: seq<Tombstone>, ns: seq<NodeInfo>, id: string)
    ensures HasTomb(FoldIncoming(tombs, ns).tombstones, id) ==> HasTomb(tombs, id)
  {
    if ns != [] {
      var m := FoldIncoming(tombs, ns[..|ns| - 1]);
      FoldIncomingTombs(tombs, ns[..|ns| - 1], id);
      GateShrinks(m.tombstones, ns[|ns| - 1].nodeId, ns[|ns| - 1].lastSeen, id);
    }
  }

  lemma GateShrinks(ts: seq<Tombstone>, id: string, seen: Stamp, other: string)
    ensures Gate(ts, id, seen).Passed? && HasTomb(Gate(ts, id, seen).tombstones, other) ==> HasTomb(ts, other)
  {
    if Gate(ts, id, seen).Passed? && HasTomb(Gate(ts, id, seen).tombstones, other) {
      var r := Gate(ts, id, seen).tombstones;
      var i :| 0 <= i < |r| && r[i].nodeId == other;
      var k := TombIndex(ts, id);
      assert r[i] == ts[if i < k then i else i + 1];
    }
  }

  lemma MergeBlocked(local: TrustPool, incoming: TrustPool, now: int, merged: TrustPool, id: string, since: int)
    requires IsMerge(local, incoming, now, merged) && id != ""
    requires MarkedSince(local.tombstones, id, since) && !HasNode(local.nodes, id)
    requires AllNotLater(incoming.nodes, id, since)
    requires HasTomb(merged.tombstones, id)
    ensures MarkedSince(merged.tombstones, id, since) && !HasNode(merged.nodes, id)
  {
    var tombs :| IsUnion(local.tombstones, incoming.tombstones, now, tombs)
      && merged == MergeWith(local, incoming, tombs);
    var start := FoldIncoming(tombs, Dedupe(incoming.nodes));
    FoldLocalTombs(start, local.nodes, id);
    FoldIncomingTombs(tombs, Dedupe(incoming.nodes), id);
    UnionSince(local.tombstones, incoming.tombstones, now, tombs, id, since);
    DedupeNotLater(incoming.nodes, id, since);
    FoldIncomingBlocked(tombs, Dedupe(incoming.nodes), id, since);
    FoldLocalBlocked(start, local.nodes, id, since);
  }

  lemma {:induction false} UpsertAllBlocked(p: TrustPool, ns: seq<NodeInfo>, stamp: Stamp, id: string, since: int)
    requires Blocked(p.nodes, p.tombstones, id, since)
    requires forall k :: 0 <= k < |ns| && ns[k].nodeId == id ==> NotLater(EffectiveSeen(ns[k], stamp), since)
    ensures var r := UpsertAll(p, ns, stamp); Blocked(r.nodes, r.tombstones, id, since)
  {
    if ns != [] {
      var rest, n := ns[..|ns| - 1], ns[|ns| - 1];
      var q := UpsertAll(p, rest, stamp);
      UpsertAllBlocked(p, rest, stamp, id, since);
      var seen := EffectiveSeen(n, stamp);
      if n.nodeId == id {
        GateRefuses(q.tombstones, id, seen, since);
      } else if n.nodeId != "" && Gate(q.tombstones, n.nodeId, seen).Passed? {
        GateElsewhere(q.tombstones, n.nodeId, seen, id, since);
        var r := Upsert(q, n, stamp).nodes;
        var k := NodeIndex(q.nodes, n.nodeId);
        if k < |q.nodes| { ReplacedIds(q.nodes, k, r[k]); } else { AppendedIds(q.nodes, r[k]); }
      }
    }
  }

  lemma StepKeepsGone(s: FedState, op: Op, s': FedState, id: string, since: int)
    requires Inv(s) && Step(s, op, s') && id != ""
    requires Gone(s, id) && MarkedSince(s.pool.tombstones, id, since) && Stale(op, id, since)
    requires HasTomb(s'.pool.tombstones, id)
    ensures Gone(s', id) && MarkedSince(s'.pool.tombstones, id, since)
  {
    match op
    case Update(offered, now) =>
      if offered.version > s.pool.version { MergeBlocked(s.pool, offered, now, s'.pool, id, since); }
    case AddKnown(records, stamp) => UpsertAllBlocked(s.pool, records, stamp, id, since);
    case Gossip(info) =>
      if info.nodeId == id {
        GateRefuses(s.pool.tombstones, id, info.lastSeen, since);
      } else if Gate(s.pool.tombstones, info.nodeId, info.lastSeen).Passed? {
        GateElsewhere(s.pool.tombstones, info.nodeId, info.lastSeen, id, since);
        var k := NodeIndex(s.pool.nodes, info.nodeId);
        if k < |s.pool.nodes| { ReplacedIds(s.pool.nodes, k, info); }
      }
    case Remove(rid, reason, stamp, now) =>
      if rid != "" {
        WithoutIds(s.pool.nodes, rid);
        var marked := MarkRemoved(s.pool.tombstones, rid, stamp, reason);
        MarkedStaysSince(s.pool.tombstones, rid, stamp, reason, id, since);
        UnionSince(marked, [], now, s'.pool.tombstones, id, since);
      }
  }

  lemma MarkedStaysSince(ts: seq<Tombstone>, rid: string, stamp: Stamp, reason: string, id: string, since: int)
    requires MarkedSince(ts, id, since)
    requires rid == id ==> stamp.When().Some? && stamp.When().value >= since
    ensures MarkedSince(MarkRemoved(ts, rid, stamp, reason), id, since)
  {
    var r := MarkRemoved(ts, rid, stamp, reason);
    var k := TombIndex(ts, rid);
    var i :| 0 <= i < |ts| && ts[i].nodeId == id && SinceTomb(ts[i], since);
    if i == k { assert SinceTomb(r[k], since); } else { assert r[i] == ts[i]; }
  }

  /**
   A removed node stays out of the pool and out of the peers for as long as its
   marker survives and nothing later than the removal is offered for it.
   */
  lemma {:induction false} RemovalSticks(tr: seq<FedState>, ops: seq<Op>, id: string, since: int, k: nat)
    requires Run(tr, ops) && Inv(tr[0]) && id != "" && k < |tr|
    requires Gone(tr[0], id) && MarkedSince(tr[0].pool.tombstones, id, since)
    requires forall i :: 0 <= i < |ops| ==> Stale(ops[i], id, since)
    requires forall i :: 0 <= i < |tr| ==> HasTomb(tr[i].pool.tombstones, id)
    ensures Gone(tr[k], id) && MarkedSince(tr[k].pool.tombstones, id, since)
  {
    if k > 0 {
      RemovalSticks(tr, ops, id, since, k - 1);
      RunKeepsInv(tr, ops, k - 1);
      StepKeepsGone(tr[k - 1], ops[k - 1], tr[k], id, since);
    }
  }

  /** The operation's union of markers fits the cap and runs within the TTL of the removal. */
  ghost predicate Roomy(s: FedState, op: Op, since: int)
  {
    match op
    case Update(offered, now) =>
      now - since <= 30 * 24 * 3600 * 1_000_000_000
        && |Kept(Newest(s.pool.tombstones + offered.tombstones), now)| <= 256
    case Remove(id, reason, stamp, now) =>
      && now - since <= 30 * 24 * 3600 * 1_000_000_000
      && |Kept(Newest(MarkRemoved(s.pool.tombstones, id, stamp, reason) + []), now)| <= 256
    case AddKnown(_, _) => true
    case Gossip(_) => true
  }

  lemma UnionKeepsMarker(a: seq<Tombstone>, b: seq<Tombstone>, now: int, out: seq<Tombstone>, id: string, since: int)
    requires IsUnion(a, b, now, out) && id != "" && MarkedSince(a, id, since)
    requires now - since <= TOMBSTONE_TTL && |Kept(Newest(a + b), now)| <= MAX_TOMBSTONES
    ensures HasTomb(out, id)
  {
    var i :| 0 <= i < |a| && a[i].nodeId == id && SinceTomb(a[i], since);
    assert (a + b)[i] == a[i];
    NewestSince(a + b, id, since);
  }

  lemma MarkerSurvives(s: FedState, op: Op, s': FedState, id: string, since: int)
    requires Inv(s) && Step(s, op, s') && id != ""
    requires Gone(s, id) && MarkedSince(s.pool.tombstones, id, since) && Stale(op, id, since) && Roomy(s, op, since)
    ensures HasTomb(s'.pool.tombstones, id)
  {
    match op
    case Update(offered, now) =>
      if offered.version > s.pool.version {
        var tombs :| IsUnion(s.pool.tombstones, offered.tombstones, now, tombs)
          && s'.pool == MergeWith(s.pool, offered, tombs);
        UnionKeepsMarker(s.pool.tombstones, offered.tombstones, now, tombs, id, since);
        UnionSince(s.pool.tombstones, offered.tombstones, now, tombs, id, since);
        DedupeNotLater(offered.nodes, id, since);
        FoldIncomingBlocked(tombs, Dedupe(offered.nodes), id, since);
        FoldLocalBlocked(FoldIncoming(tombs, Dedupe(offered.nodes)), s.pool.nodes, id, since);
      }
    case AddKnown(records, stamp) => UpsertAllBlocked(s.pool, records, stamp, id, since);
    case Gossip(info) =>
      if info.nodeId == id {
        GateRefuses(s.pool.tombstones, id, info.lastSeen, since);
      } else if Gate(s.pool.tombstones, info.nodeId, info.lastSeen).Passed? {
        GateElsewhere(s.pool.tombstones, info.nodeId, info.lastSeen, id, since);
      }
    case Remove(rid, reason, stamp, now) =>
      if rid != "" {
        MarkedStaysSince(s.pool.tombstones, rid, stamp, reason, id, since);
        UnionKeepsMarker(MarkRemoved(s.pool.tombstones, rid, stamp, reason), [], now, s'.pool.tombstones, id, since);
      }
  }

  /** While the markers fit the cap, a removal younger than the TTL sticks without further conditions. */
  lemma {:induction false} RemovalSticksWithinTTL(tr: seq<FedState>, ops: seq<Op>, id: string, since: int, k: nat)
    requires Run(tr, ops) && Inv(tr[0]) && id != "" && k < |tr|
    requires Gone(tr[0], id) && MarkedSince(tr[0].pool.tombstones, id, since)
    requires forall i :: 0 <= i < |ops| ==> Stale(ops[i], id, since) && Roomy(tr[i], ops[i], since)
    ensures Gone(tr[k], id) && MarkedSince(tr[k].pool.tombstones, id, since)
  {
    if k > 0 {
      RemovalSticksWithinTTL(tr, ops, id, since, k - 1);
      RunKeepsInv(tr, ops, k - 1);
      MarkerSurvives(tr[k - 1], ops[k - 1], tr[k], id, since);
      StepKeepsGone(tr[k - 1], ops[k - 1], tr[k], id, since);
    }
  }

  /** Removing a node puts it in that situation. */
  lemma RemoveMarks(s: FedState, id: string, reason: string, stamp: Stamp, now: int, s': FedState)
    requires Inv(s) && id != "" && stamp.When().Some? && Step(s, Remove(id, reason, stamp, now), s')
    requires Roomy(s, Remove(id, reason, stamp, now), stamp.When().value)
    ensures Gone(s', id) && MarkedSince(s'.pool.tombstones, id, stamp.When().value)
  {
    var since := stamp.When().value;
    var marked := MarkRemoved(s.pool.tombstones, id, stamp, reason);
    assert SinceTomb(marked[TombIndex(s.pool.tombstones, id)], since);
    RemoveTidy(s, id, reason, stamp, now, s');
    UnionKeepsMarker(marked, [], now, s'.pool.tombstones, id, since);
    UnionSince(marked, [], now, s'.pool.tombstones, id, since);
  }

  lemma {:induction false} NewestOfDistinct(ts: seq<Tombstone>, k: nat)
    requires DistinctTombs(ts) && k < |ts| && ts[k].nodeId != ""
    ensures ts[k].nodeId in Newest(ts) && Newest(ts)[ts[k].nodeId] == ts[k]
  {
    var rest, t := ts[..|ts| - 1], ts[|ts| - 1];
    if k < |ts| - 1 {
      NewestOfDistinct(rest, k);
    } else {
      assert t.nodeId !in Newest(rest) by {
        if t.nodeId in Newest(rest) { NewestEntry(rest, t.nodeId); }
      }
    }
  }

  // ---------------------------------------------------- revoked, yet still found

  /** A tombstoned id is absent from the pool, but a lookup still finds it exactly when it is a gossip peer. */
  lemma RevokedLookup(s: FedState, id: string)
    requires Inv(s) && HasTomb(s.pool.tombstones, id)
    ensures Lookup(s, id).Some? <==> id in s.peers
  {
    MarkedNotLive(s.pool.nodes, s.pool.tombstones, id);
  }

  lemma IndexFinds(ns: seq<NodeInfo>, id: string)
    ensures NodeIndex(ns, id) < |ns| <==> HasNode(ns, id)
  {
    if HasNode(ns, id) {
      var k :| 0 <= k < |ns| && ns[k].nodeId == id;
      assert NodeIndex(ns, id) <= k;
    }
  }

  lemma MarkedNotLive(ns: seq<NodeInfo>, ts: seq<Tombstone>, id: string)
    requires Disjoint(ns, ts) && HasTomb(ts, id)
    ensures !HasNode(ns, id) && NodeIndex(ns, id) == |ns|
  {
    var j :| 0 <= j < |ts| && ts[j].nodeId == id;
    assert forall i :: 0 <= i < |ns| ==> ns[i].nodeId != ts[j].nodeId;
    IndexFinds(ns, id);
  }

  lemma LivePasses(ns: seq<NodeInfo>, ts: seq<Tombstone>, id: string, seen: Stamp)
    requires Disjoint(ns, ts) && HasNode(ns, id)
    ensures Gate(ts, id, seen).Passed?
  {
    var i :| 0 <= i < |ns| && ns[i].nodeId == id;
    assert forall j :: 0 <= j < |ts| ==> ts[j].nodeId != ns[i].nodeId;
  }

  /** That happens whenever gossip records a peer and its removal then arrives by merge. */
  lemma GossipThenRevoked(s: FedState, info: NodeInfo, offered: TrustPool, now: int, s1: FedState, s2: FedState)
    requires Inv(s) && !HasNode(s.pool.nodes, info.nodeId)
    requires Gate(s.pool.tombstones, info.nodeId, info.lastSeen).Passed?
    requires Step(s, Gossip(info), s1) && Step(s1, Update(offered, now), s2)
    requires HasTomb(s2.pool.tombstones, info.nodeId)
    ensures Lookup(s2, info.nodeId) == Some(info)
  {
    IndexFinds(s.pool.nodes, info.nodeId);
    StepKeepsInv(s, Gossip(info), s1);
    StepKeepsInv(s1, Update(offered, now), s2);
    MarkedNotLive(s2.pool.nodes, s2.pool.tombstones, info.nodeId);
  }

  // ------------------------------------------------------------------ key anchor

  /** Every pool record of id carries this key. */
  ghost predicate Keyed(ns: seq<NodeInfo>, id: string, key: string)
  {
    forall k :: 0 <= k < |ns| && ns[k].nodeId == id ==> ns[k].pubKey == key
  }

  lemma {:induction false} FoldLocalKeyed(start: Merging, ns: seq<NodeInfo>, k: nat)
    requires Tidy(start.nodes, start.tombstones) && DistinctNodes(ns) && k < |ns|
    requires ns[k].nodeId != "" && ns[k].pubKey != ""
    ensures Keyed(FoldLocal(start, ns).nodes, ns[k].nodeId, ns[k].pubKey)
  {
    var rest, ln := ns[..|ns| - 1], ns[|ns| - 1];
    var m := FoldLocal(start, rest);
    FoldLocalTidy(start, rest);
    FoldLocalPrefix(start, rest);
    if k < |ns| - 1 {
      FoldLocalKeyed(start, rest, k);
      TakeOtherKeyed(m, |start.nodes|, ln, ns[k].nodeId, ns[k].pubKey);
    } else {
      assert !HasNode(rest, ln.nodeId);
      TakeLocalKeyed(start, m, ln);
    }
  }

  lemma TakeOtherKeyed(m: Merging, count: nat, ln: NodeInfo, id: string, key: string)
    requires count <= |m.nodes| && Keyed(m.nodes, id, key) && ln.nodeId != id
    ensures Keyed(TakeLocal(m, count, ln).nodes, id, key)
  {
  }

  lemma TakeLocalKeyed(start: Merging, m: Merging, ln: NodeInfo)
    requires Tidy(m.nodes, m.tombstones) && |start.nodes| <= |m.nodes|
    requires forall i :: 0 <= i < |start.nodes| ==> m.nodes[i].nodeId == start.nodes[i].nodeId
    requires HasNode(m.nodes, ln.nodeId) ==> HasNode(start.nodes, ln.nodeId)
    requires ln.nodeId != "" && ln.pubKey != ""
    ensures Keyed(TakeLocal(m, |start.nodes|, ln).nodes, ln.nodeId, ln.pubKey)
  {
    SamePrefixIds(start.nodes, m.nodes, ln.nodeId);
    var k := NodeIndex(m.nodes[..|start.nodes|], ln.nodeId);
    if Gate(m.tombstones, ln.nodeId, ln.lastSeen).Suppressed? {
      SuppressedHasTomb(m.tombstones, ln.nodeId, ln.lastSeen);
      MarkedNotLive(m.nodes, m.tombstones, ln.nodeId);
    } else if k < |start.nodes| {
      assert m.nodes[k].nodeId == ln.nodeId;
    }
  }

  lemma UpsertKeyed(p: TrustPool, n: NodeInfo, stamp: Stamp, id: string, key: string)
    requires HasNode(p.nodes, id) && Keyed(p.nodes, id, key) && key != ""
    ensures var r := Upsert(p, n, stamp); HasNode(r.nodes, id) && Keyed(r.nodes, id, key)
  {
    var r := Upsert(p, n, stamp);
    var i :| 0 <= i < |p.nodes| && p.nodes[i].nodeId == id;
    assert r.nodes[i].nodeId == id;
  }

  lemma {:induction false} UpsertAllKeyed(p: TrustPool, ns: seq<NodeInfo>, stamp: Stamp, id: string, key: string)
    requires HasNode(p.nodes, id) && Keyed(p.nodes, id, key) && key != ""
    ensures var r := UpsertAll(p, ns, stamp); HasNode(r.nodes, id) && Keyed(r.nodes, id, key)
  {
    if ns != [] {
      UpsertAllKeyed(p, ns[..|ns| - 1], stamp, id, key);
      UpsertKeyed(UpsertAll(p, ns[..|ns| - 1], stamp), ns[|ns| - 1], stamp, id, key);
    }
  }

  /** No merge, upsert or removal changes the key of a node that is live before and after. */
  lemma StepKeepsKey(s: FedState, op: Op, s': FedState, id: string, key: string)
    requires Inv(s) && Step(s, op, s') && !op.Gossip? && id != "" && key != ""
    requires HasNode(s.pool.nodes, id) && Keyed(s.pool.nodes, id, key)
    ensures Keyed(s'.pool.nodes, id, key)
  {
    match op
    case Update(offered, now) =>
      if offered.version > s.pool.version {
        var tombs :| IsUnion(s.pool.tombstones, offered.tombstones, now, tombs)
          && s'.pool == MergeWith(s.pool, offered, tombs);
        DedupeDistinct(offered.nodes);
        FoldIncomingTidy(tombs, Dedupe(offered.nodes));
        var k :| 0 <= k < |s.pool.nodes| && s.pool.nodes[k].nodeId == id;
        FoldLocalKeyed(FoldIncoming(tombs, Dedupe(offered.nodes)), s.pool.nodes, k);
      }
    case AddKnown(records, stamp) => UpsertAllKeyed(s.pool, records, stamp, id, key);
    case Remove(rid, reason, stamp, now) => WithoutKeyed(s.pool.nodes, rid, id, key);
  }

  lemma {:induction false} WithoutKeyed(ns: seq<NodeInfo>, rid: string, id: string, key: string)
    requires Keyed(ns, id, key)
    ensures Keyed(Without(ns, rid), id, key)
  {
    if ns != [] { WithoutKeyed(ns[..|ns| - 1], rid, id, key); }
  }

  /** A gossiped record, by contrast, replaces the key of a pool member outright. */
  lemma GossipKeepsKeyIff(s: FedState, info: NodeInfo, s': FedState, id: string, key: string)
    requires Inv(s) && Step(s, Gossip(info), s')
    requires HasNode(s.pool.nodes, id) && Keyed(s.pool.nodes, id, key)
    ensures Keyed(s'.pool.nodes, id, key) <==> info.nodeId != id || info.pubKey == key
  {
    var k := NodeIndex(s.pool.nodes, info.nodeId);
    var i :| 0 <= i < |s.pool.nodes| && s.pool.nodes[i].nodeId == id;
    if info.nodeId == id {
      LivePasses(s.pool.nodes, s.pool.tombstones, id, info.lastSeen);
      assert k == i;
      assert s'.pool.nodes[i] == info;
    }
  }

  lemma StepKeepsKeyIff(s: FedState, op: Op, s': FedState, id: string, key: string)
    requires Inv(s) && Step(s, op, s') && id != "" && key != ""
    requires HasNode(s.pool.nodes, id) && Keyed(s.pool.nodes, id, key)
    ensures Keyed(s'.pool.nodes, id, key) <==> (op.Gossip? && op.info.nodeId == id ==> op.info.pubKey == key)
  {
    if op.Gossip? { GossipKeepsKeyIff(s, op.info, s', id, key); } else { StepKeepsKey(s, op, s', id, key); }
  }

  /** Whatever is gossiped about id carries this key. */
  ghost predicate GossipAgrees(ops: seq<Op>, id: string, key: string)
  {
    forall i :: 0 <= i < |ops| && ops[i].Gossip? && ops[i].info.nodeId == id ==> ops[i].info.pubKey == key
  }

  lemma {:induction false} KeyStays(tr: seq<FedState>, ops: seq<Op>, id: string, key: string, k: nat)
    requires Run(tr, ops) && Inv(tr[0]) && id != "" && key != "" && k < |tr|
    requires GossipAgrees(ops, id, key) && Keyed(tr[0].pool.nodes, id, key)
    requires forall i :: 0 <= i < |tr| ==> HasNode(tr[i].pool.nodes, id)
    ensures Keyed(tr[k].pool.nodes, id, key)
  {
    if k > 0 {
      KeyStays(tr, ops, id, key, k - 1);
      RunKeepsInv(tr, ops, k - 1);
      StepKeepsKeyIff(tr[k - 1], ops[k - 1], tr[k], id, key);
    }
  }

  /** The key of a node that stays live never changes in a run exactly when no gossip about it carries another. */
  lemma KeyNeverRotatesIff(tr: seq<FedState>, ops: seq<Op>, id: string, key: string)
    requires Run(tr, ops) && Inv(tr[0]) && id != "" && key != ""
    requires Keyed(tr[0].pool.nodes, id, key)
    requires forall i :: 0 <= i < |tr| ==> HasNode(tr[i].pool.nodes, id)
    ensures (forall k :: 0 <= k < |tr| ==> Keyed(tr[k].pool.nodes, id, key)) <==> GossipAgrees(ops, id, key)
  {
    if GossipAgrees(ops, id, key) {
      forall k | 0 <= k < |tr| ensures Keyed(tr[k].pool.nodes, id, key) {
        KeyStays(tr, ops, id, key, k);
      }
    }
    if forall k :: 0 <= k < |tr| ==> Keyed(tr[k].pool.nodes, id, key) {
      forall i | 0 <= i < |ops| && ops[i].Gossip? && ops[i].info.nodeId == id ensures ops[i].info.pubKey == key {
        RunKeepsInv(tr, ops, i);
        assert Keyed(tr[i + 1].pool.nodes, id, key);
        StepKeepsKeyIff(tr[i], ops[i], tr[i + 1], id, key);
      }
    }
  }
}
