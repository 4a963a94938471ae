// The merge of trust pools as a join: per node id, the later of "seen alive" and
// "removed" wins, and a tie goes to removal.

module TrustPoolMerge {
  import opened TrustPools

  // ------------------------------------------------------------- the lattice

  /** What a pool says about one node id. */
  datatype Mark = Absent | Live(at: int) | Dead(at: int)

  predicate Below(a: Mark, b: Mark)
  {
    a.Absent? || (!b.Absent? && (a.at < b.at || (a.at == b.at && (a.Live? || b.Dead?))))
  }

  function Join(a: Mark, b: Mark): (r: Mark)
    ensures Below(a, r) && Below(b, r) && (r == a || r == b)
  {
    if Below(a, b) then b else a
  }

  function SeenMark(n: NodeInfo): Mark
  {
    if n.lastSeen.When().Some? then Live(n.lastSeen.When().value) else Absent
  }

  function RemovedMark(t: Tombstone, now: int): Mark
  {
    if t.removedAt.When().Some? && !Expired(t, now) then Dead(t.removedAt.When().value) else Absent
  }

  function NodeMark(ns: seq<NodeInfo>, id: string): Mark
  {
    if ns == [] then Absent
    else
      var n := ns[|ns| - 1];
      Join(NodeMark(ns[..|ns| - 1], id), if n.nodeId == id then SeenMark(n) else Absent)
  }

  function TombMark(ts: seq<Tombstone>, id: string, now: int): Mark
  {
    if ts == [] then Absent
    else
      var t := ts[|ts| - 1];
      Join(TombMark(ts[..|ts| - 1], id, now), if t.nodeId == id then RemovedMark(t, now) else Absent)
  }

  /** The pool's standing of id: the join of everything it records about id. */
  function PoolMark(p: TrustPool, id: string, now: int): Mark
  {
    Join(NodeMark(p.nodes, id), TombMark(p.tombstones, id, now))
  }

  // ---------------------------------------------------------- well-formedness

  ghost predicate DatedNodes(ns: seq<NodeInfo>)
  {
    forall k :: 0 <= k < |ns| ==> ns[k].lastSeen.When().Some?
  }

  ghost predicate DatedTombs(ts: seq<Tombstone>)
  {
    forall k :: 0 <= k < |ts| ==> ts[k].removedAt.When().Some?
  }

  ghost predicate ActiveNodes(ns: seq<NodeInfo>)
  {
    forall k :: 0 <= k < |ns| ==> ns[k].status == "active"
  }

  /** Every time in the pool parses; nothing else is assumed. */
  ghost predicate Dated(p: TrustPool)
  {
    DatedNodes(p.nodes) && DatedTombs(p.tombstones)
  }

  /** The unexpired markers of both sides together fit under the cap. */
  ghost predicate FitsCap(a: TrustPool, b: TrustPool, now: int)
  {
    |Kept(Newest(a.tombstones + b.tombstones), now)| <= MAX_TOMBSTONES
  }

  // ------------------------------------------------------ marks of sequences

  lemma {:induction false} NodeMarkAppend(a: seq<NodeInfo>, b: seq<NodeInfo>, id: string)
    ensures NodeMark(a + b, id) == Join(NodeMark(a, id), NodeMark(b, id))
  {
    if b == [] {
      assert a + b == a;
    } else {
      assert (a + b)[..|a + b| - 1] == a + b[..|b| - 1];
      NodeMarkAppend(a, b[..|b| - 1], id);
    }
  }

  lemma {:induction false} TombMarkAppend(a: seq<Tombstone>, b: seq<Tombstone>, id: string, now: int)
    ensures TombMark(a + b, id, now) == Join(TombMark(a, id, now), TombMark(b, id, now))
  {
    if b == [] {
      assert a + b == a;
    } else {
      assert (a + b)[..|a + b| - 1] == a + b[..|b| - 1];
      TombMarkAppend(a, b[..|b| - 1], id, now);
    }
  }

  lemma SingleNode(n: NodeInfo, id: string)
    ensures NodeMark([n], id) == if n.nodeId == id then SeenMark(n) else Absent
  {
    assert [n][..0] == [];
  }

  lemma SingleTomb(t: Tombstone, id: string, now: int)
    ensures TombMark([t], id, now) == if t.nodeId == id then RemovedMark(t, now) else Absent
  {
    assert [t][..0] == [];
  }

  /** A record replaced by one of the same node that is seen later raises the mark to it. */
  lemma NodeMarkReplace(ns: seq<NodeInfo>, k: nat, n: NodeInfo, id: string)
    requires k < |ns| && ns[k].nodeId == n.nodeId && Below(SeenMark(ns[k]), SeenMark(n))
    ensures NodeMark(ns[k := n], id) == Join(NodeMark(ns, id), if n.nodeId == id then SeenMark(n) else Absent)
  {
    var a, b := ns[..k], ns[k + 1..];
    assert ns == a + [ns[k]] + b && ns[k := n] == a + [n] + b;
    NodeMarkAppend(a + [ns[k]], b, id);
    NodeMarkAppend(a, [ns[k]], id);
    NodeMarkAppend(a + [n], b, id);
    NodeMarkAppend(a, [n], id);
    SingleNode(ns[k], id);
    SingleNode(n, id);
  }

  lemma {:induction false} NoTombNoMark(ts: seq<Tombstone>, id: string, now: int)
    requires !HasTomb(ts, id)
    ensures TombMark(ts, id, now) == Absent
  {
    if ts != [] {
      assert ts[|ts| - 1].nodeId != id;
      NoTombNoMark(ts[..|ts| - 1], id, now);
    }
  }

  lemma {:induction false} NoNodeNoMark(ns: seq<NodeInfo>, id: string)
    requires !HasNode(ns, id)
    ensures NodeMark(ns, id) == Absent
  {
    if ns != [] {
      assert ns[|ns| - 1].nodeId != id;
      NoNodeNoMark(ns[..|ns| - 1], id);
    }
  }

  /** Removing the only marker of a node leaves the others' marks alone. */
  lemma TombMarkDrop(ts: seq<Tombstone>, k: nat, id: string, now: int)
    requires k < |ts| && DistinctTombs(ts)
    ensures TombMark(ts[..k] + ts[k + 1..], id, now) ==
            if ts[k].nodeId == id then Absent else TombMark(ts, id, now)
    ensures TombMark(ts, ts[k].nodeId, now) == RemovedMark(ts[k], now)
  {
    var a, b := ts[..k], ts[k + 1..];
    assert ts == a + [ts[k]] + b;
    TombMarkAppend(a, b, id, now);
    TombMarkAppend(a + [ts[k]], b, id, now);
    TombMarkAppend(a, [ts[k]], id, now);
    SingleTomb(ts[k], id, now);
    assert !HasTomb(a, ts[k].nodeId) && !HasTomb(b, ts[k].nodeId);
    NoTombNoMark(a, ts[k].nodeId, now);
    NoTombNoMark(b, ts[k].nodeId, now);
    TombMarkAppend(a + [ts[k]], b, ts[k].nodeId, now);
    TombMarkAppend(a, [ts[k]], ts[k].nodeId, now);
    SingleTomb(ts[k], ts[k].nodeId, now);
  }

  // -------------------------------------------------------- union is a join

  function MapMark(m: map<string, Tombstone>, id: string, now: int): Mark
  {
    if id in m then RemovedMark(m[id], now) else Absent
  }

  lemma {:induction false} NewestMark(ts: seq<Tombstone>, id: string, now: int)
    requires DatedTombs(ts) && id != ""
    ensures MapMark(Newest(ts), id, now) == TombMark(ts, id, now)
    ensures id in Newest(ts) ==> Newest(ts)[id].nodeId == id && Newest(ts)[id].removedAt.When().Some?
  {
    if ts != [] {
      NewestMark(ts[..|ts| - 1], id, now);
    }
  }

  lemma UnionMark(a: seq<Tombstone>, b: seq<Tombstone>, now: int, out: seq<Tombstone>, id: string)
    requires DatedTombs(a) && DatedTombs(b) && id != ""
    requires IsUnion(a, b, now, out) && |Kept(Newest(a + b), now)| <= MAX_TOMBSTONES
    ensures TombMark(out, id, now) == Join(TombMark(a, id, now), TombMark(b, id, now))
    ensures DatedTombs(out)
  {
    var m := Newest(a + b);
    TombMarkAppend(a, b, id, now);
    NewestMark(a + b, id, now);
    forall k | 0 <= k < |out| ensures out[k].removedAt.When().Some? {
      NewestEntry(a + b, out[k].nodeId);
    }
    if HasTomb(out, id) {
      var k :| 0 <= k < |out| && out[k].nodeId == id;
      TombMarkDrop(out, k, id, now);
    } else {
      assert id !in Kept(m, now);
      NoTombNoMark(out, id, now);
    }
  }

  /** Every entry of the newest map is one of the markers folded into it. */
  lemma {:induction false} NewestEntry(ts: seq<Tombstone>, id: string)
    requires id in Newest(ts)
    ensures id != "" && Newest(ts)[id].nodeId == id && Newest(ts)[id] in ts
  {
    var rest := ts[..|ts| - 1];
    if id in Newest(rest) { NewestEntry(rest, id); }
  }

  // -------------------------------------------------------- dedupe is a join

  lemma {:induction false} DedupeMark(ns: seq<NodeInfo>, id: string)
    requires DatedNodes(ns) && id != ""
    ensures NodeMark(Dedupe(ns), id) == NodeMark(ns, id)
    ensures DatedNodes(Dedupe(ns))
  {
    if ns != [] {
      var rest, n := ns[..|ns| - 1], ns[|ns| - 1];
      DedupeMark(rest, id);
      var out := Dedupe(rest);
      var k := NodeIndex(out, n.nodeId);
      if n.nodeId == "" {
      } else if k == |out| {
        NodeMarkAppend(out, [n], id);
        SingleNode(n, id);
      } else if Fresher(n.lastSeen, out[k].lastSeen) {
        NodeMarkReplace(out, k, FillNodeInfoRich(n, out[k]), id);
      } else if n.nodeId == id {
        NodeMarkReplace(out, k, out[k], id);
        assert out[k := out[k]] == out;
      }
    }
  }

  lemma {:induction false} DedupeDistinct(ns: seq<NodeInfo>)
    ensures DistinctNodes(Dedupe(ns))
    ensures !HasNode(Dedupe(ns), "")
    ensures forall id :: id != "" ==> (HasNode(Dedupe(ns), id) <==> HasNode(ns, id))
  {
    if ns != [] {
      var rest, n := ns[..|ns| - 1], ns[|ns| - 1];
      DedupeDistinct(rest);
      forall id | id != "" ensures HasNode(Dedupe(ns), id) <==> HasNode(ns, id) {
        DedupeStepIds(Dedupe(rest), n, id);
        LastNode(ns, id);
      }
      DedupeStepIds(Dedupe(rest), n, "");
    }
  }

  lemma LastNode(ns: seq<NodeInfo>, id: string)
    requires ns != []
    ensures HasNode(ns, id) <==> HasNode(ns[..|ns| - 1], id) || ns[|ns| - 1].nodeId == id
  {
    if HasNode(ns, id) {
      var k :| 0 <= k < |ns| && ns[k].nodeId == id;
      if k < |ns| - 1 { assert ns[..|ns| - 1][k].nodeId == id; }
    }
    if HasNode(ns[..|ns| - 1], id) {
      var k :| 0 <= k < |ns| - 1 && ns[..|ns| - 1][k].nodeId == id;
      assert ns[k].nodeId == id;
    }
  }

  lemma DedupeStepIds(out: seq<NodeInfo>, n: NodeInfo, id: string)
    ensures HasNode(DedupeStep(out, n), id) <==> HasNode(out, id) || (id != "" && n.nodeId == id)
  {
    var r := DedupeStep(out, n);
    if HasNode(out, id) {
      var k :| 0 <= k < |out| && out[k].nodeId == id;
      assert r[k].nodeId == id;
    }
    if n.nodeId == id && id != "" {
      var k := NodeIndex(out, id);
      assert r[k].nodeId == id;
    }
    if HasNode(r, id) {
      var k :| 0 <= k < |r| && r[k].nodeId == id;
      if k < |out| { assert out[k].nodeId == id; }
    }
  }

  // ---------------------------------------------------------- folds are joins

  function MergingMark(m: Merging, id: string, now: int): Mark
  {
    Join(NodeMark(m.nodes, id), TombMark(m.tombstones, id, now))
  }

  ghost predicate Sound(m: Merging)
  {
    DistinctTombs(m.tombstones) && DatedTombs(m.tombstones) && DatedNodes(m.nodes)
  }

  /** Unexpired markers only: the union has already dropped the others. */
  ghost predicate Unexpired(ts: seq<Tombstone>, now: int)
  {
    forall k :: 0 <= k < |ts| ==> !Expired(ts[k], now)
  }

  lemma DropKeeps(ts: seq<Tombstone>, k: nat, now: int)
    requires k < |ts| && DistinctTombs(ts) && DatedTombs(ts) && Unexpired(ts, now)
    ensures var r := ts[..k] + ts[k + 1..];
            DistinctTombs(r) && DatedTombs(r) && Unexpired(r, now) && !HasTomb(r, ts[k].nodeId)
  {
    var r := ts[..k] + ts[k + 1..];
    assert forall i :: 0 <= i < |r| ==> r[i] == ts[if i < k then i else i + 1];
  }

  lemma GateMark(ts: seq<Tombstone>, id: string, seen: Stamp, now: int, other: string)
    requires DistinctTombs(ts) && DatedTombs(ts) && Unexpired(ts, now) && seen.When().Some?
    ensures var live := Live(seen.When().value);
            match Gate(ts, id, seen)
            case Suppressed => Below(live, TombMark(ts, id, now)) && TombMark(ts, id, now).Dead?
            case Passed(ts') =>
              && DistinctTombs(ts') && DatedTombs(ts') && Unexpired(ts', now)
              && TombMark(ts', other, now) == (if other == id then Absent else TombMark(ts, other, now))
              && Below(TombMark(ts, id, now), live) && !Below(live, TombMark(ts, id, now))
              && !HasTomb(ts', id)
  {
    var k := TombIndex(ts, id);
    if k == |ts| {
      NoTombNoMark(ts, id, now);
    } else {
      TombMarkDrop(ts, k, other, now);
      assert TombMark(ts, id, now) == Dead(ts[k].removedAt.When().value);
      if !Suppresses(seen, ts[k].removedAt) { DropKeeps(ts, k, now); }
    }
  }

  lemma TakeIncomingMark(m: Merging, n: NodeInfo, now: int, id: string)
    requires Sound(m) && Unexpired(m.tombstones, now) && n.lastSeen.When().Some? && id != ""
    ensures var r := TakeIncoming(m, n);
            && Sound(r) && Unexpired(r.tombstones, now)
            && MergingMark(r, id, now) == Join(MergingMark(m, id, now), if n.nodeId == id then SeenMark(n) else Absent)
  {
    if n.nodeId != "" {
      GateMark(m.tombstones, n.nodeId, n.lastSeen, now, id);
      NodeMarkAppend(m.nodes, [n], id);
      SingleNode(n, id);
    }
  }

  lemma {:induction false} FoldIncomingMark(tombs: seq<Tombstone>, ns: seq<NodeInfo>, now: int, id: string)
    requires DistinctTombs(tombs) && DatedTombs(tombs) && Unexpired(tombs, now) && DatedNodes(ns) && id != ""
    ensures var m := FoldIncoming(tombs, ns);
            && Sound(m) && Unexpired(m.tombstones, now)
            && MergingMark(m, id, now) == Join(TombMark(tombs, id, now), NodeMark(ns, id))
  {
    if ns != [] {
      FoldIncomingMark(tombs, ns[..|ns| - 1], now, id);
      TakeIncomingMark(FoldIncoming(tombs, ns[..|ns| - 1]), ns[|ns| - 1], now, id);
    }
  }

  /** A local record is dropped by status when it is inactive and no incoming record was kept. */
  predicate DropsInactive(m: Merging, count: nat, ln: NodeInfo)
    requires count <= |m.nodes|
  {
    && ln.nodeId != "" && ln.status != "active"
    && Gate(m.tombstones, ln.nodeId, ln.lastSeen).Passed?
    && NodeIndex(m.nodes[..count], ln.nodeId) == count
  }

  lemma TakeLocalSound(m: Merging, count: nat, ln: NodeInfo, now: int)
    requires count <= |m.nodes|
    requires Sound(m) && Unexpired(m.tombstones, now) && ln.lastSeen.When().Some?
    ensures Sound(TakeLocal(m, count, ln)) && Unexpired(TakeLocal(m, count, ln).tombstones, now)
  {
    GateMark(m.tombstones, ln.nodeId, ln.lastSeen, now, ln.nodeId);
    if ln.nodeId != "" && Gate(m.tombstones, ln.nodeId, ln.lastSeen).Passed? {
      TakenDated(m.nodes, NodeIndex(m.nodes[..count], ln.nodeId), ln);
    }
  }

  lemma TakenDated(ns: seq<NodeInfo>, k: nat, ln: NodeInfo)
    requires DatedNodes(ns) && ln.lastSeen.When().Some?
    ensures DatedNodes(ns + [ln])
    ensures k < |ns| ==> DatedNodes(ns[k := Reconcile(ln, ns[k])])
  {
  }

  lemma TakeLocalOther(m: Merging, count: nat, ln: NodeInfo, now: int, id: string)
    requires count <= |m.nodes|
    requires Sound(m) && Unexpired(m.tombstones, now) && ln.lastSeen.When().Some? && id != ln.nodeId
    ensures MergingMark(TakeLocal(m, count, ln), id, now) == MergingMark(m, id, now)
  {
    if ln.nodeId != "" {
      GateMark(m.tombstones, ln.nodeId, ln.lastSeen, now, id);
      var k := NodeIndex(m.nodes[..count], ln.nodeId);
      if k < count {
        ReconcileMark(m.nodes, k, ln, id);
      } else {
        NodeMarkAppend(m.nodes, [ln], id);
        SingleNode(ln, id);
      }
    }
  }

  lemma TakeLocalSame(m: Merging, count: nat, ln: NodeInfo, now: int)
    requires count <= |m.nodes|
    requires Sound(m) && Unexpired(m.tombstones, now) && ln.lastSeen.When().Some? && ln.nodeId != ""
    ensures var r := TakeLocal(m, count, ln);
            MergingMark(r, ln.nodeId, now) ==
              if DropsInactive(m, count, ln) then NodeMark(m.nodes, ln.nodeId)
              else Join(MergingMark(m, ln.nodeId, now), SeenMark(ln))
  {
    var id := ln.nodeId;
    GateMark(m.tombstones, id, ln.lastSeen, now, id);
    var k := NodeIndex(m.nodes[..count], id);
    if k < count {
      ReconcileMark(m.nodes, k, ln, id);
    } else {
      NodeMarkAppend(m.nodes, [ln], id);
      SingleNode(ln, id);
    }
  }

  lemma ReconcileMark(ns: seq<NodeInfo>, k: nat, ln: NodeInfo, id: string)
    requires k < |ns| && ns[k].nodeId == ln.nodeId && DatedNodes(ns) && ln.lastSeen.When().Some?
    ensures NodeMark(ns[k := Reconcile(ln, ns[k])], id) ==
            Join(NodeMark(ns, id), if ln.nodeId == id then SeenMark(ln) else Absent)
    ensures DatedNodes(ns[k := Reconcile(ln, ns[k])])
  {
    NodeMarkReplace(ns, k, Reconcile(ln, ns[k]), id);
    NodeMarkBounds(ns, k);
  }

  lemma NodeMarkBounds(ns: seq<NodeInfo>, k: nat)
    requires k < |ns|
    ensures Below(SeenMark(ns[k]), NodeMark(ns, ns[k].nodeId))
  {
    NodeMarkReplace(ns, k, ns[k], ns[k].nodeId);
    assert ns[k := ns[k]] == ns;
  }

  lemma {:induction false} FoldLocalMark(start: Merging, ns: seq<NodeInfo>, now: int, id: string)
    requires Sound(start) && Unexpired(start.tombstones, now) && DatedNodes(ns) && ActiveNodes(ns) && id != ""
    ensures var m := FoldLocal(start, ns);
            && Sound(m) && Unexpired(m.tombstones, now)
            && MergingMark(m, id, now) == Join(MergingMark(start, id, now), NodeMark(ns, id))
  {
    if ns != [] {
      var rest, ln := ns[..|ns| - 1], ns[|ns| - 1];
      FoldLocalMark(start, rest, now, id);
      TakeLocalSound(FoldLocal(start, rest), |start.nodes|, ln, now);
      if ln.nodeId == id {
        TakeLocalSame(FoldLocal(start, rest), |start.nodes|, ln, now);
      } else {
        TakeLocalOther(FoldLocal(start, rest), |start.nodes|, ln, now, id);
      }
    }
  }

  // -------------------------------------------------------------- main result

  /**
   Whatever order the maps are walked in, merging a pool into one whose records
   are all active computes, for every id, the join of what the two pools say.
   */
  lemma MergeIsJoin(local: TrustPool, incoming: TrustPool, now: int, merged: TrustPool, id: string)
    requires IsMerge(local, incoming, now, merged)
    requires Dated(local) && Dated(incoming) && FitsCap(local, incoming, now)
    requires ActiveNodes(local.nodes) && id != ""
    ensures PoolMark(merged, id, now) == Join(PoolMark(local, id, now), PoolMark(incoming, id, now))
    ensures Dated(merged)
  {
    var tombs :| IsUnion(local.tombstones, incoming.tombstones, now, tombs)
      && merged == MergeWith(local, incoming, tombs);
    MergeWithMark(local, incoming, tombs, now, id);
  }

  /** The tombstones the merge starts from, and the node records it starts from. */
  ghost predicate Begins(local: TrustPool, incoming: TrustPool, tombs: seq<Tombstone>, ns: seq<NodeInfo>, now: int,
                         id: string)
  {
    && DistinctTombs(tombs) && DatedTombs(tombs) && Unexpired(tombs, now) && DatedNodes(ns)
    && TombMark(tombs, id, now) == Join(TombMark(local.tombstones, id, now), TombMark(incoming.tombstones, id, now))
    && NodeMark(ns, id) == NodeMark(incoming.nodes, id)
  }

  lemma MergeBegins(local: TrustPool, incoming: TrustPool, tombs: seq<Tombstone>, now: int, id: string)
    requires IsUnion(local.tombstones, incoming.tombstones, now, tombs)
    requires Dated(local) && Dated(incoming) && FitsCap(local, incoming, now) && id != ""
    ensures Begins(local, incoming, tombs, Dedupe(incoming.nodes), now, id)
  {
    UnionMark(local.tombstones, incoming.tombstones, now, tombs, id);
    UnionUnexpired(local.tombstones, incoming.tombstones, now, tombs);
    DedupeMark(incoming.nodes, id);
  }

  lemma MergeWithMark(local: TrustPool, incoming: TrustPool, tombs: seq<Tombstone>, now: int, id: string)
    requires IsUnion(local.tombstones, incoming.tombstones, now, tombs)
    requires Dated(local) && Dated(incoming) && FitsCap(local, incoming, now)
    requires ActiveNodes(local.nodes) && id != ""
    ensures var merged := MergeWith(local, incoming, tombs);
            && PoolMark(merged, id, now) == Join(PoolMark(local, id, now), PoolMark(incoming, id, now))
            && Dated(merged)
  {
    MergeBegins(local, incoming, tombs, now, id);
    FoldsJoin(local, incoming, tombs, Dedupe(incoming.nodes), now, id);
  }

  lemma FoldsJoin(local: TrustPool, incoming: TrustPool, tombs: seq<Tombstone>, ns: seq<NodeInfo>, now: int, id: string)
    requires Begins(local, incoming, tombs, ns, now, id) && Dated(local) && ActiveNodes(local.nodes) && id != ""
    ensures var m := FoldLocal(FoldIncoming(tombs, ns), local.nodes);
            && MergingMark(m, id, now) == Join(PoolMark(local, id, now), PoolMark(incoming, id, now))
            && Sound(m)
  {
    FoldIncomingMark(tombs, ns, now, id);
    FoldLocalMark(FoldIncoming(tombs, ns), local.nodes, now, id);
  }

  lemma UnionUnexpired(a: seq<Tombstone>, b: seq<Tombstone>, now: int, out: seq<Tombstone>)
    requires IsUnion(a, b, now, out)
    ensures Unexpired(out, now) && DistinctTombs(out)
  {
  }

  lemma MergeCommutes(a: TrustPool, b: TrustPool, now: int, ab: TrustPool, ba: TrustPool, id: string)
    requires IsMerge(a, b, now, ab) && IsMerge(b, a, now, ba)
    requires Dated(a) && Dated(b) && FitsCap(a, b, now) && FitsCap(b, a, now)
    requires ActiveNodes(a.nodes) && ActiveNodes(b.nodes) && id != ""
    ensures PoolMark(ab, id, now) == PoolMark(ba, id, now)
  {
    MergeIsJoin(a, b, now, ab, id);
    MergeIsJoin(b, a, now, ba, id);
  }

  lemma MergeIdempotent(a: TrustPool, now: int, aa: TrustPool, id: string)
    requires IsMerge(a, a, now, aa) && Dated(a) && FitsCap(a, a, now) && ActiveNodes(a.nodes) && id != ""
    ensures PoolMark(aa, id, now) == PoolMark(a, id, now)
  {
    MergeIsJoin(a, a, now, aa, id);
  }

  lemma MergeAssociates(a: TrustPool, b: TrustPool, c: TrustPool, now: int,
                        ab: TrustPool, abc: TrustPool, bc: TrustPool, abc': TrustPool, id: string)
    requires IsMerge(a, b, now, ab) && IsMerge(ab, c, now, abc)
    requires IsMerge(b, c, now, bc) && IsMerge(a, bc, now, abc')
    requires Dated(a) && Dated(b) && Dated(c)
    requires FitsCap(a, b, now) && FitsCap(ab, c, now) && FitsCap(b, c, now) && FitsCap(a, bc, now)
    requires ActiveNodes(a.nodes) && ActiveNodes(b.nodes) && ActiveNodes(c.nodes) && id != ""
    ensures PoolMark(abc, id, now) == PoolMark(abc', id, now)
  {
    MergeIsJoin(a, b, now, ab, id);
    MergeIsJoin(b, c, now, bc, id);
    MergeKeepsActive(a, b, now, ab);
    MergeIsJoin(ab, c, now, abc, id);
    MergeIsJoin(a, bc, now, abc', id);
  }

  // ------------------------------------- inactive local records: the exact law

  /** What both pools' markers say about id. */
  function BothTombs(local: TrustPool, incoming: TrustPool, id: string, now: int): Mark
  {
    Join(TombMark(local.tombstones, id, now), TombMark(incoming.tombstones, id, now))
  }

  /**
   The local pool's record for id is not active, yet it is newer than every marker
   for id, and no incoming record is. The merge then clears the marker and drops
   the record as well.
   */
  predicate LosesNode(local: TrustPool, incoming: TrustPool, id: string, now: int)
  {
    var k := NodeIndex(local.nodes, id);
    var tomb := BothTombs(local, incoming, id, now);
    && k < |local.nodes|
    && local.nodes[k].status != "active"
    && !Below(SeenMark(local.nodes[k]), tomb)
    && Below(NodeMark(incoming.nodes, id), tomb)
  }

  lemma {:induction false} FoldIncomingKeeps(tombs: seq<Tombstone>, ns: seq<NodeInfo>, now: int, id: string)
    requires DistinctTombs(tombs) && DatedTombs(tombs) && Unexpired(tombs, now) && DatedNodes(ns) && id != ""
    ensures var m := FoldIncoming(tombs, ns);
            && (HasNode(m.nodes, id) <==> !Below(NodeMark(ns, id), TombMark(tombs, id, now)))
            && TombMark(m.tombstones, id, now) == (if HasNode(m.nodes, id) then Absent else TombMark(tombs, id, now))
  {
    if ns != [] {
      var rest, n := ns[..|ns| - 1], ns[|ns| - 1];
      FoldIncomingKeeps(tombs, rest, now, id);
      FoldIncomingMark(tombs, rest, now, id);
      TakeIncomingKeeps(FoldIncoming(tombs, rest), n, now, id);
    }
  }

  lemma TakeIncomingKeeps(m: Merging, n: NodeInfo, now: int, id: string)
    requires Sound(m) && Unexpired(m.tombstones, now) && n.lastSeen.When().Some? && id != ""
    ensures var r := TakeIncoming(m, n);
            if n.nodeId == id && !Below(SeenMark(n), TombMark(m.tombstones, id, now))
            then HasNode(r.nodes, id) && TombMark(r.tombstones, id, now) == Absent
            else (HasNode(r.nodes, id) <==> HasNode(m.nodes, id))
                 && TombMark(r.tombstones, id, now) == TombMark(m.tombstones, id, now)
  {
    if n.nodeId != "" {
      GateMark(m.tombstones, n.nodeId, n.lastSeen, now, id);
      LastNode(m.nodes + [n], id);
      assert (m.nodes + [n])[..|m.nodes + [n]| - 1] == m.nodes;
    }
  }

  lemma {:induction false} FoldLocalPrefix(start: Merging, ns: seq<NodeInfo>)
    ensures var m := FoldLocal(start, ns);
            forall i :: 0 <= i < |start.nodes| ==> m.nodes[i].nodeId == start.nodes[i].nodeId
  {
    if ns != [] { FoldLocalPrefix(start, ns[..|ns| - 1]); }
  }

  lemma {:induction false} FoldLocalOther(start: Merging, ns: seq<NodeInfo>, now: int, id: string)
    requires Sound(start) && Unexpired(start.tombstones, now) && DatedNodes(ns) && id != ""
    ensures var m := FoldLocal(start, ns);
            && Sound(m) && Unexpired(m.tombstones, now)
            && (!HasNode(ns, id) ==> MergingMark(m, id, now) == MergingMark(start, id, now))
            && (!HasNode(ns, id) ==> (HasNode(m.nodes, id) <==> HasNode(start.nodes, id)))
            && (!HasNode(ns, id) ==> TombMark(m.tombstones, id, now) == TombMark(start.tombstones, id, now))
  {
    if ns != [] {
      var rest, ln := ns[..|ns| - 1], ns[|ns| - 1];
      var m := FoldLocal(start, rest);
      FoldLocalOther(start, rest, now, id);
      LastNode(ns, id);
      TakeLocalSound(m, |start.nodes|, ln, now);
      if ln.nodeId != id {
        TakeLocalOther(m, |start.nodes|, ln, now, id);
        GateMark(m.tombstones, ln.nodeId, ln.lastSeen, now, id);
        TakeLocalIds(m, |start.nodes|, ln, id);
      }
    }
  }

  lemma TakeLocalIds(m: Merging, count: nat, ln: NodeInfo, id: string)
    requires count <= |m.nodes| && ln.nodeId != id
    ensures HasNode(TakeLocal(m, count, ln).nodes, id) <==> HasNode(m.nodes, id)
  {
    var r := TakeLocal(m, count, ln).nodes;
    assert forall i :: 0 <= i < |m.nodes| ==> r[i].nodeId == m.nodes[i].nodeId;
    if HasNode(m.nodes, id) {
      var k :| 0 <= k < |m.nodes| && m.nodes[k].nodeId == id;
      assert r[k].nodeId == id;
    }
    if HasNode(r, id) {
      var k :| 0 <= k < |r| && r[k].nodeId == id;
      assert m.nodes[k].nodeId == id;
    }
  }

  /** The fold over local records, split at the one record for id. */
  lemma {:induction false} FoldLocalAt(start: Merging, ns: seq<NodeInfo>, k: nat, now: int)
    requires Sound(start) && Unexpired(start.tombstones, now) && DatedNodes(ns) && DistinctNodes(ns)
    requires k < |ns| && ns[k].nodeId != ""
    ensures var id := ns[k].nodeId;
            var m := FoldLocal(start, ns);
            && Sound(m) && Unexpired(m.tombstones, now)
            && MergingMark(m, id, now) ==
               if ns[k].status != "active" && !HasNode(start.nodes, id)
                 && !Below(SeenMark(ns[k]), TombMark(start.tombstones, id, now))
               then Absent
               else Join(MergingMark(start, id, now), SeenMark(ns[k]))
  {
    var rest, ln := ns[..|ns| - 1], ns[|ns| - 1];
    var id := ns[k].nodeId;
    var m := FoldLocal(start, rest);
    if k < |ns| - 1 {
      FoldLocalAt(start, rest, k, now);
      TakeLocalSound(m, |start.nodes|, ln, now);
      TakeLocalOther(m, |start.nodes|, ln, now, id);
    } else {
      FoldLocalOther(start, rest, now, id);
      FoldLocalPrefix(start, rest);
      TakeLocalSound(m, |start.nodes|, ln, now);
      TakeLocalLast(start, m, ln, now);
    }
  }

  lemma TakeLocalLast(start: Merging, m: Merging, ln: NodeInfo, now: int)
    requires Sound(m) && Unexpired(m.tombstones, now) && ln.lastSeen.When().Some? && ln.nodeId != ""
    requires |start.nodes| <= |m.nodes| && forall i :: 0 <= i < |start.nodes| ==>
      m.nodes[i].nodeId == start.nodes[i].nodeId
    requires HasNode(m.nodes, ln.nodeId) <==> HasNode(start.nodes, ln.nodeId)
    ensures MergingMark(TakeLocal(m, |start.nodes|, ln), ln.nodeId, now) ==
              if ln.status != "active" && !HasNode(start.nodes, ln.nodeId)
                && !Below(SeenMark(ln), TombMark(m.tombstones, ln.nodeId, now))
              then Absent
              else Join(MergingMark(m, ln.nodeId, now), SeenMark(ln))
  {
    var id := ln.nodeId;
    TakeLocalSame(m, |start.nodes|, ln, now);
    GateMark(m.tombstones, id, ln.lastSeen, now, id);
    SamePrefixIds(start.nodes, m.nodes, id);
    if !HasNode(start.nodes, id) { NoNodeNoMark(m.nodes, id); }
  }

  lemma SamePrefixIds(a: seq<NodeInfo>, b: seq<NodeInfo>, id: string)
    requires |a| <= |b| && forall i :: 0 <= i < |a| ==> b[i].nodeId == a[i].nodeId
    ensures NodeIndex(b[..|a|], id) < |a| <==> HasNode(a, id)
  {
    var head := b[..|a|];
    var k := NodeIndex(head, id);
    if k < |a| { assert a[k].nodeId == id; }
    if HasNode(a, id) {
      var i :| 0 <= i < |a| && a[i].nodeId == id;
      assert head[i].nodeId == id;
    }
  }

  /**
   With inactive local records too, the merge is the join at id exactly when it
   does not lose the node; when it does, neither record nor marker is left.
   */
  lemma MergeIsJoinIff(local: TrustPool, incoming: TrustPool, now: int, merged: TrustPool, id: string)
    requires IsMerge(local, incoming, now, merged)
    requires Dated(local) && Dated(incoming) && FitsCap(local, incoming, now)
    requires DistinctNodes(local.nodes) && id != ""
    ensures PoolMark(merged, id, now) == Join(PoolMark(local, id, now), PoolMark(incoming, id, now))
            <==> !LosesNode(local, incoming, id, now)
    ensures LosesNode(local, incoming, id, now) ==> PoolMark(merged, id, now) == Absent
  {
    var tombs :| IsUnion(local.tombstones, incoming.tombstones, now, tombs)
      && merged == MergeWith(local, incoming, tombs);
    MergeWithJoinIff(local, incoming, tombs, now, id);
  }

  lemma MergeWithJoinIff(local: TrustPool, incoming: TrustPool, tombs: seq<Tombstone>, now: int, id: string)
    requires IsUnion(local.tombstones, incoming.tombstones, now, tombs)
    requires Dated(local) && Dated(incoming) && FitsCap(local, incoming, now)
    requires DistinctNodes(local.nodes) && id != ""
    ensures PoolMark(MergeWith(local, incoming, tombs), id, now) ==
              if LosesNode(local, incoming, id, now) then Absent
              else Join(PoolMark(local, id, now), PoolMark(incoming, id, now))
    ensures LosesNode(local, incoming, id, now) ==>
      Join(PoolMark(local, id, now), PoolMark(incoming, id, now)) != Absent
  {
    MergeBegins(local, incoming, tombs, now, id);
    if NodeIndex(local.nodes, id) < |local.nodes| {
      KnownJoinIff(local, incoming, tombs, Dedupe(incoming.nodes), now, id);
    } else {
      UnknownJoins(local, incoming, tombs, Dedupe(incoming.nodes), now, id);
    }
  }

  lemma KnownJoinIff(local: TrustPool, incoming: TrustPool, tombs: seq<Tombstone>, ns: seq<NodeInfo>, now: int,
                     id: string)
    requires Begins(local, incoming, tombs, ns, now, id) && Dated(local)
    requires DistinctNodes(local.nodes) && id != "" && NodeIndex(local.nodes, id) < |local.nodes|
    ensures MergingMark(FoldLocal(FoldIncoming(tombs, ns), local.nodes), id, now) ==
              if LosesNode(local, incoming, id, now) then Absent
              else Join(PoolMark(local, id, now), PoolMark(incoming, id, now))
    ensures LosesNode(local, incoming, id, now) ==>
      Join(PoolMark(local, id, now), PoolMark(incoming, id, now)) != Absent
  {
    var k := NodeIndex(local.nodes, id);
    FoldIncomingMark(tombs, ns, now, id);
    FoldIncomingKeeps(tombs, ns, now, id);
    FoldLocalAt(FoldIncoming(tombs, ns), local.nodes, k, now);
    OnlyRecordMark(local.nodes, k);
  }

  lemma UnknownJoins(local: TrustPool, incoming: TrustPool, tombs: seq<Tombstone>, ns: seq<NodeInfo>, now: int,
                     id: string)
    requires Begins(local, incoming, tombs, ns, now, id) && Dated(local)
    requires id != "" && NodeIndex(local.nodes, id) == |local.nodes|
    ensures MergingMark(FoldLocal(FoldIncoming(tombs, ns), local.nodes), id, now) ==
              Join(PoolMark(local, id, now), PoolMark(incoming, id, now))
  {
    assert !HasNode(local.nodes, id);
    FoldIncomingMark(tombs, ns, now, id);
    FoldLocalOther(FoldIncoming(tombs, ns), local.nodes, now, id);
    NoNodeNoMark(local.nodes, id);
  }

  /** It happens: an inactive record newer than its marker, merged with a pool that knows neither. */
  lemma LossHappens(n: NodeInfo, t: Tombstone, local: TrustPool, incoming: TrustPool, now: int)
    requires n.nodeId != "" && n.status != "active" && t.nodeId == n.nodeId && !Expired(t, now)
    requires n.lastSeen.When().Some? && t.removedAt.When().Some? && n.lastSeen.When().value > t.removedAt.When().value
    requires local.nodes == [n] && local.tombstones == [t] && incoming.nodes == [] && incoming.tombstones == []
    ensures LosesNode(local, incoming, n.nodeId, now)
  {
    assert local.nodes[0] == n;
    assert TombMark([t], n.nodeId, now) == Join(TombMark([t][..0], n.nodeId, now), RemovedMark(t, now));
  }

  lemma OnlyRecordMark(ns: seq<NodeInfo>, k: nat)
    requires k < |ns| && DistinctNodes(ns)
    ensures NodeMark(ns, ns[k].nodeId) == SeenMark(ns[k])
  {
    var a, b := ns[..k], ns[k + 1..];
    var id := ns[k].nodeId;
    assert ns == a + [ns[k]] + b;
    NodeMarkAppend(a + [ns[k]], b, id);
    NodeMarkAppend(a, [ns[k]], id);
    SingleNode(ns[k], id);
    assert !HasNode(a, id) && !HasNode(b, id);
    NoNodeNoMark(a, id);
    NoNodeNoMark(b, id);
  }

  // ------------------------------------------------- merging keeps pools active

  lemma {:induction false} DedupeActive(ns: seq<NodeInfo>)
    requires ActiveNodes(ns)
    ensures ActiveNodes(Dedupe(ns))
  {
    if ns != [] { DedupeActive(ns[..|ns| - 1]); }
  }

  lemma {:induction false} FoldIncomingActive(tombs: seq<Tombstone>, ns: seq<NodeInfo>)
    requires ActiveNodes(ns)
    ensures ActiveNodes(FoldIncoming(tombs, ns).nodes)
  {
    if ns != [] { FoldIncomingActive(tombs, ns[..|ns| - 1]); }
  }

  lemma {:induction false} FoldLocalActive(start: Merging, ns: seq<NodeInfo>)
    requires ActiveNodes(ns) && ActiveNodes(start.nodes)
    ensures ActiveNodes(FoldLocal(start, ns).nodes)
  {
    if ns != [] { FoldLocalActive(start, ns[..|ns| - 1]); }
  }

  lemma MergeKeepsActive(local: TrustPool, incoming: TrustPool, now: int, merged: TrustPool)
    requires IsMerge(local, incoming, now, merged)
    requires ActiveNodes(local.nodes) && ActiveNodes(incoming.nodes)
    ensures ActiveNodes(merged.nodes)
  {
    var tombs :| IsUnion(local.tombstones, incoming.tombstones, now, tombs)
      && merged == MergeWith(local, incoming, tombs);
    DedupeActive(incoming.nodes);
    FoldIncomingActive(tombs, Dedupe(incoming.nodes));
    FoldLocalActive(FoldIncoming(tombs, Dedupe(incoming.nodes)), local.nodes);
  }
}
