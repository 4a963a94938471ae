// The merge one record at a time: which record of a node a merged pool holds, when
// a field of it is cleared, and when a removal at one replica reaches another.

module MergedRecords {
  import opened Wrappers
  import opened TrustPools
  import opened TrustPoolMerge
  import opened Federation
  import opened FederationRuns
  import opened TombstoneRank

  // ------------------------------------------------------- the record of a node

  /** The record of a node, if there is one. */
  function NodeAt(ns: seq<NodeInfo>, id: string): Option<NodeInfo>
  {
    var k := NodeIndex(ns, id);
    if k < |ns| then Some(ns[k]) else None
  }

  /** A record gets past this marker. */
  predicate Admitted(t: Option<Tombstone>, n: NodeInfo)
  {
    t.None? || !Suppresses(n.lastSeen, t.value.removedAt)
  }

  /**
   The record of a node after a merge: an offered record that gets past the marker is
   reconciled with the local one, a local one stays only if it is active and gets past
   the marker by itself.
   */
  function MergedRecord(local: Option<NodeInfo>, offered: Option<NodeInfo>, t: Option<Tombstone>): Option<NodeInfo>
  {
    if offered.Some? && Admitted(t, offered.value) then
      if local.Some? then Some(Reconcile(local.value, offered.value)) else offered
    else if local.Some? && local.value.status == "active" && Admitted(t, local.value) then local
    else None
  }

  lemma NodeAtIff(ns: seq<NodeInfo>, id: string)
    ensures NodeAt(ns, id).Some? <==> HasNode(ns, id)
    ensures NodeAt(ns, id).Some? ==> NodeAt(ns, id).value.nodeId == id
  {
    IndexFinds(ns, id);
  }

  lemma {:induction false} NodeAtAppend(ns: seq<NodeInfo>, n: NodeInfo, id: string)
    ensures NodeAt(ns + [n], id) ==
      if NodeAt(ns, id).Some? then NodeAt(ns, id) else if n.nodeId == id then Some(n) else None
  {
    if ns == [] {
      assert ns + [n] == [n] && [n][1..] == [];
    } else {
      NodeAtAppend(ns[1..], n, id);
      assert (ns + [n])[1..] == ns[1..] + [n];
    }
  }

  lemma {:induction false} NodeAtReplace(ns: seq<NodeInfo>, k: nat, n: NodeInfo, id: string)
    requires k == NodeIndex(ns, n.nodeId) && k < |ns|
    ensures NodeAt(ns[k := n], id) == if id == n.nodeId then Some(n) else NodeAt(ns, id)
  {
    if k == 0 {
      assert ns[k := n][1..] == ns[1..];
    } else {
      NodeAtReplace(ns[1..], k - 1, n, id);
      assert ns[k := n][1..] == ns[1..][k - 1 := n];
    }
  }

  lemma {:induction false} PrefixIndex(ns: seq<NodeInfo>, count: nat, id: string)
    requires count <= |ns|
    ensures NodeIndex(ns[..count], id) == if NodeIndex(ns, id) < count then NodeIndex(ns, id) else count
  {
    if count > 0 && ns[0].nodeId != id {
      assert ns[..count][1..] == ns[1..][..count - 1];
      PrefixIndex(ns[1..], count - 1, id);
    }
  }

  // ----------------------------------------------------------------- the two folds

  lemma {:induction false} IncomingRecord(tombs: seq<Tombstone>, ns: seq<NodeInfo>, id: string)
    requires DistinctTombs(tombs) && DistinctNodes(ns) && id != ""
    ensures
      var r := NodeAt(ns, id);
      NodeAt(FoldIncoming(tombs, ns).nodes, id) ==
        if r.Some? && Admitted(TombAt(tombs, id), r.value) then r else None
  {
    if ns != [] {
      var front, n := ns[..|ns| - 1], ns[|ns| - 1];
      var m := FoldIncoming(tombs, front);
      assert ns == front + [n];
      IncomingRecord(tombs, front, id);
      IncomingRemains(tombs, front, id);
      NodeAtAppend(front, n, id);
      NodeAtAppend(m.nodes, n, id);
      NodeAtIff(front, id);
      if n.nodeId == id {
        NoClearing(front, id, tombs);
        GateAdmits(m.tombstones, n);
      }
    }
  }

  /** Without a record of the node nothing clears its marker. */
  lemma NoClearing(ns: seq<NodeInfo>, id: string, tombs: seq<Tombstone>)
    requires !HasNode(ns, id)
    ensures TombAt(tombs, id).Some? ==> !ClearedBy(ns, TombAt(tombs, id).value)
  {
    HasTombAt(tombs, id);
    if TombAt(tombs, id).Some? {
      assert TombAt(tombs, id).value.nodeId == id;
    }
  }

  lemma GateAdmits(ts: seq<Tombstone>, n: NodeInfo)
    ensures Gate(ts, n.nodeId, n.lastSeen).Passed? <==> Admitted(TombAt(ts, n.nodeId), n)
  {
  }

  /** A local record meets what the incoming ones left. */
  function Settle(local: Option<NodeInfo>, have: Option<NodeInfo>, t: Option<Tombstone>): Option<NodeInfo>
  {
    if local.None? then have
    else if have.Some? then Some(Reconcile(local.value, have.value))
    else if local.value.status == "active" && Admitted(t, local.value) then local
    else None
  }

  /** No node has both a record and a marker. */
  predicate OneOf(m: Merging, id: string)
  {
    NodeAt(m.nodes, id).Some? ==> TombAt(m.tombstones, id).None?
  }

  lemma OtherLocalRecord(m: Merging, count: nat, ln: NodeInfo, id: string)
    requires count <= |m.nodes| && ln.nodeId != id
    ensures NodeAt(TakeLocal(m, count, ln).nodes, id) == NodeAt(m.nodes, id)
  {
    var k := NodeIndex(m.nodes[..count], ln.nodeId);
    PrefixIndex(m.nodes, count, ln.nodeId);
    NodeAtAppend(m.nodes, ln, id);
    if k < count { NodeAtReplace(m.nodes, k, Reconcile(ln, m.nodes[k]), id); }
  }

  lemma KnownLocalRecord(ns: seq<NodeInfo>, count: nat, ln: NodeInfo)
    requires count <= |ns| && NodeIndex(ns[..count], ln.nodeId) < count
    ensures
      var k := NodeIndex(ns[..count], ln.nodeId);
      && NodeAt(ns, ln.nodeId) == Some(ns[k])
      && NodeAt(ns[k := Reconcile(ln, ns[k])], ln.nodeId) == Some(Reconcile(ln, ns[k]))
  {
    var k := NodeIndex(ns[..count], ln.nodeId);
    PrefixIndex(ns, count, ln.nodeId);
    NodeAtReplace(ns, k, Reconcile(ln, ns[k]), ln.nodeId);
  }

  lemma SameLocalRecord(start: Merging, m: Merging, ln: NodeInfo)
    requires |start.nodes| <= |m.nodes| && ln.nodeId != "" && OneOf(start, ln.nodeId)
    requires forall i :: 0 <= i < |start.nodes| ==> m.nodes[i].nodeId == start.nodes[i].nodeId
    requires NodeAt(m.nodes, ln.nodeId) == NodeAt(start.nodes, ln.nodeId)
    requires TombAt(m.tombstones, ln.nodeId) == TombAt(start.tombstones, ln.nodeId)
    ensures
      var id := ln.nodeId;
      NodeAt(TakeLocal(m, |start.nodes|, ln).nodes, id) ==
        Settle(Some(ln), NodeAt(start.nodes, id), TombAt(start.tombstones, id))
  {
    GateAdmits(m.tombstones, ln);
    SamePrefixIds(start.nodes, m.nodes, ln.nodeId);
    NodeAtIff(start.nodes, ln.nodeId);
    if NodeIndex(m.nodes[..|start.nodes|], ln.nodeId) < |start.nodes| {
      KnownLocalRecord(m.nodes, |start.nodes|, ln);
    } else {
      NodeAtAppend(m.nodes, ln, ln.nodeId);
    }
  }

  lemma {:induction false} LocalRecord(start: Merging, ns: seq<NodeInfo>, id: string)
    requires DistinctTombs(start.tombstones) && DistinctNodes(ns) && id != "" && OneOf(start, id)
    ensures NodeAt(FoldLocal(start, ns).nodes, id) ==
      Settle(NodeAt(ns, id), NodeAt(start.nodes, id), TombAt(start.tombstones, id))
  {
    if ns != [] {
      var front, ln := ns[..|ns| - 1], ns[|ns| - 1];
      var m := FoldLocal(start, front);
      assert ns == front + [ln];
      LocalRecord(start, front, id);
      NodeAtAppend(front, ln, id);
      NodeAtIff(front, id);
      if ln.nodeId == id {
        FoldLocalPrefix(start, front);
        LocalRemains(start, front, id);
        NoClearing(front, id, start.tombstones);
        SameLocalRecord(start, m, ln);
      } else {
        OtherLocalRecord(m, |start.nodes|, ln, id);
      }
    }
  }

  /** What the incoming records leave of a node: record, marker, never both. */
  lemma IncomingLeaves(tombs: seq<Tombstone>, ns: seq<NodeInfo>, id: string)
    requires DistinctTombs(tombs) && DistinctNodes(ns) && id != ""
    ensures
      var m := FoldIncoming(tombs, ns);
      && DistinctTombs(m.tombstones) && OneOf(m, id)
      && (NodeAt(m.nodes, id).None? ==> TombAt(m.tombstones, id) == TombAt(tombs, id))
  {
    IncomingRecord(tombs, ns, id);
    IncomingRemains(tombs, ns, id);
    NodeAtIff(ns, id);
    HasTombAt(tombs, id);
    if TombAt(tombs, id).Some? {
      var t, k := TombAt(tombs, id).value, NodeIndex(ns, id);
      assert t.nodeId == id;
      assert forall j :: 0 <= j < |ns| && ns[j].nodeId == id ==> j == k;
    }
  }

  /** The record a merge leaves of any node is the reference one. */
  lemma MergeRecordAt(local: TrustPool, incoming: TrustPool, now: int, tombs: seq<Tombstone>, id: string)
    requires IsUnion(local.tombstones, incoming.tombstones, now, tombs) && DistinctNodes(local.nodes) && id != ""
    ensures NodeAt(MergeWith(local, incoming, tombs).nodes, id) ==
      MergedRecord(NodeAt(local.nodes, id), NodeAt(Dedupe(incoming.nodes), id), TombAt(tombs, id))
  {
    var ns := Dedupe(incoming.nodes);
    DedupeDistinct(incoming.nodes);
    IncomingLeaves(tombs, ns, id);
    IncomingRecord(tombs, ns, id);
    LocalRecord(FoldIncoming(tombs, ns), local.nodes, id);
  }

  // ------------------------------------------------------------- cleared fields

  /** A record gets past the marker. */
  predicate Offers(offered: Option<NodeInfo>, t: Option<Tombstone>)
  {
    offered.Some? && Admitted(t, offered.value)
  }

  /** One that does, is not older, and so replaces the local record. */
  predicate Replaces(offered: Option<NodeInfo>, ln: NodeInfo, t: Option<Tombstone>)
  {
    Offers(offered, t) && !Fresher(ln.lastSeen, offered.value.lastSeen)
  }

  lemma RecordClears(ln: NodeInfo, offered: Option<NodeInfo>, t: Option<Tombstone>)
    requires MergedRecord(Some(ln), offered, t).Some?
    ensures
      var after := MergedRecord(Some(ln), offered, t).value;
      var replaced := Replaces(offered, ln, t);
      && after.pubKey == (if ln.pubKey == "" && Offers(offered, t) then offered.value.pubKey else ln.pubKey)
      && (ln.gitHubUser != "" ==> (after.gitHubUser == "" <==> replaced && offered.value.gitHubUser == ""))
      && (ln.gitHubId != 0 ==> (after.gitHubId == 0 <==> replaced && offered.value.gitHubId == 0))
      && (ln.inviteBy != "" ==> (after.inviteBy == "" <==> replaced && offered.value.inviteBy == ""))
  {
  }

  /**
   Of a node that survives the merge an identity field is cleared exactly by a
   replacing record without it. The public key never is: it is only taken where it was missing.
   */
  lemma MergeClearsIff(local: TrustPool, incoming: TrustPool, now: int, tombs: seq<Tombstone>, id: string)
    requires IsUnion(local.tombstones, incoming.tombstones, now, tombs) && DistinctNodes(local.nodes) && id != ""
    requires HasNode(local.nodes, id) && HasNode(MergeWith(local, incoming, tombs).nodes, id)
    ensures
      var ln := NodeAt(local.nodes, id).value;
      var offered := NodeAt(Dedupe(incoming.nodes), id);
      var after := NodeAt(MergeWith(local, incoming, tombs).nodes, id).value;
      var replaced := Replaces(offered, ln, TombAt(tombs, id));
      && after.pubKey ==
           (if ln.pubKey == "" && Offers(offered, TombAt(tombs, id)) then offered.value.pubKey else ln.pubKey)
      && (ln.gitHubUser != "" ==> (after.gitHubUser == "" <==> replaced && offered.value.gitHubUser == ""))
      && (ln.gitHubId != 0 ==> (after.gitHubId == 0 <==> replaced && offered.value.gitHubId == 0))
      && (ln.inviteBy != "" ==> (after.inviteBy == "" <==> replaced && offered.value.inviteBy == ""))
  {
    MergeRecordAt(local, incoming, now, tombs, id);
    NodeAtIff(local.nodes, id);
    NodeAtIff(MergeWith(local, incoming, tombs).nodes, id);
    RecordClears(NodeAt(local.nodes, id).value, NodeAt(Dedupe(incoming.nodes), id), TombAt(tombs, id));
  }

  // -------------------------------------------------- removals between replicas

  /** Whatever order maps are walked in, a pull of the offered pool leaves no record of id. */
  ghost predicate PullRemoves(s: FedState, offered: TrustPool, now: int, id: string)
  {
    forall s' :: Step(s, Update(offered, now), s') ==> !HasNode(s'.pool.nodes, id)
  }

  /** Every union has a marker of id that refuses this record. */
  ghost predicate AlwaysRefused(a: seq<Tombstone>, b: seq<Tombstone>, now: int, n: NodeInfo)
  {
    forall tombs :: IsUnion(a, b, now, tombs) ==> !Admitted(TombAt(tombs, n.nodeId), n)
  }

  lemma UnionTomb(a: seq<Tombstone>, b: seq<Tombstone>, now: int, tombs: seq<Tombstone>, id: string)
    requires IsUnion(a, b, now, tombs) && HasTomb(tombs, id)
    ensures id in Kept(Newest(a + b), now) && TombAt(tombs, id) == Some(Newest(a + b)[id])
  {
    HasTombAt(tombs, id);
  }

  /** By rank: the newest marker of the node is safe from the cap and not older than the record. */
  predicate SafelyRefused(a: seq<Tombstone>, b: seq<Tombstone>, now: int, n: NodeInfo)
  {
    var m := Newest(a + b);
    && n.nodeId in Kept(m, now)
    && |Rivals(m, Kept(m, now), n.nodeId)| < MAX_TOMBSTONES
    && Suppresses(n.lastSeen, m[n.nodeId].removedAt)
  }

  lemma AlwaysRefusedIff(a: seq<Tombstone>, b: seq<Tombstone>, now: int, n: NodeInfo)
    ensures AlwaysRefused(a, b, now, n) <==> SafelyRefused(a, b, now, n)
  {
    var id, m := n.nodeId, Newest(a + b);
    forall tombs | IsUnion(a, b, now, tombs)
      ensures !Admitted(TombAt(tombs, id), n) <==> HasTomb(tombs, id) && Suppresses(n.lastSeen, m[id].removedAt)
    {
      HasTombAt(tombs, id);
      if HasTomb(tombs, id) { UnionTomb(a, b, now, tombs, id); }
    }
    var some := SomeUnionExists(a, b, now);
    if id in Kept(m, now) {
      UnionRankLaw(a, b, now, id);
    } else {
      ExpiredNeverKept(a, b, now, id);
      assert !HasTomb(some, id);
    }
  }

  /** With nothing offered for the node, its record goes if it is inactive or refused. */
  lemma UnofferedRecord(s: FedState, offered: TrustPool, now: int, tombs: seq<Tombstone>, id: string)
    requires IsUnion(s.pool.tombstones, offered.tombstones, now, tombs) && DistinctNodes(s.pool.nodes) && id != ""
    requires !HasNode(offered.nodes, id)
    ensures
      var local := NodeAt(s.pool.nodes, id);
      HasNode(MergeWith(s.pool, offered, tombs).nodes, id) <==>
        local.Some? && local.value.status == "active" && Admitted(TombAt(tombs, id), local.value)
  {
    MergeRecordAt(s.pool, offered, now, tombs, id);
    DedupeDistinct(offered.nodes);
    NodeAtIff(Dedupe(offered.nodes), id);
    NodeAtIff(MergeWith(s.pool, offered, tombs).nodes, id);
  }

  /**
   When a pull removes a node the offered pool does not list: if the versions let it
   through, exactly an unknown or inactive node or one with a marker that is safe from
   the cap and not older than the record; if not, only a node that is not there.
   */
  lemma PullRemovesIff(s: FedState, offered: TrustPool, now: int, id: string)
    requires DistinctNodes(s.pool.nodes) && id != "" && !HasNode(offered.nodes, id)
    ensures
      var local := NodeAt(s.pool.nodes, id);
      PullRemoves(s, offered, now, id) <==>
        || local.None?
        || (offered.version > s.pool.version
            && (local.value.status != "active"
                || SafelyRefused(s.pool.tombstones, offered.tombstones, now, local.value)))
  {
    var a, b, local := s.pool.tombstones, offered.tombstones, NodeAt(s.pool.nodes, id);
    NodeAtIff(s.pool.nodes, id);
    if offered.version <= s.pool.version {
      assert Step(s, Update(offered, now), s);
    } else {
      forall tombs | IsUnion(a, b, now, tombs)
        ensures Step(s, Update(offered, now), s.(pool := MergeWith(s.pool, offered, tombs)))
        ensures HasNode(s.(pool := MergeWith(s.pool, offered, tombs)).pool.nodes, id) <==>
          local.Some? && local.value.status == "active" && Admitted(TombAt(tombs, id), local.value)
      {
        UnofferedRecord(s, offered, now, tombs, id);
      }
      forall s' | Step(s, Update(offered, now), s')
        ensures exists tombs :: IsUnion(a, b, now, tombs) && s' == s.(pool := MergeWith(s.pool, offered, tombs))
      {
        var tombs :| IsUnion(a, b, now, tombs) && s'.pool == MergeWith(s.pool, offered, tombs);
      }
      var some := SomeUnionExists(a, b, now);
      if local.Some? { AlwaysRefusedIff(a, b, now, local.value); }
    }
  }

  lemma {:induction false} NewestBehind(a: seq<Tombstone>, b: seq<Tombstone>, id: string)
    requires !HasTomb(a, id) && DistinctTombs(b) && id != ""
    ensures id in Newest(a + b) <==> HasTomb(b, id)
    ensures HasTomb(b, id) ==> TombAt(b, id) == Some(Newest(a + b)[id])
  {
    HasTombAt(b, id);
    if b == [] {
      assert a + b == a;
      if id in Newest(a) { NewestEntry(a, id); }
    } else {
      var n := |b| - 1;
      assert (a + b)[..|a + b| - 1] == a + b[..n];
      NewestBehind(a, b[..n], id);
      TombAtFront(b, id);
      HasTombAt(b[..n], id);
    }
  }

  lemma TombAtFront(b: seq<Tombstone>, id: string)
    requires b != [] && DistinctTombs(b)
    ensures TombAt(b, id) == if b[|b| - 1].nodeId == id then Some(b[|b| - 1]) else TombAt(b[..|b| - 1], id)
  {
    var n := |b| - 1;
    var k := TombIndex(b[..n], id);
    if b[n].nodeId == id {
      assert TombIndex(b, id) == n;
    } else if k < n {
      assert b[k].nodeId == id && TombIndex(b, id) == k;
    } else {
      HasTombAt(b, id);
      assert forall j :: 0 <= j < n ==> b[j] == b[..n][j];
    }
  }

  /** After a removal its marker, if the cap left it, has the time of the removal. */
  lemma RemovalStamp(a: FedState, id: string, reason: string, stamp: Stamp, past: int, a': FedState)
    requires Inv(a) && id != "" && Step(a, Remove(id, reason, stamp, past), a')
    ensures HasTomb(a'.pool.tombstones, id) ==> TombAt(a'.pool.tombstones, id).value.removedAt == stamp
  {
    var marked := MarkRemoved(a.pool.tombstones, id, stamp, reason);
    RemovalContenders(a.pool.tombstones, id, stamp, reason, past);
    HasTombAt(a'.pool.tombstones, id);
    if HasTomb(a'.pool.tombstones, id) { UnionTomb(marked, [], past, a'.pool.tombstones, id); }
  }

  /** The marker of id in the pool is among the contenders of the pull and safe from the cap. */
  ghost predicate Delivered(s: FedState, offered: TrustPool, now: int, id: string)
  {
    var m := Newest(s.pool.tombstones + offered.tombstones);
    && HasTomb(offered.tombstones, id)
    && id in Kept(m, now)
    && |Rivals(m, Kept(m, now), id)| < MAX_TOMBSTONES
  }

  /**
   A removal at one replica and a pull by another that lists the node: the node goes in
   every outcome exactly when the pull is let through by the versions and either the
   record there is inactive, or the tombstone is still delivered and not older.
   */
  lemma RemovalReachesIff(a: FedState, id: string, reason: string, stamp: Stamp, past: int, a': FedState,
                          b: FedState, now: int)
    requires Inv(a) && id != "" && Step(a, Remove(id, reason, stamp, past), a')
    requires Inv(b) && HasNode(b.pool.nodes, id)
    ensures
      var record := NodeAt(b.pool.nodes, id).value;
      PullRemoves(b, a'.pool, now, id) <==>
        && a.pool.version + 1 > b.pool.version
        && (record.status != "active" || (Delivered(b, a'.pool, now, id) && Suppresses(record.lastSeen, stamp)))
  {
    var x, y := b.pool.tombstones, a'.pool.tombstones;
    RemoveTidy(a, id, reason, stamp, past, a');
    RemovalStamp(a, id, reason, stamp, past, a');
    NodeAtIff(b.pool.nodes, id);
    PullRemovesIff(b, a'.pool, now, id);
    if HasTomb(x, id) { MarkedNotLive(b.pool.nodes, x, id); }
    NewestBehind(x, y, id);
  }

  // ---------------------------------------------------- equal versions, stuck apart

  datatype Pull = LeftPulls(now: int) | RightPulls(now: int)

  /** Two replicas that do nothing but pull from each other. */
  ghost predicate PullStep(a: FedState, b: FedState, p: Pull, a': FedState, b': FedState)
  {
    match p
    case LeftPulls(now) => Step(a, Update(b.pool, now), a') && b' == b
    case RightPulls(now) => Step(b, Update(a.pool, now), b') && a' == a
  }

  ghost predicate PullRun(left: seq<FedState>, right: seq<FedState>, ps: seq<Pull>)
  {
    && |left| == |ps| + 1 && |right| == |ps| + 1
    && forall k :: 0 <= k < |ps| ==> PullStep(left[k], right[k], ps[k], left[k + 1], right[k + 1])
  }

  /** Replicas with equal versions never learn anything from each other. */
  lemma {:induction false} EqualVersionsFrozen(left: seq<FedState>, right: seq<FedState>, ps: seq<Pull>, k: nat)
    requires PullRun(left, right, ps) && k < |left| && left[0].pool.version == right[0].pool.version
    ensures left[k] == left[0] && right[k] == right[0]
  {
    if k > 0 { EqualVersionsFrozen(left, right, ps, k - 1); }
  }

  lemma UpsertKeeps(p: TrustPool, n: NodeInfo, stamp: Stamp, id: string)
    requires HasNode(p.nodes, id)
    ensures HasNode(Upsert(p, n, stamp).nodes, id) && Upsert(p, n, stamp).version == p.version
  {
    var r := Upsert(p, n, stamp);
    var i :| 0 <= i < |p.nodes| && p.nodes[i].nodeId == id;
    assert r.nodes[i].nodeId == id;
  }

  lemma {:induction false} UpsertAllKeeps(p: TrustPool, ns: seq<NodeInfo>, stamp: Stamp, id: string)
    requires HasNode(p.nodes, id)
    ensures HasNode(UpsertAll(p, ns, stamp).nodes, id)
    ensures UpsertAll(p, ns, stamp).version == p.version
  {
    if ns != [] {
      UpsertAllKeeps(p, ns[..|ns| - 1], stamp, id);
      UpsertKeeps(UpsertAll(p, ns[..|ns| - 1], stamp), ns[|ns| - 1], stamp, id);
    }
  }

  /**
   It takes one removal on one side and one addition on the other, from a common
   pool: however often they pull, one side lists the node and the other does not.
   */
  lemma StuckApart(s: FedState, id: string, reason: string, stamp: Stamp, past: int, records: seq<NodeInfo>,
                   seen: Stamp, left: seq<FedState>, right: seq<FedState>, ps: seq<Pull>, k: nat)
    requires Inv(s) && s.enabled && id != "" && HasNode(s.pool.nodes, id) && AnyNamed(records)
    requires PullRun(left, right, ps) && k < |left|
    requires Step(s, Remove(id, reason, stamp, past), left[0]) && Step(s, AddKnown(records, seen), right[0])
    ensures !HasNode(left[k].pool.nodes, id) && HasNode(right[k].pool.nodes, id)
  {
    RemoveTidy(s, id, reason, stamp, past, left[0]);
    UpsertAllKeeps(s.pool, records, seen, id);
    EqualVersionsFrozen(left, right, ps, k);
  }
}
