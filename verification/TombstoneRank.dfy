// Which tombstones a union keeps when more than 256 compete: the exact law by
// rank of their timestamp texts, for removals and for merges.

module TombstoneRank {
  import opened Wrappers
  import opened ByteText
  import opened TrustPools
  import opened TrustPoolMerge
  import opened Federation
  import opened FederationRuns

  // ------------------------------------------------------------------ ranks

  /** y's timestamp text is strictly below x's. */
  predicate Earlier(m: map<string, Tombstone>, y: string, x: string)
    requires x in m && y in m
  {
    Less(m[y].removedAt.text, m[x].removedAt.text)
  }

  /** The other contenders whose text is not below x's. */
  function Rivals(m: map<string, Tombstone>, kept: set<string>, x: string): set<string>
    requires x in m && kept <= m.Keys
  {
    set y | y in kept && y != x && !Earlier(m, y, x)
  }

  /** The contenders whose text is strictly above x's. */
  function Later(m: map<string, Tombstone>, kept: set<string>, x: string): set<string>
    requires x in m && kept <= m.Keys
  {
    set y | y in kept && Earlier(m, x, y)
  }

  lemma EarlierOrder(m: map<string, Tombstone>, x: string, y: string, z: string)
    requires x in m && y in m && z in m
    ensures !Earlier(m, x, x)
    ensures Earlier(m, x, y) ==> !Earlier(m, y, x)
    ensures !Earlier(m, x, y) && !Earlier(m, y, z) ==> !Earlier(m, x, z)
  {
    var a, b, c := m[x].removedAt.text, m[y].removedAt.text, m[z].removedAt.text;
    LessTotal(a, b);
    LessTotal(b, c);
    LessTotal(a, c);
    LessTotal(a, a);
    if Less(a, c) && Less(c, b) { LessTransitive(a, c, b); }
  }

  /** chosen is at the top of ids: nothing left out is strictly above anything taken. */
  predicate OnTop(m: map<string, Tombstone>, ids: set<string>, chosen: set<string>)
    requires ids <= m.Keys && chosen <= ids
  {
    forall y, z :: y in chosen && z in ids && z !in chosen ==> !Earlier(m, y, z)
  }

  lemma Latest(m: map<string, Tombstone>, ids: set<string>) returns (top: string)
    requires ids <= m.Keys && ids != {}
    ensures top in ids && forall y :: y in ids ==> !Earlier(m, top, y)
    decreases |ids|
  {
    var first :| first in ids;
    var rest := ids - {first};
    EarlierOrder(m, first, first, first);
    if rest == {} {
      forall y | y in ids ensures y == first {
        assert y !in rest;
      }
      top := first;
    } else {
      var other := Latest(m, rest);
      top := if Earlier(m, first, other) then other else first;
      forall y | y in ids ensures !Earlier(m, top, y) {
        EarlierOrder(m, first, other, y);
        if y != first { assert y in rest; }
      }
    }
  }

  lemma {:induction false} TopOf(m: map<string, Tombstone>, ids: set<string>, n: nat) returns (chosen: set<string>)
    requires ids <= m.Keys && n <= |ids|
    ensures chosen <= ids && |chosen| == n && OnTop(m, ids, chosen)
    decreases n
  {
    if n == 0 {
      chosen := {};
    } else {
      var top := Latest(m, ids);
      var rest := TopOf(m, ids - {top}, n - 1);
      chosen := rest + {top};
    }
  }

  // --------------------------------------------------------------- outcomes

  lemma {:induction false} ListOf(m: map<string, Tombstone>, ids: set<string>) returns (out: seq<Tombstone>)
    requires ids <= m.Keys && forall id :: id in ids ==> m[id].nodeId == id
    ensures |out| == |ids| && DistinctTombs(out)
    ensures forall k :: 0 <= k < |out| ==> out[k].nodeId in ids && m[out[k].nodeId] == out[k]
    ensures forall id :: id in ids <==> HasTomb(out, id)
    decreases |ids|
  {
    if ids == {} {
      out := [];
    } else {
      var id :| id in ids;
      var rest := ListOf(m, ids - {id});
      out := rest + [m[id]];
      forall other ensures HasTomb(out, other) <==> HasTomb(rest, other) || other == id {
        if HasTomb(rest, other) {
          var k :| 0 <= k < |rest| && rest[k].nodeId == other;
          assert out[k].nodeId == other;
        }
        assert out[|rest|].nodeId == id;
      }
      forall k | 0 <= k < |rest| ensures rest[k].nodeId != id {
        assert HasTomb(rest, rest[k].nodeId);
      }
    }
  }

  lemma NewestNamed(ts: seq<Tombstone>)
    ensures forall id :: id in Newest(ts) ==> Newest(ts)[id].nodeId == id
  {
    forall id | id in Newest(ts) ensures Newest(ts)[id].nodeId == id {
      NewestEntry(ts, id);
    }
  }

  /** A top choice of the right size is the outcome of some union. */
  lemma ChoiceIsUnion(a: seq<Tombstone>, b: seq<Tombstone>, now: int, chosen: set<string>) returns (out: seq<Tombstone>)
    requires chosen <= Kept(Newest(a + b), now) && OnTop(Newest(a + b), Kept(Newest(a + b), now), chosen)
    requires |chosen| ==
      if |Kept(Newest(a + b), now)| <= MAX_TOMBSTONES then |Kept(Newest(a + b), now)| else MAX_TOMBSTONES
    ensures IsUnion(a, b, now, out) && forall id :: id in chosen <==> HasTomb(out, id)
  {
    var m := Newest(a + b);
    var kept := Kept(m, now);
    NewestNamed(a + b);
    out := ListOf(m, chosen);
    if |kept| <= MAX_TOMBSTONES { SameSize(chosen, kept); }
    forall k, id | 0 <= k < |out| && id in kept && !HasTomb(out, id)
      ensures !Less(out[k].removedAt.text, m[id].removedAt.text)
    {
      assert !Earlier(m, out[k].nodeId, id);
    }
  }

  lemma SameSize(a: set<string>, b: set<string>)
    requires a <= b && |a| == |b|
    ensures a == b
  {
    assert |b - a| == |b| - |a|;
  }

  lemma Fewer(a: set<string>, b: set<string>)
    requires a <= b
    ensures |a| <= |b|
  {
    assert |b - a| == |b| - |a|;
  }

  function TombIds(ts: seq<Tombstone>): set<string>
  {
    set k | 0 <= k < |ts| :: ts[k].nodeId
  }

  lemma TombIdsCount(ts: seq<Tombstone>)
    requires DistinctTombs(ts)
    ensures |TombIds(ts)| == |ts| && forall id :: id in TombIds(ts) <==> HasTomb(ts, id)
  {
    DistinctCount(ts, TombIds(ts));
  }

  /** The union keeps x's marker whatever the map order and the ties. */
  ghost predicate AlwaysKept(a: seq<Tombstone>, b: seq<Tombstone>, now: int, x: string)
  {
    forall out :: IsUnion(a, b, now, out) ==> HasTomb(out, x)
  }

  /** It never does. */
  ghost predicate NeverKept(a: seq<Tombstone>, b: seq<Tombstone>, now: int, x: string)
  {
    forall out :: IsUnion(a, b, now, out) ==> !HasTomb(out, x)
  }

  // ---------------------------------------------------------------- the law

  lemma MissingMeansRivals(a: seq<Tombstone>, b: seq<Tombstone>, now: int, x: string, out: seq<Tombstone>)
    requires x in Kept(Newest(a + b), now) && IsUnion(a, b, now, out) && !HasTomb(out, x)
    ensures |Rivals(Newest(a + b), Kept(Newest(a + b), now), x)| >= MAX_TOMBSTONES
  {
    var m := Newest(a + b);
    var kept := Kept(m, now);
    TombIdsCount(out);
    forall id | id in TombIds(out) ensures id in Rivals(m, kept, x) {
      var k :| 0 <= k < |out| && out[k].nodeId == id;
      assert !Less(out[k].removedAt.text, m[x].removedAt.text);
    }
    Fewer(TombIds(out), Rivals(m, kept, x));
  }

  lemma ManyRivalsCanWin(a: seq<Tombstone>, b: seq<Tombstone>, now: int, x: string) returns (out: seq<Tombstone>)
    requires x in Kept(Newest(a + b), now) && |Rivals(Newest(a + b), Kept(Newest(a + b), now), x)| >= MAX_TOMBSTONES
    ensures IsUnion(a, b, now, out) && !HasTomb(out, x)
  {
    var m := Newest(a + b);
    var kept := Kept(m, now);
    var others, rivals := kept - {x}, Rivals(m, kept, x);
    Fewer(rivals, others);
    var chosen := TopOf(m, others, MAX_TOMBSTONES);
    forall y | y in chosen ensures !Earlier(m, y, x) {
      if Earlier(m, y, x) { RivalsTaken(m, kept, x, chosen, y); }
    }
    out := ChoiceIsUnion(a, b, now, chosen);
  }

  /** If something below x was taken from the top, all rivals were taken too, and that is one too many. */
  lemma RivalsTaken(m: map<string, Tombstone>, kept: set<string>, x: string, chosen: set<string>, y: string)
    requires kept <= m.Keys && x in kept && chosen <= kept - {x} && OnTop(m, kept - {x}, chosen)
    requires y in chosen && Earlier(m, y, x)
    ensures |chosen| > |Rivals(m, kept, x)|
  {
    var rivals := Rivals(m, kept, x);
    forall z | z in rivals ensures z in chosen {
      EarlierOrder(m, y, z, x);
    }
    Fewer(rivals + {y}, chosen);
  }

  lemma KeptMeansFewLater(a: seq<Tombstone>, b: seq<Tombstone>, now: int, x: string, out: seq<Tombstone>)
    requires x in Kept(Newest(a + b), now) && IsUnion(a, b, now, out) && HasTomb(out, x)
    ensures |Later(Newest(a + b), Kept(Newest(a + b), now), x)| < MAX_TOMBSTONES
  {
    var m := Newest(a + b);
    var kept := Kept(m, now);
    var later := Later(m, kept, x);
    TombIdsCount(out);
    EarlierOrder(m, x, x, x);
    var k :| 0 <= k < |out| && out[k].nodeId == x;
    assert m[x] == out[k];
    forall z | z in later ensures z in TombIds(out) - {x} {
      assert Less(out[k].removedAt.text, m[z].removedAt.text);
    }
    Fewer(later, TombIds(out) - {x});
  }

  lemma FewLaterCanSurvive(a: seq<Tombstone>, b: seq<Tombstone>, now: int, x: string) returns (out: seq<Tombstone>)
    requires x in Kept(Newest(a + b), now) && |Later(Newest(a + b), Kept(Newest(a + b), now), x)| < MAX_TOMBSTONES
    ensures IsUnion(a, b, now, out) && HasTomb(out, x)
  {
    var m := Newest(a + b);
    var kept := Kept(m, now);
    if |kept| <= MAX_TOMBSTONES {
      out := ChoiceIsUnion(a, b, now, kept);
    } else {
      var others := kept - {x};
      var rest := TopOf(m, others, MAX_TOMBSTONES - 1);
      forall z | z in others && z !in rest ensures !Earlier(m, x, z) {
        if Earlier(m, x, z) { LaterTaken(m, kept, x, rest, z); }
      }
      out := ChoiceIsUnion(a, b, now, rest + {x});
    }
  }

  /** If something above x was left out, everything taken is above x as well. */
  lemma LaterTaken(m: map<string, Tombstone>, kept: set<string>, x: string, rest: set<string>, z: string)
    requires kept <= m.Keys && x in kept && rest <= kept - {x} && OnTop(m, kept - {x}, rest)
    requires z in kept - {x} && z !in rest && Earlier(m, x, z)
    ensures |Later(m, kept, x)| > |rest|
  {
    forall y | y in rest ensures y in Later(m, kept, x) {
      EarlierOrder(m, x, y, z);
    }
    Fewer(rest + {z}, Later(m, kept, x));
  }

  /**
   The rank law. A contender's marker survives every outcome of the union exactly
   when fewer than 256 others have a text not below its own, and is lost in every
   outcome exactly when 256 have one strictly above.
   */
  lemma UnionRankLaw(a: seq<Tombstone>, b: seq<Tombstone>, now: int, x: string)
    requires x in Kept(Newest(a + b), now)
    ensures AlwaysKept(a, b, now, x) <==> |Rivals(Newest(a + b), Kept(Newest(a + b), now), x)| < MAX_TOMBSTONES
    ensures NeverKept(a, b, now, x) <==> |Later(Newest(a + b), Kept(Newest(a + b), now), x)| >= MAX_TOMBSTONES
  {
    var m := Newest(a + b);
    var kept := Kept(m, now);
    if |Rivals(m, kept, x)| < MAX_TOMBSTONES {
      forall out | IsUnion(a, b, now, out) ensures HasTomb(out, x) {
        if !HasTomb(out, x) { MissingMeansRivals(a, b, now, x, out); }
      }
    } else {
      var out := ManyRivalsCanWin(a, b, now, x);
    }
    if |Later(m, kept, x)| >= MAX_TOMBSTONES {
      forall out | IsUnion(a, b, now, out) ensures !HasTomb(out, x) {
        if HasTomb(out, x) { KeptMeansFewLater(a, b, now, x, out); }
      }
    } else {
      var out := FewLaterCanSurvive(a, b, now, x);
    }
  }

  // ---------------------------------------------------------------- removals

  /** A marker of another node that competes with a fresh removal of id. */
  predicate Contends(t: Tombstone, id: string, now: int)
  {
    t.nodeId != id && t.nodeId != "" && !Expired(t, now)
  }

  function Contenders(ts: seq<Tombstone>, id: string, now: int): set<string>
  {
    set k | 0 <= k < |ts| && Contends(ts[k], id, now) :: ts[k].nodeId
  }

  lemma MarkedParts(ts: seq<Tombstone>, id: string, stamp: Stamp, reason: string)
    requires DistinctTombs(ts) && id != ""
    ensures
      var marked := MarkRemoved(ts, id, stamp, reason);
      && DistinctTombs(marked)
      && marked[TombIndex(ts, id)].nodeId == id && marked[TombIndex(ts, id)].removedAt == stamp
      && (forall k :: 0 <= k < |ts| && ts[k].nodeId != id ==> marked[k] == ts[k])
      && (forall k :: 0 <= k < |marked| && marked[k].nodeId != id ==> k < |ts| && marked[k] == ts[k])
  {
  }

  /** The contenders of a removal's union: the pool's unexpired markers of other nodes, and the fresh one. */
  lemma RemovalContenders(ts: seq<Tombstone>, id: string, stamp: Stamp, reason: string, now: int)
    requires DistinctTombs(ts) && id != ""
    ensures
      var m := Newest(MarkRemoved(ts, id, stamp, reason) + []);
      && id in m && m[id].removedAt == stamp
      && (forall k :: 0 <= k < |ts| && Contends(ts[k], id, now) ==> ts[k].nodeId in m && m[ts[k].nodeId] == ts[k])
      && Kept(m, now) == Contenders(ts, id, now) + if Expired(Tombstone(id, stamp, reason), now) then {} else {id}
  {
    var marked := MarkRemoved(ts, id, stamp, reason);
    assert marked + [] == marked;
    var m := Newest(marked);
    MarkedParts(ts, id, stamp, reason);
    NewestOfDistinct(marked, TombIndex(ts, id));
    forall k | 0 <= k < |ts| && Contends(ts[k], id, now) ensures ts[k].nodeId in m && m[ts[k].nodeId] == ts[k] {
      NewestOfDistinct(marked, k);
    }
    forall y | y in Kept(m, now) && y != id ensures y in Contenders(ts, id, now) {
      NewestEntry(marked, y);
      var k :| 0 <= k < |marked| && marked[k] == m[y];
      assert Contends(ts[k], id, now);
    }
  }

  lemma ContendersFit(ts: seq<Tombstone>, id: string, now: int)
    requires DistinctTombs(ts)
    ensures |Contenders(ts, id, now)| <= |ts|
  {
    TombIdsCount(ts);
    Fewer(Contenders(ts, id, now), TombIds(ts));
  }

  /** The pool keeps the removal's marker in every outcome. */
  ghost predicate RemovalAlwaysKept(s: FedState, id: string, reason: string, stamp: Stamp, now: int)
  {
    forall s' :: Step(s, Remove(id, reason, stamp, now), s') ==> HasTomb(s'.pool.tombstones, id)
  }

  ghost predicate RemovalNeverKept(s: FedState, id: string, reason: string, stamp: Stamp, now: int)
  {
    forall s' :: Step(s, Remove(id, reason, stamp, now), s') ==> !HasTomb(s'.pool.tombstones, id)
  }

  lemma RemovalIsUnion(s: FedState, id: string, reason: string, stamp: Stamp, now: int)
    requires id != ""
    ensures
      var marked := MarkRemoved(s.pool.tombstones, id, stamp, reason);
      && (RemovalAlwaysKept(s, id, reason, stamp, now) <==> AlwaysKept(marked, [], now, id))
      && (RemovalNeverKept(s, id, reason, stamp, now) <==> NeverKept(marked, [], now, id))
  {
    var marked := MarkRemoved(s.pool.tombstones, id, stamp, reason);
    forall out | IsUnion(marked, [], now, out)
      ensures Step(s, Remove(id, reason, stamp, now),
        FedState(RemovedPool(s.pool, id, stamp, out), s.peers - {id}, s.enabled))
    {
    }
    if RemovalAlwaysKept(s, id, reason, stamp, now) {
      forall out | IsUnion(marked, [], now, out) ensures HasTomb(out, id) {
        var s' := FedState(RemovedPool(s.pool, id, stamp, out), s.peers - {id}, s.enabled);
        assert Step(s, Remove(id, reason, stamp, now), s');
      }
    }
    if RemovalNeverKept(s, id, reason, stamp, now) {
      forall out | IsUnion(marked, [], now, out) ensures !HasTomb(out, id) {
        var s' := FedState(RemovedPool(s.pool, id, stamp, out), s.peers - {id}, s.enabled);
        assert Step(s, Remove(id, reason, stamp, now), s');
      }
    }
  }

  lemma SomeUnionExists(a: seq<Tombstone>, b: seq<Tombstone>, now: int) returns (out: seq<Tombstone>)
    ensures IsUnion(a, b, now, out)
  {
    var m := Newest(a + b);
    var kept := Kept(m, now);
    var chosen := TopOf(m, kept, if |kept| <= MAX_TOMBSTONES then |kept| else MAX_TOMBSTONES);
    out := ChoiceIsUnion(a, b, now, chosen);
  }

  lemma ExpiredNeverKept(a: seq<Tombstone>, b: seq<Tombstone>, now: int, x: string)
    requires x !in Kept(Newest(a + b), now)
    ensures NeverKept(a, b, now, x) && !AlwaysKept(a, b, now, x)
  {
    var out := SomeUnionExists(a, b, now);
    assert !HasTomb(out, x);
  }

  /** Some other contender's text is strictly below the removal's. */
  ghost predicate OutrankedBy(ts: seq<Tombstone>, id: string, stamp: Stamp, now: int)
  {
    exists k :: 0 <= k < |ts| && Contends(ts[k], id, now) && Less(ts[k].removedAt.text, stamp.text)
  }

  /** Every other contender's text is strictly above the removal's. */
  ghost predicate StrictlyLeast(ts: seq<Tombstone>, id: string, stamp: Stamp, now: int)
  {
    forall k :: 0 <= k < |ts| && Contends(ts[k], id, now) ==> Less(stamp.text, ts[k].removedAt.text)
  }

  lemma RivalsOfRemoval(ts: seq<Tombstone>, id: string, stamp: Stamp, reason: string, now: int)
    requires DistinctTombs(ts) && |ts| <= MAX_TOMBSTONES && id != "" && !Expired(Tombstone(id, stamp, reason), now)
    ensures
      var m := Newest(MarkRemoved(ts, id, stamp, reason) + []);
      var kept := Kept(m, now);
      && id in kept
      && (|Rivals(m, kept, id)| < MAX_TOMBSTONES <==>
           |Contenders(ts, id, now)| < MAX_TOMBSTONES || OutrankedBy(ts, id, stamp, now))
      && (|Later(m, kept, id)| >= MAX_TOMBSTONES <==>
           |Contenders(ts, id, now)| == MAX_TOMBSTONES && StrictlyLeast(ts, id, stamp, now))
  {
    var m := Newest(MarkRemoved(ts, id, stamp, reason) + []);
    var kept := Kept(m, now);
    var others := Contenders(ts, id, now);
    RemovalContenders(ts, id, stamp, reason, now);
    ContendersFit(ts, id, now);
    EarlierOrder(m, id, id, id);
    var rivals, later := Rivals(m, kept, id), Later(m, kept, id);
    Fewer(rivals, others);
    Fewer(later, others);
    if OutrankedBy(ts, id, stamp, now) {
      var k :| 0 <= k < |ts| && Contends(ts[k], id, now) && Less(ts[k].removedAt.text, stamp.text);
      Fewer(rivals + {ts[k].nodeId}, others);
    } else {
      assert rivals == others;
    }
    if StrictlyLeast(ts, id, stamp, now) {
      assert later == others;
    } else {
      var k :| 0 <= k < |ts| && Contends(ts[k], id, now) && !Less(stamp.text, ts[k].removedAt.text);
      Fewer(later + {ts[k].nodeId}, others);
    }
  }

  /**
   When a removal leaves its tombstone: in every outcome exactly when it is not
   expired and either fewer than 256 unexpired markers of other nodes are there or
   one of them has a text strictly below its own.
   */
  lemma RemovalKeptIff(s: FedState, id: string, reason: string, stamp: Stamp, now: int)
    requires Inv(s) && id != ""
    ensures RemovalAlwaysKept(s, id, reason, stamp, now) <==>
      && !Expired(Tombstone(id, stamp, reason), now)
      && (|Contenders(s.pool.tombstones, id, now)| < MAX_TOMBSTONES || OutrankedBy(s.pool.tombstones, id, stamp, now))
  {
    RemovalRanks(s, id, reason, stamp, now);
  }

  /**
   It leaves none in any outcome exactly when it is expired or 256 unexpired markers
   of other nodes all have a text strictly above its own.
   */
  lemma RemovalEvictedIff(s: FedState, id: string, reason: string, stamp: Stamp, now: int)
    requires Inv(s) && id != ""
    ensures RemovalNeverKept(s, id, reason, stamp, now) <==>
      || Expired(Tombstone(id, stamp, reason), now)
      || (|Contenders(s.pool.tombstones, id, now)| == MAX_TOMBSTONES
           && StrictlyLeast(s.pool.tombstones, id, stamp, now))
  {
    RemovalRanks(s, id, reason, stamp, now);
  }

  lemma RemovalRanks(s: FedState, id: string, reason: string, stamp: Stamp, now: int)
    requires Inv(s) && id != ""
    ensures
      var ts := s.pool.tombstones;
      var stale := Expired(Tombstone(id, stamp, reason), now);
      && (RemovalAlwaysKept(s, id, reason, stamp, now) <==>
           !stale && (|Contenders(ts, id, now)| < MAX_TOMBSTONES || OutrankedBy(ts, id, stamp, now)))
      && (RemovalNeverKept(s, id, reason, stamp, now) <==>
           stale || (|Contenders(ts, id, now)| == MAX_TOMBSTONES && StrictlyLeast(ts, id, stamp, now)))
  {
    var ts := s.pool.tombstones;
    var marked := MarkRemoved(ts, id, stamp, reason);
    RemovalIsUnion(s, id, reason, stamp, now);
    RemovalContenders(ts, id, stamp, reason, now);
    if Expired(Tombstone(id, stamp, reason), now) {
      ExpiredNeverKept(marked, [], now, id);
    } else {
      RivalsOfRemoval(ts, id, stamp, reason, now);
      UnionRankLaw(marked, [], now, id);
    }
  }

  // ------------------------------------------------------------------ merges

  /** The tombstone of id, if there is one. */
  function TombAt(ts: seq<Tombstone>, id: string): Option<Tombstone>
  {
    var k := TombIndex(ts, id);
    if k < |ts| then Some(ts[k]) else None
  }

  /** Some record of id is strictly newer than the marker, so it clears it. */
  ghost predicate ClearedBy(ns: seq<NodeInfo>, t: Tombstone)
  {
    exists k :: 0 <= k < |ns| && ns[k].nodeId == t.nodeId && !Suppresses(ns[k].lastSeen, t.removedAt)
  }

  lemma DropTombAt(ts: seq<Tombstone>, k: nat, id: string)
    requires DistinctTombs(ts) && k < |ts|
    ensures
      var r := ts[..k] + ts[k + 1..];
      DistinctTombs(r) && TombAt(r, id) == if id == ts[k].nodeId then None else TombAt(ts, id)
  {
    var r := ts[..k] + ts[k + 1..];
    assert forall i :: 0 <= i < |r| ==> r[i] == ts[if i < k then i else i + 1];
    var j := TombIndex(ts, id);
    if j < |ts| && j != k {
      assert r[if j < k then j else j - 1] == ts[j];
    }
  }

  lemma GateTombAt(ts: seq<Tombstone>, node: string, seen: Stamp, id: string)
    requires DistinctTombs(ts)
    ensures
      match Gate(ts, node, seen)
      case Suppressed => node == id ==> TombAt(ts, id).Some? && Suppresses(seen, TombAt(ts, id).value.removedAt)
      case Passed(r) =>
        && DistinctTombs(r)
        && TombAt(r, id) ==
             (if node == id && TombAt(ts, id).Some? && !Suppresses(seen, TombAt(ts, id).value.removedAt) then None
              else TombAt(ts, id))
  {
    var k := TombIndex(ts, node);
    if k < |ts| { DropTombAt(ts, k, id); }
  }

  /** One more record, at the end. */
  lemma ClearedMore(ns: seq<NodeInfo>, n: NodeInfo, t: Tombstone)
    ensures ClearedBy(ns + [n], t) <==>
      ClearedBy(ns, t) || (n.nodeId == t.nodeId && !Suppresses(n.lastSeen, t.removedAt))
  {
    var more := ns + [n];
    if ClearedBy(ns, t) {
      var k :| 0 <= k < |ns| && ns[k].nodeId == t.nodeId && !Suppresses(ns[k].lastSeen, t.removedAt);
      assert more[k] == ns[k];
    }
    assert more[|ns|] == n;
  }

  /** What a fold over records leaves of one tombstone. */
  ghost predicate Remains(before: seq<Tombstone>, after: seq<Tombstone>, ns: seq<NodeInfo>, id: string)
  {
    && DistinctTombs(after)
    && TombAt(after, id) ==
         if TombAt(before, id).Some? && ClearedBy(ns, TombAt(before, id).value) then None else TombAt(before, id)
  }

  lemma GateRemains(before: seq<Tombstone>, ts: seq<Tombstone>, ns: seq<NodeInfo>, n: NodeInfo, id: string)
    requires DistinctTombs(ts) && Remains(before, ts, ns, id) && id != ""
    ensures n.nodeId != "" ==>
      match Gate(ts, n.nodeId, n.lastSeen)
      case Suppressed => Remains(before, ts, ns + [n], id)
      case Passed(r) => Remains(before, r, ns + [n], id)
    ensures n.nodeId == "" ==> Remains(before, ts, ns + [n], id)
  {
    GateTombAt(ts, n.nodeId, n.lastSeen, id);
    if TombAt(before, id).Some? { ClearedMore(ns, n, TombAt(before, id).value); }
  }

  lemma {:induction false} IncomingRemains(tombs: seq<Tombstone>, ns: seq<NodeInfo>, id: string)
    requires DistinctTombs(tombs) && id != ""
    ensures Remains(tombs, FoldIncoming(tombs, ns).tombstones, ns, id)
  {
    if ns != [] {
      var n := |ns| - 1;
      IncomingRemains(tombs, ns[..n], id);
      GateRemains(tombs, FoldIncoming(tombs, ns[..n]).tombstones, ns[..n], ns[n], id);
      assert ns[..n] + [ns[n]] == ns;
    }
  }

  lemma {:induction false} LocalRemains(start: Merging, ns: seq<NodeInfo>, id: string)
    requires DistinctTombs(start.tombstones) && id != ""
    ensures Remains(start.tombstones, FoldLocal(start, ns).tombstones, ns, id)
  {
    if ns != [] {
      var n := |ns| - 1;
      LocalRemains(start, ns[..n], id);
      GateRemains(start.tombstones, FoldLocal(start, ns[..n]).tombstones, ns[..n], ns[n], id);
      assert ns[..n] + [ns[n]] == ns;
    }
  }

  /** Whether some record on either side is newer than the newest marker of x. */
  ghost predicate MergeClears(local: TrustPool, incoming: TrustPool, x: string)
    requires x in Newest(local.tombstones + incoming.tombstones)
  {
    var t := Newest(local.tombstones + incoming.tombstones)[x];
    ClearedBy(Dedupe(incoming.nodes), t) || ClearedBy(local.nodes, t)
  }

  lemma MergeTombIff(local: TrustPool, incoming: TrustPool, now: int, tombs: seq<Tombstone>, x: string)
    requires IsUnion(local.tombstones, incoming.tombstones, now, tombs) && x != ""
    ensures HasTomb(tombs, x) ==> x in Newest(local.tombstones + incoming.tombstones)
    ensures HasTomb(MergeWith(local, incoming, tombs).tombstones, x) <==>
      HasTomb(tombs, x) && !MergeClears(local, incoming, x)
  {
    var m := Newest(local.tombstones + incoming.tombstones);
    var start := FoldIncoming(tombs, Dedupe(incoming.nodes));
    IncomingRemains(tombs, Dedupe(incoming.nodes), x);
    LocalRemains(start, local.nodes, x);
    HasTombAt(tombs, x);
    HasTombAt(FoldLocal(start, local.nodes).tombstones, x);
    if HasTomb(tombs, x) {
      NewestEntry(local.tombstones + incoming.tombstones, x);
      assert TombAt(tombs, x).value == m[x] && m[x].nodeId == x;
    }
  }

  lemma HasTombAt(ts: seq<Tombstone>, id: string)
    ensures HasTomb(ts, id) <==> TombAt(ts, id).Some?
  {
    var k := TombIndex(ts, id);
    if k < |ts| { assert ts[k].nodeId == id; }
  }

  ghost predicate UpdateAlwaysKeeps(s: FedState, offered: TrustPool, now: int, x: string)
  {
    forall s' :: Step(s, Update(offered, now), s') ==> HasTomb(s'.pool.tombstones, x)
  }

  ghost predicate UpdateNeverKeeps(s: FedState, offered: TrustPool, now: int, x: string)
  {
    forall s' :: Step(s, Update(offered, now), s') ==> !HasTomb(s'.pool.tombstones, x)
  }

  lemma UpdateIsUnion(s: FedState, offered: TrustPool, now: int, x: string)
    requires offered.version > s.pool.version && x in Newest(s.pool.tombstones + offered.tombstones) && x != ""
    ensures
      var (a, b) := (s.pool.tombstones, offered.tombstones);
      && (UpdateAlwaysKeeps(s, offered, now, x) <==> AlwaysKept(a, b, now, x) && !MergeClears(s.pool, offered, x))
      && (UpdateNeverKeeps(s, offered, now, x) <==> NeverKept(a, b, now, x) || MergeClears(s.pool, offered, x))
  {
    var a, b := s.pool.tombstones, offered.tombstones;
    forall tombs | IsUnion(a, b, now, tombs)
      ensures Step(s, Update(offered, now), s.(pool := MergeWith(s.pool, offered, tombs)))
      ensures HasTomb(s.(pool := MergeWith(s.pool, offered, tombs)).pool.tombstones, x) <==>
        HasTomb(tombs, x) && !MergeClears(s.pool, offered, x)
    {
      MergeTombIff(s.pool, offered, now, tombs, x);
    }
    forall s' | Step(s, Update(offered, now), s')
      ensures exists tombs :: IsUnion(a, b, now, tombs) && s' == s.(pool := MergeWith(s.pool, offered, tombs))
    {
      var tombs :| IsUnion(a, b, now, tombs) && s'.pool == MergeWith(s.pool, offered, tombs);
    }
    var some := SomeUnionExists(a, b, now);
    assert Step(s, Update(offered, now), s.(pool := MergeWith(s.pool, offered, some)));
  }

  /**
   When a merge keeps the tombstone of x: in every outcome exactly when it is
   unexpired, fewer than 256 other contenders have a text not below its own, and no
   record on either side is newer; in no outcome exactly when it is expired, or 256
   contenders have a text strictly above, or such a record exists.
   */
  lemma UpdateRankLaw(s: FedState, offered: TrustPool, now: int, x: string)
    requires offered.version > s.pool.version && x in Newest(s.pool.tombstones + offered.tombstones) && x != ""
    ensures
      var m := Newest(s.pool.tombstones + offered.tombstones);
      var kept := Kept(m, now);
      && (UpdateAlwaysKeeps(s, offered, now, x) <==>
           x in kept && |Rivals(m, kept, x)| < MAX_TOMBSTONES && !MergeClears(s.pool, offered, x))
      && (UpdateNeverKeeps(s, offered, now, x) <==>
           x !in kept || |Later(m, kept, x)| >= MAX_TOMBSTONES || MergeClears(s.pool, offered, x))
  {
    UpdateIsUnion(s, offered, now, x);
    if x in Kept(Newest(s.pool.tombstones + offered.tombstones), now) {
      UnionRankLaw(s.pool.tombstones, offered.tombstones, now, x);
    } else {
      ExpiredNeverKept(s.pool.tombstones, offered.tombstones, now, x);
    }
  }
}
