// The Kademlia routing table: 256 buckets of at most 20 entries, exact
// nearest-k search over all of them, and the local record store.

module Kademlia {
  import opened Wrappers
  import opened XorMetric
  import Sorting

  const K: nat := 20
  const BUCKETS: nat := 256
  const RECORD_TTL: int := 48 * 3600 * 1_000_000_000

  datatype Entry = Entry(id: Id, addresses: seq<string>, lastSeen: int)

  datatype Record = Record(key: string, value: seq<bv8>, publisher: Id, expiresAt: int)

  type Table = seq<seq<Entry>>

  // ------------------------------------------------------------- specification

  function BucketOf(self: Id, id: Id): (b: nat)
    ensures b < BUCKETS
  {
    BucketIndex(Xor(self, id))
  }

  function EntryIndex(es: seq<Entry>, id: Id): (k: nat)
    ensures k <= |es|
    ensures k < |es| ==> es[k].id == id
    ensures forall j :: 0 <= j < k ==> es[j].id != id
  {
    if es == [] || es[0].id == id then 0 else 1 + EntryIndex(es[1..], id)
  }

  /** A known entry is replaced and stamped; a newcomer is appended while there is room. */
  function Insert(es: seq<Entry>, e: Entry, now: int): seq<Entry>
  {
    var k := EntryIndex(es, e.id);
    if k < |es| then es[k := e.(lastSeen := now)]
    else if |es| < K then es + [e.(lastSeen := now)]
    else es
  }

  function Add(self: Id, t: Table, e: Entry, now: int): (r: Table)
    requires |t| == BUCKETS
    ensures |r| == BUCKETS
  {
    var b := BucketOf(self, e.id);
    t[b := Insert(t[b], e, now)]
  }

  function Drop(es: seq<Entry>, id: Id): seq<Entry>
  {
    var k := EntryIndex(es, id);
    if k < |es| then es[..k] + es[k + 1..] else es
  }

  function Remove(self: Id, t: Table, id: Id): (r: Table)
    requires |t| == BUCKETS
    ensures |r| == BUCKETS
  {
    var b := BucketOf(self, id);
    t[b := Drop(t[b], id)]
  }

  ghost predicate DistinctIds(es: seq<Entry>)
  {
    forall i, j :: 0 <= i < j < |es| ==> es[i].id != es[j].id
  }

  /** Every entry sits in the bucket its distance dictates, ids do not repeat, no bucket overflows. */
  ghost predicate TableInv(self: Id, t: Table)
  {
    && |t| == BUCKETS
    && (forall b :: 0 <= b < BUCKETS ==> DistinctIds(t[b]) && |t[b]| <= K)
    && (forall b, i :: 0 <= b < BUCKETS && 0 <= i < |t[b]| ==> BucketOf(self, t[b][i].id) == b)
  }

  function NoEntries(): Table { seq(BUCKETS, _ => []) }

  lemma EmptyTable(self: Id)
    ensures TableInv(self, NoEntries())
  {
  }

  /** A bucket on its own: distinct ids, bounded size, and every entry at home. */
  ghost predicate BucketInv(self: Id, es: seq<Entry>, b: nat)
  {
    DistinctIds(es) && |es| <= K && forall i :: 0 <= i < |es| ==> BucketOf(self, es[i].id) == b
  }

  /** An insertion keeps every id in its place; at most the new one follows at the end. */
  lemma InsertedIds(es: seq<Entry>, e: Entry, now: int)
    ensures var r := Insert(es, e, now);
            && |es| <= |r| <= |es| + 1
            && (forall i :: 0 <= i < |es| ==> r[i].id == es[i].id)
            && (|r| > |es| ==> |es| < K && r[|es|].id == e.id && forall i :: 0 <= i < |es| ==> es[i].id != e.id)
  {
  }

  lemma InsertKeepsBucket(self: Id, es: seq<Entry>, e: Entry, now: int)
    requires BucketInv(self, es, BucketOf(self, e.id))
    ensures BucketInv(self, Insert(es, e, now), BucketOf(self, e.id))
  {
    var r := Insert(es, e, now);
    InsertedIds(es, e, now);
    forall i, j | 0 <= i < j < |r| ensures r[i].id != r[j].id {
      if j < |es| { assert es[i].id != es[j].id; }
    }
    forall i | 0 <= i < |r| ensures BucketOf(self, r[i].id) == BucketOf(self, e.id) {
      if i < |es| { assert r[i].id == es[i].id; }
    }
  }

  lemma DropKeepsIds(es: seq<Entry>, id: Id)
    requires DistinctIds(es)
    ensures DistinctIds(Drop(es, id)) && |Drop(es, id)| <= |es|
    ensures forall i :: 0 <= i < |Drop(es, id)| ==> Drop(es, id)[i] in es
  {
    var k, r := EntryIndex(es, id), Drop(es, id);
    if k < |es| {
      assert forall i :: 0 <= i < |r| ==> r[i] == es[if i < k then i else i + 1];
    }
  }

  lemma DropKeepsBucket(self: Id, es: seq<Entry>, id: Id, b: nat)
    requires BucketInv(self, es, b)
    ensures BucketInv(self, Drop(es, id), b)
  {
    DropKeepsIds(es, id);
    var r := Drop(es, id);
    forall i | 0 <= i < |r| ensures BucketOf(self, r[i].id) == b {
      var l :| 0 <= l < |es| && es[l] == r[i];
    }
  }

  lemma ReplaceBucket(self: Id, t: Table, b: nat, es: seq<Entry>)
    requires TableInv(self, t) && b < BUCKETS && BucketInv(self, es, b)
    ensures TableInv(self, t[b := es])
  {
    assert forall c :: 0 <= c < BUCKETS && c != b ==> t[b := es][c] == t[c];
  }

  lemma AddKeepsInv(self: Id, t: Table, e: Entry, now: int)
    requires TableInv(self, t)
    ensures TableInv(self, Add(self, t, e, now))
  {
    var b := BucketOf(self, e.id);
    InsertKeepsBucket(self, t[b], e, now);
    ReplaceBucket(self, t, b, Insert(t[b], e, now));
  }

  lemma RemoveKeepsInv(self: Id, t: Table, id: Id)
    requires TableInv(self, t)
    ensures TableInv(self, Remove(self, t, id))
  {
    var b := BucketOf(self, id);
    DropKeepsBucket(self, t[b], id, b);
    ReplaceBucket(self, t, b, Drop(t[b], id));
  }

  ghost predicate InBucket(es: seq<Entry>, id: Id)
  {
    exists i :: 0 <= i < |es| && es[i].id == id
  }

  ghost predicate InTable(t: Table, id: Id)
  {
    exists b :: 0 <= b < |t| && InBucket(t[b], id)
  }

  /** Only the bucket an id belongs to can hold it. */
  lemma HomeBucket(self: Id, t: Table, id: Id)
    requires TableInv(self, t)
    ensures InTable(t, id) <==> InBucket(t[BucketOf(self, id)], id)
  {
    if InTable(t, id) {
      var b :| 0 <= b < |t| && InBucket(t[b], id);
      var i :| 0 <= i < |t[b]| && t[b][i].id == id;
    }
  }

  lemma InsertMembers(es: seq<Entry>, e: Entry, now: int, id: Id)
    ensures InBucket(Insert(es, e, now), id) <==> InBucket(es, id) || (id == e.id && |es| < K)
  {
    var r, k := Insert(es, e, now), EntryIndex(es, e.id);
    if InBucket(es, id) {
      var i :| 0 <= i < |es| && es[i].id == id;
      assert r[i].id == id;
    }
    if id == e.id && |es| < K { assert r[k].id == id; }
    if InBucket(r, id) {
      var i :| 0 <= i < |r| && r[i].id == id;
      assert i < |es| ==> es[i].id == id;
    }
  }

  /** An insertion admits the newcomer exactly when it was known or its bucket had room, and loses nobody. */
  lemma AddMembers(self: Id, t: Table, e: Entry, now: int, id: Id)
    requires TableInv(self, t)
    ensures InTable(Add(self, t, e, now), id) <==>
              InTable(t, id) || (id == e.id && |t[BucketOf(self, id)]| < K)
  {
    AddKeepsInv(self, t, e, now);
    HomeBucket(self, t, id);
    HomeBucket(self, Add(self, t, e, now), id);
    InsertMembers(t[BucketOf(self, e.id)], e, now, id);
  }

  lemma DropMembers(es: seq<Entry>, id: Id, other: Id)
    requires DistinctIds(es)
    ensures InBucket(Drop(es, id), other) <==> InBucket(es, other) && other != id
  {
    var r, k := Drop(es, id), EntryIndex(es, id);
    if InBucket(es, other) && other != id {
      var i :| 0 <= i < |es| && es[i].id == other;
      assert r[if i < k then i else i - 1].id == other;
    }
    if InBucket(r, other) {
      var i :| 0 <= i < |r| && r[i].id == other;
      assert r[i] == es[if i < k then i else i + 1];
    }
  }

  /** A removal takes out exactly the one id. */
  lemma RemoveMembers(self: Id, t: Table, id: Id, other: Id)
    requires TableInv(self, t)
    ensures InTable(Remove(self, t, id), other) <==> InTable(t, other) && other != id
  {
    RemoveKeepsInv(self, t, id);
    HomeBucket(self, t, other);
    HomeBucket(self, Remove(self, t, id), other);
    DropMembers(t[BucketOf(self, id)], id, other);
  }

  // ------------------------------------------------------------- all entries

  function Flatten(t: Table): seq<Entry>
  {
    if t == [] then [] else Flatten(t[..|t| - 1]) + t[|t| - 1]
  }

  ghost predicate Holds(t: Table, e: Entry)
  {
    exists b :: 0 <= b < |t| && e in t[b]
  }

  lemma {:induction false} FlattenMembers(t: Table, e: Entry)
    ensures e in Flatten(t) <==> Holds(t, e)
  {
    if t != [] {
      var front := t[..|t| - 1];
      FlattenMembers(front, e);
      if e in Flatten(front) {
        var b :| 0 <= b < |front| && e in front[b];
        assert e in t[b];
      }
      if Holds(t, e) {
        var b :| 0 <= b < |t| && e in t[b];
        assert b < |front| ==> e in front[b];
      }
    }
  }

  lemma {:induction false} FlattenDistinct(self: Id, t: Table)
    requires forall b :: 0 <= b < |t| ==> DistinctIds(t[b])
    requires forall b, i :: 0 <= b < |t| && 0 <= i < |t[b]| ==> BucketOf(self, t[b][i].id) == b
    ensures DistinctIds(Flatten(t))
  {
    if t != [] {
      var front, last := t[..|t| - 1], t[|t| - 1];
      FlattenDistinct(self, front);
      var a := Flatten(front);
      forall i, j | 0 <= i < |a| && 0 <= j < |last| ensures a[i].id != last[j].id {
        FlattenMembers(front, a[i]);
        var b :| 0 <= b < |front| && a[i] in front[b];
        var k :| 0 <= k < |front[b]| && front[b][k] == a[i];
        assert BucketOf(self, t[b][k].id) == b && BucketOf(self, t[|t| - 1][j].id) == |t| - 1;
      }
    }
  }

  // --------------------------------------------------------------- nearest k

  function Far(target: Id, e: Entry): nat { Distance(target, e.id) }

  function Min(a: nat, b: nat): nat { if a < b then a else b }

  /** out lists the count nearest entries of all, nearest first; all others are strictly farther. */
  ghost predicate IsClosest(all: set<Entry>, target: Id, count: nat, out: seq<Entry>)
  {
    && |out| == Min(count, |all|)
    && (forall i, j :: 0 <= i < j < |out| ==> Far(target, out[i]) < Far(target, out[j]))
    && (forall i :: 0 <= i < |out| ==> out[i] in all)
    && (forall e, i :: e in all && e !in out && 0 <= i < |out| ==> Far(target, out[i]) < Far(target, e))
  }

  /** The nearest-k list of a set of entries is unique. */
  lemma {:induction false} ClosestUnique(all: set<Entry>, target: Id, count: nat, a: seq<Entry>, b: seq<Entry>)
    requires IsClosest(all, target, count, a) && IsClosest(all, target, count, b)
    ensures a == b
  {
    if a != [] {
      NearestFirst(all, target, count, a, b[0]);
      NearestFirst(all, target, count, b, a[0]);
      assert a[0] == b[0] by {
        if a[0] != b[0] { assert false; }
      }
      ClosestTail(all, target, count, a);
      ClosestTail(all, target, count, b);
      ClosestUnique(all - {a[0]}, target, count - 1, a[1..], b[1..]);
      assert a == [a[0]] + a[1..] && b == [b[0]] + b[1..];
    }
  }

  lemma NearestFirst(all: set<Entry>, target: Id, count: nat, out: seq<Entry>, e: Entry)
    requires IsClosest(all, target, count, out) && out != [] && e in all
    ensures out[0] == e || Far(target, out[0]) < Far(target, e)
  {
    if e in out {
      var i :| 0 <= i < |out| && out[i] == e;
    }
  }

  lemma TailMembers(out: seq<Entry>, e: Entry)
    requires out != [] && e != out[0]
    ensures e in out[1..] <==> e in out
  {
    assert out == [out[0]] + out[1..];
  }

  lemma TailIsNearer(all: set<Entry>, target: Id, count: nat, out: seq<Entry>, e: Entry, i: nat)
    requires IsClosest(all, target, count, out) && out != []
    requires e in all && e != out[0] && e !in out[1..] && i + 1 < |out|
    ensures Far(target, out[i + 1]) < Far(target, e)
  {
    TailMembers(out, e);
  }

  lemma ClosestTail(all: set<Entry>, target: Id, count: nat, out: seq<Entry>)
    requires IsClosest(all, target, count, out) && out != []
    ensures IsClosest(all - {out[0]}, target, count - 1, out[1..])
  {
    var rest := out[1..];
    var others := all - {out[0]};
    assert |others| == |all| - 1;
    forall i | 0 <= i < |rest| ensures rest[i] in others {
      assert rest[i] == out[i + 1] && Far(target, out[0]) < Far(target, out[i + 1]);
    }
    forall e, i | e in others && e !in rest && 0 <= i < |rest| ensures Far(target, rest[i]) < Far(target, e) {
      TailIsNearer(all, target, count, out, e, i);
    }
  }

  lemma HeadIsNearer(all: set<Entry>, target: Id, more: nat, out: seq<Entry>, n: nat, e: Entry, i: nat)
    requires IsClosest(all, target, more, out) && n <= |out| && i < n
    requires e in all && e !in out[..n]
    ensures Far(target, out[i]) < Far(target, e)
  {
    assert forall j :: 0 <= j < n ==> out[j] in out[..n] by {
      assert forall j :: 0 <= j < n ==> out[..n][j] == out[j];
    }
    if e in out {
      var j :| 0 <= j < |out| && out[j] == e;
    }
  }

  /** A shorter list is a prefix of a longer one. */
  lemma ClosestPrefix(all: set<Entry>, target: Id, count: nat, more: nat, out: seq<Entry>)
    requires IsClosest(all, target, more, out) && count <= more
    ensures IsClosest(all, target, count, out[..Min(count, |out|)])
  {
    var n := Min(count, |out|);
    var head := out[..n];
    forall e, i | e in all && e !in head && 0 <= i < n ensures Far(target, head[i]) < Far(target, e) {
      HeadIsNearer(all, target, more, out, n, e, i);
    }
  }

  function Entries(t: Table): set<Entry>
  {
    set e | e in Flatten(t)
  }

  /** The layout of the buckets does not matter: equal sets of entries give equal answers. */
  lemma LayoutIrrelevant(t: Table, u: Table, target: Id, count: nat, a: seq<Entry>, b: seq<Entry>)
    requires forall e :: Holds(t, e) <==> Holds(u, e)
    requires IsClosest(Entries(t), target, count, a) && IsClosest(Entries(u), target, count, b)
    ensures a == b
  {
    forall e ensures e in Flatten(t) <==> e in Flatten(u) {
      FlattenMembers(t, e);
      FlattenMembers(u, e);
    }
    assert Entries(t) == Entries(u);
    ClosestUnique(Entries(t), target, count, a, b);
  }

  lemma {:induction false} DistinctSize(es: seq<Entry>)
    requires DistinctIds(es)
    ensures |(set e | e in es)| == |es|
  {
    if es == [] {
      assert (set e | e in es) == {};
    } else {
      var front, last := es[..|es| - 1], es[|es| - 1];
      DistinctSize(front);
      assert es == front + [last];
      assert (set e | e in es) == (set e | e in front) + {last};
      assert forall i :: 0 <= i < |front| ==> front[i] != last;
    }
  }

  // -------------------------------------------------------------------- class

  class DHT {
    const self: Id
    const buckets: array<seq<Entry>>
    var records: map<string, Record>

    ghost predicate Valid()
      reads this, buckets
    {
      TableInv(self, buckets[..])
    }

    constructor (selfId: Id)
      ensures Valid() && self == selfId && buckets[..] == NoEntries() && records == map[] && fresh(buckets)
    {
      self := selfId;
      buckets := new seq<Entry>[BUCKETS](_ => []);
      records := map[];
      new;
      assert buckets[..] == NoEntries();
      EmptyTable(selfId);
    }

    method FindEntry(b: nat, id: Id) returns (k: nat)
      requires Valid() && b < BUCKETS
      ensures k == EntryIndex(buckets[b], id)
    {
      k := 0;
      while k < |buckets[b]| && buckets[b][k].id != id
        invariant 0 <= k <= |buckets[b]|
        invariant forall j :: 0 <= j < k ==> buckets[b][j].id != id
      {
        k := k + 1;
      }
    }

    method AddNode(entry: Entry, now: int)
      requires Valid()
      modifies buckets
      ensures Valid() && buckets[..] == Add(self, old(buckets[..]), entry, now)
    {
      AddKeepsInv(self, buckets[..], entry, now);
      var dist := XORDistance(self, entry.id);
      var idx := BucketIndexLoop(dist);
      var k := FindEntry(idx, entry.id);
      if k < |buckets[idx]| {
        buckets[idx] := buckets[idx][k := entry.(lastSeen := now)];
      } else if |buckets[idx]| < K {
        buckets[idx] := buckets[idx] + [entry.(lastSeen := now)];
      }
      assert buckets[..] == Add(self, old(buckets[..]), entry, now);
    }

    method RemoveNode(id: Id) returns (present: bool)
      requires Valid()
      modifies buckets
      ensures Valid() && buckets[..] == Remove(self, old(buckets[..]), id)
      ensures present <==> InTable(old(buckets[..]), id)
    {
      RemoveKeepsInv(self, buckets[..], id);
      var dist := XORDistance(self, id);
      var idx := BucketIndexLoop(dist);
      var k := FindEntry(idx, id);
      present := k < |buckets[idx]|;
      IndexInBucket(buckets[idx], id);
      HomeBucket(self, buckets[..], id);
      if present {
        buckets[idx] := buckets[idx][..k] + buckets[idx][k + 1..];
      }
      assert buckets[..] == Remove(self, old(buckets[..]), id);
    }

    method AllEntries() returns (all: seq<Entry>)
      requires Valid()
      ensures all == Flatten(buckets[..])
    {
      all := [];
      for i := 0 to BUCKETS
        invariant all == Flatten(buckets[..i])
      {
        assert buckets[..i + 1][..i] == buckets[..i];
        all := all + buckets[i];
      }
      assert buckets[..BUCKETS] == buckets[..];
    }

    method FindClosest(target: Id, count: nat) returns (out: seq<Entry>)
      requires Valid()
      ensures IsClosest(Entries(buckets[..]), target, count, out)
    {
      var all := AllEntries();
      var nearer := (x: Entry, y: Entry) => BytesLess(Xor(target, x.id), Xor(target, y.id));
      NearerIsDistance(target, nearer);
      var sorted := Sorting.SortBy(all, nearer);
      out := sorted[..Min(count, |sorted|)];
      FlattenDistinct(self, buckets[..]);
      SortedIsClosest(all, sorted, target, nearer, count);
    }

    method StaleEntries(maxAge: int, now: int) returns (out: seq<Entry>)
      requires Valid()
      ensures forall e :: e in out <==> e in Entries(buckets[..]) && e.lastSeen < now - maxAge
      ensures forall i, j :: 0 <= i < j < |out| ==> out[i].lastSeen <= out[j].lastSeen
      ensures DistinctIds(out)
    {
      var all := AllEntries();
      FlattenDistinct(self, buckets[..]);
      var stale: seq<Entry> := [];
      for i := 0 to |all|
        invariant forall e :: e in stale <==> e in all[..i] && e.lastSeen < now - maxAge
        invariant DistinctIds(stale)
      {
        assert all[..i + 1] == all[..i] + [all[i]];
        if all[i].lastSeen < now - maxAge {
          forall k | 0 <= k < |stale| ensures stale[k].id != all[i].id { assert stale[k] in all[..i]; }
          stale := stale + [all[i]];
        }
      }
      assert all[..|all|] == all;
      var older := (x: Entry, y: Entry) => x.lastSeen < y.lastSeen;
      out := Sorting.SortBy(stale, older);
      Sorting.SameElements(out, stale);
      PermutedDistinctIds(stale, out);
      forall i, j | 0 <= i < j < |out| ensures out[i].lastSeen <= out[j].lastSeen {
        assert !older(out[j], out[i]);
      }
    }

    method Put(key: string, value: seq<bv8>, publisher: Id, now: int)
      modifies this`records
      ensures records == old(records)[key := Record(key, value, publisher, now + RECORD_TTL)]
    {
      records := records[key := Record(key, value, publisher, now + RECORD_TTL)];
    }

    method Get(key: string, now: int) returns (r: Option<Record>)
      ensures r.Some? <==> key in records && now <= records[key].expiresAt
      ensures r.Some? ==> r.value == records[key]
    {
      if key !in records || now > records[key].expiresAt {
        return None;
      }
      return Some(records[key]);
    }
  }

  lemma IndexInBucket(es: seq<Entry>, id: Id)
    ensures EntryIndex(es, id) < |es| <==> InBucket(es, id)
  {
    if InBucket(es, id) {
      var i :| 0 <= i < |es| && es[i].id == id;
      assert EntryIndex(es, id) <= i;
    }
  }

  lemma NearerIsDistance(target: Id, nearer: (Entry, Entry) -> bool)
    requires forall x, y :: nearer(x, y) == BytesLess(Xor(target, x.id), Xor(target, y.id))
    ensures forall x, y :: nearer(x, y) <==> Far(target, x) < Far(target, y)
    ensures Sorting.WeakOrder(nearer)
  {
    forall x, y ensures nearer(x, y) <==> Far(target, x) < Far(target, y) {
      BytesLessIsValue(Xor(target, x.id), Xor(target, y.id));
    }
  }

  /** Among distinct ids no two are equally far, so the order is strict. */
  lemma SortedIsStrict(sorted: seq<Entry>, target: Id, nearer: (Entry, Entry) -> bool)
    requires DistinctIds(sorted) && Sorting.SortedBy(sorted, nearer)
    requires forall x, y :: nearer(x, y) <==> Far(target, x) < Far(target, y)
    ensures forall i, j :: 0 <= i < j < |sorted| ==> Far(target, sorted[i]) < Far(target, sorted[j])
  {
    forall i, j | 0 <= i < j < |sorted| ensures Far(target, sorted[i]) < Far(target, sorted[j]) {
      assert !nearer(sorted[j], sorted[i]);
      if Far(target, sorted[i]) == Far(target, sorted[j]) {
        DistanceUnique(target, sorted[i].id, sorted[j].id);
      }
    }
  }

  lemma StrictIsClosest(all: set<Entry>, sorted: seq<Entry>, target: Id, count: nat)
    requires |all| == |sorted| && forall e :: e in all <==> e in sorted
    requires forall i, j :: 0 <= i < j < |sorted| ==> Far(target, sorted[i]) < Far(target, sorted[j])
    ensures IsClosest(all, target, count, sorted[..Min(count, |sorted|)])
  {
    assert IsClosest(all, target, |sorted|, sorted);
    if count <= |sorted| {
      ClosestPrefix(all, target, count, |sorted|, sorted);
    } else {
      assert sorted[..|sorted|] == sorted;
    }
  }

  lemma SortedIsClosest(all: seq<Entry>, sorted: seq<Entry>, target: Id, nearer: (Entry, Entry) -> bool, count: nat)
    requires DistinctIds(all) && multiset(sorted) == multiset(all) && Sorting.SortedBy(sorted, nearer)
    requires forall x, y :: nearer(x, y) <==> Far(target, x) < Far(target, y)
    ensures IsClosest((set e | e in all), target, count, sorted[..Min(count, |sorted|)])
  {
    Sorting.SameElements(sorted, all);
    DistinctSize(all);
    PermutedDistinctIds(all, sorted);
    SortedIsStrict(sorted, target, nearer);
    StrictIsClosest((set e | e in all), sorted, target, count);
  }

  lemma PermutedDistinctIds(a: seq<Entry>, b: seq<Entry>)
    requires DistinctIds(a) && multiset(a) == multiset(b)
    ensures DistinctIds(b)
  {
    Sorting.PermutedDistinctBy(a, b, (e: Entry) => e.id);
  }
}
