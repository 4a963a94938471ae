// Choosing gossip partners: seeds before regular nodes, each group in a
// shuffled order, never the node itself and never one without an address.

module PeerSelection {
  import opened Shuffle

  datatype Peer = Peer(nodeId: string, endpoint: string, addresses: seq<string>, seed: bool)

  predicate Reachable(p: Peer, self: string)
  {
    p.nodeId != self && (p.endpoint != "" || p.addresses != [])
  }

  /** The reachable peers of one group, in pool order. */
  function Group(active: seq<Peer>, self: string, seeds: bool): seq<Peer>
  {
    if active == [] then []
    else
      var p := active[|active| - 1];
      Group(active[..|active| - 1], self, seeds) + if Reachable(p, self) && p.seed == seeds then [p] else []
  }

  function Take(s: seq<Peer>, count: nat): (r: seq<Peer>)
    ensures |r| == if |s| <= count then |s| else count
  {
    if |s| <= count then s else s[..count]
  }

  method ShuffledCopy(s: seq<Peer>, js: seq<nat>) returns (r: seq<Peer>)
    requires IndexVector(|s|, js)
    ensures r == Shuffled(s, js)
  {
    var a := new Peer[|s|](i requires 0 <= i < |s| => s[i]);
    assert a[..] == s;
    CryptoShuffle(a, js);
    r := a[..];
  }

  /** Append from a group until the list is full. */
  method Fill(chosen: seq<Peer>, group: seq<Peer>, count: nat) returns (r: seq<Peer>)
    requires |chosen| <= count
    ensures r == chosen + Take(group, count - |chosen|) && |r| <= count
  {
    r := chosen;
    var i := 0;
    while i < |group| && |r| < count
      invariant i <= |group| && |r| <= count
      invariant r == chosen + group[..i]
    {
      r := r + [group[i]];
      i := i + 1;
    }
    assert i == |group| ==> group[..i] == group;
  }

  method Split(active: seq<Peer>, self: string) returns (seeds: seq<Peer>, regular: seq<Peer>)
    ensures seeds == Group(active, self, true) && regular == Group(active, self, false)
  {
    seeds, regular := [], [];
    for i := 0 to |active|
      invariant seeds == Group(active[..i], self, true) && regular == Group(active[..i], self, false)
    {
      assert active[..i + 1][..i] == active[..i];
      var p := active[i];
      if p.nodeId == self || (p.endpoint == "" && |p.addresses| == 0) { continue; }
      if p.seed { seeds := seeds + [p]; } else { regular := regular + [p]; }
    }
    assert active[..|active|] == active;
  }

  /** js and ks are the indices drawn for the two shuffles. */
  method SelectPeers(active: seq<Peer>, self: string, count: nat, js: seq<nat>, ks: seq<nat>) returns (r: seq<Peer>)
    requires IndexVector(|Group(active, self, true)|, js) && IndexVector(|Group(active, self, false)|, ks)
    ensures r == Selection(Shuffled(Group(active, self, true), js), Shuffled(Group(active, self, false), ks), count)
  {
    if active == [] { return []; }
    var seeds, regular := Split(active, self);
    seeds := ShuffledCopy(seeds, js);
    regular := ShuffledCopy(regular, ks);
    r := Choose(seeds, regular, count);
  }

  /** Seeds first, then regular nodes. */
  method Choose(seeds: seq<Peer>, regular: seq<Peer>, count: nat) returns (r: seq<Peer>)
    ensures r == Selection(seeds, regular, count)
  {
    r := Fill([], seeds, count);
    assert r == Take(seeds, count);
    r := Fill(r, regular, count);
  }

  /** The first count peers of the two lists end to end. */
  function Selection(seeds: seq<Peer>, regular: seq<Peer>, count: nat): seq<Peer>
  {
    Take(seeds, count) + Take(regular, count - |Take(seeds, count)|)
  }

  lemma SelectionIsPrefix(seeds: seq<Peer>, regular: seq<Peer>, count: nat)
    ensures Selection(seeds, regular, count) == Take(seeds + regular, count)
  {
  }

  lemma SnocCount(s: seq<Peer>, x: Peer, p: Peer)
    ensures multiset(s + [x])[p] == multiset(s)[p] + if x == p then 1 else 0
  {
  }

  /** What the last peer of the pool adds to a group. */
  lemma GroupLast(front: seq<Peer>, x: Peer, self: string, seeds: bool, p: Peer)
    ensures multiset(Group(front + [x], self, seeds))[p] ==
      multiset(Group(front, self, seeds))[p] + if x == p && Reachable(x, self) && x.seed == seeds then 1 else 0
  {
    assert (front + [x])[..|front|] == front;
    var g := Group(front, self, seeds);
    assert g + [] == g;
    SnocCount(g, x, p);
  }

  lemma {:induction false} GroupMembers(active: seq<Peer>, self: string, seeds: bool, p: Peer)
    ensures multiset(Group(active, self, seeds))[p] ==
      if Reachable(p, self) && p.seed == seeds then multiset(active)[p] else 0
  {
    if active != [] {
      var n := |active| - 1;
      assert active == active[..n] + [active[n]];
      GroupMembers(active[..n], self, seeds, p);
      GroupLast(active[..n], active[n], self, seeds, p);
      SnocCount(active[..n], active[n], p);
    }
  }

  lemma TakeFewer(s: seq<Peer>, count: nat)
    ensures multiset(Take(s, count)) <= multiset(s)
  {
    assert s == Take(s, count) + s[|Take(s, count)|..];
  }

  /**
   Whatever was drawn: only reachable peers of the pool, as often as they are in
   it; as many as asked for or all there are; and no regular node while a seed is
   left out.
   */
  lemma SelectionIsSound(active: seq<Peer>, self: string, count: nat, js: seq<nat>, ks: seq<nat>, p: Peer, q: Peer)
    requires IndexVector(|Group(active, self, true)|, js) && IndexVector(|Group(active, self, false)|, ks)
    ensures
      var seeds, regular := Group(active, self, true), Group(active, self, false);
      var r := Selection(Shuffled(seeds, js), Shuffled(regular, ks), count);
      && |r| == (if |seeds| + |regular| <= count then |seeds| + |regular| else count)
      && multiset(r)[p] <= (if Reachable(p, self) then multiset(active)[p] else 0)
      && (p in r && !p.seed && q.seed ==> multiset(r)[q] == if Reachable(q, self) then multiset(active)[q] else 0)
  {
    var seeds, regular := Group(active, self, true), Group(active, self, false);
    var a, b := Shuffled(seeds, js), Shuffled(regular, ks);
    ShuffledIsPermutation(seeds, js);
    ShuffledIsPermutation(regular, ks);
    SelectionCounts(a, b, count, p);
    GroupMembers(active, self, true, p);
    GroupMembers(active, self, false, p);
    GroupMembers(active, self, true, q);
    GroupMembers(active, self, false, q);
    RegularLast(a, b, count, p, q);
  }

  lemma SelectionCounts(a: seq<Peer>, b: seq<Peer>, count: nat, p: Peer)
    ensures |Selection(a, b, count)| == if |a| + |b| <= count then |a| + |b| else count
    ensures multiset(Selection(a, b, count))[p] <= multiset(a)[p] + multiset(b)[p]
  {
    SelectionIsPrefix(a, b, count);
    TakeFewer(a + b, count);
  }

  lemma RegularLast(a: seq<Peer>, b: seq<Peer>, count: nat, p: Peer, q: Peer)
    requires !p.seed ==> multiset(a)[p] == 0
    requires q.seed ==> multiset(b)[q] == 0
    ensures p in Selection(a, b, count) && !p.seed && q.seed ==> multiset(Selection(a, b, count))[q] == multiset(a)[q]
  {
    var first := Take(a, count);
    var second := Take(b, count - |first|);
    TakeFewer(a, count);
    TakeFewer(b, count - |first|);
    assert p in first <==> multiset(first)[p] > 0;
    if second != [] { assert first == a; }
  }

  /**
   Who can be chosen: nobody but other nodes of the pool with an endpoint or an address;
   and if enough are asked for, every one of those.
   */
  lemma SelectedPeers(active: seq<Peer>, self: string, count: nat, js: seq<nat>, ks: seq<nat>, p: Peer)
    requires IndexVector(|Group(active, self, true)|, js) && IndexVector(|Group(active, self, false)|, ks)
    ensures
      var r := Selection(Shuffled(Group(active, self, true), js), Shuffled(Group(active, self, false), ks), count);
      && (p in r ==> p in active && p.nodeId != self && (|p.endpoint| > 0 || |p.addresses| > 0))
      && (count >= |active| && p in active && p.nodeId != self && (|p.endpoint| > 0 || |p.addresses| > 0) ==> p in r)
  {
    var seeds, regular := Group(active, self, true), Group(active, self, false);
    var a, b := Shuffled(seeds, js), Shuffled(regular, ks);
    var r := Selection(a, b, count);
    SelectionIsSound(active, self, count, js, ks, p, p);
    assert p in r <==> multiset(r)[p] > 0;
    assert p in active <==> multiset(active)[p] > 0;
    if count >= |active| {
      GroupSizes(active, self);
      ShuffledIsPermutation(seeds, js);
      ShuffledIsPermutation(regular, ks);
      SelectionIsPrefix(a, b, count);
      GroupMembers(active, self, p.seed, p);
      assert r == a + b;
    }
  }

  lemma {:induction false} GroupSizes(active: seq<Peer>, self: string)
    ensures |Group(active, self, true)| + |Group(active, self, false)| <= |active|
  {
    if active != [] { GroupSizes(active[..|active| - 1], self); }
  }

  /** Every arrangement of the two groups is drawn by some pair of index vectors, so every legal choice can occur. */
  lemma EverySelectionPossible(active: seq<Peer>, self: string, count: nat, a: seq<Peer>, b: seq<Peer>)
      returns (js: seq<nat>, ks: seq<nat>)
    requires multiset(a) == multiset(Group(active, self, true)) && multiset(b) == multiset(Group(active, self, false))
    ensures IndexVector(|Group(active, self, true)|, js) && IndexVector(|Group(active, self, false)|, ks)
    ensures Selection(Shuffled(Group(active, self, true), js), Shuffled(Group(active, self, false), ks), count) ==
      Take(a + b, count)
  {
    js := ShuffledSurjective(Group(active, self, true), a);
    ks := ShuffledSurjective(Group(active, self, false), b);
    SelectionIsPrefix(a, b, count);
  }
}
