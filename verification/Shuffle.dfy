// The secure shuffle: every permutation corresponds to exactly one vector of
// indices, and every index to equally many accepted 64-bit draws.

module Shuffle {
  import opened Wrappers
  import Sorting

  // -------------------------------------------------------- rejection sampling

  const MAX_UINT64: nat := 0xFFFF_FFFF_FFFF_FFFF

  /** Draws at or above the limit are rejected: the largest multiple of max that fits. */
  function Limit(max: nat): nat
    requires max > 0
  {
    MAX_UINT64 / max * max
  }

  /** One read of the random source: a 64-bit value, or a failure. */
  type Draw = Option<nat>

  /** The result of the draw loop, if the reads suffice: a failed read falls back to 0. */
  function FirstAccepted(max: nat, draws: seq<Draw>): Option<nat>
    requires max > 0
  {
    if draws == [] then None
    else if draws[0].None? then Some(0)
    else if draws[0].value < Limit(max) then Some(draws[0].value % max)
    else FirstAccepted(max, draws[1..])
  }

  method CryptoRandBelow(max: nat, draws: seq<Draw>) returns (r: Option<nat>)
    requires max > 0
    ensures r == FirstAccepted(max, draws)
    ensures r.Some? ==> r.value < max
  {
    var limit := MAX_UINT64 / max * max;
    for i := 0 to |draws|
      invariant FirstAccepted(max, draws) == FirstAccepted(max, draws[i..])
    {
      assert draws[i..][0] == draws[i] && draws[i..][1..] == draws[i + 1..];
      if draws[i].None? {
        return Some(0);
      }
      if draws[i].value < limit {
        return Some(draws[i].value % max);
      }
    }
    r := None;
  }

  /** The accepted draws that yield index k. */
  function Preimages(max: nat, k: nat): set<nat>
    requires max > 0
  {
    set v | 0 <= v < Limit(max) && v % max == k
  }

  /** Every index below max has exactly Limit / max accepted draws, so an accepted draw is uniform. */
  lemma EqualPreimages(max: nat, k: nat)
    requires 0 < max && k < max
    ensures |Preimages(max, k)| == MAX_UINT64 / max
  {
    Multiples(max, k, MAX_UINT64 / max);
  }

  /** The numbers below n * max that are k modulo max. */
  lemma {:induction false} Multiples(max: nat, k: nat, n: nat)
    requires k < max
    ensures |(set v | 0 <= v < n * max && v % max == k)| == n
  {
    var now := set v | 0 <= v < n * max && v % max == k;
    if n == 0 {
      assert now == {};
    } else {
      var before := set v | 0 <= v < (n - 1) * max && v % max == k;
      var last := (n - 1) * max + k;
      Multiples(max, k, n - 1);
      assert n * max == (n - 1) * max + max;
      ModOf(n - 1, max, k);
      forall v | (n - 1) * max <= v < n * max && v % max == k ensures v == last {
        ModOf(n - 1, max, v - (n - 1) * max);
      }
      assert now == before + {last};
    }
  }

  lemma ModOf(q: nat, max: nat, r: nat)
    requires r < max
    ensures (q * max + r) % max == r
  {
    var x := q * max + r;
    DivMod(x, max);
    DivModUnique(max, x / max, x % max, q, r);
  }

  lemma DivMod(x: nat, max: nat)
    requires max > 0
    ensures x == (x / max) * max + x % max && x % max < max
  {
  }

  lemma DivModUnique(max: int, d: int, e: int, q: int, r: int)
    requires 0 <= e < max && 0 <= r < max && d * max + e == q * max + r
    ensures d == q && e == r
  {
    Distribute(d, q, max);
    Distribute(q, d, max);
    if d < q { AtLeast(q - d, max); } else if q < d { AtLeast(d - q, max); }
  }

  lemma AtLeast(a: int, m: int)
    requires a >= 1 && m > 0
    ensures a * m >= m
  {
  }

  lemma Distribute(a: int, b: int, m: int)
    ensures (a - b) * m == a * m - b * m
  {
  }

  // --------------------------------------------------------------- the shuffle

  function Swap<T>(s: seq<T>, i: nat, j: nat): (r: seq<T>)
    requires i < |s| && j < |s|
    ensures |r| == |s|
  {
    s[i := s[j]][j := s[i]]
  }

  /** js[t] is the index drawn at the step that fixes position |s| - 1 - t. */
  predicate IndexVector(n: nat, js: seq<nat>)
  {
    |js| == (if n < 2 then 0 else n - 1) && forall t :: 0 <= t < |js| ==> js[t] < n - t
  }

  function Shuffled<T>(s: seq<T>, js: seq<nat>): (r: seq<T>)
    requires IndexVector(|s|, js)
    ensures |r| == |s|
    decreases |s|
  {
    if |s| < 2 then s
    else
      var t := Swap(s, |s| - 1, js[0]);
      Shuffled(t[..|s| - 1], js[1..]) + [t[|s| - 1]]
  }

  lemma TailVector(n: nat, js: seq<nat>, i: nat)
    requires IndexVector(n, js) && i < n
    ensures IndexVector(i + 1, js[n - 1 - i..])
  {
    var rest := js[n - 1 - i..];
    assert forall t :: 0 <= t < |rest| ==> rest[t] == js[n - 1 - i + t];
  }

  /** The state of the loop at position i: what is left to shuffle, and what is done. */
  ghost function Remaining<T>(s: seq<T>, js: seq<nat>, i: nat): seq<T>
    requires IndexVector(|s|, js) && i < |s|
  {
    TailVector(|s|, js, i);
    Shuffled(s[..i + 1], js[|s| - 1 - i..]) + s[i + 1..]
  }

  lemma RemainingStep<T>(s: seq<T>, js: seq<nat>, i: nat)
    requires IndexVector(|s|, js) && 0 < i < |s|
    ensures js[|s| - 1 - i] <= i
    ensures Remaining(s, js, i) == Remaining(Swap(s, i, js[|s| - 1 - i]), js, i - 1)
  {
    var n := |s|;
    var j := js[n - 1 - i];
    TailVector(n, js, i);
    TailVector(n, js, i - 1);
    var rest := js[n - 1 - i..];
    assert rest[0] == j && rest[1..] == js[n - i..];
    var u := Swap(s, i, j);
    var head := s[..i + 1];
    var t := Swap(head, i, j);
    assert t == u[..i + 1] && t[..i] == u[..i] && t[i] == u[i];
    assert u[i..] == [u[i]] + s[i + 1..];
    assert Shuffled(head, rest) == Shuffled(t[..i], rest[1..]) + [t[i]];
  }

  lemma RemainingEnds<T>(s: seq<T>, js: seq<nat>)
    requires IndexVector(|s|, js) && |s| > 0
    ensures Remaining(s, js, |s| - 1) == Shuffled(s, js)
    ensures Remaining(s, js, 0) == s
  {
    TailVector(|s|, js, |s| - 1);
    assert s[..|s|] == s && s[|s|..] == [] && js[0..] == js;
    TailVector(|s|, js, 0);
    assert s[..1] + s[1..] == s;
  }

  /** The loop itself, from position i down. */
  function SwapsFrom<T>(s: seq<T>, js: seq<nat>, i: nat): seq<T>
    requires IndexVector(|s|, js) && i < |s|
    decreases i
  {
    if i == 0 then s else SwapsFrom(Swap(s, i, js[|s| - 1 - i]), js, i - 1)
  }

  lemma {:induction false} SwapsAreRemaining<T>(s: seq<T>, js: seq<nat>, i: nat)
    requires IndexVector(|s|, js) && i < |s|
    ensures SwapsFrom(s, js, i) == Remaining(s, js, i)
    decreases i
  {
    if i == 0 {
      RemainingEnds(s, js);
    } else {
      RemainingStep(s, js, i);
      SwapsAreRemaining(Swap(s, i, js[|s| - 1 - i]), js, i - 1);
    }
  }

  lemma SwapsAreShuffled<T>(s: seq<T>, js: seq<nat>)
    requires IndexVector(|s|, js) && |s| > 0
    ensures SwapsFrom(s, js, |s| - 1) == Shuffled(s, js)
  {
    SwapsAreRemaining(s, js, |s| - 1);
    RemainingEnds(s, js);
  }

  method SwapAt<T>(nodes: array<T>, i: nat, j: nat)
    requires i < nodes.Length && j < nodes.Length
    modifies nodes
    ensures nodes[..] == Swap(old(nodes[..]), i, j)
  {
    nodes[i], nodes[j] := nodes[j], nodes[i];
  }

  method CryptoShuffle<T>(nodes: array<T>, js: seq<nat>)
    requires IndexVector(nodes.Length, js)
    modifies nodes
    ensures nodes[..] == Shuffled(old(nodes[..]), js)
  {
    var n := nodes.Length;
    if n < 2 {
      return;
    }
    SwapsAreShuffled(nodes[..], js);
    var i := n - 1;
    while i > 0
      invariant 0 <= i < n
      invariant SwapsFrom(old(nodes[..]), js, n - 1) == SwapsFrom(nodes[..], js, i)
    {
      SwapAt(nodes, i, js[n - 1 - i]);
      i := i - 1;
    }
  }

  lemma SwapPermutes<T>(s: seq<T>, i: nat, j: nat)
    requires i < |s| && j < |s|
    ensures multiset(Swap(s, i, j)) == multiset(s)
  {
  }

  lemma SwapKeepsDistinct<T>(s: seq<T>, i: nat, j: nat)
    requires i < |s| && j < |s| && Sorting.NoRepeats(s)
    ensures Sorting.NoRepeats(Swap(s, i, j))
  {
  }

  lemma SplitLast<T>(s: seq<T>)
    requires s != []
    ensures multiset(s) == multiset(s[..|s| - 1]) + multiset{s[|s| - 1]}
  {
    assert s == s[..|s| - 1] + [s[|s| - 1]];
  }

  /** Shuffling only reorders. */
  lemma {:induction false} ShuffledIsPermutation<T>(s: seq<T>, js: seq<nat>)
    requires IndexVector(|s|, js)
    ensures multiset(Shuffled(s, js)) == multiset(s)
    decreases |s|
  {
    if |s| >= 2 {
      var front, last := SplitSwapped(s, js[0]);
      ShuffledIsPermutation(front, js[1..]);
      SnocPermutes(Shuffled(front, js[1..]), front, last);
    }
  }

  /** The swapped list as its front and its last element. */
  lemma SplitSwapped<T>(s: seq<T>, j: nat) returns (front: seq<T>, last: T)
    requires |s| >= 2 && j < |s|
    ensures |front| == |s| - 1 && Swap(s, |s| - 1, j)[..|s| - 1] == front && Swap(s, |s| - 1, j)[|s| - 1] == last
    ensures multiset(front + [last]) == multiset(s)
  {
    var t := Swap(s, |s| - 1, j);
    front, last := t[..|s| - 1], t[|s| - 1];
    SwapPermutes(s, |s| - 1, j);
    assert t == front + [last];
  }

  lemma SnocPermutes<T>(a: seq<T>, b: seq<T>, x: T)
    requires multiset(a) == multiset(b)
    ensures multiset(a + [x]) == multiset(b + [x])
  {
    assert multiset(a + [x]) == multiset(a) + multiset{x};
    assert multiset(b + [x]) == multiset(b) + multiset{x};
  }

  /** Different index vectors give different permutations. */
  lemma {:induction false} ShuffledInjective<T>(s: seq<T>, js: seq<nat>, ks: seq<nat>)
    requires IndexVector(|s|, js) && IndexVector(|s|, ks) && Sorting.NoRepeats(s)
    requires Shuffled(s, js) == Shuffled(s, ks)
    ensures js == ks
    decreases |s|
  {
    if |s| >= 2 {
      var n := |s|;
      var t, u := Swap(s, n - 1, js[0]), Swap(s, n - 1, ks[0]);
      var a, b := Shuffled(s, js), Shuffled(s, ks);
      assert a[n - 1] == t[n - 1] == s[js[0]] && b[n - 1] == u[n - 1] == s[ks[0]];
      assert js[0] == ks[0];
      SwapKeepsDistinct(s, n - 1, js[0]);
      assert a[..n - 1] == Shuffled(t[..n - 1], js[1..]) && b[..n - 1] == Shuffled(u[..n - 1], ks[1..]);
      ShuffledInjective(t[..n - 1], js[1..], ks[1..]);
      assert js == [js[0]] + js[1..] && ks == [ks[0]] + ks[1..];
    }
  }

  /** Every permutation is the shuffle of some index vector. */
  lemma {:induction false} ShuffledSurjective<T>(s: seq<T>, p: seq<T>) returns (js: seq<nat>)
    requires multiset(p) == multiset(s)
    ensures IndexVector(|s|, js) && Shuffled(s, js) == p
    decreases |s|
  {
    assert |multiset(p)| == |p| && |multiset(s)| == |s|;
    if |s| < 2 {
      js := [];
      if |s| == 1 { SingletonEqual(s, p); }
    } else {
      var n := |s|;
      var j := FindLast(s, p);
      var t := Swap(s, n - 1, j);
      FrontPermutes(s, p, j);
      var rest := ShuffledSurjective(t[..n - 1], p[..n - 1]);
      js := [j] + rest;
      assert js[1..] == rest;
      assert Shuffled(s, js) == p[..n - 1] + [t[n - 1]];
    }
  }

  lemma FindLast<T>(s: seq<T>, p: seq<T>) returns (j: nat)
    requires |s| == |p| >= 1 && multiset(p) == multiset(s)
    ensures j < |s| && s[j] == p[|p| - 1]
  {
    assert p[|p| - 1] in multiset(p);
    assert p[|p| - 1] in s;
    j :| 0 <= j < |s| && s[j] == p[|p| - 1];
  }

  lemma SingletonEqual<T>(s: seq<T>, p: seq<T>)
    requires |s| == |p| == 1 && multiset(p) == multiset(s)
    ensures s == p
  {
    assert s == [s[0]] && p == [p[0]];
    assert s[0] in multiset(p);
  }

  lemma FrontPermutes<T>(s: seq<T>, p: seq<T>, j: nat)
    requires s != [] && j < |s| && |p| == |s| && multiset(p) == multiset(s) && s[j] == p[|p| - 1]
    ensures multiset(p[..|p| - 1]) == multiset(Swap(s, |s| - 1, j)[..|s| - 1])
  {
    var t := Swap(s, |s| - 1, j);
    SwapPermutes(s, |s| - 1, j);
    SplitLast(t);
    SplitLast(p);
    Sorting.Cancel(multiset(p[..|p| - 1]), multiset(t[..|s| - 1]), s[j]);
  }
}
