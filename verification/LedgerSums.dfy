// Sums over the contribution ledger: the incremental daily counter equals a
// scan of the whole ledger, and the balances of all nodes add up to what was
// contributed minus what was consumed.

module LedgerSums {
  import opened Ledgers
  import Sorting

  // --------------------------------------------------------- daily counter

  /** What a scan of all transactions finds for one node and day, unbounded. */
  function Contributed(txs: seq<Transaction>, node: string, day: Day): int
  {
    if txs == [] then 0
    else
      var t := txs[|txs| - 1];
      Contributed(txs[..|txs| - 1], node, day)
      + if t.kind == "contribution" && t.node == node && t.day == day then t.amount else 0
  }

  ghost predicate DailyMatches(daily: map<string, int>, txs: seq<Transaction>)
  {
    forall node, day: Day :: Lookup(daily, DailyKey(node, day)) == Wrap64(Contributed(txs, node, day))
  }

  lemma NothingMatches()
    ensures DailyMatches(map[], [])
  {
  }

  /** One more transaction, counted or of no effect. */
  lemma BumpMatches(daily: map<string, int>, txs: seq<Transaction>, t: Transaction)
    requires DailyMatches(daily, txs)
    ensures t.kind == "contribution" ==> DailyMatches(Bump(daily, DailyKey(t.node, t.day), t.amount), txs + [t])
    ensures t.kind != "contribution" || t.amount == 0 ==> DailyMatches(daily, txs + [t])
  {
    var bumped := Bump(daily, DailyKey(t.node, t.day), t.amount);
    forall node, day: Day
      ensures t.kind == "contribution" ==>
        Lookup(bumped, DailyKey(node, day)) == Wrap64(Contributed(txs + [t], node, day))
      ensures t.kind != "contribution" || t.amount == 0 ==>
        Lookup(daily, DailyKey(node, day)) == Wrap64(Contributed(txs + [t], node, day))
    {
      assert (txs + [t])[..|txs|] == txs;
      WrapAdds(Contributed(txs, node, day), t.amount);
      if DailyKey(node, day) == DailyKey(t.node, t.day) {
        DailyKeyInjective(node, day, t.node, t.day);
      }
    }
  }

  lemma AppendMatches(l: Ledger, t: Transaction)
    requires DailyMatches(l.daily, l.txs)
    ensures DailyMatches(Appended(l, t).daily, Appended(l, t).txs)
  {
    BumpMatches(l.daily, l.txs, t);
  }

  /** The counter as loading rebuilds it: every contribution, zero ones too. */
  function Rebuilt(txs: seq<Transaction>): map<string, int>
  {
    if txs == [] then map[]
    else
      var t := txs[|txs| - 1];
      var before := Rebuilt(txs[..|txs| - 1]);
      if t.kind == "contribution" then Bump(before, DailyKey(t.node, t.day), t.amount) else before
  }

  lemma {:induction false} RebuiltMatches(txs: seq<Transaction>)
    ensures DailyMatches(Rebuilt(txs), txs)
  {
    if txs != [] {
      var n := |txs| - 1;
      RebuiltMatches(txs[..n]);
      BumpMatches(Rebuilt(txs[..n]), txs[..n], txs[n]);
      assert txs[..n] + [txs[n]] == txs;
    }
  }

  // -------------------------------------------------------- permutations

  lemma {:induction false} ContributedSplit(a: seq<Transaction>, b: seq<Transaction>, node: string, day: Day)
    ensures Contributed(a + b, node, day) == Contributed(a, node, day) + Contributed(b, node, day)
    ensures Balance(a + b, node) == Balance(a, node) + Balance(b, node)
  {
    if b == [] {
      assert a + b == a;
    } else {
      var n := |b| - 1;
      assert (a + b)[..|a + b| - 1] == a + b[..n];
      ContributedSplit(a, b[..n], node, day);
    }
  }

  function Only(t: Transaction, node: string, day: Day): int
  {
    if t.kind == "contribution" && t.node == node && t.day == day then t.amount else 0
  }

  lemma ContributedDrop(b: seq<Transaction>, i: nat, node: string, day: Day)
    requires i < |b|
    ensures
      var rest := b[..i] + b[i + 1..];
      && multiset(b) == multiset(rest) + multiset{b[i]}
      && Contributed(b, node, day) == Contributed(rest, node, day) + Only(b[i], node, day)
  {
    var p, q, t := b[..i], b[i + 1..], [b[i]];
    assert b == p + (t + q);
    ContributedSplit(p, t + q, node, day);
    ContributedSplit(t, q, node, day);
    ContributedSplit(p, q, node, day);
    assert Contributed(t, node, day) == Only(b[i], node, day) by { assert t[..0] == []; }
  }

  /** The scan ignores the order of the transactions. */
  lemma {:induction false} ScanIgnoresOrder(a: seq<Transaction>, b: seq<Transaction>, node: string, day: Day)
    requires multiset(a) == multiset(b)
    ensures Contributed(a, node, day) == Contributed(b, node, day)
  {
    if a == [] {
      assert |multiset(b)| == 0;
    } else {
      var n := |a| - 1;
      var t := a[n];
      assert a[..n] + a[n + 1..] == a[..n];
      ContributedDrop(a, n, node, day);
      assert t in multiset(b);
      var i :| 0 <= i < |b| && b[i] == t;
      ContributedDrop(b, i, node, day);
      Sorting.Cancel(multiset(a[..n]), multiset(b[..i] + b[i + 1..]), t);
      ScanIgnoresOrder(a[..n], b[..i] + b[i + 1..], node, day);
    }
  }

  lemma BalanceDrop(b: seq<Transaction>, i: nat, node: string)
    requires i < |b|
    ensures
      var rest := b[..i] + b[i + 1..];
      && multiset(b) == multiset(rest) + multiset{b[i]}
      && Balance(b, node) == Balance(rest, node) + if b[i].node == node then Effect(b[i]) else 0
  {
    var p, q, t := b[..i], b[i + 1..], [b[i]];
    assert b == p + (t + q);
    ContributedSplit(p, t + q, node, "1970-01-01");
    ContributedSplit(t, q, node, "1970-01-01");
    ContributedSplit(p, q, node, "1970-01-01");
    assert t[..0] == [];
  }

  lemma {:induction false} BalanceIgnoresOrder(a: seq<Transaction>, b: seq<Transaction>, node: string)
    requires multiset(a) == multiset(b)
    ensures Balance(a, node) == Balance(b, node)
  {
    if a == [] {
      assert |multiset(b)| == 0;
    } else {
      var n := |a| - 1;
      var t := a[n];
      assert a[..n] + a[n + 1..] == a[..n];
      BalanceDrop(a, n, node);
      assert t in multiset(b);
      var i :| 0 <= i < |b| && b[i] == t;
      BalanceDrop(b, i, node);
      Sorting.Cancel(multiset(a[..n]), multiset(b[..i] + b[i + 1..]), t);
      BalanceIgnoresOrder(a[..n], b[..i] + b[i + 1..], node);
    }
  }

  // ---------------------------------------------------------- conservation

  /** Everything of one kind, over all nodes. */
  function TotalOf(txs: seq<Transaction>, kind: string): int
  {
    if txs == [] then 0
    else
      var t := txs[|txs| - 1];
      TotalOf(txs[..|txs| - 1], kind) + if t.kind == kind then t.amount else 0
  }

  function SumBalances(txs: seq<Transaction>, nodes: seq<string>): int
  {
    if nodes == [] then 0
    else SumBalances(txs, nodes[..|nodes| - 1]) + Balance(txs, nodes[|nodes| - 1])
  }

  /** The 64-bit sum of what DeriveBalance returns for each node. */
  function SumDerived(txs: seq<Transaction>, nodes: seq<string>): int
  {
    if nodes == [] then 0
    else Wrap64(SumDerived(txs, nodes[..|nodes| - 1]) + Wrap64(Balance(txs, nodes[|nodes| - 1])))
  }

  lemma {:induction false} SumDerivedWraps(txs: seq<Transaction>, nodes: seq<string>)
    ensures SumDerived(txs, nodes) == Wrap64(SumBalances(txs, nodes))
  {
    if nodes != [] {
      var n := |nodes| - 1;
      SumDerivedWraps(txs, nodes[..n]);
      WrapAdds(SumBalances(txs, nodes[..n]), Wrap64(Balance(txs, nodes[n])));
      WrapAdds(SumBalances(txs, nodes[..n]), Balance(txs, nodes[n]));
    }
  }

  lemma {:induction false} SumBalancesStep(txs: seq<Transaction>, t: Transaction, nodes: seq<string>)
    requires Sorting.NoRepeats(nodes)
    ensures SumBalances(txs + [t], nodes) == SumBalances(txs, nodes) + if t.node in nodes then Effect(t) else 0
  {
    if nodes != [] {
      var n := |nodes| - 1;
      assert nodes == nodes[..n] + [nodes[n]];
      SumBalancesStep(txs, t, nodes[..n]);
      assert (txs + [t])[..|txs|] == txs;
    }
  }

  lemma {:induction false} SumBalancesEmpty(nodes: seq<string>)
    ensures SumBalances([], nodes) == 0
  {
    if nodes != [] { SumBalancesEmpty(nodes[..|nodes| - 1]); }
  }

  /** Over any list of nodes that names every node once, nothing is created or lost. */
  lemma {:induction false} BalancesConserve(txs: seq<Transaction>, nodes: seq<string>)
    requires Sorting.NoRepeats(nodes) && forall t :: t in txs ==> t.node in nodes
    ensures SumBalances(txs, nodes) == TotalOf(txs, "contribution") - TotalOf(txs, "consumption")
  {
    if txs == [] {
      SumBalancesEmpty(nodes);
    } else {
      var n := |txs| - 1;
      BalancesConserve(txs[..n], nodes);
      SumBalancesStep(txs[..n], txs[n], nodes);
      assert txs[..n] + [txs[n]] == txs;
    }
  }

  /** The same in the 64-bit arithmetic DeriveBalance uses. */
  lemma DerivedBalancesConserve(txs: seq<Transaction>, nodes: seq<string>)
    requires Sorting.NoRepeats(nodes) && forall t :: t in txs ==> t.node in nodes
    ensures SumDerived(txs, nodes) == Wrap64(TotalOf(txs, "contribution") - TotalOf(txs, "consumption"))
  {
    SumDerivedWraps(txs, nodes);
    BalancesConserve(txs, nodes);
  }
}
