// Sums of a quantity over a list of tickets.

module TicketSums {
  function Sum<T>(log: seq<T>, f: T -> int): int
  {
    if log == [] then 0 else Sum(log[..|log| - 1], f) + f(log[|log| - 1])
  }

  lemma SumMore<T>(log: seq<T>, t: T, f: T -> int)
    ensures Sum(log + [t], f) == Sum(log, f) + f(t)
  {
    assert (log + [t])[..|log|] == log;
  }

  lemma {:induction false} SumUpdate<T>(log: seq<T>, i: nat, t: T, f: T -> int)
    requires i < |log|
    ensures Sum(log[i := t], f) == Sum(log, f) - f(log[i]) + f(t)
  {
    var n := |log| - 1;
    if i == n {
      assert log[i := t][..n] == log[..n];
    } else {
      SumUpdate(log[..n], i, t, f);
      assert log[i := t][..n] == log[..n][i := t];
    }
  }

  lemma {:induction false} SumZero<T>(log: seq<T>, f: T -> int)
    requires forall t :: t in log ==> f(t) == 0
    ensures Sum(log, f) == 0
  {
    if log != [] {
      assert log[|log| - 1] in log;
      SumZero(log[..|log| - 1], f);
    }
  }

  lemma {:induction false} SumSame<T>(log: seq<T>, f: T -> int, g: T -> int)
    requires forall t :: t in log ==> f(t) == g(t)
    ensures Sum(log, f) == Sum(log, g)
  {
    if log != [] {
      assert log[|log| - 1] in log;
      SumSame(log[..|log| - 1], f, g);
    }
  }
}
