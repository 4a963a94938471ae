// What the hash chain of the contribution ledger guarantees: which histories
// share a head hash, and exactly when the hashed text determines its fields.

module LedgerChain {
  import opened ByteText
  import opened Ledgers
  import opened Hashing

  // --------------------------------------------------------- hashed fields

  predicate SameHashed(t: Transaction, u: Transaction)
  {
    && t.id == u.id && t.kind == u.kind && t.node == u.node && t.amount == u.amount
    && t.model == u.model && t.request == u.request && t.prev == u.prev
  }

  predicate BarFree(s: string)
  {
    '|' !in s
  }

  predicate Plain(t: Transaction)
  {
    && BarFree(t.id) && BarFree(t.kind) && BarFree(t.node)
    && BarFree(t.model) && BarFree(t.request) && BarFree(t.prev)
  }

  function Bars(s: string): nat
  {
    if s == "" then 0 else (if s[0] == '|' then 1 else 0) + Bars(s[1..])
  }

  lemma {:induction false} BarsZeroIff(s: string)
    ensures Bars(s) == 0 <==> BarFree(s)
  {
    if s != "" {
      BarsZeroIff(s[1..]);
      assert s == [s[0]] + s[1..];
    }
  }

  lemma {:induction false} BarsAppend(a: string, b: string)
    ensures Bars(a + b) == Bars(a) + Bars(b)
  {
    if a == "" {
      assert a + b == b;
    } else {
      BarsAppend(a[1..], b);
      assert (a + b)[1..] == a[1..] + b;
    }
  }

  lemma SignedPlain(n: int)
    ensures BarFree(Signed(n))
  {
    var m := if n < 0 then -n else n;
    forall i | 0 <= i < |Dec(m)| ensures Dec(m)[i] != '|' {
      DecDigitsOnly(m, i);
    }
  }

  lemma SignedInjective(a: int, b: int)
    requires Signed(a) == Signed(b)
    ensures a == b
  {
    var x, y := if a < 0 then -a else a, if b < 0 then -b else b;
    DecDigitsOnly(x, 0);
    DecDigitsOnly(y, 0);
    assert Signed(a)[0] == '-' <==> a < 0;
    assert Signed(b)[0] == '-' <==> b < 0;
    if a < 0 {
      assert Signed(a)[1..] == Dec(x) && Signed(b)[1..] == Dec(y);
    }
    DecInjective(x, y);
  }

  /** Joined with bars: head, then the rest. */
  function Cons(head: string, rest: string): string
  {
    head + "|" + rest
  }

  lemma CutAtBar(a: string, x: string, b: string, y: string)
    requires Cons(a, x) == Cons(b, y) && BarFree(a) && BarFree(b)
    ensures a == b && x == y
  {
    var s := Cons(a, x);
    assert s[|a|] == '|' && s[|b|] == '|';
    assert forall i :: 0 <= i < |a| ==> s[i] == a[i];
    assert forall i :: 0 <= i < |b| ==> s[i] == b[i];
    assert a == s[..|a|] && b == s[..|b|];
    assert x == s[|a| + 1..] && y == s[|b| + 1..];
  }

  lemma ConsBars(a: string, x: string)
    ensures Bars(Cons(a, x)) == Bars(a) + 1 + Bars(x)
  {
    BarsAppend(a, "|");
    BarsAppend(a + "|", x);
    assert Bars("|") == 1 + Bars("|"[1..]);
  }

  // The hashed text, read from the right.
  function Tail6(t: Transaction): string { Cons(t.request, t.prev) }
  function Tail5(t: Transaction): string { Cons(t.model, Tail6(t)) }
  function Tail4(t: Transaction): string { Cons(Signed(t.amount), Tail5(t)) }
  function Tail3(t: Transaction): string { Cons(t.node, Tail4(t)) }
  function Tail2(t: Transaction): string { Cons(t.kind, Tail3(t)) }

  lemma TextIsConsed(t: Transaction)
    ensures HashText(t) == Cons(t.id, Tail2(t))
  {
  }

  lemma TextBars(t: Transaction)
    ensures Bars(HashText(t)) ==
      6 + Bars(t.id) + Bars(t.kind) + Bars(t.node) + Bars(t.model) + Bars(t.request) + Bars(t.prev)
  {
    TextIsConsed(t);
    SignedPlain(t.amount);
    BarsZeroIff(Signed(t.amount));
    ConsBars(t.id, Tail2(t));
    ConsBars(t.kind, Tail3(t));
    ConsBars(t.node, Tail4(t));
    ConsBars(Signed(t.amount), Tail5(t));
    ConsBars(t.model, Tail6(t));
    ConsBars(t.request, t.prev);
  }

  lemma PlainIff(t: Transaction)
    ensures Plain(t) <==> Bars(HashText(t)) == 6
  {
    TextBars(t);
    BarsZeroIff(t.id);
    BarsZeroIff(t.kind);
    BarsZeroIff(t.node);
    BarsZeroIff(t.model);
    BarsZeroIff(t.request);
    BarsZeroIff(t.prev);
  }

  /** A text with six bars parses one way only, whatever the other transaction is. */
  lemma PlainTextParses(t: Transaction, u: Transaction)
    requires Plain(t) && HashText(t) == HashText(u)
    ensures SameHashed(t, u)
  {
    PlainIff(t);
    PlainIff(u);
    TextIsConsed(t);
    TextIsConsed(u);
    CutAtBar(t.id, Tail2(t), u.id, Tail2(u));
    CutAtBar(t.kind, Tail3(t), u.kind, Tail3(u));
    CutAtBar(t.node, Tail4(t), u.node, Tail4(u));
    SignedPlain(t.amount);
    SignedPlain(u.amount);
    CutAtBar(Signed(t.amount), Tail5(t), Signed(u.amount), Tail5(u));
    SignedInjective(t.amount, u.amount);
    CutAtBar(t.model, Tail6(t), u.model, Tail6(u));
    CutAtBar(t.request, t.prev, u.request, u.prev);
  }

  /** Moving a bar from one field into its neighbour leaves the joined text alone. */
  lemma ShiftBar(s: string, i: nat, head: string, rest: string)
    requires i < |s| && s[i] == '|'
    ensures Cons(s, rest) == Cons(s[..i], Cons(s[i + 1..], rest))
    ensures Cons(head, s) == Cons(Cons(head, s[..i]), s[i + 1..])
  {
    assert s == s[..i] + "|" + s[i + 1..];
  }

  lemma ConsAssociates(a: string, b: string, c: string)
    ensures Cons(Cons(a, b), c) == Cons(a, Cons(b, c))
  {
  }

  /** Another transaction with the same hashed text, when some field holds a bar. */
  lemma Forgery(t: Transaction) returns (u: Transaction)
    requires !Plain(t)
    ensures HashText(u) == HashText(t) && !SameHashed(t, u)
  {
    TextIsConsed(t);
    if !BarFree(t.id) {
      var i :| 0 <= i < |t.id| && t.id[i] == '|';
      u := t.(id := t.id[..i], kind := Cons(t.id[i + 1..], t.kind));
      ShiftBar(t.id, i, "", Tail2(t));
      ConsAssociates(t.id[i + 1..], t.kind, Tail3(t));
    } else if !BarFree(t.kind) {
      var i :| 0 <= i < |t.kind| && t.kind[i] == '|';
      u := t.(id := Cons(t.id, t.kind[..i]), kind := t.kind[i + 1..]);
      ShiftBar(t.kind, i, "", Tail3(t));
      ConsAssociates(t.id, t.kind[..i], Tail2(u));
    } else if !BarFree(t.node) {
      var i :| 0 <= i < |t.node| && t.node[i] == '|';
      u := t.(kind := Cons(t.kind, t.node[..i]), node := t.node[i + 1..]);
      ShiftBar(t.node, i, "", Tail4(t));
      ConsAssociates(t.kind, t.node[..i], Tail3(u));
    } else if !BarFree(t.model) {
      var i :| 0 <= i < |t.model| && t.model[i] == '|';
      u := t.(model := t.model[..i], request := Cons(t.model[i + 1..], t.request));
      ShiftBar(t.model, i, "", Tail6(t));
      ConsAssociates(t.model[i + 1..], t.request, t.prev);
    } else if !BarFree(t.request) {
      var i :| 0 <= i < |t.request| && t.request[i] == '|';
      u := t.(model := Cons(t.model, t.request[..i]), request := t.request[i + 1..]);
      ShiftBar(t.request, i, "", t.prev);
      ConsAssociates(t.model, t.request[..i], Tail6(u));
    } else {
      var i :| 0 <= i < |t.prev| && t.prev[i] == '|';
      u := t.(request := Cons(t.request, t.prev[..i]), prev := t.prev[i + 1..]);
      ShiftBar(t.prev, i, t.request, "");
    }
    TextIsConsed(u);
  }

  /** The hashed text determines the seven hashed fields exactly when none of them holds a bar. */
  lemma TextIdentifiesIff(t: Transaction)
    ensures Plain(t) <==> forall u :: HashText(u) == HashText(t) ==> SameHashed(t, u)
  {
    if Plain(t) {
      forall u | HashText(u) == HashText(t) ensures SameHashed(t, u) {
        PlainTextParses(t, u);
      }
    } else {
      var u := Forgery(t);
    }
  }

  // ----------------------------------------------------------------- chains

  /** The texts whose hashes a chain carries. */
  function Texts(txs: seq<Transaction>): set<string>
  {
    set t | t in txs :: HashText(t)
  }

  ghost predicate AllPlain(txs: seq<Transaction>)
  {
    forall t :: t in txs ==> Plain(t)
  }

  /** Equal hashes stand for equal texts, as far as the two chains go. */
  lemma SameHashSameText(sha: string -> string, a: seq<Transaction>, b: seq<Transaction>, i: nat, j: nat)
    requires CollisionFree(sha, Texts(a) + Texts(b)) && ChainValid(sha, a) && ChainValid(sha, b)
    requires i < |a| && j < |b| && a[i].hash == b[j].hash
    ensures HashText(a[i]) == HashText(b[j])
  {
    assert LinkValid(sha, a, i) && LinkValid(sha, b, j);
    assert HashText(a[i]) in Texts(a) && HashText(b[j]) in Texts(b);
  }

  lemma SamePrevSameHash(sha: string -> string, a: seq<Transaction>, b: seq<Transaction>, i: nat, j: nat)
    requires ChainValid(sha, a) && ChainValid(sha, b)
    requires i + 1 < |a| && j + 1 < |b| && a[i + 1].prev == b[j + 1].prev
    ensures a[i].hash == b[j].hash
  {
    assert LinkValid(sha, a, i + 1) && LinkValid(sha, b, j + 1);
  }

  /** Two valid links with one hash agree in every hashed field. */
  lemma AgreeAt(sha: string -> string, a: seq<Transaction>, b: seq<Transaction>, i: nat, j: nat)
    requires CollisionFree(sha, Texts(a) + Texts(b)) && ChainValid(sha, a) && ChainValid(sha, b) && AllPlain(a)
    requires i < |a| && j < |b| && a[i].hash == b[j].hash
    ensures SameHashed(a[i], b[j])
  {
    SameHashSameText(sha, a, b, i, j);
    PlainTextParses(a[i], b[j]);
  }

  /**
   Two valid chains that end in the same hash agree from the end backwards, so
   the shorter one is a suffix of the longer one. Only one of them has to be
   free of bars.
   */
  lemma {:induction false} AgreeFromHead(sha: string -> string, a: seq<Transaction>, b: seq<Transaction>, k: nat)
    requires CollisionFree(sha, Texts(a) + Texts(b)) && ChainValid(sha, a) && ChainValid(sha, b) && AllPlain(a)
    requires k < |a| && k < |b| && HeadHash(a) == HeadHash(b)
    ensures SameHashed(a[|a| - 1 - k], b[|b| - 1 - k])
    ensures a[|a| - 1 - k].hash == b[|b| - 1 - k].hash
  {
    var i, j := |a| - 1 - k, |b| - 1 - k;
    if k > 0 {
      AgreeFromHead(sha, a, b, k - 1);
      SamePrevSameHash(sha, a, b, i, j);
    }
    AgreeAt(sha, a, b, i, j);
  }

  /** A chain that starts where AppendTransaction starts one. */
  predicate Genesis(txs: seq<Transaction>)
  {
    txs == [] || txs[0].prev == ""
  }

  ghost predicate SameHistory(a: seq<Transaction>, b: seq<Transaction>)
  {
    |a| == |b| && forall i :: 0 <= i < |a| ==> SameHashed(a[i], b[i])
  }

  /** Past the first link, prev is never empty. */
  lemma PrevNonEmpty(sha: string -> string, txs: seq<Transaction>, i: nat)
    requires (forall x :: sha(x) != "") && ChainValid(sha, txs) && 0 < i < |txs|
    ensures txs[i].prev != ""
  {
    assert LinkValid(sha, txs, i) && LinkValid(sha, txs, i - 1);
  }

  lemma NoProperSuffix(sha: string -> string, a: seq<Transaction>, b: seq<Transaction>)
    requires CollisionFree(sha, Texts(a) + Texts(b)) && (forall x :: sha(x) != "")
    requires ChainValid(sha, a) && ChainValid(sha, b) && AllPlain(a) && Genesis(a) && Genesis(b)
    requires HeadHash(a) == HeadHash(b) && a != [] && b != []
    ensures |a| == |b|
  {
    var k := if |a| <= |b| then |a| - 1 else |b| - 1;
    AgreeFromHead(sha, a, b, k);
    if |a| < |b| {
      PrevNonEmpty(sha, b, |b| - 1 - k);
    } else if |b| < |a| {
      PrevNonEmpty(sha, a, |a| - 1 - k);
    }
  }

  lemma HeadNonEmpty(sha: string -> string, txs: seq<Transaction>)
    requires (forall x :: sha(x) != "") && ChainValid(sha, txs)
    ensures HeadHash(txs) == "" <==> txs == []
  {
    if txs != [] { assert LinkValid(sha, txs, |txs| - 1); }
  }

  /** The head hash stands for the whole history. */
  lemma HeadHashIsHistory(sha: string -> string, a: seq<Transaction>, b: seq<Transaction>)
    requires CollisionFree(sha, Texts(a) + Texts(b)) && (forall x :: sha(x) != "")
    requires ChainValid(sha, a) && ChainValid(sha, b) && AllPlain(a) && Genesis(a) && Genesis(b)
    ensures HeadHash(a) == HeadHash(b) <==> SameHistory(a, b)
  {
    HeadNonEmpty(sha, a);
    HeadNonEmpty(sha, b);
    if HeadHash(a) == HeadHash(b) && a != [] {
      NoProperSuffix(sha, a, b);
      forall i | 0 <= i < |a| ensures SameHashed(a[i], b[i]) {
        AgreeFromHead(sha, a, b, |a| - 1 - i);
      }
    }
    if SameHistory(a, b) && a != [] {
      SameHashedSameHash(sha, a, b, |a| - 1);
    }
  }

  lemma SameHashedSameHash(sha: string -> string, a: seq<Transaction>, b: seq<Transaction>, i: nat)
    requires ChainValid(sha, a) && ChainValid(sha, b) && i < |a| && i < |b| && SameHashed(a[i], b[i])
    ensures a[i].hash == b[i].hash
  {
    assert LinkValid(sha, a, i) && LinkValid(sha, b, i);
  }

  /** Appending neither breaks a chain nor repairs one. */
  lemma AppendKeepsChain(l: Ledger, env: Env, kind: string, node: string, amount: int, model: string, request: string,
                         day: Day)
    ensures
      var after := Appended(l, NewTransaction(l, env, kind, node, amount, model, request, day)).txs;
      && (ChainValid(env.sha, after) <==> ChainValid(env.sha, l.txs))
      && (Genesis(l.txs) ==> Genesis(after))
  {
    var t := NewTransaction(l, env, kind, node, amount, model, request, day);
    var after := l.txs + [t];
    assert LinkValid(env.sha, after, |l.txs|) by {
      assert HashText(t) == HashText(t.(hash := "", signature := ""));
    }
    forall i | 0 <= i < |l.txs| ensures LinkValid(env.sha, after, i) <==> LinkValid(env.sha, l.txs, i) {
    }
  }
}
