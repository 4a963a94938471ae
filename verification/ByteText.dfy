// Byte strings as the program compares and builds them: Go's string ordering
// (which is also the key order of the key-value store) and decimal numerals.

module ByteText {

  // ------------------------------------------------------------ byte order

  /** a comes strictly before b in byte order. */
  predicate Less(a: string, b: string)
  {
    if b == "" then false
    else if a == "" then true
    else if a[0] != b[0] then a[0] < b[0]
    else Less(a[1..], b[1..])
  }

  lemma {:induction false} LessTransitive(a: string, b: string, c: string)
    requires Less(a, b) && Less(b, c)
    ensures Less(a, c)
  {
    if a != "" && a[0] == b[0] == c[0] {
      LessTransitive(a[1..], b[1..], c[1..]);
    }
  }

  lemma {:induction false} LessTotal(a: string, b: string)
    ensures Less(a, b) || Less(b, a) || a == b
    ensures !(Less(a, b) && Less(b, a))
    ensures !Less(a, a)
  {
    if a != "" {
      LessTotal(a[1..], a[1..]);
    }
    if a != "" && b != "" && a[0] == b[0] {
      LessTotal(a[1..], b[1..]);
      assert a == [a[0]] + a[1..] && b == [b[0]] + b[1..];
    }
  }

  /** A common prefix does not matter to the order. */
  lemma {:induction false} LessUnderPrefix(p: string, a: string, b: string)
    ensures Less(p + a, p + b) == Less(a, b)
  {
    if p == "" {
      assert p + a == a && p + b == b;
    } else {
      assert (p + a)[1..] == p[1..] + a && (p + b)[1..] == p[1..] + b;
      LessUnderPrefix(p[1..], a, b);
    }
  }

  /** With equally long heads that differ, the heads alone decide. */
  lemma {:induction false} LessByHead(a: string, b: string, s: string, t: string)
    requires |a| == |b| && a != b
    ensures Less(a + s, b + t) == Less(a, b)
  {
    if a[0] == b[0] {
      assert (a + s)[1..] == a[1..] + s && (b + t)[1..] == b[1..] + t;
      assert a == [a[0]] + a[1..] && b == [b[0]] + b[1..];
      LessByHead(a[1..], b[1..], s, t);
    }
  }

  // ------------------------------------------------------- decimal numerals

  function Digit(d: nat): (c: char)
    requires d < 10
    ensures '0' <= c <= '9'
  {
    '0' + d as char
  }

  /** The decimal numeral of n, as fmt's %d prints it. */
  function Dec(n: nat): (s: string)
    ensures |s| > 0
  {
    if n < 10 then [Digit(n)] else Dec(n / 10) + [Digit(n % 10)]
  }

  /** fmt's %d of a signed integer. */
  function Signed(n: int): string
  {
    if n < 0 then "-" + Dec(-n) else Dec(n)
  }

  lemma {:induction false} DecDigitsOnly(n: nat, i: nat)
    requires i < |Dec(n)|
    ensures '0' <= Dec(n)[i] <= '9'
  {
    if n >= 10 && i < |Dec(n / 10)| { DecDigitsOnly(n / 10, i); }
  }

  lemma {:induction false} DecInjective(a: nat, b: nat)
    requires Dec(a) == Dec(b)
    ensures a == b
  {
    if a >= 10 && b >= 10 {
      var x, y := Dec(a / 10), Dec(b / 10);
      assert Dec(a)[..|Dec(a)| - 1] == x && Dec(b)[..|Dec(b)| - 1] == y;
      DecInjective(a / 10, b / 10);
      assert Dec(a)[|Dec(a)| - 1] == Digit(a % 10) && Dec(b)[|Dec(b)| - 1] == Digit(b % 10);
    } else if a < 10 && b < 10 {
      assert Dec(a)[0] == Dec(b)[0];
    } else {
      assert false;
    }
  }

  /** Numerals of equal width sort like the numbers. */
  lemma {:induction false} DecSameWidth(a: nat, b: nat)
    requires |Dec(a)| == |Dec(b)|
    ensures Less(Dec(a), Dec(b)) <==> a < b
  {
    if a < 10 {
      assert b < 10;
    } else {
      assert b >= 10;
      var x, y := Dec(a / 10), Dec(b / 10);
      DecSameWidth(a / 10, b / 10);
      if a / 10 == b / 10 {
        LessUnderPrefix(x, [Digit(a % 10)], [Digit(b % 10)]);
      } else {
        if x == y { DecInjective(a / 10, b / 10); }
        LessByHead(x, y, [Digit(a % 10)], [Digit(b % 10)]);
      }
    }
  }

  lemma {:induction false} DecWidthMonotone(a: nat, b: nat)
    requires a <= b
    ensures |Dec(a)| <= |Dec(b)|
  {
    if a >= 10 { DecWidthMonotone(a / 10, b / 10); }
  }

  /** The number whose numeral is n's with the last d digits dropped. */
  function DropDigits(n: nat, d: nat): nat
  {
    if d == 0 then n else DropDigits(n / 10, d - 1)
  }

  lemma {:induction false} DecDropDigits(b: nat, d: nat)
    requires d < |Dec(b)|
    ensures Dec(b)[..|Dec(b)| - d] == Dec(DropDigits(b, d))
  {
    if d == 0 {
      assert Dec(b)[..|Dec(b)|] == Dec(b);
    } else {
      DecDropDigits(b / 10, d - 1);
      assert Dec(b) == Dec(b / 10) + [Digit(b % 10)];
      assert Dec(b)[..|Dec(b)| - d] == Dec(b / 10)[..|Dec(b / 10)| - (d - 1)];
    }
  }

  /**
   For a < b the numerals are in byte order exactly when a does not exceed b
   cut down to a's width.
   */
  lemma DecOrder(a: nat, b: nat)
    requires a < b
    ensures |Dec(a)| <= |Dec(b)|
    ensures Less(Dec(a), Dec(b)) <==> a <= DropDigits(b, |Dec(b)| - |Dec(a)|)
  {
    DecWidthMonotone(a, b);
    var x, y := Dec(a), Dec(b);
    if |x| == |y| {
      DecSameWidth(a, b);
    } else {
      DecOrderAcrossWidths(a, b, DropDigits(b, |y| - |x|));
    }
  }

  lemma DecOrderAcrossWidths(a: nat, b: nat, q: nat)
    requires |Dec(a)| < |Dec(b)| && q == DropDigits(b, |Dec(b)| - |Dec(a)|)
    ensures Less(Dec(a), Dec(b)) <==> a <= q
  {
    var x, y := Dec(a), Dec(b);
    DecDropDigits(b, |y| - |x|);
    var rest := y[|x|..];
    assert y == Dec(q) + rest && x + "" == x;
    DecSameWidth(a, q);
    if a == q {
      LessUnderPrefix(x, "", rest);
    } else {
      if x == Dec(q) { DecInjective(a, q); }
      LessByHead(x, Dec(q), "", rest);
    }
  }
}
