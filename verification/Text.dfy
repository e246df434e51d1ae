/** Code-point order of strings and zero-padded decimal fields. */
module Text {

  /** `a < b` as Python and SQLite (BINARY collation) compare ASCII text. */
  predicate Less(a: string, b: string) {
    b != [] && (a == [] || a[0] < b[0] || (a[0] == b[0] && Less(a[1..], b[1..])))
  }

  lemma {:induction false} LessIrreflexive(a: string)
    ensures !Less(a, a)
  {
    if a != [] {
      LessIrreflexive(a[1..]);
    }
  }

  lemma {:induction false} LessTransitive(a: string, b: string, c: string)
    requires Less(a, b) && Less(b, c)
    ensures Less(a, c)
  {
    if a != [] && a[0] == b[0] && b[0] == c[0] {
      LessTransitive(a[1..], b[1..], c[1..]);
    }
  }

  lemma {:induction false} LessTotal(a: string, b: string)
    ensures Less(a, b) || a == b || Less(b, a)
  {
    if a != [] && b != [] && a[0] == b[0] {
      LessTotal(a[1..], b[1..]);
      assert a == [a[0]] + a[1..] && b == [b[0]] + b[1..];
    }
  }

  /** A common prefix does not matter to the order. */
  lemma {:induction false} LessAfterPrefix(p: string, a: string, b: string)
    ensures Less(p + a, p + b) == Less(a, b)
  {
    if p == [] {
      assert p + a == a && p + b == b;
    } else {
      LessAfterPrefix(p[1..], a, b);
      assert (p + a)[1..] == p[1..] + a && (p + b)[1..] == p[1..] + b;
    }
  }

  /** Two different prefixes of one length decide the order alone. */
  lemma {:induction false} LessByPrefix(a: string, b: string, x: string, y: string)
    requires |a| == |b| && a != b
    ensures Less(a + x, b + y) == Less(a, b)
  {
    assert (a + x)[0] == a[0] && (b + y)[0] == b[0];
    if a[0] == b[0] {
      assert a == [a[0]] + a[1..] && b == [b[0]] + b[1..];
      assert (a + x)[1..] == a[1..] + x && (b + y)[1..] == b[1..] + y;
      LessByPrefix(a[1..], b[1..], x, y);
    }
  }

  // ----- decimal fields -----

  function Pow10(w: nat): nat {
    if w == 0 then 1 else 10 * Pow10(w - 1)
  }

  function Digit(n: nat): (c: char)
    requires n < 10
    ensures '0' <= c <= '9'
  {
    (n as char + '0')
  }

  /** `f"{n:0{w}d}"` for a number of at most `w` digits. */
  function Pad(n: nat, w: nat): (s: string)
    ensures |s| == w
  {
    if w == 0 then [] else Pad(n / 10, w - 1) + [Digit(n % 10)]
  }

  function DigitValue(c: char): nat {
    if '0' <= c <= '9' then (c - '0') as nat else 0
  }

  function ParseDigits(s: string): nat {
    if s == [] then 0 else 10 * ParseDigits(s[..|s| - 1]) + DigitValue(s[|s| - 1])
  }

  lemma {:induction false} ParseDigitsPad(n: nat, w: nat)
    requires n < Pow10(w)
    ensures ParseDigits(Pad(n, w)) == n
    decreases w
  {
    if w > 0 {
      ParseDigitsPad(n / 10, w - 1);
      var s := Pad(n, w);
      assert s[..|s| - 1] == Pad(n / 10, w - 1) && s[|s| - 1] == Digit(n % 10);
    }
  }

  lemma {:induction false} PadOrdered(m: nat, n: nat, w: nat)
    requires m < n < Pow10(w)
    ensures Pad(m, w) != Pad(n, w) && Less(Pad(m, w), Pad(n, w))
    decreases w
  {
    if w > 0 {
      if m / 10 < n / 10 {
        PadOrdered(m / 10, n / 10, w - 1);
        LessByPrefix(Pad(m / 10, w - 1), Pad(n / 10, w - 1), [Digit(m % 10)], [Digit(n % 10)]);
        assert Pad(m, w)[..w - 1] == Pad(m / 10, w - 1) && Pad(n, w)[..w - 1] == Pad(n / 10, w - 1);
      } else {
        LessAfterPrefix(Pad(m / 10, w - 1), [Digit(m % 10)], [Digit(n % 10)]);
        assert Pad(m, w)[w - 1] == Digit(m % 10) && Pad(n, w)[w - 1] == Digit(n % 10);
      }
    }
  }

  /** Text made of a fixed-width field and a rest compares by the field, then the rest. */
  lemma {:induction false} FieldOrder(m: nat, n: nat, w: nat, x: string, y: string)
    requires m < Pow10(w) && n < Pow10(w)
    ensures Less(Pad(m, w) + x, Pad(n, w) + y) <==> m < n || (m == n && Less(x, y))
  {
    if m == n {
      LessAfterPrefix(Pad(m, w), x, y);
    } else if m < n {
      PadOrdered(m, n, w);
      LessByPrefix(Pad(m, w), Pad(n, w), x, y);
    } else {
      PadOrdered(n, m, w);
      LessByPrefix(Pad(m, w), Pad(n, w), x, y);
      if Less(Pad(m, w), Pad(n, w)) {
        LessTransitive(Pad(m, w), Pad(n, w), Pad(m, w));
        LessIrreflexive(Pad(m, w));
      }
    }
  }
}
