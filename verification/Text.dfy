/** Strings: byte order, suffixes, decimal digits. */
module Text {
  import opened Wrappers

  // ----- Order

  /** The order of Rust strings: first difference decides, a proper prefix comes first. */
  predicate Less(a: string, b: string) {
    if b == "" then false
    else if a == "" then true
    else a[0] < b[0] || (a[0] == b[0] && Less(a[1..], b[1..]))
  }

  /** The strings agree up to `k`, where the first ends or has the smaller character. */
  ghost predicate SmallerAt(a: string, b: string, k: nat) {
    k <= |a| && k < |b| && a[..k] == b[..k] && (k == |a| || a[k] < b[k])
  }

  lemma {:induction false} LessIff(a: string, b: string)
    ensures Less(a, b) <==> exists k: nat :: SmallerAt(a, b, k)
  {
    if a == "" && b != "" {
      assert SmallerAt(a, b, 0);
    } else if a != "" && b != "" {
      LessIff(a[1..], b[1..]);
      if a[0] < b[0] { assert SmallerAt(a, b, 0); }
      if k: nat :| SmallerAt(a[1..], b[1..], k) {
        if a[0] == b[0] {
          assert a[..k + 1] == [a[0]] + a[1..][..k] && b[..k + 1] == [b[0]] + b[1..][..k];
          assert SmallerAt(a, b, k + 1);
        }
      }
      if k: nat :| SmallerAt(a, b, k) {
        if k > 0 {
          assert a[..k][0] == a[0] && b[..k][0] == b[0];
          assert a[1..][..k - 1] == a[..k][1..] && b[1..][..k - 1] == b[..k][1..];
          assert SmallerAt(a[1..], b[1..], k - 1);
        }
      }
    }
  }

  lemma {:induction false} LessIrreflexive(a: string)
    ensures !Less(a, a)
  {
    if a != "" { LessIrreflexive(a[1..]); }
  }

  lemma {:induction false} LessTransitive(a: string, b: string, c: string)
    requires Less(a, b) && Less(b, c)
    ensures Less(a, c)
  {
    if a != "" && a[0] == b[0] == c[0] { LessTransitive(a[1..], b[1..], c[1..]); }
  }

  lemma {:induction false} LessTotal(a: string, b: string)
    ensures Less(a, b) || a == b || Less(b, a)
  {
    if a != "" && b != "" && a[0] == b[0] {
      LessTotal(a[1..], b[1..]);
      assert a == [a[0]] + a[1..] && b == [b[0]] + b[1..];
    }
  }

  /** Two strings of equal length keep their strict order whatever is appended to each. */
  lemma {:induction false} LessExtends(a: string, b: string, x: string, y: string)
    requires |a| == |b| && Less(a, b)
    ensures Less(a + x, b + y)
  {
    assert (a + x)[1..] == a[1..] + x && (b + y)[1..] == b[1..] + y;
    if a[0] == b[0] { LessExtends(a[1..], b[1..], x, y); }
  }

  /** A common prefix does not change the order. */
  lemma {:induction false} LessAfterPrefix(p: string, a: string, b: string)
    ensures Less(p + a, p + b) <==> Less(a, b)
  {
    if p == "" {
      assert p + a == a && p + b == b;
    } else {
      assert (p + a)[1..] == p[1..] + a && (p + b)[1..] == p[1..] + b;
      LessAfterPrefix(p[1..], a, b);
    }
  }

  // ----- Suffixes

  predicate EndsWith(s: string, suffix: string) {
    |suffix| <= |s| && s[|s| - |suffix|..] == suffix
  }

  lemma SuffixDecidesLast(s: string, suffix: string)
    requires EndsWith(s, suffix) && suffix != ""
    ensures s[|s| - 1] == suffix[|suffix| - 1]
  {
    assert s[|s| - |suffix|..][|suffix| - 1] == s[|s| - 1];
  }

  /** What stands between a common prefix and a common suffix is determined. */
  lemma MiddleIsUnique(p: string, x: string, y: string, q: string)
    requires p + x + q == p + y + q
    ensures x == y
  {
    var s := p + x + q;
    assert |x| == |y|;
    assert x == s[|p|..|p| + |x|] && y == s[|p|..|p| + |y|];
  }

  /** A string splits in only one way at its last dash. */
  lemma LastDashIsUnique(a: string, b: string, c: string, d: string)
    requires a + "-" + b == c + "-" + d
    requires '-' !in b && '-' !in d
    ensures a == c && b == d
  {
    var s := a + "-" + b;
    assert s[|a|] == '-' && s[|c|] == '-';
    assert forall i :: |a| < i < |s| ==> s[i] in b;
    assert forall i :: |c| < i < |s| ==> s[i] in d;
    assert |a| == |c|;
    assert s[..|a|] == a && s[..|c|] == c;
    assert s[|a| + 1..] == b && s[|c| + 1..] == d;
  }

  // ----- Decimal digits

  function Digit(n: nat): (c: char)
    requires n < 10
    ensures '0' <= c <= '9'
  {
    ("0123456789")[n]
  }

  /** Decimal digits without leading zeros. */
  function Decimal(n: nat): (s: string)
    ensures s != ""
  {
    if n < 10 then [Digit(n)] else Decimal(n / 10) + [Digit(n % 10)]
  }

  function Zeros(n: nat): (s: string)
    ensures |s| == n && forall i :: 0 <= i < n ==> s[i] == '0'
  {
    seq(n, i => '0')
  }

  /** Zero-padded on the left to at least `width` characters. */
  function PadLeft(s: string, width: nat): string {
    if |s| >= width then s else Zeros(width - |s|) + s
  }

  /** Exactly `width` digits of `n`. */
  function Digits(n: nat, width: nat): (s: string)
    ensures |s| == width
    ensures forall i :: 0 <= i < width ==> '0' <= s[i] <= '9'
  {
    if width == 0 then "" else Digits(n / 10, width - 1) + [Digit(n % 10)]
  }

  function Pow10(k: nat): (p: nat)
    ensures p > 0
  {
    if k == 0 then 1 else 10 * Pow10(k - 1)
  }

  lemma {:induction false} DigitsOfZero(width: nat)
    ensures Digits(0, width) == Zeros(width)
  {
    if width > 0 { DigitsOfZero(width - 1); }
  }

  /** Padding the plain decimal form of a number that fits gives its fixed-width form. */
  lemma {:induction false} PaddedDecimal(n: nat, width: nat)
    requires width > 0 && n < Pow10(width)
    ensures PadLeft(Decimal(n), width) == Digits(n, width)
  {
    if n < 10 {
      DigitsOfZero(width - 1);
      assert n / 10 == 0 && n % 10 == n;
    } else {
      assert width > 1;
      PaddedDecimal(n / 10, width - 1);
      var front := Decimal(n / 10);
      assert |Digits(n / 10, width - 1)| == width - 1;
      assert PadLeft(front + [Digit(n % 10)], width) == PadLeft(front, width - 1) + [Digit(n % 10)];
    }
  }

  lemma DigitLess(m: nat, n: nat)
    requires m < n < 10
    ensures Less([Digit(m)], [Digit(n)])
  {
    assert Digit(m) < Digit(n);
  }

  /** Fixed-width digit strings order exactly as the numbers. */
  lemma {:induction false} DigitsOrder(m: nat, n: nat, width: nat)
    requires m < n < Pow10(width)
    ensures Less(Digits(m, width), Digits(n, width))
  {
    var p, q := m / 10, n / 10;
    var a, b := Digits(p, width - 1), Digits(q, width - 1);
    if p < q {
      DigitsOrder(p, q, width - 1);
      LessExtends(a, b, [Digit(m % 10)], [Digit(n % 10)]);
    } else {
      DigitLess(m % 10, n % 10);
      LessAfterPrefix(a, [Digit(m % 10)], [Digit(n % 10)]);
    }
  }

  /** Twenty digits are enough for every 64-bit number. */
  lemma U64FitsTwentyDigits(n: u64)
    ensures n < Pow10(20)
  {
    assert Pow10(5) == 100_000;
    assert Pow10(10) == 10_000_000_000;
    assert Pow10(15) == 1_000_000_000_000_000;
  }
}
