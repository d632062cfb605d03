/**
 UTC timestamps stored as text, `YYYY-MM-DDTHH:MM:SS[.fff[fff[fff]]]+00:00`. The tables sort and compare
 these strings; for four-digit years that is comparing the instants.
 */
module Timestamps {
  import opened Wrappers
  import opened Text

  datatype Civil = Civil(year: nat, month: nat, day: nat, hour: nat, minute: nat, second: nat, nano: nat)

  predicate IsLeap(year: nat) {
    year % 4 == 0 && (year % 100 != 0 || year % 400 == 0)
  }

  function MonthLength(year: nat, month: nat): nat {
    if month == 2 then (if IsLeap(year) then 29 else 28)
    else if month == 4 || month == 6 || month == 9 || month == 11 then 30
    else 31
  }

  predicate Valid(c: Civil) {
    && c.year <= 9999 && 1 <= c.month <= 12 && 1 <= c.day <= MonthLength(c.year, c.month)
    && c.hour < 24 && c.minute < 60 && c.second < 60 && c.nano < NANOS_PER_SEC
  }

  // ----- The instant a civil time denotes

  function DaysBeforeMonth(year: nat, month: nat): nat {
    if month <= 1 then 0 else DaysBeforeMonth(year, month - 1) + MonthLength(year, month - 1)
  }

  function DaysBeforeYear(year: nat): nat {
    if year == 0 then 0 else DaysBeforeYear(year - 1) + DaysBeforeMonth(year - 1, 13)
  }

  function DayNumber(c: Civil): int {
    DaysBeforeYear(c.year) + DaysBeforeMonth(c.year, c.month) + c.day
  }

  function SecondOfDay(c: Civil): nat {
    c.hour * 3600 + c.minute * 60 + c.second
  }

  /** Nanoseconds since the start of year 0. */
  function InstantOf(c: Civil): Instant {
    (DayNumber(c) * 86400 + SecondOfDay(c)) * NANOS_PER_SEC + c.nano
  }

  /** The Gregorian calendar: every fourth year is a leap year, but of the centuries only every fourth. */
  lemma MonthLengths(year: nat, m: nat)
    requires m < 12
    ensures var leap := year % 400 == 0 || (year % 4 == 0 && year % 100 != 0);
            MonthLength(year, m + 1) == [31, if leap then 29 else 28, 31, 30, 31, 30, 31, 31, 30, 31, 30, 31][m]
  {}

  lemma NextMonth(year: nat, month: nat)
    requires month >= 1
    ensures DaysBeforeMonth(year, month + 1) == DaysBeforeMonth(year, month) + MonthLength(year, month)
  {}

  lemma {:induction false} DaysOfMonths(year: nat, n: nat)
    requires n <= 12
    ensures var february := if IsLeap(year) then 29 else 28;
            DaysBeforeMonth(year, n + 1) ==
              [0, 31, 31 + february, 62 + february, 92 + february, 123 + february, 153 + february, 184 + february,
               215 + february, 245 + february, 276 + february, 306 + february, 337 + february][n]
  {
    if n > 0 {
      DaysOfMonths(year, n - 1);
      NextMonth(year, n);
      MonthLengths(year, n - 1);
    }
  }

  lemma NextYear(year: nat)
    ensures DaysBeforeYear(year + 1) == DaysBeforeYear(year) + if IsLeap(year) then 366 else 365
  {
    DaysOfMonths(year, 12);
  }

  lemma {:induction false} MonthsAscend(year: nat, m: nat, n: nat)
    requires 1 <= m < n
    ensures DaysBeforeMonth(year, m) + MonthLength(year, m) <= DaysBeforeMonth(year, n)
  {
    if m < n - 1 { MonthsAscend(year, m, n - 1); }
  }

  lemma {:induction false} YearsAscend(y: nat, z: nat)
    requires y < z
    ensures DaysBeforeYear(y) + DaysBeforeMonth(y, 13) <= DaysBeforeYear(z)
  {
    if y < z - 1 { YearsAscend(y, z - 1); }
  }

  /** Calendar order: year, then month, then day. */
  predicate DateBefore(a: Civil, b: Civil) {
    a.year < b.year || (a.year == b.year && (a.month < b.month || (a.month == b.month && a.day < b.day)))
  }

  /** Clock order within a day. */
  predicate TimeBefore(a: Civil, b: Civil) {
    SecondOfDay(a) < SecondOfDay(b) || (SecondOfDay(a) == SecondOfDay(b) && a.nano < b.nano)
  }

  predicate SameDate(a: Civil, b: Civil) {
    a.year == b.year && a.month == b.month && a.day == b.day
  }

  lemma DateOrder(a: Civil, b: Civil)
    requires Valid(a) && Valid(b) && DateBefore(a, b)
    ensures DayNumber(a) < DayNumber(b)
  {
    MonthsAscend(a.year, a.month, 13);
    if a.year < b.year {
      YearsAscend(a.year, b.year);
    } else if a.month < b.month {
      MonthsAscend(a.year, a.month, b.month);
    }
  }

  /** A later civil time is a later instant. */
  lemma InstantOrder(a: Civil, b: Civil)
    requires Valid(a) && Valid(b)
    requires DateBefore(a, b) || (SameDate(a, b) && TimeBefore(a, b))
    ensures InstantOf(a) < InstantOf(b)
  {
    if DateBefore(a, b) { DateOrder(a, b); }
  }

  // ----- The text

  const ZONE := "+00:00"

  function Pick(none: bool, three: bool, six: bool, s3: string, s6: string, s9: string): string {
    if none then "" else if three then "." + s3 else if six then "." + s6 else "." + s9
  }

  /** No digits, or three, six or nine, whichever is exact. */
  function Fraction(nano: nat): string {
    Pick(nano == 0, nano % 1_000_000 == 0, nano % 1_000 == 0,
         Digits(nano / 1_000_000, 3), Digits(nano / 1_000, 6), Digits(nano, 9))
  }

  function TimeText(c: Civil): string {
    Digits(c.hour, 2) + (":" + (Digits(c.minute, 2) + (":" + (Digits(c.second, 2) + (Fraction(c.nano) + ZONE)))))
  }

  function Rfc3339(c: Civil): string {
    Digits(c.year, 4) + ("-" + (Digits(c.month, 2) + ("-" + (Digits(c.day, 2) + ("T" + TimeText(c))))))
  }

  /** Fixed-width digits followed by more text: the number decides, then the rest. */
  lemma FieldOrder(m: nat, n: nat, width: nat, x: string, y: string)
    requires m < Pow10(width) && n < Pow10(width)
    ensures m < n ==> Less(Digits(m, width) + x, Digits(n, width) + y)
    ensures m == n && Less(x, y) ==> Less(Digits(m, width) + x, Digits(n, width) + y)
  {
    if m < n {
      DigitsOrder(m, n, width);
      LessExtends(Digits(m, width), Digits(n, width), x, y);
    } else if m == n {
      LessAfterPrefix(Digits(m, width), x, y);
    }
  }

  lemma Decompose(n: nat, q: nat, h: nat, t: nat, u: nat)
    requires h < 10 && t < 10 && u < 10 && n == 1000 * q + 100 * h + 10 * t + u
    ensures n / 10 == 100 * q + 10 * h + t && n % 10 == u
    ensures n / 1000 == q && n % 1000 == 100 * h + 10 * t + u
  {}

  lemma LowDigits(n: nat)
    ensures n / 10 / 10 / 10 == n / 1000 && n % 1000 / 10 / 10 / 10 == 0
    ensures n % 1000 % 10 == n % 10
    ensures n % 1000 / 10 % 10 == n / 10 % 10
    ensures n % 1000 / 10 / 10 % 10 == n / 10 / 10 % 10
  {
    var tens, hundreds := n / 10, n / 10 / 10;
    Decompose(n, hundreds / 10, hundreds % 10, tens % 10, n % 10);
    Decompose(n % 1000, 0, hundreds % 10, tens % 10, n % 10);
  }

  lemma ThreeOf(n: nat, a: nat)
    ensures Digits(n, a + 3) ==
              Digits(n / 10 / 10 / 10, a) + [Digit(n / 10 / 10 % 10), Digit(n / 10 % 10), Digit(n % 10)]
  {
    assert Digits(n, a + 3) == Digits(n / 10, a + 2) + [Digit(n % 10)];
    assert Digits(n / 10, a + 2) == Digits(n / 10 / 10, a + 1) + [Digit(n / 10 % 10)];
    assert Digits(n / 10 / 10, a + 1) == Digits(n / 10 / 10 / 10, a) + [Digit(n / 10 / 10 % 10)];
  }

  /** The last three digits of a fixed-width number. */
  lemma ThreeDigits(n: nat, a: nat)
    ensures Digits(n, a + 3) == Digits(n / 1000, a) + Digits(n % 1000, 3)
  {
    LowDigits(n);
    ThreeOf(n, a);
    ThreeOf(n % 1000, 0);
    assert Digits(0, 0) == "";
  }

  function Tail(c: nat): string {
    if c == 0 then ZONE else Digits(c, 3) + ZONE
  }

  function Middle(b: nat, c: nat): string {
    if b == 0 && c == 0 then ZONE else Digits(b, 3) + Tail(c)
  }

  /** A fraction is made of groups of three digits, as few as are exact. */
  function Groups(a: nat, b: nat, c: nat): string {
    PickGroups(a == 0 && b == 0 && c == 0, b == 0 && c == 0, c == 0, Digits(a, 3), Digits(b, 3), Digits(c, 3))
  }

  predicate IsSplit(nano: nat, a: nat, b: nat, c: nat) {
    a < 1_000 && b < 1_000 && c < 1_000 && nano == a * 1_000_000 + b * 1_000 + c
  }

  lemma SplitParts(nano: nat, a: nat, b: nat, c: nat)
    requires IsSplit(nano, a, b, c)
    ensures nano / 1_000_000 == a && nano % 1_000_000 == b * 1_000 + c
    ensures nano / 1_000 == a * 1_000 + b && nano % 1_000 == c
  {}

  /** The last group of a number, split off; `w` stands for 3 so that nothing unrolls. */
  lemma LastGroup(n: nat, high: nat, low: nat, width: nat, w: nat)
    requires w == 3 && low < 1_000 && n == high * 1_000 + low
    ensures Digits(n, width + w) == Digits(high, width) + Digits(low, w)
  {
    ThreeDigits(n, width);
    assert n / 1000 == high && n % 1000 == low;
  }

  lemma SixDigits(a: nat, b: nat, w: nat)
    requires w == 3 && a < 1_000 && b < 1_000
    ensures Digits(a * 1_000 + b, w + w) == Digits(a, w) + Digits(b, w)
  {
    LastGroup(a * 1_000 + b, a, b, w, w);
  }

  lemma NineDigits(nano: nat, a: nat, b: nat, c: nat, w: nat)
    requires IsSplit(nano, a, b, c) && w == 3
    ensures Digits(nano, w + w + w) == Digits(a, w) + Digits(b, w) + Digits(c, w)
  {
    LastGroup(nano, a * 1_000 + b, c, w + w, w);
    SixDigits(a, b, w);
  }

  /** The same choice on the groups, the zone appended to the last one. */
  function PickGroups(none: bool, three: bool, six: bool, x: string, y: string, z: string): string {
    if none then ZONE
    else "." + (x + if three then ZONE else y + if six then ZONE else z + ZONE)
  }

  lemma PickedGroups(none: bool, three: bool, six: bool, x: string, y: string, z: string)
    ensures Pick(none, three, six, x, x + y, x + y + z) + ZONE == PickGroups(none, three, six, x, y, z)
  {
    assert ("." + x) + ZONE == "." + (x + ZONE);
    assert ("." + (x + y)) + ZONE == "." + (x + (y + ZONE));
    assert ("." + (x + y + z)) + ZONE == "." + (x + (y + (z + ZONE)));
  }

  lemma FractionPicks(nano: nat, a: nat, b: nat, c: nat)
    requires IsSplit(nano, a, b, c)
    ensures Fraction(nano) == Pick(nano == 0, b == 0 && c == 0, c == 0,
                                   Digits(a, 3), Digits(a * 1_000 + b, 6), Digits(nano, 9))
  {
    SplitParts(nano, a, b, c);
  }

  lemma GroupedDigits(nano: nat, a: nat, b: nat, c: nat)
    requires IsSplit(nano, a, b, c)
    ensures Digits(a * 1_000 + b, 6) == Digits(a, 3) + Digits(b, 3)
    ensures Digits(nano, 9) == Digits(a, 3) + Digits(b, 3) + Digits(c, 3)
  {
    SixDigits(a, b, 3);
    NineDigits(nano, a, b, c, 3);
  }

  lemma FractionIsGroups(nano: nat, a: nat, b: nat, c: nat)
    requires IsSplit(nano, a, b, c)
    ensures Fraction(nano) + ZONE == Groups(a, b, c)
  {
    FractionPicks(nano, a, b, c);
    GroupedDigits(nano, a, b, c);
    PickedGroups(nano == 0, b == 0 && c == 0, c == 0, Digits(a, 3), Digits(b, 3), Digits(c, 3));
  }

  /** The zone sign sorts before any digit and before the decimal point. */
  lemma ZoneIsLow(n: nat, width: nat, rest: string)
    requires width > 0
    ensures Less(ZONE, Digits(n, width) + rest) && Less(ZONE, "." + rest)
  {
    assert (Digits(n, width) + rest)[0] >= '0';
  }

  lemma TailOrder(c: nat, z: nat)
    requires c < z < 1_000
    ensures Less(Tail(c), Tail(z))
  {
    assert Pow10(3) == 1_000;
    if c == 0 { ZoneIsLow(z, 3, ZONE); } else { FieldOrder(c, z, 3, ZONE, ZONE); }
  }

  lemma MiddleOrder(b: nat, c: nat, y: nat, z: nat)
    requires b < 1_000 && y < 1_000 && z < 1_000 && (b < y || (b == y && c < z))
    ensures Less(Middle(b, c), Middle(y, z))
  {
    assert Pow10(3) == 1_000;
    if b == 0 && c == 0 {
      ZoneIsLow(y, 3, Tail(z));
    } else {
      if b == y { TailOrder(c, z); }
      FieldOrder(b, y, 3, Tail(c), Tail(z));
    }
  }

  lemma GroupsOrder(a: nat, b: nat, c: nat, x: nat, y: nat, z: nat)
    requires a < 1_000 && b < 1_000 && x < 1_000 && y < 1_000 && z < 1_000
    requires a < x || (a == x && (b < y || (b == y && c < z)))
    ensures Less(Groups(a, b, c), Groups(x, y, z))
  {
    assert Pow10(3) == 1_000;
    if a == 0 && b == 0 && c == 0 {
      ZoneIsLow(x, 3, Digits(x, 3) + Middle(y, z));
    } else {
      if a == x { MiddleOrder(b, c, y, z); }
      FieldOrder(a, x, 3, Middle(b, c), Middle(y, z));
      LessAfterPrefix(".", Digits(a, 3) + Middle(b, c), Digits(x, 3) + Middle(y, z));
    }
  }

  lemma Split(nano: nat) returns (a: nat, b: nat, c: nat)
    requires nano < NANOS_PER_SEC
    ensures IsSplit(nano, a, b, c)
  {
    var thousands := nano / 1_000;
    a, b, c := thousands / 1_000, thousands % 1_000, nano % 1_000;
  }

  lemma FractionOrder(m: nat, n: nat)
    requires m < n < NANOS_PER_SEC
    ensures Less(Fraction(m) + ZONE, Fraction(n) + ZONE)
  {
    var a, b, c := Split(m);
    var x, y, z := Split(n);
    FractionIsGroups(m, a, b, c);
    FractionIsGroups(n, x, y, z);
    GroupsOrder(a, b, c, x, y, z);
  }

  lemma TimeTextOrder(a: Civil, b: Civil)
    requires Valid(a) && Valid(b) && TimeBefore(a, b)
    ensures Less(TimeText(a), TimeText(b))
  {
    assert Pow10(2) == 100;
    var fa, fb := Fraction(a.nano) + ZONE, Fraction(b.nano) + ZONE;
    if a.hour == b.hour {
      if a.minute == b.minute {
        if a.second == b.second { FractionOrder(a.nano, b.nano); }
        FieldOrder(a.second, b.second, 2, fa, fb);
      }
      LessAfterPrefix(":", Digits(a.second, 2) + fa, Digits(b.second, 2) + fb);
      FieldOrder(a.minute, b.minute, 2, ":" + (Digits(a.second, 2) + fa), ":" + (Digits(b.second, 2) + fb));
    }
    var ma := Digits(a.minute, 2) + (":" + (Digits(a.second, 2) + fa));
    var mb := Digits(b.minute, 2) + (":" + (Digits(b.second, 2) + fb));
    LessAfterPrefix(":", ma, mb);
    FieldOrder(a.hour, b.hour, 2, ":" + ma, ":" + mb);
  }

  lemma TextOrder(a: Civil, b: Civil)
    requires Valid(a) && Valid(b)
    requires DateBefore(a, b) || (SameDate(a, b) && TimeBefore(a, b))
    ensures Less(Rfc3339(a), Rfc3339(b))
  {
    assert Pow10(2) == 100 && Pow10(4) == 10_000;
    var ta, tb := "T" + TimeText(a), "T" + TimeText(b);
    if SameDate(a, b) {
      TimeTextOrder(a, b);
      LessAfterPrefix("T", TimeText(a), TimeText(b));
    }
    var da, db := Digits(a.day, 2) + ta, Digits(b.day, 2) + tb;
    FieldOrder(a.day, b.day, 2, ta, tb);
    LessAfterPrefix("-", da, db);
    var ma, mb := Digits(a.month, 2) + ("-" + da), Digits(b.month, 2) + ("-" + db);
    FieldOrder(a.month, b.month, 2, "-" + da, "-" + db);
    LessAfterPrefix("-", ma, mb);
    FieldOrder(a.year, b.year, 4, "-" + ma, "-" + mb);
  }

  lemma CivilTrichotomy(a: Civil, b: Civil)
    requires Valid(a) && Valid(b)
    ensures a == b
            || DateBefore(a, b) || (SameDate(a, b) && TimeBefore(a, b))
            || DateBefore(b, a) || (SameDate(b, a) && TimeBefore(b, a))
  {
    if SameDate(a, b) && SecondOfDay(a) == SecondOfDay(b) {
      assert a.hour == b.hour && a.minute == b.minute && a.second == b.second;
    }
  }

  /**
   Stored timestamps sort as time: for years with four digits, comparing the texts is comparing the
   instants, whichever of the four fraction widths each one was printed with.
   */
  lemma TextOrderIsTimeOrder(a: Civil, b: Civil)
    requires Valid(a) && Valid(b)
    ensures Less(Rfc3339(a), Rfc3339(b)) <==> InstantOf(a) < InstantOf(b)
    ensures Rfc3339(a) == Rfc3339(b) <==> InstantOf(a) == InstantOf(b)
  {
    CivilTrichotomy(a, b);
    if a == b {
      LessIrreflexive(Rfc3339(a));
    } else if DateBefore(a, b) || (SameDate(a, b) && TimeBefore(a, b)) {
      InstantOrder(a, b);
      TextOrder(a, b);
      if Rfc3339(a) == Rfc3339(b) { LessIrreflexive(Rfc3339(a)); }
    } else {
      InstantOrder(b, a);
      TextOrder(b, a);
      if Less(Rfc3339(a), Rfc3339(b)) { LessTransitive(Rfc3339(a), Rfc3339(b), Rfc3339(a)); }
      LessIrreflexive(Rfc3339(a));
    }
  }
}
