/** The text form of an instant in the state database and how its order relates to time. */
module TextTime {
  import opened Text

  const SECOND: int := 1_000_000_000

  /** A UTC second in the proleptic Gregorian calendar. */
  datatype Civil = Civil(year: nat, month: nat, day: nat, hour: nat, minute: nat, second: nat)

  datatype Instant = Instant(civil: Civil, nanos: nat)

  predicate Leap(y: nat) {
    y % 4 == 0 && (y % 100 != 0 || y % 400 == 0)
  }

  function DaysInMonth(y: nat, m: nat): (d: nat)
    requires 1 <= m <= 12
    ensures 28 <= d <= 31
  {
    if m == 2 then (if Leap(y) then 29 else 28)
    else if m == 4 || m == 6 || m == 9 || m == 11 then 30 else 31
  }

  predicate ValidCivil(c: Civil) {
    && c.year <= 9999
    && 1 <= c.month <= 12
    && 1 <= c.day <= DaysInMonth(c.year, c.month)
    && c.hour < 24 && c.minute < 60 && c.second < 60
  }

  predicate Valid(t: Instant) {
    ValidCivil(t.civil) && t.nanos < SECOND
  }

  /** Days from year 0 to the first of January of `y`. */
  function DaysBeforeYear(y: nat): nat {
    if y == 0 then 0 else DaysBeforeYear(y - 1) + (if Leap(y - 1) then 366 else 365)
  }

  function DaysBeforeMonth(y: nat, m: nat): nat
    requires 1 <= m <= 13
  {
    if m == 1 then 0 else DaysBeforeMonth(y, m - 1) + DaysInMonth(y, m - 1)
  }

  function Days(c: Civil): int
    requires ValidCivil(c)
  {
    DaysBeforeYear(c.year) + DaysBeforeMonth(c.year, c.month) + c.day - 1
  }

  /** Seconds since the start of year 0. */
  function Seconds(c: Civil): int
    requires ValidCivil(c)
  {
    ((Days(c) * 24 + c.hour) * 60 + c.minute) * 60 + c.second
  }

  /** Nanoseconds since the start of year 0: the chronological order of instants. */
  function Nanos(t: Instant): int
    requires Valid(t)
  {
    Seconds(t.civil) * SECOND + t.nanos
  }

  function TrimZeros(s: string): (t: string)
    ensures |t| <= |s| && t == s[..|t|]
    ensures |t| > 0 ==> t[|t|-1] != '0'
    ensures forall i :: |t| <= i < |s| ==> s[i] == '0'
  {
    if |s| > 0 && s[|s|-1] == '0' then TrimZeros(s[..|s|-1]) else s
  }

  /** The digits RFC3339Nano keeps of a fraction: nine places without trailing zeros. */
  function Fraction(nanos: nat): string {
    TrimZeros(Digits(nanos, 9))
  }

  function FractionText(f: string): string {
    (if f == "" then "" else "." + f) + "Z"
  }

  function DateText(c: Civil): string {
    Digits(c.year, 4) + ("-" + (Digits(c.month, 2) + ("-" + Digits(c.day, 2))))
  }

  function ClockText(c: Civil): string {
    Digits(c.hour, 2) + (":" + (Digits(c.minute, 2) + (":" + Digits(c.second, 2))))
  }

  function SecondText(c: Civil): (s: string)
    ensures |s| == 19
  {
    DateText(c) + ("T" + ClockText(c))
  }

  /** encodeTime: UTC in RFC3339Nano. */
  function EncodeTime(t: Instant): string {
    SecondText(t.civil) + FractionText(Fraction(t.nanos))
  }

  lemma DateFields(c: Civil)
    ensures var s := DateText(c);
      && |s| == 10 && s[4] == s[7] == '-'
      && s[..4] == Digits(c.year, 4) && s[5..7] == Digits(c.month, 2) && s[8..] == Digits(c.day, 2)
  {
    var month := Digits(c.month, 2) + ("-" + Digits(c.day, 2));
    assert month[..2] == Digits(c.month, 2) && month[2] == '-' && month[3..] == Digits(c.day, 2);
    assert DateText(c) == Digits(c.year, 4) + ("-" + month);
    assert DateText(c)[5..] == month;
    assert DateText(c)[5..7] == month[..2] && DateText(c)[8..] == month[3..] && DateText(c)[7] == month[2];
  }

  lemma ClockFields(c: Civil)
    ensures var s := ClockText(c);
      && |s| == 8 && s[2] == s[5] == ':'
      && s[..2] == Digits(c.hour, 2) && s[3..5] == Digits(c.minute, 2) && s[6..] == Digits(c.second, 2)
  {
    var minute := Digits(c.minute, 2) + (":" + Digits(c.second, 2));
    assert minute[..2] == Digits(c.minute, 2) && minute[2] == ':' && minute[3..] == Digits(c.second, 2);
    assert ClockText(c) == Digits(c.hour, 2) + (":" + minute);
    assert ClockText(c)[3..] == minute;
    assert ClockText(c)[3..5] == minute[..2] && ClockText(c)[6..] == minute[3..] && ClockText(c)[5] == minute[2];
  }

  /** Where each field of an instant stands in its text: fixed-width fields, then the nine digits of the fraction
      without their trailing zeros, and no point when none is left. */
  lemma TextLayout(t: Instant)
    ensures var s, c := EncodeTime(t), t.civil;
      && |s| >= 20 && s[10] == 'T'
      && var date, clock := s[..10], s[11..19];
         && date[4] == date[7] == '-' && clock[2] == clock[5] == ':'
         && date[..4] == Digits(c.year, 4) && date[5..7] == Digits(c.month, 2) && date[8..] == Digits(c.day, 2)
         && clock[..2] == Digits(c.hour, 2) && clock[3..5] == Digits(c.minute, 2) && clock[6..] == Digits(c.second, 2)
    ensures var f := Fraction(t.nanos);
      && EncodeTime(t)[19..] == (if f == "" then "Z" else "." + f + "Z")
      && |f| <= 9 && Digits(t.nanos, 9)[..|f|] == f && (f != "" ==> f[|f|-1] != '0')
      && forall i :: |f| <= i < 9 ==> Digits(t.nanos, 9)[i] == '0'
  {
    var c, s := t.civil, EncodeTime(t);
    DateFields(c);
    ClockFields(c);
    assert s[..19] == SecondText(c) && s[19..] == FractionText(Fraction(t.nanos));
    assert s[..10] == DateText(c) && s[10] == 'T' && s[11..19] == ClockText(c);
  }

  // ---- the calendar is monotone ----

  predicate CivilLess(a: Civil, b: Civil) {
    || a.year < b.year
    || (a.year == b.year && (|| a.month < b.month
       || (a.month == b.month && (|| a.day < b.day
          || (a.day == b.day && (|| a.hour < b.hour
             || (a.hour == b.hour && (|| a.minute < b.minute
                || (a.minute == b.minute && a.second < b.second)))))))))
  }

  lemma {:induction false} MonthsFit(y: nat, m: nat, n: nat)
    requires 1 <= m <= n <= 13
    ensures m < n ==> DaysBeforeMonth(y, m) + DaysInMonth(y, m) <= DaysBeforeMonth(y, n)
    ensures DaysBeforeMonth(y, 13) == if Leap(y) then 366 else 365
    decreases n - m
  {
    assert DaysBeforeMonth(y, 4) == 31 + DaysInMonth(y, 2) + 31 by {
      assert DaysBeforeMonth(y, 2) == 31;
      assert DaysBeforeMonth(y, 3) == 31 + DaysInMonth(y, 2);
    }
    assert DaysBeforeMonth(y, 7) == DaysBeforeMonth(y, 4) + 91 by {
      assert DaysBeforeMonth(y, 5) == DaysBeforeMonth(y, 4) + 30;
      assert DaysBeforeMonth(y, 6) == DaysBeforeMonth(y, 5) + 31;
    }
    assert DaysBeforeMonth(y, 10) == DaysBeforeMonth(y, 7) + 92 by {
      assert DaysBeforeMonth(y, 8) == DaysBeforeMonth(y, 7) + 31;
      assert DaysBeforeMonth(y, 9) == DaysBeforeMonth(y, 8) + 31;
    }
    assert DaysBeforeMonth(y, 13) == DaysBeforeMonth(y, 10) + 92 by {
      assert DaysBeforeMonth(y, 11) == DaysBeforeMonth(y, 10) + 31;
      assert DaysBeforeMonth(y, 12) == DaysBeforeMonth(y, 11) + 30;
    }
    if m + 1 < n {
      MonthsFit(y, m, n - 1);
    }
  }

  lemma {:induction false} YearsFit(y: nat, z: nat)
    requires y < z
    ensures DaysBeforeYear(y) + (if Leap(y) then 366 else 365) <= DaysBeforeYear(z)
    decreases z
  {
    if y + 1 < z {
      YearsFit(y, z - 1);
    }
  }

  lemma DaysMonotone(a: Civil, b: Civil)
    requires ValidCivil(a) && ValidCivil(b)
    requires a.year < b.year || (a.year == b.year && (a.month < b.month || (a.month == b.month && a.day < b.day)))
    ensures Days(a) < Days(b)
  {
    MonthsFit(a.year, a.month, 13);
    if a.year < b.year {
      YearsFit(a.year, b.year);
    } else if a.month < b.month {
      MonthsFit(a.year, a.month, b.month);
    }
  }

  lemma CivilLessIsEarlier(a: Civil, b: Civil)
    requires ValidCivil(a) && ValidCivil(b)
    requires CivilLess(a, b)
    ensures Seconds(a) < Seconds(b)
  {
    if a.year != b.year || a.month != b.month || a.day != b.day {
      DaysMonotone(a, b);
    }
  }

  lemma SecondsOrder(a: Civil, b: Civil)
    requires ValidCivil(a) && ValidCivil(b)
    ensures CivilLess(a, b) <==> Seconds(a) < Seconds(b)
    ensures a == b <==> Seconds(a) == Seconds(b)
  {
    if CivilLess(a, b) {
      CivilLessIsEarlier(a, b);
    } else if CivilLess(b, a) {
      CivilLessIsEarlier(b, a);
    }
  }

  // ---- text order ----

  lemma SameSeparator(s: char, a: string, b: string)
    ensures LexLess([s] + a, [s] + b) <==> LexLess(a, b)
    ensures [s] + a == [s] + b <==> a == b
  {
    LexIrreflexive([s]);
    LexAppend([s], [s], a, b);
    assert ([s] + a)[1..] == a && ([s] + b)[1..] == b;
  }

  /** One field of width `w`, a separator, and the rest. */
  lemma FieldOrder(n: nat, m: nat, w: nat, s: char, a: string, b: string)
    requires n < Pow10(w) && m < Pow10(w)
    ensures LexLess(Digits(n, w) + ([s] + a), Digits(m, w) + ([s] + b)) <==> n < m || (n == m && LexLess(a, b))
    ensures Digits(n, w) + ([s] + a) == Digits(m, w) + ([s] + b) <==> n == m && a == b
  {
    DigitsOrder(n, m, w);
    SameSeparator(s, a, b);
    LexAppend(Digits(n, w), Digits(m, w), [s] + a, [s] + b);
    if Digits(n, w) + ([s] + a) == Digits(m, w) + ([s] + b) {
      assert (Digits(n, w) + ([s] + a))[..w] == Digits(n, w) && (Digits(m, w) + ([s] + b))[..w] == Digits(m, w);
      assert (Digits(n, w) + ([s] + a))[w..] == [s] + a && (Digits(m, w) + ([s] + b))[w..] == [s] + b;
    }
  }

  lemma PowValues()
    ensures Pow10(2) == 100 && Pow10(4) == 10000 && Pow10(9) == 1_000_000_000
  {
    assert Pow10(1) == 10 && Pow10(2) == 100 && Pow10(3) == 1000 && Pow10(4) == 10000;
    assert Pow10(5) == 100000 && Pow10(6) == 1000000 && Pow10(7) == 10000000 && Pow10(8) == 100000000;
  }

  lemma DateTextOrder(a: Civil, b: Civil)
    requires ValidCivil(a) && ValidCivil(b)
    ensures LexLess(DateText(a), DateText(b)) <==>
      a.year < b.year || (a.year == b.year && (a.month < b.month || (a.month == b.month && a.day < b.day)))
    ensures DateText(a) == DateText(b) <==> a.year == b.year && a.month == b.month && a.day == b.day
  {
    PowValues();
    DigitsOrder(a.day, b.day, 2);
    FieldOrder(a.month, b.month, 2, '-', Digits(a.day, 2), Digits(b.day, 2));
    FieldOrder(a.year, b.year, 4, '-', Digits(a.month, 2) + ("-" + Digits(a.day, 2)),
      Digits(b.month, 2) + ("-" + Digits(b.day, 2)));
  }

  lemma ClockTextOrder(a: Civil, b: Civil)
    requires ValidCivil(a) && ValidCivil(b)
    ensures LexLess(ClockText(a), ClockText(b)) <==>
      a.hour < b.hour || (a.hour == b.hour && (a.minute < b.minute || (a.minute == b.minute && a.second < b.second)))
    ensures ClockText(a) == ClockText(b) <==> a.hour == b.hour && a.minute == b.minute && a.second == b.second
  {
    PowValues();
    DigitsOrder(a.second, b.second, 2);
    FieldOrder(a.minute, b.minute, 2, ':', Digits(a.second, 2), Digits(b.second, 2));
    FieldOrder(a.hour, b.hour, 2, ':', Digits(a.minute, 2) + (":" + Digits(a.second, 2)),
      Digits(b.minute, 2) + (":" + Digits(b.second, 2)));
  }

  lemma SecondTextOrder(a: Civil, b: Civil)
    requires ValidCivil(a) && ValidCivil(b)
    ensures LexLess(SecondText(a), SecondText(b)) <==> Seconds(a) < Seconds(b)
    ensures SecondText(a) == SecondText(b) <==> Seconds(a) == Seconds(b)
  {
    DateTextOrder(a, b);
    ClockTextOrder(a, b);
    SameSeparator('T', ClockText(a), ClockText(b));
    LexAppend(DateText(a), DateText(b), "T" + ClockText(a), "T" + ClockText(b));
    assert SecondText(a)[..10] == DateText(a) && SecondText(b)[..10] == DateText(b);
    assert SecondText(a)[11..] == ClockText(a) && SecondText(b)[11..] == ClockText(b);
    SecondsOrder(a, b);
  }

  /** Across different UTC seconds the text order is the chronological order. */
  lemma SecondsDecide(a: Instant, b: Instant)
    requires Valid(a) && Valid(b)
    requires a.civil != b.civil
    ensures LexLess(EncodeTime(a), EncodeTime(b)) <==> Nanos(a) < Nanos(b)
  {
    SecondTextOrder(a.civil, b.civil);
    SecondsOrder(a.civil, b.civil);
    LexAppend(SecondText(a.civil), SecondText(b.civil), FractionText(Fraction(a.nanos)),
      FractionText(Fraction(b.nanos)));
  }

  predicate ProperPrefix(a: string, b: string) {
    |a| < |b| && a == b[..|a|]
  }

  /** Two digit strings that differ, trimmed: either the earlier one is a proper prefix of the later one,
      or the trimmed texts part at a digit. */
  lemma TrimmedPart(s: string, t: string) returns (i: nat)
    requires |s| == |t| && LexLess(s, t) && (forall k :: 0 <= k < |s| ==> '0' <= s[k])
    ensures i < |TrimZeros(t)|
    ensures || ProperPrefix(TrimZeros(s), TrimZeros(t))
            || (i < |TrimZeros(s)| && TrimZeros(s)[..i] == TrimZeros(t)[..i] && TrimZeros(s)[i] < TrimZeros(t)[i])
  {
    i := FirstDifference(s, t);
    var f, g := TrimZeros(s), TrimZeros(t);
    assert i < |g|;
    assert g[..i] == t[..i];
    if |f| <= i {
      assert f == s[..i][..|f|] == g[..|f|];
    } else {
      assert f[..i] == s[..i];
    }
  }

  lemma {:induction false} FirstDifference(a: string, b: string) returns (i: nat)
    requires |a| == |b| && LexLess(a, b)
    ensures i < |a| && a[..i] == b[..i] && a[i] < b[i]
  {
    if a[0] < b[0] {
      i := 0;
    } else {
      var j := FirstDifference(a[1..], b[1..]);
      i := j + 1;
      assert a[..i] == [a[0]] + a[1..][..j] && b[..i] == [b[0]] + b[1..][..j];
    }
  }

  /** A fraction that runs on sorts before one that ends: a digit, or the point, comes before 'Z'. */
  lemma LongerFirst(f: string, g: string)
    requires ProperPrefix(f, g) && '0' <= g[|f|] <= '9'
    ensures LexLess(FractionText(g), FractionText(f))
  {
    var x, y := FractionText(f), FractionText(g);
    if f == "" {
      assert x[0] == 'Z' && y[0] == '.';
      LexAt(y, x, 0);
    } else {
      var k := |f| + 1;
      assert x[..k] == "." + f && y[..k] == "." + g[..|f|];
      assert x[k] == 'Z' && y[k] == g[|f|];
      LexAt(y, x, k);
    }
  }

  lemma PartedFirst(f: string, g: string, i: nat)
    requires i < |f| && i < |g| && f[..i] == g[..i] && f[i] < g[i]
    ensures LexLess(FractionText(f), FractionText(g))
  {
    var x, y := FractionText(f), FractionText(g);
    assert x[..i+1] == "." + f[..i] && y[..i+1] == "." + g[..i];
    assert x[i+1] == f[i] && y[i+1] == g[i];
    LexAt(x, y, i + 1);
  }

  lemma FractionTextOrder(s: string, t: string)
    requires |s| == |t| && LexLess(s, t) && (forall k :: 0 <= k < |s| ==> '0' <= s[k] <= '9' && '0' <= t[k] <= '9')
    ensures var f, g := TrimZeros(s), TrimZeros(t);
      if ProperPrefix(f, g) then LexLess(FractionText(g), FractionText(f))
        else LexLess(FractionText(f), FractionText(g))
  {
    var f, g := TrimZeros(s), TrimZeros(t);
    if ProperPrefix(f, g) {
      assert g[|f|] == t[|f|];
      LongerFirst(f, g);
    } else {
      var i := TrimmedPart(s, t);
      PartedFirst(f, g, i);
    }
  }

  /** Within one second the text order is reversed exactly when the earlier trimmed fraction is a proper
      prefix of the later one. */
  lemma FractionDecides(a: Instant, b: Instant)
    requires Valid(a) && Valid(b)
    requires a.civil == b.civil && a.nanos < b.nanos
    ensures LexLess(EncodeTime(a), EncodeTime(b)) <==> !ProperPrefix(Fraction(a.nanos), Fraction(b.nanos))
    ensures LexLess(EncodeTime(b), EncodeTime(a)) <==> ProperPrefix(Fraction(a.nanos), Fraction(b.nanos))
  {
    var p := SecondText(a.civil);
    LexIrreflexive(p);
    var x, y := FractionText(Fraction(a.nanos)), FractionText(Fraction(b.nanos));
    LexAppend(p, p, x, y);
    LexAppend(p, p, y, x);
    PowValues();
    DigitsOrder(a.nanos, b.nanos, 9);
    FractionTextOrder(Digits(a.nanos, 9), Digits(b.nanos, 9));
    if ProperPrefix(Fraction(a.nanos), Fraction(b.nanos)) {
      LexAsymmetric(y, x);
    } else {
      LexAsymmetric(x, y);
    }
  }

  /** `scheduled_at >= boundary` as the database evaluates it. */
  predicate TextAtLeast(t: Instant, boundary: Instant) {
    !LexLess(EncodeTime(t), EncodeTime(boundary))
  }

  lemma WholeSecondHasNoFraction()
    ensures Fraction(0) == ""
    ensures forall n :: 0 < n < SECOND ==> Fraction(n) != ""
  {
    PowValues();
    forall n | 0 < n < SECOND
      ensures Fraction(n) != ""
    {
      DigitsOrder(0, n, 9);
      var i := FirstDifference(Digits(0, 9), Digits(n, 9));
      assert Digits(n, 9)[i] != '0';
    }
    ZeroDigits(9);
  }

  lemma {:induction false} ZeroDigits(w: nat)
    ensures forall i :: 0 <= i < w ==> Digits(0, w)[i] == '0'
  {
    if w > 0 {
      ZeroDigits(w - 1);
    }
  }

  /** Against a whole-second boundary, such as midnight, the text filter keeps the boundary itself and
      everything from one second later on, and loses the rest of that first second. */
  lemma BoundaryFilter(t: Instant, boundary: Instant)
    requires Valid(t) && Valid(boundary) && boundary.nanos == 0
    ensures TextAtLeast(t, boundary) <==> Nanos(t) == Nanos(boundary) || Nanos(t) >= Nanos(boundary) + SECOND
  {
    WholeSecondHasNoFraction();
    SecondsOrder(t.civil, boundary.civil);
    if t.civil != boundary.civil {
      SecondsDecide(t, boundary);
    } else if t.nanos == 0 {
      LexIrreflexive(EncodeTime(t));
    } else {
      FractionDecides(boundary, t);
    }
  }

  /** Membership of a tick in the `[start, end)` day filter differs from true membership exactly in the
      first second after either boundary. */
  lemma DayFilter(t: Instant, start: Instant, end: Instant)
    requires Valid(t) && Valid(start) && Valid(end)
    requires start.nanos == 0 && end.nanos == 0 && Nanos(start) < Nanos(end)
    ensures (TextAtLeast(t, start) && !TextAtLeast(t, end)) <==>
      || (Nanos(start) <= Nanos(t) < Nanos(end) && !(Nanos(start) < Nanos(t) < Nanos(start) + SECOND))
      || Nanos(end) < Nanos(t) < Nanos(end) + SECOND
  {
    BoundaryFilter(t, start);
    BoundaryFilter(t, end);
    WholeSeconds(start, end);
  }

  lemma WholeSeconds(a: Instant, b: Instant)
    requires Valid(a) && Valid(b) && a.nanos == 0 && b.nanos == 0 && Nanos(a) < Nanos(b)
    ensures Nanos(a) + SECOND <= Nanos(b)
  {
    assert Seconds(a.civil) < Seconds(b.civil);
  }
}
