/** The fixed-width timestamp text every SQL comparison in the store relies on
    (ports/clock.py, persistence/_helpers.py). The calendar is the proleptic Gregorian one of
    Python's `datetime`. The text has one width for every instant, which makes byte order the
    order of time, and it reads back as the instant it was written from. */
module Timestamps {
  import opened Wrappers
  import opened Sequences

  // ---- The calendar ----------------------------------------------------------

  /** A UTC date-time as Python's `datetime` stores it. */
  datatype DateTime = DateTime(
    year: nat, month: nat, day: nat,
    hour: nat, minute: nat, second: nat, micro: nat)

  predicate Leap(y: nat) {
    y % 4 == 0 && (y % 100 != 0 || y % 400 == 0)
  }

  function DaysInMonth(y: nat, m: nat): nat {
    if m == 2 then (if Leap(y) then 29 else 28)
    else if m == 4 || m == 6 || m == 9 || m == 11 then 30
    else 31
  }

  predicate Valid(t: DateTime) {
    && 1 <= t.year <= 9999
    && 1 <= t.month <= 12
    && 1 <= t.day <= DaysInMonth(t.year, t.month)
    && t.hour < 24 && t.minute < 60 && t.second < 60 && t.micro < 1_000_000
  }

  function DaysBeforeMonth(y: nat, m: nat): nat {
    if m <= 1 then 0 else DaysBeforeMonth(y, m - 1) + DaysInMonth(y, m - 1)
  }

  /** A year is the sum of its twelve months. */
  function DaysBeforeYear(y: nat): nat {
    if y <= 1 then 0 else DaysBeforeYear(y - 1) + DaysBeforeMonth(y - 1, 13)
  }

  function DayNumber(t: DateTime): nat {
    DaysBeforeYear(t.year) + DaysBeforeMonth(t.year, t.month) + t.day
  }

  /** Microseconds on the time line: the meaning of "earlier". */
  function Instant(t: DateTime): nat {
    (((DayNumber(t) * 24 + t.hour) * 60 + t.minute) * 60 + t.second) * 1_000_000 + t.micro
  }

  lemma {:induction false} MonthsGrow(y: nat, m: nat, n: nat)
    requires 1 <= m < n
    ensures DaysBeforeMonth(y, m) + DaysInMonth(y, m) <= DaysBeforeMonth(y, n)
    decreases n
  {
    if m < n - 1 {
      MonthsGrow(y, m, n - 1);
    }
  }

  lemma {:induction false} YearsGrow(y: nat, z: nat)
    requires 1 <= y < z
    ensures DaysBeforeYear(y) + DaysBeforeMonth(y, 13) <= DaysBeforeYear(z)
    decreases z
  {
    if y < z - 1 {
      YearsGrow(y, z - 1);
    }
  }

  lemma YearLength(y: nat)
    ensures DaysBeforeMonth(y, 13) == if Leap(y) then 366 else 365
  {
    var leap := if Leap(y) then 1 else 0;
    assert DaysBeforeMonth(y, 2) == 31;
    assert DaysBeforeMonth(y, 4) == 90 + leap;
    assert DaysBeforeMonth(y, 6) == 151 + leap;
    assert DaysBeforeMonth(y, 8) == 212 + leap;
    assert DaysBeforeMonth(y, 10) == 273 + leap;
    assert DaysBeforeMonth(y, 12) == 334 + leap;
  }

  lemma Step4(n: nat)
    requires 0 < n
    ensures n / 4 == (n - 1) / 4 + if n % 4 == 0 then 1 else 0
  {
  }

  lemma Step100(n: nat)
    requires 0 < n
    ensures n / 100 == (n - 1) / 100 + if n % 100 == 0 then 1 else 0
    ensures n % 100 == 0 ==> n % 4 == 0
  {
    var q := n / 100;
    assert n % 100 == 0 ==> n == 4 * (25 * q);
  }

  lemma Step400(n: nat)
    requires 0 < n
    ensures n / 400 == (n - 1) / 400 + if n % 400 == 0 then 1 else 0
    ensures n % 400 == 0 ==> n % 100 == 0
  {
    var q := n / 400;
    assert n % 400 == 0 ==> n == 100 * (4 * q);
  }

  /** The closed form the standard library uses for the proleptic Gregorian calendar. */
  lemma {:induction false} YearClosedForm(y: nat)
    requires 1 <= y
    ensures DaysBeforeYear(y) == 365 * (y - 1) + LeapDays(y - 1)
  {
    if y > 1 {
      YearClosedForm(y - 1);
      OneYear(y - 1);
    }
  }

  lemma OneYear(y: nat)
    requires 1 <= y
    ensures DaysBeforeYear(y + 1) - DaysBeforeYear(y) == 365 + LeapDays(y) - LeapDays(y - 1)
  {
    YearLength(y);
    LeapDaysStep(y);
  }

  /** Leap years up to and including year `n`. */
  function LeapDays(n: nat): int {
    n / 4 - n / 100 + n / 400
  }

  lemma LeapDaysStep(n: nat)
    requires 0 < n
    ensures LeapDays(n) == LeapDays(n - 1) + if Leap(n) then 1 else 0
  {
    Step4(n);
    Step100(n);
    Step400(n);
  }

  predicate DateBefore(a: DateTime, b: DateTime) {
    || a.year < b.year
    || (a.year == b.year && a.month < b.month)
    || (a.year == b.year && a.month == b.month && a.day < b.day)
  }

  predicate FieldsBefore(a: DateTime, b: DateTime) {
    || DateBefore(a, b)
    || (!DateBefore(b, a) && (
          || a.hour < b.hour
          || (a.hour == b.hour && a.minute < b.minute)
          || (a.hour == b.hour && a.minute == b.minute && a.second < b.second)
          || (a.hour == b.hour && a.minute == b.minute && a.second == b.second && a.micro < b.micro)))
  }

  lemma DateBeforeMeansFewerDays(a: DateTime, b: DateTime)
    requires Valid(a) && Valid(b) && DateBefore(a, b)
    ensures DayNumber(a) < DayNumber(b)
  {
    MonthsGrow(a.year, a.month, 13);
    if a.year < b.year {
      YearsGrow(a.year, b.year);
    } else if a.month < b.month {
      MonthsGrow(a.year, a.month, b.month);
    }
  }

  /** Comparing field by field is comparing on the time line. */
  lemma FieldsBeforeIsEarlier(a: DateTime, b: DateTime)
    requires Valid(a) && Valid(b)
    ensures FieldsBefore(a, b) <==> Instant(a) < Instant(b)
  {
    if DateBefore(a, b) {
      DateBeforeMeansFewerDays(a, b);
    } else if DateBefore(b, a) {
      DateBeforeMeansFewerDays(b, a);
    } else {
      assert DayNumber(a) == DayNumber(b);
    }
  }

  // ---- Writing ---------------------------------------------------------------

  const DIGITS := "0123456789"

  function Power10(w: nat): nat {
    if w == 0 then 1 else 10 * Power10(w - 1)
  }

  lemma Powers()
    ensures Power10(2) == 100 && Power10(4) == 10_000 && Power10(6) == 1_000_000
  {
    assert Power10(2) == 100;
    assert Power10(4) == 10_000;
  }

  /** The low `w` decimal digits of `n`, zero-padded. */
  function Digits(n: nat, w: nat): (s: string)
    ensures |s| == w
  {
    if w == 0 then "" else Digits(n / 10, w - 1) + [DIGITS[n % 10]]
  }

  function TimeText(t: DateTime): string {
    Digits(t.hour, 2) + (":" + (Digits(t.minute, 2) + (":" + Digits(t.second, 2))))
  }

  function DateText(t: DateTime): string {
    Digits(t.year, 4) + ("-" + (Digits(t.month, 2) + ("-" + Digits(t.day, 2))))
  }

  /** `YYYY-MM-DDTHH:MM:SS.ffffffZ`, the fraction always six digits wide. */
  function IsoZ(t: DateTime): string {
    DateText(t) + ("T" + (TimeText(t) + ("." + (Digits(t.micro, 6) + "Z"))))
  }

  // ---- Order of texts --------------------------------------------------------

  /** Texts of one width are compared prefix first. */
  lemma {:induction false} PrefixFirst(p: string, q: string, s: string, t: string)
    requires |p| == |q|
    ensures StringLess(p + s, q + t) <==> StringLess(p, q) || (p == q && StringLess(s, t))
  {
    if p == "" {
      assert p + s == s && q + t == t;
    } else {
      assert (p + s)[1..] == p[1..] + s && (q + t)[1..] == q[1..] + t;
      PrefixFirst(p[1..], q[1..], s, t);
      assert p == [p[0]] + p[1..] && q == [q[0]] + q[1..];
    }
  }

  lemma {:induction false} DigitsOrder(n: nat, m: nat, w: nat)
    requires n < Power10(w) && m < Power10(w)
    ensures StringLess(Digits(n, w), Digits(m, w)) <==> n < m
    ensures Digits(n, w) == Digits(m, w) <==> n == m
  {
    if w > 0 {
      DigitsOrder(n / 10, m / 10, w - 1);
      var c, d := [DIGITS[n % 10]], [DIGITS[m % 10]];
      PrefixFirst(Digits(n / 10, w - 1), Digits(m / 10, w - 1), c, d);
      assert Digits(n, w)[..w - 1] == Digits(n / 10, w - 1) && Digits(n, w)[w - 1] == c[0];
      assert Digits(m, w)[..w - 1] == Digits(m / 10, w - 1) && Digits(m, w)[w - 1] == d[0];
      OneDigitOrder(n % 10, m % 10);
    }
  }

  lemma OneDigitOrder(a: nat, b: nat)
    requires a < 10 && b < 10
    ensures StringLess([DIGITS[a]], [DIGITS[b]]) <==> a < b
    ensures DIGITS[a] == DIGITS[b] <==> a == b
  {
    assert [DIGITS[a]][1..] == "" && [DIGITS[b]][1..] == "";
  }

  /** A number of fixed width, then the rest. */
  lemma NumberFirst(n: nat, m: nat, w: nat, s: string, t: string)
    requires n < Power10(w) && m < Power10(w)
    ensures StringLess(Digits(n, w) + s, Digits(m, w) + t) <==> n < m || (n == m && StringLess(s, t))
  {
    DigitsOrder(n, m, w);
    PrefixFirst(Digits(n, w), Digits(m, w), s, t);
  }

  lemma SeparatorFirst(c: char, s: string, t: string)
    ensures StringLess([c] + s, [c] + t) <==> StringLess(s, t)
  {
    PrefixFirst([c], [c], s, t);
    StringLessTotal([c], [c]);
  }

  lemma DateTextOrder(a: DateTime, b: DateTime, s: string, t: string)
    requires Valid(a) && Valid(b)
    ensures StringLess(DateText(a) + s, DateText(b) + t)
       <==> DateBefore(a, b) || (!DateBefore(b, a) && StringLess(s, t))
  {
    Powers();
    var da, db := Digits(a.day, 2) + s, Digits(b.day, 2) + t;
    var ma, mb := Digits(a.month, 2) + ("-" + da), Digits(b.month, 2) + ("-" + db);
    assert DateText(a) + s == Digits(a.year, 4) + ("-" + ma);
    assert DateText(b) + t == Digits(b.year, 4) + ("-" + mb);
    NumberFirst(a.year, b.year, 4, "-" + ma, "-" + mb);
    SeparatorFirst('-', ma, mb);
    NumberFirst(a.month, b.month, 2, "-" + da, "-" + db);
    SeparatorFirst('-', da, db);
    NumberFirst(a.day, b.day, 2, s, t);
  }

  predicate ClockBefore(a: DateTime, b: DateTime) {
    || a.hour < b.hour
    || (a.hour == b.hour && a.minute < b.minute)
    || (a.hour == b.hour && a.minute == b.minute && a.second < b.second)
  }

  lemma TimeTextOrder(a: DateTime, b: DateTime, s: string, t: string)
    requires Valid(a) && Valid(b)
    ensures StringLess(TimeText(a) + s, TimeText(b) + t)
       <==> ClockBefore(a, b) || (!ClockBefore(b, a) && StringLess(s, t))
  {
    Powers();
    var sa, sb := Digits(a.second, 2) + s, Digits(b.second, 2) + t;
    var ma, mb := Digits(a.minute, 2) + (":" + sa), Digits(b.minute, 2) + (":" + sb);
    assert TimeText(a) + s == Digits(a.hour, 2) + (":" + ma);
    assert TimeText(b) + t == Digits(b.hour, 2) + (":" + mb);
    NumberFirst(a.hour, b.hour, 2, ":" + ma, ":" + mb);
    SeparatorFirst(':', ma, mb);
    NumberFirst(a.minute, b.minute, 2, ":" + sa, ":" + sb);
    SeparatorFirst(':', sa, sb);
    NumberFirst(a.second, b.second, 2, s, t);
  }

  /** Byte order of stored timestamps is chronological order. */
  lemma ByteOrderIsChronological(a: DateTime, b: DateTime)
    requires Valid(a) && Valid(b)
    ensures StringLess(IsoZ(a), IsoZ(b)) <==> Instant(a) < Instant(b)
    ensures |IsoZ(a)| == |IsoZ(b)| == 27
  {
    var fa, fb := Digits(a.micro, 6) + "Z", Digits(b.micro, 6) + "Z";
    var ta, tb := TimeText(a) + ("." + fa), TimeText(b) + ("." + fb);
    DateTextOrder(a, b, "T" + ta, "T" + tb);
    SeparatorFirst('T', ta, tb);
    TimeTextOrder(a, b, "." + fa, "." + fb);
    SeparatorFirst('.', fa, fb);
    Powers();
    NumberFirst(a.micro, b.micro, 6, "Z", "Z");
    StringLessTotal("Z", "Z");
    FieldsBeforeIsEarlier(a, b);
  }

  /** The variable-width form `datetime.isoformat` gives by default. */
  function ShortIsoZ(t: DateTime): string {
    DateText(t) + ("T" + (TimeText(t) + if t.micro == 0 then "Z" else "." + (Digits(t.micro, 6) + "Z")))
  }

  /** Why the fraction is never omitted: the short form of a whole second sorts after every
      later instant of that same second. */
  lemma ShortFormMisorders(t: DateTime, later: DateTime)
    requires Valid(t) && Valid(later) && t.micro == 0 < later.micro && later == t.(micro := later.micro)
    ensures Instant(t) < Instant(later) && StringLess(ShortIsoZ(later), ShortIsoZ(t))
  {
    var s := "." + (Digits(later.micro, 6) + "Z");
    assert StringLess(s, "Z");
    TimeTextOrder(later, t, s, "Z");
    SeparatorFirst('T', TimeText(later) + s, TimeText(t) + "Z");
    DateTextOrder(later, t, "T" + (TimeText(later) + s), "T" + (TimeText(t) + "Z"));
  }

  // ---- Reading ---------------------------------------------------------------

  predicate IsDigit(c: char) {
    '0' <= c <= '9'
  }

  function DigitValue(c: char): nat
    requires IsDigit(c)
  {
    c as int - '0' as int
  }

  predicate AllDigits(s: string) {
    forall i :: 0 <= i < |s| ==> IsDigit(s[i])
  }

  function Number(s: string): nat
    requires AllDigits(s)
  {
    if s == "" then 0 else 10 * Number(s[..|s| - 1]) + DigitValue(s[|s| - 1])
  }

  lemma {:induction false} NumberOfDigits(n: nat, w: nat)
    requires n < Power10(w)
    ensures AllDigits(Digits(n, w)) && Number(Digits(n, w)) == n
  {
    if w > 0 {
      NumberOfDigits(n / 10, w - 1);
      DigitOf(n % 10);
      NumberAppend(Digits(n / 10, w - 1), DIGITS[n % 10]);
    }
  }

  lemma DigitOf(d: nat)
    requires d < 10
    ensures IsDigit(DIGITS[d]) && DigitValue(DIGITS[d]) == d
  {
  }

  lemma NumberAppend(s: string, c: char)
    requires AllDigits(s) && IsDigit(c)
    ensures AllDigits(s + [c]) && Number(s + [c]) == 10 * Number(s) + DigitValue(c)
  {
    assert (s + [c])[..|s|] == s;
  }

  datatype ParseError = Unparseable | NoTimezone

  /** `value.replace("Z", "+00:00")`: every occurrence is replaced. */
  function ReplaceZ(s: string): string {
    if s == "" then "" else (if s[0] == 'Z' then "+00:00" else [s[0]]) + ReplaceZ(s[1..])
  }

  function Normalize(s: string): string {
    if s != "" && s[|s| - 1] == 'Z' then ReplaceZ(s) else s
  }

  predicate DateShape(s: string)
  {
    && |s| == 10 && s[4] == '-' && s[7] == '-'
    && AllDigits(s[0..4]) && AllDigits(s[5..7]) && AllDigits(s[8..10])
  }

  predicate TimeShape(s: string)
  {
    && |s| == 8 && s[2] == ':' && s[5] == ':'
    && AllDigits(s[0..2]) && AllDigits(s[3..5]) && AllDigits(s[6..8])
  }

  /** `datetime.fromisoformat` on the full and the whole-second layout, with or without
      the `+00:00` offset. */
  function FromIsoFormat(s: string): Result<DateTime, ParseError> {
    if |s| < 19 || !DateShape(s[0..10]) || s[10] != 'T' || !TimeShape(s[11..19]) then
      Failure(Unparseable)
    else
      var rest := s[19..];
      var fraction := if |rest| >= 7 && rest[0] == '.' && AllDigits(rest[1..7]) then rest[1..7] else "";
      var offset := if fraction == "" then rest else rest[7..];
      var d, c := s[0..10], s[11..19];
      var t := DateTime(
        Number(d[0..4]), Number(d[5..7]), Number(d[8..10]),
        Number(c[0..2]), Number(c[3..5]), Number(c[6..8]), Number(fraction));
      if !Valid(t) || (offset != "" && offset != "+00:00") then Failure(Unparseable)
      else if offset == "" then Failure(NoTimezone)
      else Success(t)
  }

  function ParseIsoZ(s: string): Result<DateTime, ParseError> {
    FromIsoFormat(Normalize(s))
  }

  lemma {:induction false} ReplaceZConcat(a: string, b: string)
    ensures ReplaceZ(a + b) == ReplaceZ(a) + ReplaceZ(b)
  {
    if a == "" {
      assert a + b == b;
    } else {
      assert (a + b)[1..] == a[1..] + b;
      ReplaceZConcat(a[1..], b);
    }
  }

  lemma {:induction false} ReplaceZAbsent(s: string)
    requires 'Z' !in s
    ensures ReplaceZ(s) == s
  {
    if s != "" {
      ReplaceZAbsent(s[1..]);
      assert s == [s[0]] + s[1..];
    }
  }

  lemma DateTextShape(t: DateTime)
    requires Valid(t)
    ensures var d := DateText(t);
            && DateShape(d)
            && Number(d[0..4]) == t.year && Number(d[5..7]) == t.month && Number(d[8..10]) == t.day
  {
    Powers();
    NumberOfDigits(t.year, 4);
    NumberOfDigits(t.month, 2);
    NumberOfDigits(t.day, 2);
    DatePieces(Digits(t.year, 4), Digits(t.month, 2), Digits(t.day, 2));
  }

  lemma DatePieces(y: string, m: string, d: string)
    requires |y| == 4 && |m| == 2 && |d| == 2
    ensures var text := y + ("-" + (m + ("-" + d)));
            && |text| == 10 && text[0..4] == y && text[5..7] == m && text[8..10] == d
            && text[4] == '-' && text[7] == '-'
  {
  }

  lemma TimeTextShape(t: DateTime)
    requires Valid(t)
    ensures var c := TimeText(t);
            && TimeShape(c)
            && Number(c[0..2]) == t.hour && Number(c[3..5]) == t.minute && Number(c[6..8]) == t.second
  {
    Powers();
    NumberOfDigits(t.hour, 2);
    NumberOfDigits(t.minute, 2);
    NumberOfDigits(t.second, 2);
    var c := TimeText(t);
    assert c[0..2] == Digits(t.hour, 2);
    assert c[3..5] == Digits(t.minute, 2);
    assert c[6..8] == Digits(t.second, 2);
  }

  predicate Spells(s: string, n: nat) {
    AllDigits(s) && Number(s) == n
  }

  /** The stored form: separators in their places, and each group of digits between them spells
      its field. */
  lemma IsoZForm(t: DateTime)
    requires Valid(t)
    ensures var s := IsoZ(t);
            && |s| == 27 && s[10] == 'T' && s[19] == '.' && s[26] == 'Z'
            && s[4] == '-' && s[7] == '-' && Spells(s[0..4], t.year) && Spells(s[5..7], t.month) && Spells(s[8..10], t.day)
            && s[13] == ':' && s[16] == ':' && Spells(s[11..13], t.hour) && Spells(s[14..16], t.minute)
            && Spells(s[17..19], t.second) && Spells(s[20..26], t.micro)
  {
    DateTextShape(t);
    TimeTextShape(t);
    Powers();
    NumberOfDigits(t.micro, 6);
    var s, d, c := IsoZ(t), DateText(t), TimeText(t);
    assert s[0..4] == d[0..4] && s[5..7] == d[5..7] && s[8..10] == d[8..10];
    assert s[11..13] == c[0..2] && s[14..16] == c[3..5] && s[17..19] == c[6..8];
    assert s[20..26] == Digits(t.micro, 6);
  }

  lemma {:induction false} DigitsHaveNoZ(n: nat, w: nat)
    ensures 'Z' !in Digits(n, w)
  {
    if w > 0 {
      DigitsHaveNoZ(n / 10, w - 1);
    }
  }

  lemma TextsHaveNoZ(t: DateTime)
    ensures 'Z' !in DateText(t) && 'Z' !in TimeText(t) && 'Z' !in Digits(t.micro, 6)
  {
    DigitsHaveNoZ(t.year, 4);
    DigitsHaveNoZ(t.month, 2);
    DigitsHaveNoZ(t.day, 2);
    DigitsHaveNoZ(t.hour, 2);
    DigitsHaveNoZ(t.minute, 2);
    DigitsHaveNoZ(t.second, 2);
    DigitsHaveNoZ(t.micro, 6);
  }

  lemma ReplaceOnlySuffix(body: string)
    requires 'Z' !in body
    ensures ReplaceZ(body + "Z") == body + "+00:00"
  {
    ReplaceZConcat(body, "Z");
    ReplaceZAbsent(body);
    assert "Z"[1..] == "";
  }

  /** The suffix is the only Z, so normalizing replaces nothing else. */
  lemma NormalizedText(t: DateTime)
    ensures Normalize(IsoZ(t))
         == DateText(t) + ("T" + (TimeText(t) + ("." + (Digits(t.micro, 6) + "+00:00"))))
  {
    TextsHaveNoZ(t);
    var d, c, f := DateText(t), TimeText(t), Digits(t.micro, 6);
    var body := d + ("T" + (c + ("." + f)));
    assert 'Z' !in body;
    assert IsoZ(t) == body + "Z";
    ReplaceOnlySuffix(body);
    assert body + "+00:00" == d + ("T" + (c + ("." + (f + "+00:00"))));
  }

  /** What is stored reads back unchanged. */
  lemma RoundTrip(t: DateTime)
    requires Valid(t)
    ensures ParseIsoZ(IsoZ(t)) == Success(t)
  {
    DateTextShape(t);
    TimeTextShape(t);
    NormalizedText(t);
    var f := Digits(t.micro, 6);
    Powers();
    NumberOfDigits(t.micro, 6);
    var s := Normalize(IsoZ(t));
    var rest := s[19..];
    assert s[0..10] == DateText(t) && s[10] == 'T';
    assert s[11..19] == TimeText(t);
    assert rest == "." + (f + "+00:00");
    assert rest[1..7] == f;
    assert rest[7..] == "+00:00";
  }

  /** Distinct instants have distinct texts. */
  lemma IsoZInjective(a: DateTime, b: DateTime)
    requires Valid(a) && Valid(b) && IsoZ(a) == IsoZ(b)
    ensures a == b
  {
    RoundTrip(a);
    RoundTrip(b);
  }
}
