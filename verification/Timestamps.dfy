/** RFC 3339 text as an index order.

    Timestamps are stored as chrono's `to_rfc3339` prints them for UTC: four-digit year, a fraction
    of 0, 3, 6 or 9 digits, and "+00:00".  SQL compares the texts; they sort as the instants do,
    although they differ in length.  An instant is a number of nanoseconds since 0000-01-01T00:00:00Z
    of the proleptic Gregorian calendar, without leap seconds. */
module Timestamps {
  import opened Seqs
  import opened Decimals

  type Instant = nat

  const SECOND := 1_000_000_000
  const DAY_SECONDS := 86_400

  // ---- The calendar ------------------------------------------------------------------------

  predicate IsLeap(year: nat) {
    year % 4 == 0 && (year % 100 != 0 || year % 400 == 0)
  }

  function MonthLength(year: nat, month: nat): (n: nat)
    ensures n <= 31
    ensures 1 <= month <= 12 ==> 28 <= n
  {
    if month in {1, 3, 5, 7, 8, 10, 12} then 31
    else if month in {4, 6, 9, 11} then 30
    else if month == 2 then if IsLeap(year) then 29 else 28
    else 0
  }

  /** Days of `year` before the first of `month`. */
  function BeforeMonth(year: nat, month: nat): nat {
    if month <= 1 then 0 else BeforeMonth(year, month - 1) + MonthLength(year, month - 1)
  }

  function YearLength(year: nat): nat {
    BeforeMonth(year, 13)
  }

  function BeforeYear(year: nat): nat {
    if year == 0 then 0 else BeforeYear(year - 1) + YearLength(year - 1)
  }

  datatype Civil = Civil(year: nat, month: nat, day: nat, hour: nat, minute: nat, second: nat, nano: nat) {
    predicate Valid() {
      && year <= 9999 && 1 <= month <= 12 && 1 <= day <= MonthLength(year, month)
      && hour < 24 && minute < 60 && second < 60 && nano < SECOND
    }

    function DayNumber(): nat
      requires Valid()
    {
      BeforeYear(year) + BeforeMonth(year, month) + (day - 1)
    }

    function SecondOfDay(): nat {
      (hour * 60 + minute) * 60 + second
    }

    function Seconds(): nat
      requires Valid()
    {
      DayNumber() * DAY_SECONDS + SecondOfDay()
    }

    function Instant(): Instant
      requires Valid()
    {
      Seconds() * SECOND + nano
    }
  }

  // ---- From instants to dates --------------------------------------------------------------

  function YearOf(day: nat, year: nat): nat
    requires BeforeYear(year) <= day
    decreases day - BeforeYear(year)
  {
    YearIsLong(year);
    if day < BeforeYear(year + 1) then year else YearOf(day, year + 1)
  }

  lemma {:induction false} YearIsLong(year: nat)
    ensures YearLength(year) >= 336
  {
    assert BeforeMonth(year, 12) <= BeforeMonth(year, 13);
    FebruaryAndMore(year, 13);
  }

  lemma {:induction false} FebruaryAndMore(year: nat, month: nat)
    requires 1 <= month <= 13
    ensures BeforeMonth(year, month) >= 28 * (month - 1)
  {
    if month > 1 {
      FebruaryAndMore(year, month - 1);
    }
  }

  lemma {:induction false} YearOfIs(day: nat, year: nat)
    requires BeforeYear(year) <= day
    ensures var y := YearOf(day, year); BeforeYear(y) <= day < BeforeYear(y) + YearLength(y)
    decreases day - BeforeYear(year)
  {
    YearIsLong(year);
    if day >= BeforeYear(year + 1) {
      YearOfIs(day, year + 1);
    }
  }

  function MonthOf(year: nat, day: nat, month: nat): nat
    requires 1 <= month <= 12
    decreases 12 - month
  {
    if month == 12 || day < BeforeMonth(year, month + 1) then month else MonthOf(year, day, month + 1)
  }

  lemma {:induction false} MonthOfIs(year: nat, day: nat, month: nat)
    requires 1 <= month <= 12 && BeforeMonth(year, month) <= day < YearLength(year)
    ensures
      var m := MonthOf(year, day, month);
      1 <= m <= 12 && BeforeMonth(year, m) <= day < BeforeMonth(year, m) + MonthLength(year, m)
    decreases 12 - month
  {
    if month < 12 && day >= BeforeMonth(year, month + 1) {
      MonthOfIs(year, day, month + 1);
    }
  }

  datatype Date = Date(year: nat, month: nat, day: nat)

  function DateOf(day: nat): Date {
    var year := YearOf(day, 0);
    YearOfIs(day, 0);
    DateInYear(year, day - BeforeYear(year))
  }

  function DateInYear(year: nat, day: nat): (d: Date)
    requires day < YearLength(year)
    ensures d.year == year && 1 <= d.month <= 12 && 1 <= d.day <= MonthLength(year, d.month)
    ensures BeforeMonth(year, d.month) + (d.day - 1) == day
  {
    var month := MonthOf(year, day, 1);
    MonthOfIs(year, day, 1);
    Date(year, month, day - BeforeMonth(year, month) + 1)
  }

  lemma {:induction false} DateOfIs(day: nat)
    ensures
      var d := DateOf(day);
      && 1 <= d.month <= 12 && 1 <= d.day <= MonthLength(d.year, d.month)
      && BeforeYear(d.year) + BeforeMonth(d.year, d.month) + (d.day - 1) == day
  {
    YearOfIs(day, 0);
  }

  function CivilOf(t: Instant): Civil {
    var seconds := t / SECOND;
    var d, rest := DateOf(seconds / DAY_SECONDS), seconds % DAY_SECONDS;
    Civil(d.year, d.month, d.day, rest / 3600, rest / 60 % 60, rest % 60, t % SECOND)
  }

  /** Within years of four digits. */
  predicate InRange(t: Instant) {
    DateOf(t / SECOND / DAY_SECONDS).year <= 9999
  }

  lemma {:induction false} BeforeYearGrows(a: nat, b: nat)
    requires a <= b
    ensures BeforeYear(a) <= BeforeYear(b)
  {
    if a < b {
      BeforeYearGrows(a, b - 1);
    }
  }

  /** Every instant of these years has a date and time. */
  lemma {:induction false} CivilOfIs(t: Instant)
    requires InRange(t)
    ensures CivilOf(t).Valid() && CivilOf(t).Instant() == t
  {
    var seconds := t / SECOND;
    var day, rest := seconds / DAY_SECONDS, seconds % DAY_SECONDS;
    var c := CivilOf(t);
    DateOfIs(day);
    ClockOf(rest);
    assert c.DayNumber() == day && c.SecondOfDay() == rest;
  }

  lemma {:induction false} ClockOf(rest: nat)
    requires rest < DAY_SECONDS
    ensures rest / 3600 < 24 && rest / 60 % 60 < 60 && rest % 60 < 60
    ensures (rest / 3600 * 60 + rest / 60 % 60) * 60 + rest % 60 == rest
  {
    var minutes := rest / 60;
    assert minutes / 60 == rest / 3600;
  }

  // ---- Dates in order ----------------------------------------------------------------------

  /** Lexicographic order. */
  predicate SeqLess(a: seq<nat>, b: seq<nat>) {
    b != [] && (a == [] || a[0] < b[0] || (a[0] == b[0] && SeqLess(a[1..], b[1..])))
  }

  function Fields(c: Civil): seq<nat> {
    [c.year, c.month, c.day, c.hour, c.minute, c.second]
  }

  lemma {:induction false} MonthsGrow(year: nat, a: nat, b: nat)
    requires 1 <= a < b <= 13
    ensures BeforeMonth(year, a) + MonthLength(year, a) <= BeforeMonth(year, b)
  {
    if a < b - 1 {
      MonthsGrow(year, a, b - 1);
    }
  }

  /** A later date has a later number. */
  lemma {:induction false} LaterDate(a: Civil, b: Civil)
    requires a.Valid() && b.Valid()
    requires a.year < b.year || (a.year == b.year && (a.month < b.month || (a.month == b.month && a.day < b.day)))
    ensures a.DayNumber() < b.DayNumber()
  {
    if a.year < b.year {
      MonthsGrow(a.year, a.month, 13);
      BeforeYearGrows(a.year + 1, b.year);
    } else if a.month < b.month {
      MonthsGrow(a.year, a.month, b.month);
    }
  }

  predicate DateLess(a: Civil, b: Civil) {
    a.year < b.year || (a.year == b.year && (a.month < b.month || (a.month == b.month && a.day < b.day)))
  }

  predicate SameDate(a: Civil, b: Civil) {
    a.year == b.year && a.month == b.month && a.day == b.day
  }

  predicate ClockLess(a: Civil, b: Civil) {
    a.hour < b.hour || (a.hour == b.hour && (a.minute < b.minute || (a.minute == b.minute && a.second < b.second)))
  }

  lemma {:induction false} SeqLessCons(x: nat, s: seq<nat>, y: nat, t: seq<nat>)
    ensures SeqLess([x] + s, [y] + t) <==> x < y || (x == y && SeqLess(s, t))
    ensures [x] + s == [y] + t <==> x == y && s == t
  {
    assert ([x] + s)[1..] == s && ([y] + t)[1..] == t;
    assert ([x] + s)[0] == x && ([y] + t)[0] == y;
  }

  lemma {:induction false} FieldsInOrder(a: Civil, b: Civil)
    ensures SeqLess(Fields(a), Fields(b)) <==> DateLess(a, b) || (SameDate(a, b) && ClockLess(a, b))
    ensures Fields(a) == Fields(b) <==> SameDate(a, b) && a.hour == b.hour && a.minute == b.minute && a.second == b.second
  {
    var s0: seq<nat>, t0: seq<nat> := [], [];
    var s1, t1 := [a.second] + s0, [b.second] + t0;
    var s2, t2 := [a.minute] + s1, [b.minute] + t1;
    var s3, t3 := [a.hour] + s2, [b.hour] + t2;
    var s4, t4 := [a.day] + s3, [b.day] + t3;
    var s5, t5 := [a.month] + s4, [b.month] + t4;
    assert Fields(a) == [a.year] + s5 && Fields(b) == [b.year] + t5;
    SeqLessCons(a.second, s0, b.second, t0);
    SeqLessCons(a.minute, s1, b.minute, t1);
    SeqLessCons(a.hour, s2, b.hour, t2);
    SeqLessCons(a.day, s3, b.day, t3);
    SeqLessCons(a.month, s4, b.month, t4);
    SeqLessCons(a.year, s5, b.year, t5);
  }

  lemma {:induction false} ClockInOrder(a: Civil, b: Civil)
    requires a.Valid() && b.Valid()
    ensures a.SecondOfDay() < DAY_SECONDS
    ensures a.SecondOfDay() < b.SecondOfDay() <==> ClockLess(a, b)
    ensures a.SecondOfDay() == b.SecondOfDay() <==> a.hour == b.hour && a.minute == b.minute && a.second == b.second
  {
  }

  lemma {:induction false} Mixed(d: nat, x: nat, e: nat, y: nat)
    requires x < DAY_SECONDS && y < DAY_SECONDS
    ensures d * DAY_SECONDS + x < e * DAY_SECONDS + y <==> d < e || (d == e && x < y)
    ensures d * DAY_SECONDS + x == e * DAY_SECONDS + y <==> d == e && x == y
  {
  }

  lemma {:induction false} DatesInOrder(a: Civil, b: Civil)
    requires a.Valid() && b.Valid()
    ensures a.DayNumber() < b.DayNumber() <==> DateLess(a, b)
    ensures a.DayNumber() == b.DayNumber() <==> SameDate(a, b)
  {
    if DateLess(a, b) {
      LaterDate(a, b);
    } else if DateLess(b, a) {
      LaterDate(b, a);
    }
  }

  lemma {:induction false} SecondsInOrder(a: Civil, b: Civil)
    requires a.Valid() && b.Valid()
    ensures a.Seconds() < b.Seconds() <==> SeqLess(Fields(a), Fields(b))
    ensures a.Seconds() == b.Seconds() <==> Fields(a) == Fields(b)
  {
    FieldsInOrder(a, b);
    ClockInOrder(a, b);
    ClockInOrder(b, a);
    DatesInOrder(a, b);
    Mixed(a.DayNumber(), a.SecondOfDay(), b.DayNumber(), b.SecondOfDay());
  }

  /** The order of instants, field by field. */
  lemma {:induction false} InstantsInOrder(a: Civil, b: Civil)
    requires a.Valid() && b.Valid()
    ensures a.Instant() < b.Instant()
      <==> SeqLess(Fields(a), Fields(b)) || (Fields(a) == Fields(b) && a.nano < b.nano)
  {
    SecondsInOrder(a, b);
  }

  // ---- Text --------------------------------------------------------------------------------

  /** SQLite's BINARY collation, on ASCII. */
  predicate TextLess(a: string, b: string) {
    b != [] && (a == [] || a[0] < b[0] || (a[0] == b[0] && TextLess(a[1..], b[1..])))
  }

  /** `n` with `width` digits. */
  function Digits(n: nat, width: nat): (s: string)
    ensures |s| == width && AllDigits(s)
  {
    if width == 0 then "" else Digits(n / 10, width - 1) + [('0' as int + n % 10) as char]
  }

  const WIDTHS: seq<nat> := [4, 2, 2, 2, 2, 2]
  const MARKS := "--T::"

  /** The fields, each with its width and followed by its mark; the last has none. */
  function FieldsText(values: seq<nat>, widths: seq<nat>, marks: string): string
    requires |values| == |widths| == |marks| + 1
  {
    if marks == [] then Digits(values[0], widths[0])
    else Digits(values[0], widths[0]) + [marks[0]] + FieldsText(values[1..], widths[1..], marks[1..])
  }

  /** The fraction chrono prints: none, milliseconds, microseconds or nanoseconds. */
  function Fraction(nano: nat): string {
    if nano == 0 then ""
    else if nano % 1_000_000 == 0 then "." + Digits(nano / 1_000_000, 3)
    else if nano % 1_000 == 0 then "." + Digits(nano / 1_000, 6)
    else "." + Digits(nano, 9)
  }

  function Print(c: Civil): string {
    FieldsText(Fields(c), WIDTHS, MARKS) + (Fraction(c.nano) + "+00:00")
  }

  /** `to_rfc3339`. */
  function Rfc3339(t: Instant): string {
    Print(CivilOf(t))
  }

  lemma {:induction false} TextLessAppend(p: string, q: string, a: string, b: string)
    requires |p| == |q|
    ensures TextLess(p + a, q + b) <==> TextLess(p, q) || (p == q && TextLess(a, b))
  {
    if p == [] {
      assert p + a == a && q + b == b;
    } else {
      assert (p + a)[1..] == p[1..] + a && (q + b)[1..] == q[1..] + b;
      assert p == [p[0]] + p[1..] && q == [q[0]] + q[1..];
      TextLessAppend(p[1..], q[1..], a, b);
    }
  }

  function Pow10(n: nat): nat {
    if n == 0 then 1 else 10 * Pow10(n - 1)
  }

  lemma {:induction false} OneDigit(x: nat, y: nat)
    requires x < 10 && y < 10
    ensures
      var a, b := [('0' as int + x) as char], [('0' as int + y) as char];
      (TextLess(a, b) <==> x < y) && (a == b <==> x == y)
  {
  }

  /** Numerals of one width sort as their numbers. */
  lemma {:induction false} DigitsInOrder(m: nat, n: nat, width: nat)
    requires m < Pow10(width) && n < Pow10(width)
    ensures TextLess(Digits(m, width), Digits(n, width)) <==> m < n
    ensures Digits(m, width) == Digits(n, width) <==> m == n
  {
    if width > 0 {
      DigitsInOrder(m / 10, n / 10, width - 1);
      OneDigit(m % 10, n % 10);
      var p, q := Digits(m / 10, width - 1), Digits(n / 10, width - 1);
      var a, b := [('0' as int + m % 10) as char], [('0' as int + n % 10) as char];
      TextLessAppend(p, q, a, b);
      SplitEqual(p, q, a, b);
    }
  }

  lemma {:induction false} SplitEqual<T>(p: seq<T>, q: seq<T>, a: seq<T>, b: seq<T>)
    requires |p| == |q|
    ensures p + a == q + b <==> p == q && a == b
  {
    if p + a == q + b {
      assert p == (p + a)[..|p|] && q == (q + b)[..|p|];
      assert a == (p + a)[|p|..] && b == (q + b)[|p|..];
    }
  }

  ghost predicate Fit(values: seq<nat>, widths: seq<nat>)
    requires |values| == |widths|
  {
    forall i :: 0 <= i < |values| ==> values[i] < Pow10(widths[i])
  }

  lemma {:induction false} FieldsTextInOrder(a: seq<nat>, b: seq<nat>, widths: seq<nat>, marks: string)
    requires |a| == |b| == |widths| == |marks| + 1
    requires Fit(a, widths) && Fit(b, widths)
    ensures |FieldsText(a, widths, marks)| == |FieldsText(b, widths, marks)|
    ensures TextLess(FieldsText(a, widths, marks), FieldsText(b, widths, marks)) <==> SeqLess(a, b)
    ensures FieldsText(a, widths, marks) == FieldsText(b, widths, marks) <==> a == b
    decreases |marks|
  {
    DigitsInOrder(a[0], b[0], widths[0]);
    var p, q := Digits(a[0], widths[0]), Digits(b[0], widths[0]);
    assert a == [a[0]] + a[1..] && b == [b[0]] + b[1..];
    if marks == [] {
      assert a[1..] == [] && b[1..] == [];
    } else {
      var x, y := FieldsText(a[1..], widths[1..], marks[1..]), FieldsText(b[1..], widths[1..], marks[1..]);
      FieldsTextInOrder(a[1..], b[1..], widths[1..], marks[1..]);
      FieldsCons(p, q, [marks[0]], x, y);
    }
  }

  /** Two fields, a mark behind each, and the rest. */
  lemma {:induction false} FieldsCons(p: string, q: string, mark: string, x: string, y: string)
    requires |p| == |q|
    ensures TextLess(p + mark + x, q + mark + y) <==> TextLess(p, q) || (p == q && TextLess(x, y))
    ensures p + mark + x == q + mark + y <==> p == q && x == y
  {
    Assoc(p, mark, x);
    Assoc(q, mark, y);
    TextLessAppend(p, q, mark + x, mark + y);
    SameStart(mark, x, y);
    SplitEqual(p, q, mark + x, mark + y);
    SplitEqual(mark, mark, x, y);
  }

  // ---- Fractions of different lengths ------------------------------------------------------

  const ZONE := "+00:00"

  /** A sign sorts before every digit, so a numeral cut short sorts first. */
  lemma {:induction false} ZoneBeforeDigits(more: string, rest: string)
    requires more != [] && AllDigits(more)
    ensures TextLess(ZONE, more + rest) && !TextLess(more + rest, ZONE)
  {
    assert (more + rest)[0] == more[0];
  }

  lemma {:induction false} LastThree(n: nat)
    ensures n / 10 / 10 / 10 == n / 1000
    ensures n % 1000 / 10 / 10 == n / 10 / 10 % 10 && n % 1000 / 10 % 10 == n / 10 % 10 && n % 1000 % 10 == n % 10
    ensures n % 1000 / 10 / 10 / 10 == 0 && n % 1000 / 10 / 10 % 10 == n / 10 / 10 % 10
  {
    var q1, r1 := n / 10, n % 10;
    var q2, r2 := q1 / 10, q1 % 10;
    var q3, r3 := q2 / 10, q2 % 10;
    var m := 100 * r3 + 10 * r2 + r1;
    assert n == 1000 * q3 + m && m < 1000;
    assert m / 10 == 10 * r3 + r2 && m / 10 / 10 == r3;
  }

  function Digit(n: nat): char {
    ('0' as int + n % 10) as char
  }

  lemma {:induction false} LastDigits(n: nat, width: nat)
    ensures Digits(n, width + 3)
      == ((Digits(n / 10 / 10 / 10, width) + [Digit(n / 10 / 10)]) + [Digit(n / 10)]) + [Digit(n)]
  {
    var q := n / 10;
    assert Digits(n, width + 3) == Digits(q, width + 2) + [Digit(n)];
    assert Digits(q, width + 2) == Digits(q / 10, width + 1) + [Digit(q)];
    assert Digits(q / 10, width + 1) == Digits(q / 10 / 10, width) + [Digit(q / 10)];
  }

  /** Three more digits are those of the last three places. */
  lemma {:induction false} ThreeMore(n: nat, width: nat)
    ensures Digits(n, width + 3) == Digits(n / 1000, width) + Digits(n % 1000, 3)
  {
    LastThree(n);
    LastDigits(n, width);
    LastDigits(n % 1000, 0);
    var front, h, t, u := Digits(n / 1000, width), [Digit(n / 10 / 10)], [Digit(n / 10)], [Digit(n)];
    assert ((front + h) + t) + u == front + ((("" + h) + t) + u);
  }

  /** A fraction of a second in groups of three digits, the last of them not zero. */
  function Groups(nano: nat): seq<nat> {
    if nano == 0 then []
    else if nano % 1_000_000 == 0 then [nano / 1_000_000]
    else if nano % 1_000 == 0 then [nano / 1_000_000, nano / 1_000 % 1_000]
    else [nano / 1_000_000, nano / 1_000 % 1_000, nano % 1_000]
  }

  function GroupsText(groups: seq<nat>): string {
    if groups == [] then "" else Digits(groups[0], 3) + GroupsText(groups[1..])
  }

  lemma {:induction false} FractionIsGroups(nano: nat)
    ensures Fraction(nano) == (if nano == 0 then "" else "." + GroupsText(Groups(nano)))
  {
    var a, b, c := nano / 1_000_000, nano / 1_000 % 1_000, nano % 1_000;
    assert nano / 1_000 / 1_000 == a;
    ThreeMore(nano / 1_000, 3);
    ThreeMore(nano, 6);
    GroupsOfThree(a, b, c);
  }

  lemma {:induction false} GroupsCons(x: nat, g: seq<nat>)
    ensures GroupsText([x] + g) == Digits(x, 3) + GroupsText(g)
  {
    assert ([x] + g)[1..] == g && ([x] + g)[0] == x;
  }

  lemma {:induction false} GroupsOfThree(a: nat, b: nat, c: nat)
    ensures GroupsText([a]) == Digits(a, 3)
    ensures GroupsText([a, b]) == Digits(a, 3) + Digits(b, 3)
    ensures GroupsText([a, b, c]) == Digits(a, 3) + Digits(b, 3) + Digits(c, 3)
  {
    GroupsOfTwo(a, b);
    GroupsOfTwo(b, c);
    GroupsCons(a, [b, c]);
    assert [a] + [b, c] == [a, b, c];
    assert Digits(a, 3) + (Digits(b, 3) + Digits(c, 3)) == Digits(a, 3) + Digits(b, 3) + Digits(c, 3);
  }

  lemma {:induction false} GroupsOfTwo(a: nat, b: nat)
    ensures GroupsText([a]) == Digits(a, 3)
    ensures GroupsText([a, b]) == Digits(a, 3) + Digits(b, 3)
  {
    GroupsOfOne(a);
    GroupsOfOne(b);
    GroupsCons(a, [b]);
    assert [a] + [b] == [a, b];
  }

  lemma {:induction false} GroupsOfOne(a: nat)
    ensures GroupsText([a]) == Digits(a, 3)
  {
    GroupsCons(a, []);
    assert [a] + [] == [a] && Digits(a, 3) + "" == Digits(a, 3);
  }

  lemma {:induction false} GroupsInOrder(g: seq<nat>, h: seq<nat>)
    requires forall i :: 0 <= i < |g| ==> g[i] < 1000
    requires forall i :: 0 <= i < |h| ==> h[i] < 1000
    ensures TextLess(GroupsText(g) + ZONE, GroupsText(h) + ZONE) <==> SeqLess(g, h)
    decreases |g|
  {
    if g == [] && h == [] {
      SameText("" + ZONE);
    } else if g == [] {
      ZoneFirst(h);
    } else if h == [] {
      ZoneFirst(g);
    } else {
      GroupsInOrder(g[1..], h[1..]);
      assert Pow10(3) == 1000;
      DigitsInOrder(g[0], h[0], 3);
      var p, q, x, y := Digits(g[0], 3), Digits(h[0], 3), GroupsText(g[1..]), GroupsText(h[1..]);
      assert p + x + ZONE == p + (x + ZONE) && q + y + ZONE == q + (y + ZONE);
      TextLessAppend(p, q, x + ZONE, y + ZONE);
    }
  }

  lemma {:induction false} SameText(a: string)
    ensures !TextLess(a, a)
  {
    if a != [] {
      SameText(a[1..]);
    }
  }

  lemma {:induction false} ZoneFirst(g: seq<nat>)
    requires g != []
    ensures TextLess("" + ZONE, GroupsText(g) + ZONE) && !TextLess(GroupsText(g) + ZONE, "" + ZONE)
  {
    var p, x := Digits(g[0], 3), GroupsText(g[1..]);
    assert p + x + ZONE == p + (x + ZONE);
    ZoneBeforeDigits(p, x + ZONE);
    assert "" + ZONE == ZONE;
  }

  lemma {:induction false} TrimmedGroups(x: nat, y: nat)
    requires x < SECOND && y < SECOND
    ensures SeqLess(Groups(x), Groups(y)) <==> x < y
    ensures forall i :: 0 <= i < |Groups(x)| ==> Groups(x)[i] < 1000
  {
    var g, h := Groups(x), Groups(y);
    var a, b, c := x / 1_000_000, x / 1_000 % 1_000, x % 1_000;
    var d, e, f := y / 1_000_000, y / 1_000 % 1_000, y % 1_000;
    assert x == a * 1_000_000 + b * 1_000 + c && y == d * 1_000_000 + e * 1_000 + f;
    assert x % 1_000_000 == b * 1_000 + c && y % 1_000_000 == e * 1_000 + f;
    SeqLessByThree(g, h);
  }

  /** Unfolding the order of short sequences. */
  lemma {:induction false} SeqLessByThree(g: seq<nat>, h: seq<nat>)
    requires |g| <= 3 && |h| <= 3
    ensures SeqLess(g, h) <==>
      || (|h| > 0 && |g| == 0)
      || (|h| > 0 && |g| > 0 && (g[0] < h[0] || (g[0] == h[0] &&
           (|| (|h| > 1 && |g| == 1)
            || (|h| > 1 && |g| > 1 && (g[1] < h[1] || (g[1] == h[1] &&
                 ((|h| > 2 && |g| == 2) || (|h| > 2 && |g| > 2 && g[2] < h[2])))))))))
  {
    if |g| > 0 && |h| > 0 {
      var g1, h1 := g[1..], h[1..];
      assert SeqLess(g, h) <==> g[0] < h[0] || (g[0] == h[0] && SeqLess(g1, h1));
      if |g1| > 0 && |h1| > 0 {
        var g2, h2 := g1[1..], h1[1..];
        assert SeqLess(g1, h1) <==> g1[0] < h1[0] || (g1[0] == h1[0] && SeqLess(g2, h2));
        if |g2| > 0 && |h2| > 0 {
          assert SeqLess(g2, h2) <==> g2[0] < h2[0] || (g2[0] == h2[0] && SeqLess(g2[1..], h2[1..]));
          assert g2[1..] == [] && h2[1..] == [];
        }
      }
    }
  }

  /** Fractions sort as their values, whatever their lengths. */
  lemma {:induction false} FractionsInOrder(x: nat, y: nat)
    requires x < SECOND && y < SECOND
    ensures TextLess(Fraction(x) + ZONE, Fraction(y) + ZONE) <==> x < y
  {
    FractionIsGroups(x);
    FractionIsGroups(y);
    TrimmedGroups(x, y);
    TrimmedGroups(y, x);
    GroupsInOrder(Groups(x), Groups(y));
    if x == 0 && y == 0 {
      SameText("" + ZONE);
    } else if x > 0 && y > 0 {
      PointedInOrder(GroupsText(Groups(x)), GroupsText(Groups(y)));
    }
  }

  lemma {:induction false} PointedInOrder(g: string, h: string)
    ensures TextLess("." + g + ZONE, "." + h + ZONE) <==> TextLess(g + ZONE, h + ZONE)
  {
    Assoc(".", g, ZONE);
    Assoc(".", h, ZONE);
    SameStart(".", g + ZONE, h + ZONE);
  }

  lemma {:induction false} SameStart(p: string, a: string, b: string)
    ensures TextLess(p + a, p + b) <==> TextLess(a, b)
  {
    TextLessAppend(p, p, a, b);
    SameText(p);
  }

  // ---- The result --------------------------------------------------------------------------

  lemma {:induction false} FieldsFit(c: Civil)
    requires c.Valid()
    ensures Fit(Fields(c), WIDTHS)
  {
    assert Pow10(2) == 100 && Pow10(3) == 1000 && Pow10(4) == 10_000;
  }

  /** Printed dates and times sort as the instants they denote. */
  lemma {:induction false} PrintedInOrder(a: Civil, b: Civil)
    requires a.Valid() && b.Valid()
    ensures TextLess(Print(a), Print(b)) <==> a.Instant() < b.Instant()
  {
    FieldsFit(a);
    FieldsFit(b);
    FieldsTextInOrder(Fields(a), Fields(b), WIDTHS, MARKS);
    TextLessAppend(FieldsText(Fields(a), WIDTHS, MARKS), FieldsText(Fields(b), WIDTHS, MARKS),
                   Fraction(a.nano) + ZONE, Fraction(b.nano) + ZONE);
    FractionsInOrder(a.nano, b.nano);
    InstantsInOrder(a, b);
  }

  /** For all instants in years of four digits, comparing the stored texts compares the instants. */
  lemma {:induction false} TextOrderIsTimeOrder(t: Instant, u: Instant)
    requires InRange(t) && InRange(u)
    ensures TextLess(Rfc3339(t), Rfc3339(u)) <==> t < u
  {
    CivilOfIs(t);
    CivilOfIs(u);
    PrintedInOrder(CivilOf(t), CivilOf(u));
  }
}
