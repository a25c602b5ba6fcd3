/** Python dates as proleptic Gregorian ordinals, and the text forms the repository builds from them. */
module Dates {
  const MAX_ORDINAL := 3652059 // 9999-12-31

  type Day = n: int | 1 <= n <= MAX_ORDINAL witness 1

  const SECONDS_PER_DAY := 86400

  /** A clock reading in IST, in seconds, within the days Python can represent. */
  type Moment = t: int | SECONDS_PER_DAY <= t < (MAX_ORDINAL + 1) * SECONDS_PER_DAY witness SECONDS_PER_DAY

  function DateOf(t: Moment): Day {
    t / SECONDS_PER_DAY
  }

  datatype Date = Date(year: nat, month: nat, day: nat)

  predicate IsLeap(y: int) {
    y % 4 == 0 && (y % 100 != 0 || y % 400 == 0)
  }

  const DAYS_BEFORE_MONTH: seq<nat> := [0, 31, 59, 90, 120, 151, 181, 212, 243, 273, 304, 334, 365]

  function DaysBeforeMonth(y: int, m: int): nat
    requires 1 <= m <= 13
  {
    DAYS_BEFORE_MONTH[m - 1] + (if m > 2 && IsLeap(y) then 1 else 0)
  }

  function DaysInMonth(y: int, m: int): nat
    requires 1 <= m <= 12
  {
    DaysBeforeMonth(y, m + 1) - DaysBeforeMonth(y, m)
  }

  function DaysBeforeYear(y: int): int {
    (y - 1) * 365 + (y - 1) / 4 - (y - 1) / 100 + (y - 1) / 400
  }

  lemma QuotientStep(y: int, k: int)
    requires k == 4 || k == 100 || k == 400
    ensures y / k - (y - 1) / k == if y % k == 0 then 1 else 0
  {}

  lemma Multiple400(q: int)
    ensures (400 * q) % 100 == 0
  {
    assert 400 * q == 100 * (4 * q);
  }

  lemma Multiple100(q: int)
    ensures (100 * q) % 4 == 0
  {
    assert 100 * q == 4 * (25 * q);
  }

  lemma Multiples(y: int)
    ensures y % 400 == 0 ==> y % 100 == 0
    ensures y % 100 == 0 ==> y % 4 == 0
  {
    Multiple400(y / 400);
    Multiple100(y / 100);
  }

  lemma LeapDays(y: int)
    ensures
      (if y % 4 == 0 then 1 else 0) - (if y % 100 == 0 then 1 else 0) + (if y % 400 == 0 then 1 else 0)
      == if IsLeap(y) then 1 else 0
  {
    Multiples(y);
  }

  lemma YearLength(y: int)
    ensures DaysBeforeYear(y + 1) == DaysBeforeYear(y) + DaysBeforeMonth(y, 13)
  {
    QuotientStep(y, 4);
    QuotientStep(y, 100);
    QuotientStep(y, 400);
    LeapDays(y);
  }

  ghost predicate Valid(d: Date) {
    1 <= d.month <= 12 && 1 <= d.day <= DaysInMonth(d.year, d.month)
  }

  function ToOrdinal(d: Date): int
    requires 1 <= d.month <= 12
  {
    DaysBeforeYear(d.year) + DaysBeforeMonth(d.year, d.month) + d.day
  }

  function YearOf(n: Day, from: nat): (y: nat)
    requires 1 <= from && DaysBeforeYear(from) < n
    ensures from <= y && DaysBeforeYear(y) < n <= DaysBeforeYear(y + 1)
    decreases n - DaysBeforeYear(from)
  {
    YearLength(from);
    if n <= DaysBeforeYear(from + 1) then from else YearOf(n, from + 1)
  }

  function MonthOf(y: nat, n: nat, from: nat): (m: nat)
    requires 1 <= from <= 12 && DaysBeforeMonth(y, from) < n <= DaysBeforeMonth(y, 13)
    ensures from <= m <= 12 && DaysBeforeMonth(y, m) < n <= DaysBeforeMonth(y, m) + DaysInMonth(y, m)
    decreases 13 - from
  {
    if n <= DaysBeforeMonth(y, from + 1) then from else MonthOf(y, n, from + 1)
  }

  lemma YearInRange(y: nat)
    requires DaysBeforeYear(y) < MAX_ORDINAL
    ensures y <= 9999
  {}

  /** Day `k` of a year. */
  function DayOfYear(y: nat, k: nat): (d: Date)
    requires 1 <= k <= DaysBeforeMonth(y, 13)
    ensures Valid(d) && d.year == y && d.month <= 12 && d.day <= 31
    ensures DaysBeforeMonth(y, d.month) + d.day == k
  {
    var m := MonthOf(y, k, 1);
    Date(y, m, k - DaysBeforeMonth(y, m))
  }

  /** `date.fromordinal`, as a search; `ToOrdinal` undoes it. */
  function FromOrdinal(n: Day): (d: Date)
    ensures Valid(d) && 1 <= d.year <= 9999 && d.month <= 12 && d.day <= 31
    ensures ToOrdinal(d) == n
  {
    var y := YearOf(n, 1);
    YearLength(y);
    YearInRange(y);
    DayOfYear(y, n - DaysBeforeYear(y))
  }

  // --- text ----------------------------------------------------------------

  function Digit(k: nat): (c: char)
    requires k < 10
    ensures c != ':'
  {
    "0123456789"[k]
  }

  function Pad2(n: nat): (s: string)
    requires n < 100
    ensures |s| == 2 && ':' !in s
  {
    [Digit(n / 10), Digit(n % 10)]
  }

  function Pad4(n: nat): (s: string)
    requires n < 10000
    ensures |s| == 4 && ':' !in s
  {
    Pad2(n / 100) + Pad2(n % 100)
  }

  function DateText(d: Date): (s: string)
    requires d.year < 10000 && d.month < 100 && d.day < 100
    ensures |s| == 10
    ensures ':' !in s
  {
    Pad4(d.year) + "-" + Pad2(d.month) + "-" + Pad2(d.day)
  }

  /** `date.isoformat()`. */
  function Iso(n: Day): (s: string)
    ensures |s| == 10
    ensures ':' !in s
  {
    DateText(FromOrdinal(n))
  }

  lemma DigitInjective(a: nat, b: nat)
    requires a < 10 && b < 10 && Digit(a) == Digit(b)
    ensures a == b
  {}

  lemma Pad2Injective(a: nat, b: nat)
    requires a < 100 && b < 100 && Pad2(a) == Pad2(b)
    ensures a == b
  {
    assert Pad2(a)[0] == Pad2(b)[0] && Pad2(a)[1] == Pad2(b)[1];
    DigitInjective(a / 10, b / 10);
    DigitInjective(a % 10, b % 10);
  }

  lemma ConcatInjective(a: string, r: string, b: string, s: string)
    requires |a| == |b| && a + r == b + s
    ensures a == b && r == s
  {
    assert (a + r)[..|a|] == a && (b + s)[..|b|] == b;
    assert (a + r)[|a|..] == r && (b + s)[|b|..] == s;
  }

  lemma Pad4Injective(a: nat, b: nat)
    requires a < 10000 && b < 10000 && Pad4(a) == Pad4(b)
    ensures a == b
  {
    ConcatInjective(Pad2(a / 100), Pad2(a % 100), Pad2(b / 100), Pad2(b % 100));
    Pad2Injective(a / 100, b / 100);
    Pad2Injective(a % 100, b % 100);
  }

  lemma DateTextInjective(c: Date, d: Date)
    requires c.year < 10000 && c.month < 100 && c.day < 100
    requires d.year < 10000 && d.month < 100 && d.day < 100
    requires DateText(c) == DateText(d)
    ensures c == d
  {
    var y, m, y', m' := Pad4(c.year), Pad2(c.month), Pad4(d.year), Pad2(d.month);
    ConcatInjective(y + "-" + m + "-", Pad2(c.day), y' + "-" + m' + "-", Pad2(d.day));
    ConcatInjective(y + "-" + m, "-", y' + "-" + m', "-");
    ConcatInjective(y + "-", m, y' + "-", m');
    ConcatInjective(y, "-", y', "-");
    Pad4Injective(c.year, d.year);
    Pad2Injective(c.month, d.month);
    Pad2Injective(c.day, d.day);
  }

  lemma FromOrdinalInjective(a: Day, b: Day)
    requires FromOrdinal(a) == FromOrdinal(b)
    ensures a == b
  {
    assert a == ToOrdinal(FromOrdinal(a));
    assert b == ToOrdinal(FromOrdinal(b));
  }

  /** Distinct days have distinct ISO texts. */
  lemma IsoInjective(a: Day, b: Day)
    requires Iso(a) == Iso(b)
    ensures a == b
  {
    DateTextInjective(FromOrdinal(a), FromOrdinal(b));
    FromOrdinalInjective(a, b);
  }

  const MONTHS: seq<string> :=
    ["Jan", "Feb", "Mar", "Apr", "May", "Jun", "Jul", "Aug", "Sep", "Oct", "Nov", "Dec"]

  /** `f"{day:%d %b %Y}"`. */
  function DayMonthYear(n: Day): string {
    var d := FromOrdinal(n);
    Pad2(d.day) + " " + MONTHS[d.month - 1] + " " + Pad4(d.year)
  }
}
