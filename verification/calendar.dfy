/** Local-time dates as the controllers use JavaScript `Date`.

    A moment is a (year, month, day, milliseconds-since-midnight) quadruple
    with a ONE-based month; the JavaScript getters are written out so that
    the source's zero-based `getMonth()` quirks stay visible. Time zones and
    daylight-saving shifts are not modelled. */
module Calendar {

  const MillisPerDay: int := 86_400_000

  datatype Stamp = Stamp(year: int, month: int, day: int, millis: int)

  /** Every JavaScript `Date` denotes a well-formed moment. */
  predicate WellFormed(s: Stamp) {
    1 <= s.month <= 12 && 1 <= s.day <= 31 && 0 <= s.millis < MillisPerDay
  }

  type Date = s: Stamp | WellFormed(s) witness Stamp(1970, 1, 1, 0)

  /** `a < b` on JavaScript dates: lexicographic on (year, month, day, millis). */
  predicate Before(a: Stamp, b: Stamp) {
    || a.year < b.year
    || (a.year == b.year && a.month < b.month)
    || (a.year == b.year && a.month == b.month && a.day < b.day)
    || (a.year == b.year && a.month == b.month && a.day == b.day && a.millis < b.millis)
  }

  lemma BeforeIsStrictTotalOrder(a: Stamp, b: Stamp, c: Stamp)
    ensures !Before(a, a)
    ensures Before(a, b) && Before(b, c) ==> Before(a, c)
    ensures a != b ==> Before(a, b) || Before(b, a)
    ensures Before(a, b) ==> !Before(b, a)
  {
  }

  /** `date.getFullYear()` */
  function FullYear(d: Date): int {
    d.year
  }

  /** `date.getMonth()`: ZERO-based, 0 for January. */
  function ZeroBasedMonth(d: Date): (r: int)
    ensures 0 <= r <= 11
    ensures r + 1 == d.month
  {
    d.month - 1
  }

  /** Months elapsed since January of year 0 for a (year, one-based month). */
  function MonthIndex(year: int, month: int): int {
    year * 12 + month - 1
  }

  /** The calendar month a date lies in, as a month index. */
  function MonthOf(d: Stamp): int {
    MonthIndex(d.year, d.month)
  }

  /** The source's month step: `month++; if (month > 12) { month = 1; year++; }` */
  function NextMonth(year: int, month: int): (r: (int, int))
    requires 1 <= month <= 12
    ensures 1 <= r.1 <= 12
    ensures MonthIndex(r.0, r.1) == MonthIndex(year, month) + 1
    ensures r.0 == year || (month == 12 && r == (year + 1, 1))
  {
    var m := month + 1;
    if m > 12 then (year + 1, 1) else (year, m)
  }

  lemma MonthIndexInjective(y1: int, m1: int, y2: int, m2: int)
    requires 1 <= m1 <= 12 && 1 <= m2 <= 12
    requires MonthIndex(y1, m1) == MonthIndex(y2, m2)
    ensures y1 == y2 && m1 == m2
  {
    MonthIndexMonotone(y1, m1, y2, m2);
    MonthIndexMonotone(y2, m2, y1, m1);
  }

  /** Month indices order dates by calendar month. */
  lemma MonthIndexMonotone(y1: int, m1: int, y2: int, m2: int)
    requires 1 <= m1 <= 12 && 1 <= m2 <= 12
    ensures MonthIndex(y1, m1) < MonthIndex(y2, m2) <==> y1 < y2 || (y1 == y2 && m1 < m2)
  {
    if y1 < y2 {
      assert MonthIndex(y1, m1) <= y1 * 12 + 11 < y2 * 12 <= MonthIndex(y2, m2);
    } else if y2 < y1 {
      assert MonthIndex(y2, m2) <= y2 * 12 + 11 < y1 * 12 <= MonthIndex(y1, m1);
    }
  }

  /** `new Date(year, monthIndex, day)`: local midnight, where `monthIndex`
      is ZERO-based and may overflow or underflow into neighbouring years
      (11 is December; 12 is January of the next year). The day is kept
      small enough never to overflow its month. */
  function LocalDate(year: int, monthIndex: int, day: int): (r: Date)
    requires 1 <= day <= 28
    ensures MonthOf(r) == year * 12 + monthIndex
    ensures r.day == day && r.millis == 0
  {
    Stamp(year + monthIndex / 12, monthIndex % 12 + 1, day, 0)
  }

  /** A month that wholly precedes another month holds only earlier moments. */
  lemma EarlierMonthIsBefore(a: Stamp, b: Stamp)
    requires WellFormed(a) && WellFormed(b)
    requires MonthOf(a) < MonthOf(b)
    ensures Before(a, b)
  {
    MonthIndexMonotone(a.year, a.month, b.year, b.month);
  }
}
