/**
 The proleptic Gregorian calendar behind the HTTP date parser (src/ldp/conditional.rs).

 `DaysFromCivil` is the closed-form day number the server computes.  Its meaning is given
 independently by `DaysToMonth`, which walks the calendar one month at a time from
 January 1970 and adds (or, going back, subtracts) the month lengths.
 */
module Calendar {

  datatype Date = Date(year: int, month: int, day: int)

  /** Division of machine integers: the quotient is rounded toward zero. */
  function TruncDiv(a: int, b: nat): int
    requires b > 0
  {
    if a >= 0 then a / b else -((-a) / b)
  }

  predicate IsLeap(year: int) {
    (year % 4 == 0 && year % 100 != 0) || year % 400 == 0
  }

  function DaysInMonth(year: int, month: int): int {
    if month in {1, 3, 5, 7, 8, 10, 12} then 31
    else if month in {4, 6, 9, 11} then 30
    else if month == 2 then (if IsLeap(year) then 29 else 28)
    else 0
  }

  /** The closed-form day number; day 0 is 1970-01-01. */
  function DaysFromCivil(year: int, month: int, day: int): int {
    var y := if month <= 2 then year - 1 else year;
    var era := TruncDiv(if y >= 0 then y else y - 399, 400);
    var yoe := y - era * 400;
    var doy := TruncDiv(153 * (if month > 2 then month - 3 else month + 9) + 2, 5) + day - 1;
    var doe := yoe * 365 + TruncDiv(yoe, 4) - TruncDiv(yoe, 100) + doy;
    era * 146097 + doe - 719468
  }

  predicate ValidDate(d: Date) {
    1 <= d.month <= 12 && 1 <= d.day <= DaysInMonth(d.year, d.month)
  }

  // --- The month-by-month reference -----------------------------------------------------------

  /** Months are numbered from January 1970. */
  function MonthIndex(year: int, month: int): int { 12 * year + month - 1 - 12 * 1970 }

  function MonthLength(n: int): int { DaysInMonth(1970 + n / 12, n % 12 + 1) }

  /** The number of days from 1970-01-01 to the first day of month `n`. */
  function DaysToMonth(n: int): int
    decreases if n < 0 then -n else n
  {
    if n == 0 then 0
    else if n > 0 then DaysToMonth(n - 1) + MonthLength(n - 1)
    else DaysToMonth(n + 1) - MonthLength(n)
  }

  // --- The closed form agrees with the reference ---------------------------------------------

  /** The rounded division in the source computes the floor for both signs. */
  lemma EraIsFloor(y: int)
    ensures TruncDiv(if y >= 0 then y else y - 399, 400) == y / 400
    ensures 0 <= y - (y / 400) * 400 < 400
  {
  }

  /** Days before 1 March of year `y`, up to the epoch shift. */
  function MarchBase(y: int): int { 365 * y + y / 4 - y / 100 + y / 400 }

  /** The same count without eras: whole March-based years, then the months, then the days. */
  function FlatDays(year: int, month: int, day: int): int {
    var y := if month <= 2 then year - 1 else year;
    var mp := if month > 2 then month - 3 else month + 9;
    MarchBase(y) + (153 * mp + 2) / 5 + day - 1 - 719468
  }

  lemma ClosedForm(year: int, month: int, day: int)
    requires 1 <= month <= 12
    ensures DaysFromCivil(year, month, day) == FlatDays(year, month, day)
  {
    var y := if month <= 2 then year - 1 else year;
    EraIsFloor(y);
    var era := y / 400;
    var yoe := y - era * 400;
    assert y == 400 * era + yoe;
    assert y / 4 == 100 * era + yoe / 4;
    assert y / 100 == 4 * era + yoe / 100;
  }

  /** A year starts a new block of `d` years exactly when `d` divides it. */
  function Starts(y: int, d: int): int
    requires d > 0
  {
    if y % d == 0 then 1 else 0
  }

  lemma BlockStep(y: int, d: int)
    requires d == 4 || d == 100 || d == 400
    ensures y / d - (y - 1) / d == Starts(y, d)
  {
    var q, r := y / d, y % d;
    if r == 0 { assert (y - 1) / d == q - 1; } else { assert (y - 1) / d == q; }
  }

  lemma Multiples(q: int)
    ensures 400 * q % 100 == 0 && 100 * q % 4 == 0
  {
  }

  lemma LeapIsBlocks(y: int)
    ensures Starts(y, 4) - Starts(y, 100) + Starts(y, 400) == (if IsLeap(y) then 1 else 0)
  {
    if y % 400 == 0 { Multiples(y / 400); }
    if y % 100 == 0 { Multiples(y / 100); }
  }

  lemma MarchStep(y: int)
    ensures MarchBase(y) - MarchBase(y - 1) == (if IsLeap(y) then 366 else 365)
  {
    BlockStep(y, 4);
    BlockStep(y, 100);
    BlockStep(y, 400);
    LeapIsBlocks(y);
  }

  function NextYear(year: int, month: int): int { if month == 12 then year + 1 else year }
  function NextMonthOf(month: int): int { if month == 12 then 1 else month + 1 }

  lemma NextMonthFlat(year: int, month: int)
    requires 1 <= month <= 12
    ensures FlatDays(NextYear(year, month), NextMonthOf(month), 1)
            == FlatDays(year, month, 1) + DaysInMonth(year, month)
  {
    if month == 2 { MarchStep(year); }
  }

  /** Passing to the next month adds exactly the length of the month that ended. */
  lemma NextMonth(year: int, month: int)
    requires 1 <= month <= 12
    ensures DaysFromCivil(NextYear(year, month), NextMonthOf(month), 1)
            == DaysFromCivil(year, month, 1) + DaysInMonth(year, month)
  {
    ClosedForm(year, month, 1);
    ClosedForm(NextYear(year, month), NextMonthOf(month), 1);
    NextMonthFlat(year, month);
  }

  function YearOf(n: int): int { 1970 + n / 12 }
  function MonthOf(n: int): int { n % 12 + 1 }

  lemma MonthSuccessor(n: int)
    ensures YearOf(n + 1) == NextYear(YearOf(n), MonthOf(n))
    ensures MonthOf(n + 1) == NextMonthOf(MonthOf(n))
  {
  }

  function MonthStart(n: int): int { DaysFromCivil(YearOf(n), MonthOf(n), 1) }

  lemma MonthStartStep(n: int)
    ensures MonthStart(n + 1) == MonthStart(n) + MonthLength(n)
  {
    MonthSuccessor(n);
    NextMonth(YearOf(n), MonthOf(n));
  }

  /** Whatever starts at 0 and grows by each month's length is the month-by-month count. */
  lemma {:induction false} CountIsUnique(f: int -> int, n: int)
    requires f(0) == 0
    requires forall k :: f(k) + MonthLength(k) == f(k + 1)
    ensures f(n) == DaysToMonth(n)
    decreases if n < 0 then -n else n
  {
    if n > 0 {
      CountIsUnique(f, n - 1);
      assert f(n - 1) + MonthLength(n - 1) == f(n - 1 + 1);
    } else if n < 0 {
      CountIsUnique(f, n + 1);
      assert f(n) + MonthLength(n) == f(n + 1);
    }
  }

  lemma EpochIsZero()
    ensures MonthStart(0) == 0
  {
    assert YearOf(0) == 1970 && MonthOf(0) == 1;
    ClosedForm(1970, 1, 1);
  }

  lemma MonthStarts(n: int)
    ensures MonthStart(n) == DaysToMonth(n)
  {
    EpochIsZero();
    forall k ensures MonthStart(k) + MonthLength(k) == MonthStart(k + 1) { MonthStartStep(k); }
    CountIsUnique(k => MonthStart(k), n);
  }

  /** For every date of every year, the closed form is the month-by-month count. */
  lemma DaysFromCivilCounts(d: Date)
    requires 1 <= d.month <= 12
    ensures DaysFromCivil(d.year, d.month, d.day)
            == DaysToMonth(MonthIndex(d.year, d.month)) + d.day - 1
  {
    var n := MonthIndex(d.year, d.month);
    assert YearOf(n) == d.year && MonthOf(n) == d.month;
    MonthStarts(n);
    ClosedForm(d.year, d.month, d.day);
    ClosedForm(d.year, d.month, 1);
  }

  lemma Epoch()
    ensures DaysFromCivil(1970, 1, 1) == 0
  {
  }

  // --- Days are numbered consecutively and without collisions --------------------------------

  function Days(d: Date): int { DaysFromCivil(d.year, d.month, d.day) }

  function NextDay(d: Date): Date {
    if d.day < DaysInMonth(d.year, d.month) then Date(d.year, d.month, d.day + 1)
    else Date(NextYear(d.year, d.month), NextMonthOf(d.month), 1)
  }

  function PrevDay(d: Date): Date {
    if d.day > 1 then Date(d.year, d.month, d.day - 1)
    else
      var year := if d.month == 1 then d.year - 1 else d.year;
      var month := if d.month == 1 then 12 else d.month - 1;
      Date(year, month, DaysInMonth(year, month))
  }

  lemma DayShift(year: int, month: int, day: int)
    requires 1 <= month <= 12
    ensures DaysFromCivil(year, month, day) == DaysFromCivil(year, month, 1) + day - 1
  {
  }

  /** Consecutive calendar days get consecutive numbers. */
  lemma NextDayAddsOne(d: Date)
    requires ValidDate(d)
    ensures ValidDate(NextDay(d)) && Days(NextDay(d)) == Days(d) + 1
  {
    DayShift(d.year, d.month, d.day);
    DayShift(d.year, d.month, d.day + 1);
    NextMonth(d.year, d.month);
  }

  lemma NextDayOfPrevDay(d: Date)
    requires ValidDate(d)
    ensures ValidDate(PrevDay(d)) && NextDay(PrevDay(d)) == d
  {
  }

  lemma MonthStepUp(n: int)
    ensures DaysToMonth(n + 1) == DaysToMonth(n) + MonthLength(n)
    ensures MonthLength(n) >= 28
  {
  }

  lemma {:induction false} MonthsIncrease(a: int, b: int)
    requires a < b
    ensures DaysToMonth(a) + MonthLength(a) <= DaysToMonth(b)
    decreases b - a
  {
    MonthStepUp(a);
    if a + 1 < b {
      MonthsIncrease(a + 1, b);
      MonthStepUp(a + 1);
    }
  }

  predicate Before(a: Date, b: Date) {
    a.year < b.year || (a.year == b.year && (a.month < b.month || (a.month == b.month && a.day < b.day)))
  }

  /** The day number orders dates exactly as the calendar does. */
  lemma DaysOrder(a: Date, b: Date)
    requires ValidDate(a) && ValidDate(b)
    ensures Before(a, b) <==> Days(a) < Days(b)
    ensures a == b <==> Days(a) == Days(b)
  {
    var i, j := MonthIndex(a.year, a.month), MonthIndex(b.year, b.month);
    MonthPlace(a);
    MonthPlace(b);
    if i < j { MonthsIncrease(i, j); }
    if j < i { MonthsIncrease(j, i); }
  }

  lemma MonthPlace(d: Date)
    requires ValidDate(d)
    ensures var n := MonthIndex(d.year, d.month);
            Days(d) == DaysToMonth(n) + d.day - 1 && d.day <= MonthLength(n)
  {
    DaysFromCivilCounts(d);
    var n := MonthIndex(d.year, d.month);
    assert YearOf(n) == d.year && MonthOf(n) == d.month;
  }

  /** The calendar date of a day number, found by walking day by day from the epoch. */
  function DateOf(n: int): (d: Date)
    ensures ValidDate(d) && Days(d) == n
    decreases if n < 0 then -n else n
  {
    if n == 0 then Date(1970, 1, 1)
    else if n > 0 then
      var p := DateOf(n - 1);
      NextDayAddsOne(p);
      NextDay(p)
    else
      var s := DateOf(n + 1);
      NextDayOfPrevDay(s);
      NextDayAddsOne(PrevDay(s));
      PrevDay(s)
  }
}
