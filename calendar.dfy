/**
 * Dates are day numbers: day 0 is 1970-01-01 of the proleptic Gregorian calendar.
 * YearOfDay is what SQL's YEAR() and Carbon's `->year` read off such a date.
 *
 * The Gregorian calendar repeats every 400 years, which are 146097 days. A date is split into
 * the 400-year cycle it lies in, counted from 2000-01-01, and its day within that cycle; the
 * year within the cycle is found by walking the years of the cycle.
 */
module Calendar {

  /** The day number of 2000-01-01. */
  const Day2000: int := 10957

  /** The days of one 400-year cycle. */
  const CycleDays: int := 146097

  predicate IsLeapYear(y: int) {
    (y % 4 == 0 && y % 100 != 0) || y % 400 == 0
  }

  function YearLength(y: int): int {
    if IsLeapYear(y) then 366 else 365
  }

  /** The days of the first k years of a cycle: 365 each, plus one per leap year among them. */
  function DaysBefore(k: nat): int {
    365 * k + (k + 3) / 4 - (k + 99) / 100 + (k + 399) / 400
  }

  /** The day number of 1 January of year y. */
  function JanFirst(y: int): int {
    Day2000 + CycleDays * ((y - 2000) / 400) + DaysBefore((y - 2000) % 400)
  }

  /** The year of a cycle, counted from year k of it, that holds day r of the cycle after year k begins. */
  function YearInCycle(r: int, k: nat): nat
    requires r >= 0
    decreases r
  {
    if r < YearLength(k) then k else YearInCycle(r - YearLength(k), k + 1)
  }

  /** The Gregorian year that day number d falls in. */
  function YearOfDay(d: int): int {
    var z := d - Day2000;
    2000 + 400 * (z / CycleDays) + YearInCycle(z % CycleDays, 0)
  }

  // ---------------------------------------------------------------------------------------
  // Euclidean division by the calendar's constants: a quotient and remainder in range are the ones

  lemma DivBy4(a: int, q: int, r: int)
    requires a == 4 * q + r && 0 <= r < 4
    ensures a / 4 == q && a % 4 == r
  {
  }

  lemma DivBy100(a: int, q: int, r: int)
    requires a == 100 * q + r && 0 <= r < 100
    ensures a / 100 == q && a % 100 == r
  {
  }

  lemma DivBy400(a: int, q: int, r: int)
    requires a == 400 * q + r && 0 <= r < 400
    ensures a / 400 == q && a % 400 == r
  {
  }

  lemma DivByCycle(a: int, q: int, r: int)
    requires a == CycleDays * q + r && 0 <= r < CycleDays
    ensures a / CycleDays == q && a % CycleDays == r
  {
  }

  // ---------------------------------------------------------------------------------------
  // The cycle

  /** Year k of a cycle is a leap year exactly when its offset in the cycle is. */
  lemma LeapCycle(y: int)
    ensures IsLeapYear(y) == IsLeapYear((y - 2000) % 400)
    ensures YearLength(y) == YearLength((y - 2000) % 400)
  {
    var m, k := (y - 2000) / 400 + 5, (y - 2000) % 400;
    DivBy400(y, m, k);
    DivBy4(k, k / 4, k % 4);
    DivBy4(y, 100 * m + k / 4, k % 4);
    DivBy100(k, k / 100, k % 100);
    DivBy100(y, 4 * m + k / 100, k % 100);
  }

  /** One more year of the cycle adds that year's length. */
  lemma DaysBeforeStep(k: nat)
    ensures DaysBefore(k + 1) == DaysBefore(k) + YearLength(k)
  {
    StepBy4(k);
    StepBy100(k);
    StepBy400(k);
    if k % 400 == 0 {
      DivBy100(k, 4 * (k / 400), 0);
    }
    if k % 100 == 0 {
      DivBy4(k, 25 * (k / 100), 0);
    }
  }

  /** Each count of multiples in DaysBefore grows by one exactly at a multiple. */
  lemma StepBy4(k: nat)
    ensures (k + 4) / 4 - (k + 3) / 4 == if k % 4 == 0 then 1 else 0
  {
    var q, r := k / 4, k % 4;
    DivBy4(k, q, r);
    DivBy4(k + 4, q + 1, r);
    DivBy4(k + 3, if r == 0 then q else q + 1, if r == 0 then 3 else r - 1);
  }

  lemma StepBy100(k: nat)
    ensures (k + 100) / 100 - (k + 99) / 100 == if k % 100 == 0 then 1 else 0
  {
    var q, r := k / 100, k % 100;
    DivBy100(k, q, r);
    DivBy100(k + 100, q + 1, r);
    DivBy100(k + 99, if r == 0 then q else q + 1, if r == 0 then 99 else r - 1);
  }

  lemma StepBy400(k: nat)
    ensures (k + 400) / 400 - (k + 399) / 400 == if k % 400 == 0 then 1 else 0
  {
    var q, r := k / 400, k % 400;
    DivBy400(k, q, r);
    DivBy400(k + 400, q + 1, r);
    DivBy400(k + 399, if r == 0 then q else q + 1, if r == 0 then 399 else r - 1);
  }

  lemma {:induction false} DaysBeforeGrows(j: nat, k: nat)
    requires j <= k
    ensures DaysBefore(j) <= DaysBefore(k)
    decreases k - j
  {
    if j < k {
      DaysBeforeStep(j);
      DaysBeforeGrows(j + 1, k);
    }
  }

  /** A whole cycle is 146097 days. */
  lemma CycleLength()
    ensures DaysBefore(400) == CycleDays
  {
    assert 403 / 4 == 100 && 499 / 100 == 4 && 799 / 400 == 1;
  }

  /** Walking the cycle from year j finds year k for every day of year k. */
  lemma {:induction false} YearInCycleFinds(j: nat, k: nat, t: int)
    requires j <= k && 0 <= t < YearLength(k)
    ensures DaysBefore(j) <= DaysBefore(k) && YearInCycle(DaysBefore(k) - DaysBefore(j) + t, j) == k
    decreases k - j
  {
    DaysBeforeGrows(j, k);
    if j < k {
      DaysBeforeStep(j);
      DaysBeforeGrows(j + 1, k);
      YearInCycleFinds(j + 1, k, t);
    }
  }

  /** The walk stops at the year whose days hold r. */
  lemma {:induction false} YearInCycleBounds(r: int, j: nat)
    requires r >= 0
    ensures var k := YearInCycle(r, j);
            j <= k && DaysBefore(k) <= DaysBefore(j) + r < DaysBefore(k) + YearLength(k)
    decreases r
  {
    if r >= YearLength(j) {
      DaysBeforeStep(j);
      YearInCycleBounds(r - YearLength(j), j + 1);
    }
  }

  // ---------------------------------------------------------------------------------------
  // YearOfDay over all dates

  /** The next year begins when this one has run its length. */
  lemma JanFirstNext(y: int)
    ensures JanFirst(y + 1) == JanFirst(y) + YearLength(y)
  {
    var k := (y - 2000) % 400;
    LeapCycle(y);
    DaysBeforeStep(k);
    DivBy400(y - 2000, (y - 2000) / 400, k);
    if k == 399 {
      CycleLength();
      DivBy400(y + 1 - 2000, (y - 2000) / 400 + 1, 0);
    } else {
      DivBy400(y + 1 - 2000, (y - 2000) / 400, k + 1);
    }
  }

  /** Every day from 1 January of y up to the end of y lies in year y. */
  lemma DaysOfYear(y: int, d: int)
    requires JanFirst(y) <= d < JanFirst(y) + YearLength(y)
    ensures YearOfDay(d) == y
  {
    var e, k := (y - 2000) / 400, (y - 2000) % 400;
    var t := d - JanFirst(y);
    LeapCycle(y);
    YearInCycleFinds(0, k, t);
    DaysBeforeStep(k);
    DaysBeforeGrows(k + 1, 400);
    CycleLength();
    var z := d - Day2000;
    DivBy400(y - 2000, e, k);
    DivByCycle(z, e, DaysBefore(k) + t);
  }

  /** The year YearOfDay gives holds the day: it began on or before it and has not ended. */
  lemma YearOfDayBounds(d: int)
    ensures JanFirst(YearOfDay(d)) <= d < JanFirst(YearOfDay(d)) + YearLength(YearOfDay(d))
  {
    var z := d - Day2000;
    var e, r := z / CycleDays, z % CycleDays;
    var k := YearInCycle(r, 0);
    YearInCycleBounds(r, 0);
    CycleLength();
    DivByCycle(z, e, r);
    var y := YearOfDay(d);
    DivBy400(y - 2000, e, k);
    LeapCycle(y);
  }

  /** A day lies in year y exactly when it falls between 1 January of y and the end of y. */
  lemma YearOfDayIff(d: int, y: int)
    ensures YearOfDay(d) == y <==> JanFirst(y) <= d < JanFirst(y) + YearLength(y)
  {
    YearOfDayBounds(d);
    if JanFirst(y) <= d < JanFirst(y) + YearLength(y) {
      DaysOfYear(y, d);
    }
  }

  /** 1 January of y lies in y. */
  lemma JanFirstInYear(y: int)
    ensures YearOfDay(JanFirst(y)) == y
  {
    DaysOfYear(y, JanFirst(y));
  }

  /** The day before 1 January of y lies in y - 1. */
  lemma DayBeforeJanFirst(y: int)
    ensures YearOfDay(JanFirst(y) - 1) == y - 1
  {
    var d := JanFirst(y) - 1;
    JanFirstNext(y - 1);
    assert JanFirst(y - 1) <= d < JanFirst(y - 1) + YearLength(y - 1);
    DaysOfYear(y - 1, d);
  }

  // ---------------------------------------------------------------------------------------
  // Year boundaries around the epoch, a leap year and the present

  lemma EpochYear()
    ensures YearOfDay(0) == 1970
  {
    DivBy400(-30, -1, 370);
    assert JanFirst(1970) == 0 && YearLength(1970) == 365;
    DaysOfYear(1970, 0);
  }

  lemma DayBeforeEpochYear()
    ensures YearOfDay(-1) == 1969
  {
    DivBy400(-31, -1, 369);
    assert JanFirst(1969) == -365 && YearLength(1969) == 365;
    DaysOfYear(1969, -1);
  }

  lemma LastDayOf1970Year()
    ensures YearOfDay(364) == 1970
  {
    DivBy400(-30, -1, 370);
    assert JanFirst(1970) == 0 && YearLength(1970) == 365;
    DaysOfYear(1970, 364);
  }

  lemma FirstDayOf1971Year()
    ensures YearOfDay(365) == 1971
  {
    DivBy400(-29, -1, 371);
    assert JanFirst(1971) == 365 && YearLength(1971) == 365;
    DaysOfYear(1971, 365);
  }

  lemma LeapDay1972Year()
    ensures YearOfDay(789) == 1972
  {
    DivBy400(-28, -1, 372);
    assert JanFirst(1972) == 730 && YearLength(1972) == 366;
    DaysOfYear(1972, 789);
  }

  lemma LastDayOf1972Year()
    ensures YearOfDay(1095) == 1972
  {
    DivBy400(-28, -1, 372);
    assert JanFirst(1972) == 730 && YearLength(1972) == 366;
    DaysOfYear(1972, 1095);
  }

  lemma FirstDayOf2026Year()
    ensures YearOfDay(20454) == 2026
  {
    DivBy400(26, 0, 26);
    assert JanFirst(2026) == 20454 && YearLength(2026) == 365;
    DaysOfYear(2026, 20454);
  }

  lemma LastDayOf2025Year()
    ensures YearOfDay(20453) == 2025
  {
    DivBy400(25, 0, 25);
    assert JanFirst(2025) == 20089 && YearLength(2025) == 365;
    DaysOfYear(2025, 20453);
  }
}
