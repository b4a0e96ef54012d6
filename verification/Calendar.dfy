/** The two hand-written civil calendars of the gateway: the month window of a budget
    (auth.rs) and the day bucket of the usage report (usage.rs). Both are checked against a
    calendar that is walked month by month, with the leap-year rule of Appendix C of RFC 3339
    and the month lengths of section 5.7 of RFC 3339. */
module Calendar {
  import opened Basics

  const SECONDS_PER_DAY := 86_400

  // ----- the walked calendar ------------------------------------------------------------

  /** Months are counted as `year * 12 + (month - 1)`; January 1970 is the epoch. */
  const EPOCH_MONTH := 1970 * 12

  predicate IsLeap(year: int)
  {
    year % 4 == 0 && (year % 100 != 0 || year % 400 == 0)
  }

  function DaysInMonth(year: int, month: int): (n: nat)
    requires 1 <= month <= 12
    ensures 28 <= n <= 31
  {
    if month == 2 then (if IsLeap(year) then 29 else 28)
    else if month == 4 || month == 6 || month == 9 || month == 11 then 30
    else 31
  }

  function MonthLength(k: nat): nat
  {
    DaysInMonth(k / 12, k % 12 + 1)
  }

  /** The month holding day `days`, counted from the first day of month `k`. */
  function WalkMonth(days: nat, k: nat): nat
    decreases days
  {
    if days < MonthLength(k) then k else WalkMonth(days - MonthLength(k), k + 1)
  }

  function MonthOfDay(days: nat): nat
  {
    WalkMonth(days, EPOCH_MONTH)
  }

  /** The day number of the first day of month `k`, adding up month lengths from the epoch. */
  function MonthStart(k: nat): nat
    requires EPOCH_MONTH <= k
  {
    if k == EPOCH_MONTH then 0 else MonthStart(k - 1) + MonthLength(k - 1)
  }

  datatype Date = Date(year: int, month: int, day: int)

  predicate IsValidDate(date: Date)
  {
    1 <= date.month <= 12 && 1 <= date.day <= DaysInMonth(date.year, date.month)
  }

  function DaysFromCivil(date: Date): int
    requires 1970 <= date.year && IsValidDate(date)
  {
    MonthStart(date.year * 12 + (date.month - 1)) + date.day - 1
  }

  // ----- the parts of the gateway's arithmetic --------------------------------------------

  function YearOfEra(doe: int): int
  {
    (doe - doe / 1460 + doe / 36524 - doe / 146_096) / 365
  }

  /** Year (from March) and day in that year of day `z`, counted from 0000-03-01. */
  function MarchYear(z: nat): int
  {
    YearOfEra(z % 146_097) + z / 146_097 * 400
  }

  function MarchDay(z: nat): int
  {
    var doe := z % 146_097;
    var yoe := YearOfEra(doe);
    doe - (365 * yoe + yoe / 4 - yoe / 100)
  }

  /** The civil date of day `doy` of the March-based year `y`. */
  function MarchDate(y: int, doy: int): Date
  {
    var mp := (5 * doy + 2) / 153;
    var d := doy - (153 * mp + 2) / 5 + 1;
    var m := if mp < 10 then mp + 3 else mp - 9;
    Date(if m <= 2 then y + 1 else y, m, d)
  }

  // ----- the two hand-written copies ------------------------------------------------------

  /** auth.rs: the budget window of a unix time, cast to 32 bits. */
  function CalendarMonthIndex(secs: nat): nat
  {
    var days := secs / SECONDS_PER_DAY;
    var z := days + 719_468;
    var era := z / 146_097;
    var doe := z % 146_097;
    var yoe := (doe - doe / 1460 + doe / 36524 - doe / 146_096) / 365;
    var marchYear := yoe + era * 400;
    var doy := doe - (365 * yoe + yoe / 4 - yoe / 100);
    var mp := (5 * doy + 2) / 153;
    var month := if mp < 10 then mp + 3 else mp - 9;
    var year := if month <= 2 then marchYear + 1 else marchYear;
    (year * 12 + (month - 1)) % U32
  }

  /** usage.rs: the UTC date of a unix time. */
  function CivilDay(ts: nat): Date
  {
    var days := ts / SECONDS_PER_DAY;
    var z := days + 719_468;
    var era := z / 146_097;
    var doe := z % 146_097;
    var yoe := (doe - doe / 1460 + doe / 36524 - doe / 146_096) / 365;
    var y := yoe + era * 400;
    var doy := doe - (365 * yoe + yoe / 4 - yoe / 100);
    var mp := (5 * doy + 2) / 153;
    var d := doy - (153 * mp + 2) / 5 + 1;
    var m := if mp < 10 then mp + 3 else mp - 9;
    Date(if m <= 2 then y + 1 else y, m, d)
  }

  function Padded(n: nat, width: nat): string
  {
    seq(if |Decimal(n)| < width then width - |Decimal(n)| else 0, _ => '0') + Decimal(n)
  }

  /** `YYYY-MM-DD`, the key of the per-day usage map. */
  function DayText(ts: nat): string
  {
    CivilDayFitsMonth(ts);
    DateText(CivilDay(ts))
  }

  // ----- the arithmetic inside one 400-year era ------------------------------------------

  /** Leap days before the March-based year `y`. */
  function LeapDays(y: int): int
  {
    y / 4 - y / 100 + y / 400
  }

  lemma YearOfEraSplit(c: int, q: int, a: int, t: int)
    requires 0 <= c <= 3 && 0 <= q <= 24 && 0 <= a <= 3 && 0 <= t <= 365
    requires t == 365 ==> a == 3
    requires t == 365 && q == 24 ==> c == 3
    ensures YearOfEra(36524 * c + 1461 * q + 365 * a + t) == 100 * c + 4 * q + a
  {
    var doe := 36524 * c + 1461 * q + 365 * a + t;
    var extra := if 24 * c + q + 365 * a + t >= 1460 then 1 else 0;
    assert doe / 1460 == 25 * c + q + extra;
    if doe < 146_096 {
      assert 36524 * c <= doe < 36524 * (c + 1);
      assert doe / 36524 == c;
    } else {
      assert doe / 36524 == 4;
    }
  }

  lemma LeapDaysSplit(c: int, q: int, a: int)
    requires 0 <= c <= 3 && 0 <= q <= 24 && 0 <= a <= 3
    ensures LeapDays(100 * c + 4 * q + a) == 24 * c + q
    ensures LeapDays(100 * c + 4 * q + a + 1)
         == 24 * c + q + (if a < 3 || (q == 24 && c < 3) then 0 else 1)
  {
    var y := 100 * c + 4 * q + a;
    assert y / 4 == 25 * c + q && y / 100 == c && y / 400 == 0;
    if a < 3 {
      assert (y + 1) / 4 == 25 * c + q && (y + 1) / 100 == c && (y + 1) / 400 == 0;
    } else if q < 24 {
      assert (y + 1) / 4 == 25 * c + q + 1 && (y + 1) / 100 == c && (y + 1) / 400 == 0;
    } else {
      assert (y + 1) / 4 == 25 * c + 25 && (y + 1) / 100 == c + 1;
    }
  }

  /** The day of an era in centuries, four-year cycles, years and days. */
  lemma EraParts(doe: int) returns (c: int, q: int, a: int, t: int)
    requires 0 <= doe < 146_097
    ensures 0 <= c <= 3 && 0 <= q <= 24 && 0 <= a <= 3 && 0 <= t <= 365
    ensures (t == 365 ==> a == 3) && (t == 365 && q == 24 ==> c == 3)
    ensures doe == 36524 * c + 1461 * q + 365 * a + t
  {
    c := if doe < 36524 then 0 else if doe < 73_048 then 1 else if doe < 109_572 then 2 else 3;
    var r := doe - 36524 * c;
    assert 0 <= r <= 36524 && (r == 36524 ==> c == 3);
    var s := r % 1461;
    q := r / 1461;
    assert r == 1461 * q + s && 0 <= s < 1461;
    a := if s < 365 then 0 else if s < 730 then 1 else if s < 1095 then 2 else 3;
    t := s - 365 * a;
  }

  /** The closed form finds the year of the era that really contains the day. */
  lemma YearOfEraContains(doe: int)
    requires 0 <= doe < 146_097
    ensures var y := YearOfEra(doe);
      0 <= y <= 399 && 365 * y + LeapDays(y) <= doe < 365 * (y + 1) + LeapDays(y + 1)
  {
    var c, q, a, t := EraParts(doe);
    YearOfEraSplit(c, q, a, t);
    LeapDaysSplit(c, q, a);
    hide YearOfEra;
    hide LeapDays;
  }

  // ----- the era arithmetic meets the walk -----------------------------------------------

  /** The first day of month `i` (from 0) of `year` in closed form, through the March-based year. */
  function MonthStartClosed(year: int, i: int): int
  {
    var y := if i < 2 then year - 1 else year;
    365 * y + LeapDays(y) + (153 * ((i + 10) % 12) + 2) / 5 - 719_468
  }

  lemma LeapDaysStep(y: int)
    ensures LeapDays(y + 1) == LeapDays(y) + (if IsLeap(y + 1) then 1 else 0)
  {
    QuotientStep(y, 4);
    QuotientStep(y, 100);
    QuotientStep(y, 400);
    MultiplesNest(y + 1);
  }

  lemma MultiplesNest(x: int)
    ensures x % 400 == 0 ==> x % 100 == 0
    ensures x % 100 == 0 ==> x % 4 == 0
  {
    if x % 400 == 0 {
      QuotientUnique(x, 100, 4 * (x / 400), 0);
    }
    if x % 100 == 0 {
      QuotientUnique(x, 4, 25 * (x / 100), 0);
    }
  }

  lemma QuotientStep(y: int, n: int)
    requires n > 1
    ensures (y + 1) / n == y / n + (if (y + 1) % n == 0 then 1 else 0)
  {
    var q, r := y / n, y % n;
    assert y == n * q + r;
    if r == n - 1 {
      QuotientUnique(y + 1, n, q + 1, 0);
    } else {
      QuotientUnique(y + 1, n, q, r + 1);
    }
  }

  lemma MonthStartClosedStep(year: nat, i: nat)
    requires i < 12
    ensures MonthStartClosed(year, i) + DaysInMonth(year, i + 1)
         == if i < 11 then MonthStartClosed(year, i + 1) else MonthStartClosed(year + 1, 0)
  {
    LeapDaysStep(year - 1);
    hide LeapDays;
    hide IsLeap;
    assert i == 0 || i == 1 || i == 2 || i == 3 || i == 4 || i == 5
        || i == 6 || i == 7 || i == 8 || i == 9 || i == 10 || i == 11;
  }

  lemma {:induction false} MonthStartIsClosed(k: nat)
    requires EPOCH_MONTH <= k
    ensures MonthStart(k) == MonthStartClosed(k / 12, k % 12)
  {
    EpochMonthStartsAtZero();
    hide MonthStartClosed;
    hide DaysInMonth;
    if k > EPOCH_MONTH {
      MonthStartIsClosed(k - 1);
      MonthStartClosedStep((k - 1) / 12, (k - 1) % 12);
      QuotientStep(k - 1, 12);
    }
  }

  lemma EpochMonthStartsAtZero()
    ensures MonthStartClosed(1970, 0) == 0
  {
  }

  /** Day of the March-based year to month and day of the month. */
  lemma MonthPartContains(doy: int)
    requires 0 <= doy <= 365
    ensures var mp := (5 * doy + 2) / 153;
      0 <= mp <= 11 && 0 <= doy - (153 * mp + 2) / 5 <= 30
      && (mp < 11 ==> doy < (153 * (mp + 1) + 2) / 5)
  {
  }

  lemma EraShift(yoe: int, era: int)
    ensures LeapDays(yoe + era * 400) == LeapDays(yoe) + 97 * era
    ensures LeapDays(yoe + era * 400 + 1) == LeapDays(yoe + 1) + 97 * era
  {
    var y := yoe + era * 400;
    assert y / 4 == yoe / 4 + 100 * era && y / 100 == yoe / 100 + 4 * era && y / 400 == yoe / 400 + era;
    assert (y + 1) / 4 == (yoe + 1) / 4 + 100 * era && (y + 1) / 100 == (yoe + 1) / 100 + 4 * era
        && (y + 1) / 400 == (yoe + 1) / 400 + era;
  }

  lemma MarchYearFromEpoch(y: nat, doy: nat)
    requires doy < 365 + LeapDays(y + 1) - LeapDays(y)
    requires 365 * y + LeapDays(y) + doy >= 719_468
    ensures y >= 1969 && (y == 1969 ==> doy >= 306)
  {
  }

  lemma MarchMonth(y: int, mp: int)
    requires 0 <= mp <= 11
    ensures mp < 10 ==> MonthStartClosed(y, mp + 2) == 365 * y + LeapDays(y) + (153 * mp + 2) / 5 - 719_468
    ensures mp >= 10 ==> MonthStartClosed(y + 1, mp - 10) == 365 * y + LeapDays(y) + (153 * mp + 2) / 5 - 719_468
  {
    assert mp < 10 ==> (mp + 2 + 10) % 12 == mp;
    assert mp >= 10 ==> (mp - 10 + 10) % 12 == mp;
  }

  lemma MarchMonthLength(y: int, mp: int)
    requires 0 <= mp <= 11
    ensures mp < 10 ==> DaysInMonth(y, mp + 3) == (153 * (mp + 1) + 2) / 5 - (153 * mp + 2) / 5
    ensures mp == 10 ==> DaysInMonth(y + 1, mp - 9) == 31
    ensures mp == 11 ==> DaysInMonth(y + 1, mp - 9) == 28 + LeapDays(y + 1) - LeapDays(y)
  {
    LeapDaysStep(y);
    assert mp == 0 || mp == 1 || mp == 2 || mp == 3 || mp == 4 || mp == 5
        || mp == 6 || mp == 7 || mp == 8 || mp == 9 || mp == 10 || mp == 11;
  }

  /** The day number splits exactly into a March-based year and a day inside it. */
  lemma MarchYearContains(z: nat)
    requires z >= 719_468
    ensures var y, doy := MarchYear(z), MarchDay(z);
      0 <= y && 365 * y + LeapDays(y) + doy == z && 0 <= doy < 365 + LeapDays(y + 1) - LeapDays(y)
  {
    var era, doe := z / 146_097, z % 146_097;
    var yoe := YearOfEra(doe);
    YearOfEraContains(doe);
    EraShift(yoe, era);
    assert yoe / 400 == 0;
  }

  lemma MarchDateFitsMonth(y: int, doy: int, leap: int)
    requires 0 <= doy < 365 + leap && leap == LeapDays(y + 1) - LeapDays(y) <= 1
    ensures var date := MarchDate(y, doy);
      IsValidDate(date)
      && MonthStartClosed(date.year, date.month - 1) + date.day - 1 == 365 * y + LeapDays(y) + doy - 719_468
  {
    MonthPartContains(doy);
    var mp := (5 * doy + 2) / 153;
    MarchMonth(y, mp);
    MarchMonthLength(y, mp);
  }

  /** The day copy of the arithmetic, read in parts. */
  lemma CivilDayByParts(ts: nat)
    ensures var z := ts / SECONDS_PER_DAY + 719_468;
      CivilDay(ts) == MarchDate(MarchYear(z), MarchDay(z))
  {
  }

  /** The month copy of the arithmetic, read in parts. */
  lemma MonthIndexByParts(secs: nat)
    ensures var z := secs / SECONDS_PER_DAY + 719_468;
      var date := MarchDate(MarchYear(z), MarchDay(z));
      CalendarMonthIndex(secs) == (date.year * 12 + (date.month - 1)) % U32
  {
  }

  /** The date computed for a day lies in its month, at its offset from the walked month start. */
  lemma CivilDayFitsMonth(ts: nat)
    ensures var date := CivilDay(ts);
      1970 <= date.year && IsValidDate(date)
      && DaysFromCivil(date) == ts / SECONDS_PER_DAY
  {
    hide CivilDay;
    hide MarchDate;
    hide LeapDays;
    hide DaysInMonth;
    hide MonthStartClosed;
    CivilDayByParts(ts);
    var y, doy := CivilDayParts(ts / SECONDS_PER_DAY + 719_468);
    hide MarchYear;
    hide MarchDay;
    MarchDateFitsMonth(y, doy, LeapDays(y + 1) - LeapDays(y));
    MonthPartFromEpoch(y, doy);
    var date := CivilDay(ts);
    var k := date.year * 12 + (date.month - 1);
    QuotientUnique(k, 12, date.year, date.month - 1);
    MonthStartIsClosed(k);
  }

  lemma MonthPartFromEpoch(y: int, doy: int)
    requires 1969 <= y && 0 <= doy <= 365 && (y == 1969 ==> doy >= 306)
    ensures MarchDate(y, doy).year >= 1970
  {
  }

  lemma CivilDayParts(z: nat) returns (y: nat, doy: nat)
    requires z >= 719_468
    ensures y == MarchYear(z) && doy == MarchDay(z)
    ensures 1969 <= y && (y == 1969 ==> doy >= 306)
    ensures doy <= 365 && 365 * y + LeapDays(y) + doy == z
    ensures doy < 365 + LeapDays(y + 1) - LeapDays(y) <= 366
  {
    MarchYearContains(z);
    y, doy := MarchYear(z), MarchDay(z);
    MarchYearFromEpoch(y, doy);
    LeapDaysStep(y);
  }

  // ----- the budget window is the calendar month ------------------------------------------

  lemma {:induction false} WalkFindsSpan(days: nat, k: nat)
    requires EPOCH_MONTH <= k
    ensures var found := WalkMonth(days, k);
      k <= found && MonthStart(found) <= MonthStart(k) + days < MonthStart(found + 1)
    decreases days
  {
    if days >= MonthLength(k) {
      WalkFindsSpan(days - MonthLength(k), k + 1);
    }
  }

  lemma {:induction false} MonthStartGrows(j: nat, k: nat)
    requires EPOCH_MONTH <= j <= k
    ensures MonthStart(j) + 28 * (k - j) <= MonthStart(k)
  {
    if j < k {
      MonthStartGrows(j, k - 1);
    }
  }

  /** A day belongs to the one month whose walked span contains it. */
  lemma MonthOfDayUnique(days: nat, k: nat)
    requires EPOCH_MONTH <= k
    ensures MonthOfDay(days) == k <==> MonthStart(k) <= days < MonthStart(k + 1)
  {
    var found := MonthOfDay(days);
    WalkFindsSpan(days, EPOCH_MONTH);
    if found < k {
      MonthStartGrows(found + 1, k);
    } else if k < found {
      MonthStartGrows(k + 1, found);
    }
  }

  /** For every second the gateway's index is the walked Gregorian month, modulo the 32-bit cast. */
  lemma MonthIndexIsWalkedMonth(secs: nat)
    ensures CalendarMonthIndex(secs) == MonthOfDay(secs / SECONDS_PER_DAY) % U32
  {
    hide CalendarMonthIndex;
    hide CivilDay;
    hide MarchDate;
    hide MonthOfDay;
    CivilDayFitsMonth(secs);
    CivilDayByParts(secs);
    MonthIndexByParts(secs);
    var date := CivilDay(secs);
    var k := date.year * 12 + (date.month - 1);
    QuotientUnique(k, 12, date.year, date.month - 1);
    MonthOfDayUnique(secs / SECONDS_PER_DAY, k);
  }

  lemma MonthOfDayMonotone(a: nat, b: nat)
    requires a <= b
    ensures EPOCH_MONTH <= MonthOfDay(a) <= MonthOfDay(b)
  {
    var j, k := MonthOfDay(a), MonthOfDay(b);
    WalkFindsSpan(a, EPOCH_MONTH);
    WalkFindsSpan(b, EPOCH_MONTH);
    if k < j {
      MonthStartGrows(k + 1, j);
    }
  }

  lemma MonthOfDaySpan(day: nat)
    ensures EPOCH_MONTH <= MonthOfDay(day)
    ensures MonthStart(MonthOfDay(day)) <= day < MonthStart(MonthOfDay(day) + 1)
  {
    WalkFindsSpan(day, EPOCH_MONTH);
  }

  lemma MonthStartBegins()
    ensures MonthStart(EPOCH_MONTH) == 0 && MonthStart(EPOCH_MONTH + 1) == 31
  {
  }

  lemma MonthIndexWraps()
    ensures CalendarMonthIndex(MonthStart(U32) * SECONDS_PER_DAY) == 0
    ensures CalendarMonthIndex(0) == EPOCH_MONTH
  {
    hide CalendarMonthIndex;
    hide MonthOfDay;
    hide MonthStart;
    hide MonthLength;
    var day := MonthStart(U32);
    MonthStartBegins();
    QuotientUnique(day * SECONDS_PER_DAY, SECONDS_PER_DAY, day, 0);
    MonthStartGrows(U32, U32 + 1);
    MonthOfDayUnique(day, U32);
    MonthOfDayUnique(0, EPOCH_MONTH);
    MonthIndexIsWalkedMonth(day * SECONDS_PER_DAY);
    MonthIndexIsWalkedMonth(0);
  }

  lemma MonthIndexMonotonePair(a: nat, b: nat)
    requires a <= b && MonthOfDay(b / SECONDS_PER_DAY) < U32
    ensures CalendarMonthIndex(a) <= CalendarMonthIndex(b)
  {
    hide CalendarMonthIndex;
    hide MonthOfDay;
    MonthOfDayMonotone(a / SECONDS_PER_DAY, b / SECONDS_PER_DAY);
    MonthIndexIsWalkedMonth(a);
    MonthIndexIsWalkedMonth(b);
  }

  /** The index is monotone up to a time exactly when the month number there still fits 32 bits. */
  lemma MonthIndexMonotoneUntilCast(last: nat)
    ensures (forall a: nat, b: nat :: a <= b <= last ==> CalendarMonthIndex(a) <= CalendarMonthIndex(b))
       <==> MonthOfDay(last / SECONDS_PER_DAY) < U32
  {
    hide CalendarMonthIndex;
    hide MonthOfDay;
    var month := MonthOfDay(last / SECONDS_PER_DAY);
    if month < U32 {
      forall a: nat, b: nat | a <= b <= last
        ensures CalendarMonthIndex(a) <= CalendarMonthIndex(b)
      {
        MonthOfDayMonotone(b / SECONDS_PER_DAY, last / SECONDS_PER_DAY);
        MonthIndexMonotonePair(a, b);
      }
    } else {
      MonthOfDaySpan(last / SECONDS_PER_DAY);
      MonthStartGrows(U32, month);
      MonthIndexWraps();
      assert 0 <= MonthStart(U32) * SECONDS_PER_DAY <= last;
    }
  }

  ghost predicate IsMonthStart(day: nat)
  {
    exists k: nat :: EPOCH_MONTH <= k && MonthStart(k) == day
  }

  lemma MonthOfNextDay(day: nat)
    ensures MonthOfDay(day + 1) == MonthOfDay(day) + if IsMonthStart(day + 1) then 1 else 0
  {
    hide MonthOfDay;
    var j, k := MonthOfDay(day), MonthOfDay(day + 1);
    MonthOfDaySpan(day);
    MonthOfDaySpan(day + 1);
    MonthOfDayMonotone(day, day + 1);
    if j < k {
      MonthStartGrows(j + 1, k);
      assert MonthStart(k) == day + 1;
    } else if IsMonthStart(day + 1) {
      var m: nat :| EPOCH_MONTH <= m && MonthStart(m) == day + 1;
      MonthStartGrows(m, m + 1);
      MonthOfDayUnique(day + 1, m);
    }
  }

  /** One second later the index is one larger at midnight on the first of a month, else the same. */
  lemma MonthIndexStepsAtMonthStart(secs: nat)
    requires MonthOfDay((secs + 1) / SECONDS_PER_DAY) < U32
    ensures CalendarMonthIndex(secs + 1) == CalendarMonthIndex(secs)
      + if (secs + 1) % SECONDS_PER_DAY == 0 && IsMonthStart((secs + 1) / SECONDS_PER_DAY) then 1 else 0
  {
    hide CalendarMonthIndex;
    hide MonthOfDay;
    MonthIndexIsWalkedMonth(secs);
    MonthIndexIsWalkedMonth(secs + 1);
    QuotientStep(secs, SECONDS_PER_DAY);
    MonthOfNextDay(secs / SECONDS_PER_DAY);
  }

  lemma MonthsInThirtyOneDays(day: nat)
    ensures 1 <= MonthOfDay(day + 31) - MonthOfDay(day) <= 2
  {
    hide MonthOfDay;
    var j, k := MonthOfDay(day), MonthOfDay(day + 31);
    MonthOfDaySpan(day);
    MonthOfDaySpan(day + 31);
    MonthOfDayMonotone(day, day + 31);
    if k > j + 2 {
      MonthStartGrows(j + 1, k);
      assert false;
    }
  }

  /** Over any 31 days the window turns over once or twice: no cap outlives a month, none is skipped. */
  lemma MonthIndexOverThirtyOneDays(secs: nat)
    requires MonthOfDay(secs / SECONDS_PER_DAY + 31) < U32
    ensures 1 <= CalendarMonthIndex(secs + 31 * SECONDS_PER_DAY) - CalendarMonthIndex(secs) <= 2
  {
    hide CalendarMonthIndex;
    hide MonthOfDay;
    var day := secs / SECONDS_PER_DAY;
    QuotientUnique(secs + 31 * SECONDS_PER_DAY, SECONDS_PER_DAY, day + 31, secs % SECONDS_PER_DAY);
    MonthIndexIsWalkedMonth(secs);
    MonthIndexIsWalkedMonth(secs + 31 * SECONDS_PER_DAY);
    MonthsInThirtyOneDays(day);
  }

  // ----- the day of the usage report --------------------------------------------------------

  lemma DateInsideMonth(date: Date, k: nat)
    requires IsValidDate(date) && 1970 <= date.year && k == date.year * 12 + (date.month - 1)
    ensures MonthStart(k) <= DaysFromCivil(date) < MonthStart(k + 1)
  {
    QuotientUnique(k, 12, date.year, date.month - 1);
  }

  lemma SameDaySameDate(p: Date, q: Date)
    requires IsValidDate(p) && IsValidDate(q) && 1970 <= p.year && 1970 <= q.year
    requires DaysFromCivil(p) == DaysFromCivil(q)
    ensures p == q
  {
    hide MonthStart;
    hide MonthOfDay;
    var j: nat, k: nat := p.year * 12 + (p.month - 1), q.year * 12 + (q.month - 1);
    DateInsideMonth(p, j);
    DateInsideMonth(q, k);
    MonthOfDayUnique(DaysFromCivil(p), j);
    MonthOfDayUnique(DaysFromCivil(q), k);
  }

  /** Every date from 1970 on comes back from its own day number: `CivilDay` inverts the walk. */
  lemma CivilDayRoundTrip(date: Date)
    requires 1970 <= date.year && IsValidDate(date)
    ensures 0 <= DaysFromCivil(date) && CivilDay(DaysFromCivil(date) * SECONDS_PER_DAY) == date
  {
    hide CivilDay;
    hide DaysFromCivil;
    DateInsideMonth(date, date.year * 12 + (date.month - 1));
    var day := DaysFromCivil(date);
    QuotientUnique(day * SECONDS_PER_DAY, SECONDS_PER_DAY, day, 0);
    CivilDayFitsMonth(day * SECONDS_PER_DAY);
    SameDaySameDate(CivilDay(day * SECONDS_PER_DAY), date);
  }

  /** The two copies of the arithmetic agree on year and month. */
  lemma CivilDayAgreesWithMonthIndex(ts: nat)
    ensures var date := CivilDay(ts);
      CalendarMonthIndex(ts) == (date.year * 12 + (date.month - 1)) % U32
  {
    hide CalendarMonthIndex;
    hide CivilDay;
    CivilDayByParts(ts);
    MonthIndexByParts(ts);
  }

  // ----- text order ---------------------------------------------------------------------------

  /** `n` written with exactly `width` digits, high digits dropped. */
  function FixedDigits(n: nat, width: nat): (s: string)
    ensures |s| == width
  {
    if width == 0 then "" else FixedDigits(n / 10, width - 1) + [DIGITS[n % 10]]
  }

  function Power10(width: nat): nat
  {
    if width == 0 then 1 else 10 * Power10(width - 1)
  }

  lemma {:induction false} FixedDigitsOfZero(width: nat)
    ensures FixedDigits(0, width) == seq(width, _ => '0')
  {
    if width > 0 {
      FixedDigitsOfZero(width - 1);
      assert seq(width, _ => '0') == seq(width - 1, _ => '0') + ['0'];
    }
  }

  lemma {:induction false} PaddedIsFixedDigits(n: nat, width: nat)
    requires width > 0 && n < Power10(width)
    ensures Padded(n, width) == FixedDigits(n, width)
  {
    if n < 10 {
      OneDigitPadded(n, width);
    } else {
      PaddedIsFixedDigits(n / 10, width - 1);
      PaddedStep(n, width);
    }
  }

  lemma OneDigitPadded(n: nat, width: nat)
    requires n < 10 && width > 0
    ensures Padded(n, width) == FixedDigits(n, width)
  {
    FixedDigitsOfZero(width - 1);
    assert Decimal(n) == [DIGITS[n]] && n / 10 == 0 && n % 10 == n;
    hide Decimal;
  }

  lemma PaddedStep(n: nat, width: nat)
    requires n >= 10 && width > 0
    ensures Padded(n, width) == Padded(n / 10, width - 1) + [DIGITS[n % 10]]
  {
    var front := Decimal(n / 10);
    assert Decimal(n) == front + [DIGITS[n % 10]];
    hide Decimal;
  }

  lemma {:induction false} FixedDigitsOrder(n: nat, m: nat, width: nat)
    requires n < m < Power10(width)
    ensures LexLess(FixedDigits(n, width), FixedDigits(m, width))
  {
    if n / 10 < m / 10 {
      FixedDigitsOrder(n / 10, m / 10, width - 1);
      LexLessExtend(FixedDigits(n / 10, width - 1), FixedDigits(m / 10, width - 1),
        [DIGITS[n % 10]], [DIGITS[m % 10]]);
    } else {
      assert n / 10 == m / 10;
      LexLessCommonPrefix(FixedDigits(n / 10, width - 1), [DIGITS[n % 10]], [DIGITS[m % 10]]);
    }
  }

  function DateText(date: Date): string
    requires 0 <= date.year && 0 <= date.month && 0 <= date.day
  {
    Padded(date.year, 4) + ("-" + (Padded(date.month, 2) + ("-" + Padded(date.day, 2))))
  }

  predicate DateLess(a: Date, b: Date)
  {
    a.year < b.year || (a.year == b.year && (a.month < b.month || (a.month == b.month && a.day < b.day)))
  }

  lemma FieldOrder(n: nat, m: nat, width: nat, x: string, y: string)
    requires n < m < Power10(width) && width > 0
    ensures LexLess(Padded(n, width) + x, Padded(m, width) + y)
  {
    PaddedIsFixedDigits(n, width);
    PaddedIsFixedDigits(m, width);
    FixedDigitsOrder(n, m, width);
    LexLessExtend(FixedDigits(n, width), FixedDigits(m, width), x, y);
  }

  lemma DateTextOrder(a: Date, b: Date)
    requires IsValidDate(a) && IsValidDate(b) && DateLess(a, b)
    requires 0 <= a.year && 0 <= b.year <= 9999
    ensures LexLess(DateText(a), DateText(b))
  {
    assert Power10(4) == 10_000 && Power10(2) == 100;
    hide LexLess;
    hide Padded;
    hide Power10;
    var da, db := Padded(a.day, 2), Padded(b.day, 2);
    var ma, mb := Padded(a.month, 2) + ("-" + da), Padded(b.month, 2) + ("-" + db);
    if a.year < b.year {
      FieldOrder(a.year, b.year, 4, "-" + ma, "-" + mb);
    } else {
      if a.month < b.month {
        FieldOrder(a.month, b.month, 2, "-" + da, "-" + db);
      } else {
        FieldOrder(a.day, b.day, 2, "", "");
        assert da + "" == da && db + "" == db;
        LexLessCommonPrefix("-", da, db);
        LexLessCommonPrefix(Padded(a.month, 2), "-" + da, "-" + db);
      }
      LexLessCommonPrefix("-", ma, mb);
      LexLessCommonPrefix(Padded(a.year, 4), "-" + ma, "-" + mb);
    }
  }

  lemma LaterDateOrder(p: Date, q: Date)
    requires IsValidDate(p) && IsValidDate(q) && 1970 <= p.year && 1970 <= q.year
    requires DaysFromCivil(p) < DaysFromCivil(q)
    ensures DateLess(p, q)
  {
    hide MonthStart;
    var j: nat, k: nat := p.year * 12 + (p.month - 1), q.year * 12 + (q.month - 1);
    DateInsideMonth(p, j);
    DateInsideMonth(q, k);
    if k < j {
      MonthStartGrows(k + 1, j);
      assert false;
    }
  }

  lemma CivilDayOrder(a: nat, b: nat)
    requires a / SECONDS_PER_DAY < b / SECONDS_PER_DAY
    ensures DateLess(CivilDay(a), CivilDay(b))
  {
    hide CivilDay;
    CivilDayFitsMonth(a);
    CivilDayFitsMonth(b);
    LaterDateOrder(CivilDay(a), CivilDay(b));
  }

  lemma CivilDaySameDay(a: nat, b: nat)
    requires a / SECONDS_PER_DAY == b / SECONDS_PER_DAY
    ensures CivilDay(a) == CivilDay(b)
  {
    hide CivilDay;
    hide MarchDate;
    hide MarchYear;
    hide MarchDay;
    CivilDayByParts(a);
    CivilDayByParts(b);
  }

  /** The first day whose year needs five digits: 10000-01-01. */
  const FIVE_DIGIT_YEARS := 2_932_897

  lemma FiveDigitYearsStart()
    ensures MonthStart(120_000) == FIVE_DIGIT_YEARS
    ensures CivilDay(FIVE_DIGIT_YEARS * SECONDS_PER_DAY) == Date(10_000, 1, 1)
    ensures CivilDay((FIVE_DIGIT_YEARS - 1) * SECONDS_PER_DAY) == Date(9999, 12, 31)
  {
    hide CivilDay;
    MonthStartIsClosed(120_000);
    MonthStartIsClosed(119_999);
    CivilDayRoundTrip(Date(10_000, 1, 1));
    CivilDayRoundTrip(Date(9999, 12, 31));
  }

  /** Sorting the day map by its text keys is sorting by time exactly up to the end of year 9999. */
  lemma DayTextOrderIsTimeOrder(last: nat)
    ensures (forall a: nat, b: nat :: a <= last && b <= last ==>
              (a / SECONDS_PER_DAY < b / SECONDS_PER_DAY <==> LexLess(DayText(a), DayText(b))))
       <==> last < FIVE_DIGIT_YEARS * SECONDS_PER_DAY
  {
    hide CivilDay;
    FiveDigitYearsStart();
    if last < FIVE_DIGIT_YEARS * SECONDS_PER_DAY {
      forall a: nat, b: nat | a <= last && b <= last
        ensures a / SECONDS_PER_DAY < b / SECONDS_PER_DAY <==> LexLess(DayText(a), DayText(b))
      {
        DayTextOrderPair(a, b);
      }
    } else {
      var a, b := (FIVE_DIGIT_YEARS - 1) * SECONDS_PER_DAY, FIVE_DIGIT_YEARS * SECONDS_PER_DAY;
      assert a / SECONDS_PER_DAY < b / SECONDS_PER_DAY && a <= last && b <= last;
      YearTextBeyond9999();
      assert !LexLess(DayText(a), DayText(b));
    }
  }

  lemma YearTextBeyond9999()
    ensures !LexLess(DateText(Date(9999, 12, 31)), DateText(Date(10_000, 1, 1)))
  {
    assert Decimal(9999) == "9999";
    assert Decimal(1000) == "1000";
    assert Decimal(10_000) == "10000";
    assert DateText(Date(9999, 12, 31))[0] == '9';
    assert DateText(Date(10_000, 1, 1))[0] == '1';
  }

  lemma DayTextOrderPair(a: nat, b: nat)
    requires a < FIVE_DIGIT_YEARS * SECONDS_PER_DAY && b < FIVE_DIGIT_YEARS * SECONDS_PER_DAY
    ensures a / SECONDS_PER_DAY < b / SECONDS_PER_DAY <==> LexLess(DayText(a), DayText(b))
  {
    hide CivilDay;
    hide DateText;
    DateInFourDigits(a);
    DateInFourDigits(b);
    CivilDayFitsMonth(a);
    CivilDayFitsMonth(b);
    if a / SECONDS_PER_DAY < b / SECONDS_PER_DAY {
      CivilDayOrder(a, b);
      DateTextOrder(CivilDay(a), CivilDay(b));
    } else if a / SECONDS_PER_DAY == b / SECONDS_PER_DAY {
      CivilDaySameDay(a, b);
      LexLessIrreflexive(DayText(a));
    } else {
      CivilDayOrder(b, a);
      DateTextOrder(CivilDay(b), CivilDay(a));
      if LexLess(DayText(a), DayText(b)) {
        LexLessTransitive(DayText(a), DayText(b), DayText(a));
        LexLessIrreflexive(DayText(a));
      }
    }
  }

  lemma DateInFourDigits(ts: nat)
    requires ts < FIVE_DIGIT_YEARS * SECONDS_PER_DAY
    ensures CivilDay(ts).year <= 9999
  {
    FiveDigitYearsStart();
    CivilDayOrder(ts, FIVE_DIGIT_YEARS * SECONDS_PER_DAY);
  }
}
