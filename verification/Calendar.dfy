/** The proleptic Gregorian calendar as `civil_from_days` computes it, against an
    independent reference: month lengths, the leap rule, and the usual inverse. */
module Calendar {

  datatype Date = Date(year: int, month: int, day: int)

  const EPOCH_SHIFT := 719468

  /** Month and day of a March-based day of the year. */
  function FromMarch(year: int, doy: int): Date
  {
    var mp := (5 * doy + 2) / 153;
    var day := doy - (153 * mp + 2) / 5 + 1;
    var month := if mp < 10 then mp + 3 else mp - 9;
    Date(year + (if month <= 2 then 1 else 0), month, day)
  }

  function YearOfEra(doe: int): int
  {
    (doe - doe / 1460 + doe / 36524 - doe / 146096) / 365
  }

  function CivilOfEra(era: int, doe: int): Date
  {
    var yoe := YearOfEra(doe);
    FromMarch(yoe + era * 400, doe - (365 * yoe + yoe / 4 - yoe / 100))
  }

  /** Hinnant's algorithm, with the floor division of the source language. */
  function CivilFromDays(days: int): Date
  {
    var z := days + EPOCH_SHIFT;
    var era := (if z >= 0 then z else z - 146096) / 146097;
    CivilOfEra(era, z - era * 146097)
  }

  predicate IsLeap(year: int)
  {
    year % 4 == 0 && (year % 100 != 0 || year % 400 == 0)
  }

  function DaysInMonth(year: int, month: int): int
  {
    if month == 2 then (if IsLeap(year) then 29 else 28)
    else if month == 4 || month == 6 || month == 9 || month == 11 then 30
    else 31
  }

  predicate ValidDate(d: Date)
  {
    1 <= d.month <= 12 && 1 <= d.day <= DaysInMonth(d.year, d.month)
  }

  function NextDay(d: Date): Date
  {
    if d.day < DaysInMonth(d.year, d.month) then Date(d.year, d.month, d.day + 1)
    else if d.month < 12 then Date(d.year, d.month + 1, 1)
    else Date(d.year + 1, 1, 1)
  }

  /** Days from 0000-03-01 to the first of March of a March-based year. */
  function YearStart(y: int): int
  {
    365 * y + y / 4 - y / 100 + y / 400
  }

  /** March-based month index: 0 is March, 11 is February. */
  function MonthIndex(month: int): int
  {
    if month > 2 then month - 3 else month + 9
  }

  function DayOfYear(d: Date): int
  {
    (153 * MonthIndex(d.month) + 2) / 5 + d.day - 1
  }

  function MarchYear(d: Date): int
  {
    if d.month <= 2 then d.year - 1 else d.year
  }

  /** The usual inverse. */
  function DaysFromCivil(d: Date): int
  {
    YearStart(MarchYear(d)) + DayOfYear(d) - EPOCH_SHIFT
  }

  /** Day `doe` of an era written as century, four-year cycle, year and day of year. */
  ghost predicate Splits(doe: int, c: int, q: int, i: int, r: int)
  {
    && doe == 36524 * c + 1461 * q + 365 * i + r
    && 0 <= c <= 3 && 0 <= q <= 24 && 0 <= i <= 3 && 0 <= r
    && (r <= 364 || (r == 365 && i == 3 && (q < 24 || c == 3)))
  }

  lemma SplitEra(doe: int) returns (c: int, q: int, i: int, r: int)
    requires 0 <= doe < 146097
    ensures Splits(doe, c, q, i, r)
  {
    c := if doe == 146096 then 3 else doe / 36524;
    var e := doe - 36524 * c;
    q := if e == 36524 then 24 else e / 1461;
    var f := e - 1461 * q;
    i := if f == 1460 then 3 else f / 365;
    r := f - 365 * i;
  }

  lemma YearOfEraSplit(doe: int, c: int, q: int, i: int, r: int)
    requires Splits(doe, c, q, i, r)
    ensures YearOfEra(doe) == 100 * c + 4 * q + i
  {
    var late := if 24 * c + q + 365 * i + r >= 1460 then 1 else 0;
    assert doe == 1460 * (25 * c + q) + (24 * c + q + 365 * i + r);
    assert doe / 1460 == 25 * c + q + late;
    var last := if c == 3 && q == 24 && i == 3 && r == 365 then 1 else 0;
    assert doe / 36524 == c + last;
    assert doe / 146096 == last;
    assert 0 <= r - late <= 364;
    assert doe - doe / 1460 + doe / 36524 - doe / 146096 == 365 * (100 * c + 4 * q + i) + (r - late);
  }

  lemma YearStartSplit(c: int, q: int, i: int, era: int)
    requires 0 <= c <= 3 && 0 <= q <= 24 && 0 <= i <= 3
    ensures YearStart(400 * era + 100 * c + 4 * q + i) == 146097 * era + 36524 * c + 1461 * q + 365 * i
  {
    var y := 400 * era + 100 * c + 4 * q + i;
    assert y / 4 == 100 * era + 25 * c + q;
    assert y / 100 == 4 * era + c;
    assert y / 400 == era;
  }

  /** The century rule is already inside the year-of-era arithmetic. */
  lemma YearOfEraDays(c: int, q: int, i: int)
    requires 0 <= c <= 3 && 0 <= q <= 24 && 0 <= i <= 3
    ensures var y := 100 * c + 4 * q + i; 365 * y + y / 4 - y / 100 == 36524 * c + 1461 * q + 365 * i
  {
    var y := 100 * c + 4 * q + i;
    assert y / 4 == 25 * c + q;
    assert y / 100 == c;
  }

  lemma FromMarchInverse(y: int, doy: int)
    requires 0 <= doy <= 366
    ensures var d := FromMarch(y, doy);
            MarchYear(d) == y && DayOfYear(d) == doy && 1 <= d.month <= 12 && 1 <= d.day
    ensures doy <= 364 || (doy == 365 && IsLeap(y + 1)) ==> ValidDate(FromMarch(y, doy))
  {
  }

  lemma DayOfYearInverse(d: Date)
    requires ValidDate(d)
    ensures 0 <= DayOfYear(d) <= 365
    ensures DayOfYear(d) == 365 ==> IsLeap(MarchYear(d) + 1)
    ensures FromMarch(MarchYear(d), DayOfYear(d)) == d
  {
  }

  lemma YearLength(y: int)
    ensures YearStart(y + 1) == YearStart(y) + 365 + (if IsLeap(y + 1) then 1 else 0)
  {
    var m := y / 400;
    var k := y - 400 * m;
    assert y / 4 == 100 * m + k / 4 && (y + 1) / 4 == 100 * m + (k + 1) / 4;
    assert y / 100 == 4 * m + k / 100 && (y + 1) / 100 == 4 * m + (k + 1) / 100;
    assert (y + 1) / 400 == m + (k + 1) / 400;
    assert (y + 1) % 4 == (k + 1) % 4 && (y + 1) % 100 == (k + 1) % 100 && (y + 1) % 400 == (k + 1) % 400;
    LeapCarry(k);
  }

  lemma LeapCarry(k: int)
    requires 0 <= k < 400
    ensures (k + 1) / 4 - k / 4 - ((k + 1) / 100 - k / 100) + (k + 1) / 400
            == if IsLeap(k + 1) then 1 else 0
  {
    assert (k + 1) / 4 == k / 4 + if (k + 1) % 4 == 0 then 1 else 0;
    assert (k + 1) / 100 == k / 100 + if (k + 1) % 100 == 0 then 1 else 0;
    assert (k + 1) % 100 == 0 ==> (k + 1) % 4 == 0;
  }

  lemma EraDate(era: int, doe: int, c: int, q: int, i: int, r: int)
    requires Splits(doe, c, q, i, r)
    ensures CivilOfEra(era, doe) == FromMarch(400 * era + (100 * c + 4 * q + i), r)
  {
    YearOfEraSplit(doe, c, q, i, r);
    YearOfEraDays(c, q, i);
    DateInEra(era, doe, 100 * c + 4 * q + i, r);
  }

  lemma DateInEra(era: int, doe: int, y: int, r: int)
    requires YearOfEra(doe) == y && doe == 365 * y + y / 4 - y / 100 + r
    ensures CivilOfEra(era, doe) == FromMarch(400 * era + y, r)
  {
  }

  lemma DateOf(d: Date, y: int, doy: int)
    requires MarchYear(d) == y && DayOfYear(d) == doy
    ensures DaysFromCivil(d) == YearStart(y) + doy - EPOCH_SHIFT
  {
  }

  lemma MarchDay(era: int, c: int, q: int, i: int, r: int)
    requires Splits(36524 * c + 1461 * q + 365 * i + r, c, q, i, r)
    ensures var d := FromMarch(400 * era + (100 * c + 4 * q + i), r);
            ValidDate(d) && DaysFromCivil(d) == 146097 * era + 36524 * c + 1461 * q + 365 * i + r - EPOCH_SHIFT
  {
    YearStartSplit(c, q, i, era);
    var y := 400 * era + (100 * c + 4 * q + i);
    if r == 365 {
      LeapEnd(era, c, q);
    }
    FromMarchInverse(y, r);
    DateOf(FromMarch(y, r), y, r);
  }

  lemma EraDay(era: int, doe: int, c: int, q: int, i: int, r: int)
    requires Splits(doe, c, q, i, r)
    ensures ValidDate(CivilOfEra(era, doe)) && DaysFromCivil(CivilOfEra(era, doe)) == 146097 * era + doe - EPOCH_SHIFT
  {
    EraDate(era, doe, c, q, i, r);
    MarchDay(era, c, q, i, r);
  }

  lemma LeapEnd(era: int, c: int, q: int)
    requires 0 <= c <= 3 && 0 <= q <= 24 && (q < 24 || c == 3)
    ensures IsLeap(400 * era + 100 * c + 4 * q + 4)
  {
    var y := 400 * era + 100 * c + 4 * q + 4;
    assert y == 4 * (100 * era + 25 * c + q + 1);
    if q < 24 {
      assert y == 100 * (4 * era + c) + (4 * q + 4);
    } else {
      assert y == 400 * (era + 1);
    }
  }

  lemma EraRange(z: int, era: int)
    requires z >= 0 || (z + 1) % 146097 == 0
    requires era == (if z >= 0 then z else z - 146096) / 146097
    ensures 0 <= z - era * 146097 < 146097
  {
    if z < 0 {
      var k := (z + 1) / 146097;
      assert z - 146096 == 146097 * (k - 1);
    }
  }

  /** What the code computes where its era is the true one. */
  lemma CivilInEra(days: int)
    requires days >= -EPOCH_SHIFT || (days + EPOCH_SHIFT + 1) % 146097 == 0
    ensures ValidDate(CivilFromDays(days))
    ensures DaysFromCivil(CivilFromDays(days)) == days
  {
    var z := days + EPOCH_SHIFT;
    var era := (if z >= 0 then z else z - 146096) / 146097;
    var doe := z - era * 146097;
    EraRange(z, era);
    assert CivilFromDays(days) == CivilOfEra(era, doe);
    DayOfEra(era, doe);
  }

  lemma DayOfEra(era: int, doe: int)
    requires 0 <= doe < 146097
    ensures ValidDate(CivilOfEra(era, doe)) && DaysFromCivil(CivilOfEra(era, doe)) == 146097 * era + doe - EPOCH_SHIFT
  {
    var c, q, i, r := SplitEra(doe);
    EraDay(era, doe, c, q, i, r);
  }

  /** One era too low: the era's leap day is counted once more than it is due. */
  lemma YearOfEraLate(doe: int, c: int, q: int, i: int, r: int)
    requires Splits(doe, c, q, i, r) && doe < 146096
    ensures YearOfEra(146097 + doe) == 400 + 100 * c + 4 * q + i
  {
    var d := 146097 + doe;
    var late := if 97 + 24 * c + q + 365 * i + r >= 1460 then 1 else 0;
    assert d == 1460 * (100 + 25 * c + q) + (97 + 24 * c + q + 365 * i + r);
    assert d / 1460 == 100 + 25 * c + q + late;
    var last := if q == 24 && i == 3 && r == 364 then 1 else 0;
    assert d == 36524 * (4 + c) + (1 + 1461 * q + 365 * i + r);
    assert d / 36524 == 4 + c + last;
    var twice := if doe == 146095 then 1 else 0;
    assert d / 146096 == 1 + twice;
    assert 0 <= r - late + last - twice <= 364;
    assert d - d / 1460 + d / 36524 - d / 146096
        == 365 * (400 + 100 * c + 4 * q + i) + (r - late + last - twice);
  }

  lemma EraDateLate(era: int, doe: int, c: int, q: int, i: int, r: int)
    requires Splits(doe - 146097, c, q, i, r) && doe - 146097 < 146096
    ensures CivilOfEra(era, doe) == FromMarch(400 * era + (400 + (100 * c + 4 * q + i)), r + 1)
  {
    YearOfEraLate(doe - 146097, c, q, i, r);
    LateDays(c, q, i);
    DateInEra(era, doe, 400 + (100 * c + 4 * q + i), r + 1);
  }

  lemma MarchDayLate(era: int, c: int, q: int, i: int, r: int)
    requires 0 <= c <= 3 && 0 <= q <= 24 && 0 <= i <= 3 && 0 <= r <= 365
    ensures DaysFromCivil(FromMarch(400 * era + (400 + (100 * c + 4 * q + i)), r + 1)) ==
            146097 * (era + 1) + 36524 * c + 1461 * q + 365 * i + r + 1 - EPOCH_SHIFT
  {
    YearStartSplit(c, q, i, era + 1);
    MarchCount(400 * era + (400 + (100 * c + 4 * q + i)), r + 1);
  }

  lemma MarchCount(y: int, doy: int)
    requires 0 <= doy <= 366
    ensures DaysFromCivil(FromMarch(y, doy)) == YearStart(y) + doy - EPOCH_SHIFT
  {
    FromMarchInverse(y, doy);
    DateOf(FromMarch(y, doy), y, doy);
  }

  lemma EraDayLate(era: int, doe: int, c: int, q: int, i: int, r: int)
    requires Splits(doe - 146097, c, q, i, r) && doe - 146097 < 146096
    ensures DaysFromCivil(CivilOfEra(era, doe)) == 146097 * era + doe + 1 - EPOCH_SHIFT
  {
    EraDateLate(era, doe, c, q, i, r);
    MarchDayLate(era, c, q, i, r);
  }

  lemma LateDays(c: int, q: int, i: int)
    requires 0 <= c <= 3 && 0 <= q <= 24 && 0 <= i <= 3
    ensures var y := 400 + (100 * c + 4 * q + i);
            365 * y + y / 4 - y / 100 == 146097 - 1 + 36524 * c + 1461 * q + 365 * i
  {
    YearOfEraDays(c, q, i);
    var y := 100 * c + 4 * q + i;
    assert (400 + y) / 4 == 100 + y / 4 && (400 + y) / 100 == 4 + y / 100;
  }

  lemma CivilBelowEra(days: int)
    requires days < -EPOCH_SHIFT && (days + EPOCH_SHIFT + 1) % 146097 != 0
    ensures DaysFromCivil(CivilFromDays(days)) == days + 1
  {
    var z := days + EPOCH_SHIFT;
    var era := (z - 146096) / 146097;
    var doe := z - era * 146097;
    assert CivilFromDays(days) == CivilOfEra(era, doe);
    LateRange(z, era);
    var c, q, i, r := SplitEra(doe - 146097);
    EraDayLate(era, doe, c, q, i, r);
  }

  lemma LateRange(z: int, era: int)
    requires z < 0 && (z + 1) % 146097 != 0 && era == (z - 146096) / 146097
    ensures 0 <= z - era * 146097 - 146097 < 146096
  {
    var k := (z + 1) / 146097;
    assert z - 146096 == 146097 * (k - 1) + (z + 1) % 146097;
    assert era == k - 1;
  }

  /** The exact range of `civil_from_days`: from 0000-03-01 on it names the day it is given;
      before that only on the last day of an era, and otherwise its result counts one day more. */
  lemma CivilExact(days: int)
    ensures DaysFromCivil(CivilFromDays(days)) == days
       <==> days >= -EPOCH_SHIFT || (days + EPOCH_SHIFT + 1) % 146097 == 0
    ensures days >= -EPOCH_SHIFT ==> ValidDate(CivilFromDays(days))
  {
    if days >= -EPOCH_SHIFT || (days + EPOCH_SHIFT + 1) % 146097 == 0 {
      CivilInEra(days);
    } else {
      CivilBelowEra(days);
    }
  }

  lemma CivilBeforeMarchZero()
    ensures CivilFromDays(-719470) == Date(0, 2, 29) == CivilFromDays(-719469)
  {
    LastDayOfEra();
    LastButOneDayOfEra();
  }

  lemma LastDayOfEra()
    ensures CivilFromDays(-719469) == Date(0, 2, 29)
  {
    assert (-1 - 146096) / 146097 == -1;
    assert YearOfEra(146096) == 399;
  }

  lemma LastButOneDayOfEra()
    ensures CivilFromDays(-719470) == Date(0, 2, 29)
  {
    assert (-2 - 146096) / 146097 == -2;
    assert YearOfEra(2 * 146097 - 2) == 799;
  }

  lemma {:induction false} YearStartMonotone(y: int, y': int)
    requires y < y'
    ensures YearStart(y) + 365 * (y' - y) <= YearStart(y')
    decreases y' - y
  {
    YearLength(y);
    if y + 1 < y' {
      YearStartMonotone(y + 1, y');
    }
  }

  /** Two valid dates are the same date when they are the same day count. */
  lemma DaysInjective(a: Date, b: Date)
    requires ValidDate(a) && ValidDate(b) && DaysFromCivil(a) == DaysFromCivil(b)
    ensures a == b
  {
    DayOfYearInverse(a);
    DayOfYearInverse(b);
    YearBound(a);
    YearBound(b);
    if MarchYear(a) < MarchYear(b) {
      YearOrder(a, b);
    } else if MarchYear(b) < MarchYear(a) {
      YearOrder(b, a);
    }
  }

  lemma YearBound(d: Date)
    requires ValidDate(d)
    ensures 0 <= DaysFromCivil(d) + EPOCH_SHIFT - YearStart(MarchYear(d))
    ensures DaysFromCivil(d) + EPOCH_SHIFT < YearStart(MarchYear(d) + 1)
  {
    DayOfYearInverse(d);
    YearLength(MarchYear(d));
  }

  lemma YearOrder(a: Date, b: Date)
    requires ValidDate(a) && ValidDate(b) && MarchYear(a) < MarchYear(b)
    ensures DaysFromCivil(a) < DaysFromCivil(b)
  {
    YearBound(a);
    YearBound(b);
    if MarchYear(a) + 1 < MarchYear(b) {
      YearStartMonotone(MarchYear(a) + 1, MarchYear(b));
    }
  }

  /** The other direction of the bijection, for every valid date from 0000-02-29 on. */
  lemma DaysThenCivil(d: Date)
    requires ValidDate(d) && DaysFromCivil(d) >= -EPOCH_SHIFT - 1
    ensures CivilFromDays(DaysFromCivil(d)) == d
  {
    CivilInEra(DaysFromCivil(d));
    DaysInjective(CivilFromDays(DaysFromCivil(d)), d);
  }

  lemma NextDayCounts(d: Date)
    requires ValidDate(d)
    ensures ValidDate(NextDay(d))
    ensures DaysFromCivil(NextDay(d)) == DaysFromCivil(d) + 1
  {
    if d.month == 2 && d.day == DaysInMonth(d.year, 2) {
      YearLength(MarchYear(d));
    } else {
      WithinMarchYear(d);
    }
  }

  lemma WithinMarchYear(d: Date)
    requires ValidDate(d) && !(d.month == 2 && d.day == DaysInMonth(d.year, 2))
    ensures MarchYear(NextDay(d)) == MarchYear(d) && DayOfYear(NextDay(d)) == DayOfYear(d) + 1
  {
  }

  // ---- before the range ----

  /** The true date of any day. */
  lemma DateOfDay(days: int) returns (d: Date)
    ensures ValidDate(d) && DaysFromCivil(d) == days
  {
    var z := days + EPOCH_SHIFT;
    DayOfEra(z / 146097, z % 146097);
    d := CivilOfEra(z / 146097, z % 146097);
  }

  predicate LastOfFebruary(d: Date)
  {
    d.month == 2 && d.day == DaysInMonth(d.year, 2)
  }

  /** The day after `d`, with February one day too long. */
  function Late(d: Date): Date
  {
    if LastOfFebruary(d) then Date(d.year, 2, d.day + 1) else NextDay(d)
  }

  lemma LateInMarchYear(d: Date)
    requires ValidDate(d)
    ensures FromMarch(MarchYear(d), DayOfYear(d) + 1) == Late(d)
  {
    if !LastOfFebruary(d) {
      WithinMarchYear(d);
      NextDayCounts(d);
      DayOfYearInverse(NextDay(d));
    }
  }

  lemma LateInEra(era: int, doe: int, d: Date)
    requires 0 <= doe - 146097 < 146096 && ValidDate(d) && DaysFromCivil(d) == 146097 * era + doe - EPOCH_SHIFT
    ensures CivilOfEra(era, doe) == Late(d)
  {
    var y, r := LateParts(era, doe);
    LateAt(y, r, d);
  }

  lemma LateParts(era: int, doe: int) returns (y: int, r: int)
    requires 0 <= doe - 146097 < 146096
    ensures CivilOfEra(era, doe) == FromMarch(y, r + 1) && 0 <= r <= 365
    ensures ValidDate(FromMarch(y, r)) && DaysFromCivil(FromMarch(y, r)) == 146097 * era + doe - EPOCH_SHIFT
  {
    var c, q, i;
    c, q, i, r := SplitEra(doe - 146097);
    y := 400 * (era + 1) + (100 * c + 4 * q + i);
    DateLateIn(era, doe, c, q, i, r, y);
    MarchDayIn(era + 1, doe - 146097, c, q, i, r, y);
  }

  lemma DateLateIn(era: int, doe: int, c: int, q: int, i: int, r: int, y: int)
    requires Splits(doe - 146097, c, q, i, r) && doe - 146097 < 146096
    requires y == 400 * (era + 1) + (100 * c + 4 * q + i)
    ensures CivilOfEra(era, doe) == FromMarch(y, r + 1)
  {
    EraDateLate(era, doe, c, q, i, r);
  }

  lemma MarchDayIn(era: int, doe: int, c: int, q: int, i: int, r: int, y: int)
    requires Splits(doe, c, q, i, r) && y == 400 * era + (100 * c + 4 * q + i)
    ensures ValidDate(FromMarch(y, r)) && DaysFromCivil(FromMarch(y, r)) == 146097 * era + doe - EPOCH_SHIFT
  {
    MarchDay(era, c, q, i, r);
  }

  lemma LateAt(y: int, r: int, d: Date)
    requires 0 <= r <= 365 && ValidDate(FromMarch(y, r)) && ValidDate(d)
    requires DaysFromCivil(FromMarch(y, r)) == DaysFromCivil(d)
    ensures FromMarch(y, r + 1) == Late(d)
  {
    FromMarchInverse(y, r);
    DaysInjective(FromMarch(y, r), d);
    LateInMarchYear(d);
  }

  /** What the code returns where it is late: the date after the true one, except that February goes on
      for a day that does not exist before 1 March. */
  lemma CivilLate(days: int, d: Date)
    requires days < -EPOCH_SHIFT && (days + EPOCH_SHIFT + 1) % 146097 != 0
    requires ValidDate(d) && DaysFromCivil(d) == days
    ensures CivilFromDays(days) == Late(d)
  {
    var z := days + EPOCH_SHIFT;
    var era := (z - 146096) / 146097;
    LateRange(z, era);
    LateInEra(era, z - era * 146097, d);
  }

  /** Some year's 1 March. */
  ghost predicate FirstOfMarch(days: int)
  {
    exists y :: DaysFromCivil(Date(y, 3, 1)) == days
  }

  lemma BeforeMarch(d: Date)
    requires ValidDate(d)
    ensures LastOfFebruary(d) <==> FirstOfMarch(DaysFromCivil(d) + 1)
  {
    NextDayCounts(d);
    if LastOfFebruary(d) {
      assert NextDay(d) == Date(d.year, 3, 1);
    }
    if FirstOfMarch(DaysFromCivil(d) + 1) {
      var y :| DaysFromCivil(Date(y, 3, 1)) == DaysFromCivil(d) + 1;
      DaysInjective(Date(y, 3, 1), NextDay(d));
    }
  }

  /** The result is a date at all if and only if the day is in range, or ends an era, or is not the day
      before a 1 March. */
  lemma CivilValidExact(days: int)
    ensures ValidDate(CivilFromDays(days))
       <==> days >= -EPOCH_SHIFT || (days + EPOCH_SHIFT + 1) % 146097 == 0 || !FirstOfMarch(days + 1)
  {
    if days >= -EPOCH_SHIFT || (days + EPOCH_SHIFT + 1) % 146097 == 0 {
      CivilInEra(days);
    } else {
      var d := DateOfDay(days);
      CivilLate(days, d);
      BeforeMarch(d);
      NextDayCounts(d);
    }
  }

  /** A date that does not exist: the last day of February of year -1 becomes the 29th. */
  lemma CivilNoDate()
    ensures CivilFromDays(-719835) == Date(-1, 2, 29) && !ValidDate(Date(-1, 2, 29))
  {
    assert DaysFromCivil(Date(-1, 2, 28)) == -719835;
    CivilLate(-719835, Date(-1, 2, 28));
  }

  /** Consecutive days are consecutive dates, leap days and year ends included. */
  lemma CivilConsecutive(days: int)
    requires days >= -EPOCH_SHIFT - 1
    ensures CivilFromDays(days + 1) == NextDay(CivilFromDays(days))
  {
    CivilInEra(days);
    CivilInEra(days + 1);
    NextDayCounts(CivilFromDays(days));
    DaysInjective(CivilFromDays(days + 1), NextDay(CivilFromDays(days)));
  }

  /** The anchors: the Unix epoch, the generator's base day, and the first two days in range. */
  lemma CivilAnchors()
    ensures CivilFromDays(0) == Date(1970, 1, 1)
    ensures CivilFromDays(20458) == Date(2026, 1, 5)
    ensures CivilFromDays(-EPOCH_SHIFT) == Date(0, 3, 1)
    ensures CivilFromDays(-EPOCH_SHIFT - 1) == Date(0, 2, 29)
  {
    Anchor(Date(1970, 1, 1), 0);
    Anchor(Date(2026, 1, 5), 20458);
    Anchor(Date(0, 3, 1), -EPOCH_SHIFT);
    LastDayOfEra();
  }

  lemma Anchor(d: Date, days: int)
    requires ValidDate(d) && days >= -EPOCH_SHIFT - 1
    requires YearStart(MarchYear(d)) + DayOfYear(d) == days + EPOCH_SHIFT
    ensures CivilFromDays(days) == d
  {
    DaysThenCivil(d);
  }

  predicate DateLess(a: Date, b: Date)
  {
    || a.year < b.year
    || (a.year == b.year && a.month < b.month)
    || (a.year == b.year && a.month == b.month && a.day < b.day)
  }

  /** Later days are later dates. */
  lemma {:induction false} CivilOrder(a: int, b: int)
    requires -EPOCH_SHIFT - 1 <= a < b
    ensures DateLess(CivilFromDays(a), CivilFromDays(b))
    decreases b - a
  {
    TomorrowIsLater(a);
    if a + 1 < b {
      CivilOrder(a + 1, b);
      LaterThanLater(CivilFromDays(a), CivilFromDays(a + 1), CivilFromDays(b));
    }
  }

  lemma TomorrowIsLater(days: int)
    requires -EPOCH_SHIFT - 1 <= days
    ensures DateLess(CivilFromDays(days), CivilFromDays(days + 1))
  {
    CivilInEra(days);
    CivilConsecutive(days);
    NextDayLater(CivilFromDays(days));
  }

  lemma LaterThanLater(a: Date, b: Date, c: Date)
    requires DateLess(a, b) && DateLess(b, c)
    ensures DateLess(a, c)
  {
  }

  lemma CivilYearOrder(a: int, b: int)
    requires -EPOCH_SHIFT - 1 <= a <= b
    ensures CivilFromDays(a).year <= CivilFromDays(b).year
  {
    if a < b {
      CivilOrder(a, b);
    }
  }

  lemma NextDayLater(d: Date)
    requires ValidDate(d)
    ensures DateLess(d, NextDay(d))
  {
  }
}
