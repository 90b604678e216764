/** The civil-calendar arithmetic of src/period.rs. */
module Civil {
  /** Division as the original language does it, toward zero. */
  function TruncDiv(a: int, b: int): int
    requires b > 0
  {
    if a >= 0 then a / b else -((-a) / b)
  }

  datatype Date = Date(year: int, month: int, day: int)

  // All tests are for remainder zero, which truncating and Euclidean remainders agree on.
  predicate IsLeap(year: int)
  {
    year % 4 == 0 && (year % 100 != 0 || year % 400 == 0)
  }

  function DaysInMonth(year: int, month: int): int
  {
    match month
    case 2 => if IsLeap(year) then 29 else 28
    case 4 => 30
    case 6 => 30
    case 9 => 30
    case 11 => 30
    case _ => 31
  }

  predicate IsValid(date: Date)
  {
    1 <= date.month <= 12 && 1 <= date.day <= DaysInMonth(date.year, date.month)
  }

  function DaysFromCivil(date: Date): int
  {
    var year := date.year - if date.month <= 2 then 1 else 0;
    var era := TruncDiv(if year >= 0 then year else year - 399, 400);
    var yearOfEra := year - era * 400;
    var month := date.month + if date.month > 2 then -3 else 9;
    var dayOfYear := TruncDiv(153 * month + 2, 5) + date.day - 1;
    var dayOfEra := yearOfEra * 365 + TruncDiv(yearOfEra, 4) - TruncDiv(yearOfEra, 100) + dayOfYear;
    era * 146_097 + dayOfEra - 719_468
  }

  function CivilFromDays(days: int): Date
  {
    var shifted := days + 719_468;
    var era := TruncDiv(if shifted >= 0 then shifted else shifted - 146_096, 146_097);
    var dayOfEra := shifted - era * 146_097;
    var yearOfEra := YearOfEra(dayOfEra);
    var dayOfYear := dayOfEra - (365 * yearOfEra + TruncDiv(yearOfEra, 4) - TruncDiv(yearOfEra, 100));
    var monthPart := TruncDiv(5 * dayOfYear + 2, 153);
    var day := dayOfYear - TruncDiv(153 * monthPart + 2, 5) + 1;
    var month := monthPart + if monthPart < 10 then 3 else -9;
    Date(yearOfEra + era * 400 + if month <= 2 then 1 else 0, month, day)
  }

  function YearOfEra(dayOfEra: int): int
  {
    TruncDiv(dayOfEra - TruncDiv(dayOfEra, 1_460) + TruncDiv(dayOfEra, 36_524) - TruncDiv(dayOfEra, 146_096), 365)
  }

  // ---- Eras: truncating division with the correction is floor division ----

  lemma FloorByCorrection(a: int, b: int)
    requires b > 0
    ensures TruncDiv(if a >= 0 then a else a - (b - 1), b) == a / b
  {
    if a < 0 {
      var q, r := a / b, a % b;
      assert b - 1 - a == b * (-q) + (b - 1 - r);
      assert (b - 1 - a) / b == -q by {
        DivIs(b - 1 - a, b, -q, b - 1 - r);
      }
    }
  }

  lemma TruncIsFloor(a: int, b: int)
    requires a >= 0 && b > 0
    ensures TruncDiv(a, b) == a / b
  {
  }

  lemma DivIs(a: int, b: int, q: int, r: int)
    requires b > 0 && a == b * q + r && 0 <= r < b
    ensures a / b == q
  {
    var q', r' := a / b, a % b;
    assert b * (q - q') == r' - r && b * (q' - q) == r - r';
    if q > q' {
      MulAtLeast(b, q - q');
    } else if q < q' {
      MulAtLeast(b, q' - q);
    }
  }

  lemma {:induction false} MulAtLeast(b: int, k: int)
    requires b > 0 && k >= 1
    ensures b * k >= b
    decreases k
  {
    if k > 1 {
      MulAtLeast(b, k - 1);
      assert b * k == b * (k - 1) + b;
    }
  }

  // ---- Years inside an era: years start on 1 March, so the leap day ends the year ----

  predicate EndsInLeapDay(yearOfEra: int)
  {
    (yearOfEra + 1) % 4 == 0 && ((yearOfEra + 1) % 100 != 0 || (yearOfEra + 1) % 400 == 0)
  }

  predicate InEra(yearOfEra: int, dayOfYear: int)
  {
    0 <= yearOfEra < 400 && 0 <= dayOfYear < if EndsInLeapDay(yearOfEra) then 366 else 365
  }

  function DayOfEra(yearOfEra: int, dayOfYear: int): int
  {
    365 * yearOfEra + yearOfEra / 4 - yearOfEra / 100 + dayOfYear
  }

  /** Centuries c, groups of four years q, years r: the closed form of the day number. */
  lemma DayOfEraByParts(c: int, q: int, r: int, dayOfYear: int)
    requires 0 <= c < 4 && 0 <= q < 25 && 0 <= r < 4
    ensures DayOfEra(100 * c + 4 * q + r, dayOfYear) == 36_524 * c + 1_461 * q + 365 * r + dayOfYear
  {
    var y := 100 * c + 4 * q + r;
    DivIs(y, 4, 25 * c + q, r);
    DivIs(y, 100, c, 4 * q + r);
  }

  lemma LeapByParts(c: int, q: int, r: int)
    requires 0 <= c < 4 && 0 <= q < 25 && 0 <= r < 4
    ensures EndsInLeapDay(100 * c + 4 * q + r) <==> r == 3 && (q < 24 || c == 3)
  {
  }

  predicate InYearByParts(c: int, q: int, r: int, dayOfYear: int)
  {
    && 0 <= c < 4 && 0 <= q < 25 && 0 <= r < 4
    && 0 <= dayOfYear < if r == 3 && (q < 24 || c == 3) then 366 else 365
  }

  /** The three corrections of the year formula, each of which shifts the day number by whole years. */
  lemma CorrectionsByParts(c: int, q: int, r: int, dayOfYear: int)
    requires InYearByParts(c, q, r, dayOfYear)
    ensures var d := 36_524 * c + 1_461 * q + 365 * r + dayOfYear;
            && 0 <= d < 146_097
            && d / 1_460 == 25 * c + q + (if 24 * c + q + 365 * r + dayOfYear >= 1_460 then 1 else 0)
            && d / 36_524 == c + d / 146_096
  {
    var d := 36_524 * c + 1_461 * q + 365 * r + dayOfYear;
    var part := 24 * c + q + 365 * r + dayOfYear;
    var extra := if part >= 1_460 then 1 else 0;
    DivIs(d, 1_460, 25 * c + q + extra, part - 1_460 * extra);
    var last := if d == 146_096 then 1 else 0;
    DivIs(d, 36_524, c + last, 1_461 * q + 365 * r + dayOfYear - 36_524 * last);
    DivIs(d, 146_096, last, d - 146_096 * last);
  }

  lemma YearRecoveredByParts(c: int, q: int, r: int, dayOfYear: int)
    requires InYearByParts(c, q, r, dayOfYear)
    ensures var d := 36_524 * c + 1_461 * q + 365 * r + dayOfYear;
            0 <= d < 146_097 && YearOfEra(d) == 100 * c + 4 * q + r
  {
    hide TruncDiv;
    CorrectionsByParts(c, q, r, dayOfYear);
    var d := 36_524 * c + 1_461 * q + 365 * r + dayOfYear;
    var extra := if 24 * c + q + 365 * r + dayOfYear >= 1_460 then 1 else 0;
    var numerator := d - d / 1_460 + d / 36_524 - d / 146_096;
    DivIs(numerator, 365, 100 * c + 4 * q + r, dayOfYear - extra);
    TruncIsFloor(d, 1_460);
    TruncIsFloor(d, 36_524);
    TruncIsFloor(d, 146_096);
    TruncIsFloor(numerator, 365);
  }

  lemma YearRecovered(yearOfEra: int, dayOfYear: int)
    requires InEra(yearOfEra, dayOfYear)
    ensures 0 <= DayOfEra(yearOfEra, dayOfYear) < 146_097
    ensures YearOfEra(DayOfEra(yearOfEra, dayOfYear)) == yearOfEra
  {
    var c, q, r := yearOfEra / 100, yearOfEra % 100 / 4, yearOfEra % 4;
    hide EndsInLeapDay, YearOfEra, DayOfEra;
    assert yearOfEra == 100 * c + 4 * q + r;
    LeapByParts(c, q, r);
    DayOfEraByParts(c, q, r, dayOfYear);
    YearRecoveredByParts(c, q, r, dayOfYear);
  }

  /** Every day of an era lies in the year the formula gives. */
  lemma DayInItsYear(dayOfEra: int)
    requires 0 <= dayOfEra < 146_097
    ensures var y := YearOfEra(dayOfEra);
            InEra(y, dayOfEra - DayOfEra(y, 0))
  {
    var c := if dayOfEra == 146_096 then 3 else dayOfEra / 36_524;
    var inCentury := dayOfEra - 36_524 * c;
    assert 0 <= c < 4 && 0 <= inCentury < 36_524 + if c == 3 then 1 else 0;
    DayInItsCentury(c, inCentury);
  }

  lemma DayInItsCentury(c: int, inCentury: int)
    requires 0 <= c < 4 && 0 <= inCentury < 36_524 + if c == 3 then 1 else 0
    ensures var dayOfEra := 36_524 * c + inCentury;
            var y := YearOfEra(dayOfEra);
            InEra(y, dayOfEra - DayOfEra(y, 0))
  {
    hide EndsInLeapDay, DayOfEra, YearOfEra;
    var q := inCentury / 1_461;
    var inGroup := inCentury - 1_461 * q;
    assert 0 <= q < 25 && 0 <= inGroup < 1_461;
    var r := if inGroup == 1_460 then 3 else inGroup / 365;
    var dayOfYear := inGroup - 365 * r;
    assert 0 <= r < 4 && 0 <= dayOfYear < 365 + if r == 3 then 1 else 0;
    LeapByParts(c, q, r);
    DayOfEraByParts(c, q, r, 0);
    YearRecoveredByParts(c, q, r, dayOfYear);
  }

  // ---- Months inside a year that starts in March ----

  function MonthStart(monthPart: int): int
  {
    (153 * monthPart + 2) / 5
  }

  lemma MonthRecovered(monthPart: int, day: int)
    requires 0 <= monthPart < 12
    requires 0 <= day < MonthStart(monthPart + 1) - MonthStart(monthPart)
    ensures (5 * (MonthStart(monthPart) + day) + 2) / 153 == monthPart
  {
  }

  lemma DayInItsMonth(dayOfYear: int)
    requires 0 <= dayOfYear < 366
    ensures var m := (5 * dayOfYear + 2) / 153;
            0 <= m < 12 && MonthStart(m) <= dayOfYear < MonthStart(m + 1)
  {
  }

  // ---- The two functions in terms of era, year of era and day of year ----

  function Shifted(date: Date): int
  {
    date.year - if date.month <= 2 then 1 else 0
  }

  function MonthPart(date: Date): int
  {
    date.month + if date.month > 2 then -3 else 9
  }

  lemma LeapOfShifted(year: int)
    ensures EndsInLeapDay(year % 400) <==> IsLeap(year + 1)
  {
    DropEras(year / 400, year % 400 + 1);
  }

  lemma DropEras(era: int, n: int)
    ensures (400 * era + n) % 4 == n % 4
    ensures (400 * era + n) % 100 == n % 100
    ensures (400 * era + n) % 400 == n % 400
  {
    DivIs(400 * era + n, 4, 100 * era + n / 4, n % 4);
    DivIs(400 * era + n, 100, 4 * era + n / 100, n % 100);
    DivIs(400 * era + n, 400, era + n / 400, n % 400);
  }

  lemma DaysFromParts(date: Date)
    requires IsValid(date)
    ensures var y, d := Shifted(date), MonthStart(MonthPart(date)) + date.day - 1;
            && InEra(y % 400, d)
            && DaysFromCivil(date) == y / 400 * 146_097 + DayOfEra(y % 400, d) - 719_468
            && 0 <= MonthPart(date) < 12
            && date.day - 1 < MonthStart(MonthPart(date) + 1) - MonthStart(MonthPart(date))
  {
    FloorByCorrection(Shifted(date), 400);
    LeapOfShifted(Shifted(date));
  }

  /** The date the formulas give for a day of a year of an era. */
  function DateOfParts(era: int, yearOfEra: int, dayOfYear: int): Date
  {
    var m := (5 * dayOfYear + 2) / 153;
    var month := m + if m < 10 then 3 else -9;
    Date(yearOfEra + era * 400 + if month <= 2 then 1 else 0, month, dayOfYear - MonthStart(m) + 1)
  }

  lemma MonthStartIs(m: int)
    ensures MonthStart(m) == (153 * m + 2) / 5
  {
  }

  lemma CivilFromParts(era: int, yearOfEra: int, dayOfYear: int)
    requires InEra(yearOfEra, dayOfYear)
    ensures CivilFromDays(era * 146_097 + DayOfEra(yearOfEra, dayOfYear) - 719_468)
         == DateOfParts(era, yearOfEra, dayOfYear)
  {
    hide YearOfEra, EndsInLeapDay, TruncDiv, MonthStart;
    YearRecovered(yearOfEra, dayOfYear);
    var doe := DayOfEra(yearOfEra, dayOfYear);
    var shifted := era * 146_097 + doe;
    FloorByCorrection(shifted, 146_097);
    DivIs(shifted, 146_097, era, doe);
    DayInItsMonth(dayOfYear);
    TruncIsFloor(yearOfEra, 4);
    TruncIsFloor(yearOfEra, 100);
    TruncIsFloor(5 * dayOfYear + 2, 153);
    var m := (5 * dayOfYear + 2) / 153;
    TruncIsFloor(153 * m + 2, 5);
    assert MonthStart(m) == (153 * m + 2) / 5 by { MonthStartIs(m); }
  }

  /** That date is valid, and its own parts are the ones it was made from. */
  lemma PartsOfDate(era: int, yearOfEra: int, dayOfYear: int)
    requires InEra(yearOfEra, dayOfYear)
    ensures var date := DateOfParts(era, yearOfEra, dayOfYear);
            && IsValid(date)
            && Shifted(date) == era * 400 + yearOfEra
            && MonthStart(MonthPart(date)) + date.day - 1 == dayOfYear
  {
    DayInItsMonth(dayOfYear);
    DivIs(era * 400 + yearOfEra, 400, era, yearOfEra);
    LeapOfShifted(era * 400 + yearOfEra);
    hide EndsInLeapDay, IsLeap;
  }

  // ---- The two are inverse ----

  lemma CivilOfDaysOfCivil(date: Date)
    requires IsValid(date)
    ensures CivilFromDays(DaysFromCivil(date)) == date
  {
    hide DaysFromCivil, CivilFromDays, DayOfEra, MonthStart, InEra;
    DaysFromParts(date);
    var y, m := Shifted(date), MonthPart(date);
    CivilFromParts(y / 400, y % 400, MonthStart(m) + date.day - 1);
    MonthRecovered(m, date.day - 1);
  }

  lemma DayOfYearAdds(yearOfEra: int, dayOfYear: int)
    ensures DayOfEra(yearOfEra, dayOfYear) == DayOfEra(yearOfEra, 0) + dayOfYear
  {
  }

  lemma DaysOfCivilOfDays(days: int)
    ensures IsValid(CivilFromDays(days))
    ensures DaysFromCivil(CivilFromDays(days)) == days
  {
    hide *;
    var shifted := days + 719_468;
    var era, doe := shifted / 146_097, shifted % 146_097;
    DayInItsYear(doe);
    var yoe := YearOfEra(doe);
    var doy := doe - DayOfEra(yoe, 0);
    DayOfYearAdds(yoe, doy);
    CivilFromParts(era, yoe, doy);
    PartsOfDate(era, yoe, doy);
    DaysFromParts(CivilFromDays(days));
    EraBounds(yoe, doy);
    DivIs(era * 400 + yoe, 400, era, yoe);
  }

  lemma EraBounds(yearOfEra: int, dayOfYear: int)
    requires InEra(yearOfEra, dayOfYear)
    ensures 0 <= yearOfEra < 400
  {
  }

  // ---- The day number really is the calendar: it counts days from 1 January 1970 ----

  function NextDay(date: Date): Date
  {
    if date.day < DaysInMonth(date.year, date.month) then date.(day := date.day + 1)
    else if date.month < 12 then Date(date.year, date.month + 1, 1)
    else Date(date.year + 1, 1, 1)
  }

  lemma CountsDays(date: Date)
    requires IsValid(date)
    ensures DaysFromCivil(NextDay(date)) == DaysFromCivil(date) + 1
    ensures DaysFromCivil(Date(1970, 1, 1)) == 0
  {
    hide DaysFromCivil, DayOfEra, InEra, IsLeap;
    Epoch();
    var next := NextDay(date);
    DaysFromParts(date);
    DaysFromParts(next);
    var y, d := Shifted(date) % 400, MonthStart(MonthPart(date)) + date.day - 1;
    NextDayOfEra(y, d);
    if date.month == 2 && next.month == 3 {
      YearsAreAdjacent(Shifted(date));
    } else {
      assert Shifted(next) == Shifted(date);
    }
  }

  lemma Epoch()
    ensures DaysFromCivil(Date(1970, 1, 1)) == 0
  {
  }

  lemma NextDayOfEra(yearOfEra: int, dayOfYear: int)
    ensures DayOfEra(yearOfEra, dayOfYear + 1) == DayOfEra(yearOfEra, dayOfYear) + 1
  {
  }

  /** Day 0 of the next year follows the last day of this one, also across the end of an era. */
  lemma YearsAreAdjacent(year: int)
    ensures (year + 1) / 400 * 146_097 + DayOfEra((year + 1) % 400, 0)
         == year / 400 * 146_097 + DayOfEra(year % 400, if IsLeap(year + 1) then 366 else 365)
  {
    hide IsLeap, DayOfEra, EndsInLeapDay;
    LeapOfShifted(year);
    var era, yoe := year / 400, year % 400;
    DivIs(year + 1, 400, if yoe == 399 then era + 1 else era, if yoe == 399 then 0 else yoe + 1);
    var c, q, r := yoe / 100, yoe % 100 / 4, yoe % 4;
    assert yoe == 100 * c + 4 * q + r;
    LeapByParts(c, q, r);
    DayOfEraByParts(c, q, r, if IsLeap(year + 1) then 366 else 365);
    if r < 3 {
      DayOfEraByParts(c, q, r + 1, 0);
    } else if q < 24 {
      DayOfEraByParts(c, q + 1, 0, 0);
    } else if c < 3 {
      DayOfEraByParts(c + 1, 0, 0, 0);
    } else {
      DayOfEraByParts(0, 0, 0, 0);
    }
  }
}
