/** The RFC 3339 instants of src/period.rs: parser, printer, order and durations. Strings are read bytewise. */
module Timestamps {
  import opened Wrappers
  import opened Slices
  import opened Civil
  import opened Decimals

  const NANOS_PER_SECOND: nat := 1_000_000_000
  const SECONDS_PER_DAY: nat := 86_400

  type Nanos = n: nat | n < NANOS_PER_SECOND

  datatype Timestamp = Timestamp(seconds: int, nanos: Nanos)

  // ---- Order and durations ----

  /** The derived order: seconds first, then nanoseconds. */
  predicate Less(a: Timestamp, b: Timestamp)
  {
    a.seconds < b.seconds || (a.seconds == b.seconds && a.nanos < b.nanos)
  }

  predicate AtMost(a: Timestamp, b: Timestamp)
  {
    !Less(b, a)
  }

  function InNanos(t: Timestamp): int
  {
    t.seconds * NANOS_PER_SECOND + t.nanos
  }

  predicate WithinSeconds(t: Timestamp, start: Timestamp, maxSeconds: int)
  {
    if maxSeconds < 0 || Less(t, start) then false
    else
      var seconds := t.seconds - start.seconds;
      seconds < maxSeconds || (seconds == maxSeconds && t.nanos <= start.nanos)
  }

  /** The order is the order of instants, and the window test is exact to the nanosecond. */
  lemma OrderAndWindowAreExact(t: Timestamp, start: Timestamp, maxSeconds: int)
    ensures Less(start, t) <==> InNanos(start) < InNanos(t)
    ensures WithinSeconds(t, start, maxSeconds) <==>
            0 <= InNanos(t) - InNanos(start) <= maxSeconds * NANOS_PER_SECOND
  {
  }

  // ---- The printer ----

  /** Width four with the sign counted in, as the formatting directive does it. */
  function YearText(year: int): string
  {
    if year >= 0 then PadDigits(year, 4) else "-" + PadDigits(-year, 3)
  }

  function TrimZeros(s: string): string
  {
    if s != [] && s[|s| - 1] == '0' then TrimZeros(s[..|s| - 1]) else s
  }

  function FractionText(nanos: Nanos): string
  {
    if nanos == 0 then ".000" else "." + TrimZeros(PadDigits(nanos, 9))
  }

  /** The fixed layout of year, month, day, hour, minute, second and the rest. */
  function Layout(y: string, mo: string, d: string, h: string, mi: string, s: string, rest: string): string
  {
    (y + "-" + mo + "-" + d) + "T" + (h + ":" + mi + ":" + s) + rest
  }

  function DateOf(t: Timestamp): Date
  {
    CivilFromDays(t.seconds / SECONDS_PER_DAY)
  }

  function Format(t: Timestamp): string
  {
    var remainder := t.seconds % SECONDS_PER_DAY;
    var date := DateOf(t);
    DateIsNonNegative(t.seconds / SECONDS_PER_DAY);
    Layout(YearText(date.year), PadDigits(date.month, 2), PadDigits(date.day, 2),
           PadDigits(remainder / 3_600, 2), PadDigits(remainder / 60 % 60, 2), PadDigits(remainder % 60, 2),
           FractionText(t.nanos) + "Z")
  }

  lemma DateIsNonNegative(days: int)
    ensures var date := CivilFromDays(days); IsValid(date) && 1 <= date.month <= 12 && 1 <= date.day <= 31
  {
    hide CivilFromDays;
    DaysOfCivilOfDays(days);
  }

  // ---- The parser ----

  function DigitsAt(v: string, start: nat, length: nat): Option<nat>
  {
    if start + length <= |v| && AllDigits(v[start..start + length])
    then Some(ParseDigits(v[start..start + length]))
    else None
  }

  function LeadingDigits(s: string): (n: nat)
    ensures n <= |s|
  {
    if s != [] && IsDigit(s[0]) then 1 + LeadingDigits(s[1..]) else 0
  }

  function Zeros(n: nat): string
  {
    seq(n, i => '0')
  }

  /** The optional fraction after the seconds, and what follows it. */
  function ParseFraction(suffix: string): Option<(Nanos, string)>
  {
    if suffix != [] && suffix[0] == '.' then
      var fraction := suffix[1..];
      var length := LeadingDigits(fraction);
      if length == 0 || length > 9 then None
      else
        LeadingDigitsAre(fraction);
        var digits := fraction[..length] + Zeros(9 - length);
        ParseDigitsBound(digits);
        Some((ParseDigits(digits), fraction[length..]))
    else Some((0, suffix))
  }

  function ParseOffset(suffix: string): Option<int>
  {
    if suffix == "Z" || suffix == "z" then Some(0)
    else if |suffix| == 6 && (suffix[0] == '+' || suffix[0] == '-') && suffix[3] == ':' then
      var hours :- DigitsAt(suffix, 1, 2);
      var minutes :- DigitsAt(suffix, 4, 2);
      if hours > 23 || minutes > 59 then None
      else Some((if suffix[0] == '+' then 1 else -1) * (hours * 3_600 + minutes * 60))
    else None
  }

  function Parse(v: string): Option<Timestamp>
  {
    if |v| < 20 || v[4] != '-' || v[7] != '-' || (v[10] != 'T' && v[10] != 't') || v[13] != ':' || v[16] != ':'
    then None
    else
      var year :- DigitsAt(v, 0, 4);
      var month :- DigitsAt(v, 5, 2);
      var day :- DigitsAt(v, 8, 2);
      var hour :- DigitsAt(v, 11, 2);
      var minute :- DigitsAt(v, 14, 2);
      var second :- DigitsAt(v, 17, 2);
      if month == 0 || month > 12 || day == 0 || day > DaysInMonth(year, month)
         || hour > 23 || minute > 59 || second > 59 then None
      else
        var (nanos, rest) :- ParseFraction(v[19..]);
        var offset :- ParseOffset(rest);
        Some(Timestamp(
          DaysFromCivil(Date(year, month, day)) * SECONDS_PER_DAY + hour * 3_600 + minute * 60 + second - offset,
          nanos))
  }

  lemma {:induction false} LeadingDigitsAre(s: string)
    ensures AllDigits(s[..LeadingDigits(s)])
    ensures LeadingDigits(s) < |s| ==> !IsDigit(s[LeadingDigits(s)])
  {
    if s != [] && IsDigit(s[0]) {
      LeadingDigitsAre(s[1..]);
      assert s[..LeadingDigits(s)] == [s[0]] + s[1..][..LeadingDigits(s[1..])];
    }
  }

  lemma {:induction false} ParseDigitsBound(s: string)
    requires AllDigits(s)
    ensures ParseDigits(s) < Power10(|s|)
    ensures Power10(9) == NANOS_PER_SECOND
  {
    Billion();
    if s != [] {
      ParseDigitsBound(s[..|s| - 1]);
    }
  }

  lemma Billion()
    ensures Power10(9) == NANOS_PER_SECOND
  {
    assert Power10(3) == 1_000;
    assert Power10(6) == 1_000_000;
  }

  // ---- Round trip ----

  /** The fields of a fixed layout are found where the parser looks for them. */
  lemma LayoutFields(y: string, mo: string, d: string, h: string, mi: string, s: string, rest: string)
    requires |y| == 4 && |mo| == 2 && |d| == 2 && |h| == 2 && |mi| == 2 && |s| == 2
    ensures var v := Layout(y, mo, d, h, mi, s, rest);
            && |v| == 19 + |rest|
            && v[0..4] == y && v[5..7] == mo && v[8..10] == d && v[11..13] == h && v[14..16] == mi && v[17..19] == s
            && v[4] == '-' && v[7] == '-' && v[10] == 'T' && v[13] == ':' && v[16] == ':' && v[19..] == rest
  {
    var v := Layout(y, mo, d, h, mi, s, rest);
    var date, clock := y + "-" + mo + "-" + d, h + ":" + mi + ":" + s;
    assert v == date + "T" + clock + rest;
    assert date[0..4] == y && date[5..7] == mo && date[8..10] == d;
    assert clock[0..2] == h && clock[3..5] == mi && clock[6..8] == s;
    assert v[0..10] == date && v[11..19] == clock && v[19..] == rest;
    assert v[0..4] == v[0..10][0..4] && v[5..7] == v[0..10][5..7] && v[8..10] == v[0..10][8..10];
    assert v[11..13] == v[11..19][0..2] && v[14..16] == v[11..19][3..5] && v[17..19] == v[11..19][6..8];
  }

  lemma {:induction false} TrimZerosRoundTrip(s: string)
    ensures |TrimZeros(s)| <= |s| && TrimZeros(s) + Zeros(|s| - |TrimZeros(s)|) == s
  {
    if s != [] && s[|s| - 1] == '0' {
      var init := s[..|s| - 1];
      TrimZerosRoundTrip(init);
      assert Zeros(|s| - |TrimZeros(s)|) == Zeros(|init| - |TrimZeros(init)|) + "0";
    }
  }

  lemma {:induction false} ZerosAreZero(n: nat)
    ensures AllDigits(Zeros(n)) && ParseDigits(Zeros(n)) == 0
  {
    if n > 0 {
      ZerosAreZero(n - 1);
      assert Zeros(n)[..n - 1] == Zeros(n - 1);
    }
  }

  lemma {:induction false} LeadingDigitsOf(digits: string, rest: string)
    requires AllDigits(digits) && (rest == [] || !IsDigit(rest[0]))
    ensures LeadingDigits(digits + rest) == |digits|
  {
    if digits == [] {
      assert digits + rest == rest;
    } else {
      assert (digits + rest)[1..] == digits[1..] + rest;
      LeadingDigitsOf(digits[1..], rest);
    }
  }

  /** The digits the printer puts after the point. */
  function FractionDigits(nanos: Nanos): string
  {
    if nanos == 0 then "000" else TrimZeros(PadDigits(nanos, 9))
  }

  lemma FractionRoundTrip(nanos: Nanos)
    ensures ParseFraction(FractionText(nanos) + "Z") == Some((nanos, "Z"))
  {
    hide LeadingDigits, ParseDigits, TrimZeros, PadDigits, AllDigits, Zeros;
    var digits := FractionDigits(nanos);
    FractionDigitsAre(nanos);
    var text := FractionText(nanos) + "Z";
    assert text[1..] == digits + "Z";
    LeadingDigitsOf(digits, "Z");
    DropConcat(digits, "Z", |digits|);
    TakeAll(digits, |digits|);
    assert [] + "Z" == "Z";
  }

  lemma FractionDigitsAre(nanos: Nanos)
    ensures var digits := FractionDigits(nanos);
            && 1 <= |digits| <= 9 && AllDigits(digits)
            && AllDigits(digits + Zeros(9 - |digits|)) && ParseDigits(digits + Zeros(9 - |digits|)) == nanos
  {
    hide PadDigits, TrimZeros, ParseDigits, AllDigits, Zeros;
    if nanos == 0 {
      ZerosAreZero(9);
      ThreeZeros();
    } else {
      var full := PadDigits(nanos, 9);
      Billion();
      PadDigitsLength(nanos, 9);
      PadDigitsRoundTrip(nanos, 9);
      TrimZerosRoundTrip(full);
      PrefixOfDigits(FractionDigits(nanos), Zeros(9 - |FractionDigits(nanos)|));
      ZerosAreZero(9);
      assert [] + Zeros(9) == Zeros(9);
    }
  }

  lemma ThreeZeros()
    ensures "000" + Zeros(6) == Zeros(9) && AllDigits("000")
  {
  }

  lemma PrefixOfDigits(a: string, b: string)
    requires AllDigits(a + b)
    ensures AllDigits(a)
  {
    assert forall i :: 0 <= i < |a| ==> a[i] == (a + b)[i];
  }

  lemma TwoDigits(n: nat)
    requires n < 100
    ensures |PadDigits(n, 2)| == 2 && AllDigits(PadDigits(n, 2)) && ParseDigits(PadDigits(n, 2)) == n
  {
    assert Power10(2) == 100;
    PadDigitsLength(n, 2);
    PadDigitsRoundTrip(n, 2);
  }

  lemma YearDigits(year: int)
    requires 0 <= year <= 9999
    ensures |YearText(year)| == 4 && AllDigits(YearText(year)) && ParseDigits(YearText(year)) == year
  {
    assert Power10(4) == 10_000 by { assert Power10(2) == 100; }
    PadDigitsLength(year, 4);
    PadDigitsRoundTrip(year, 4);
  }

  /** Outside years 0 to 9999 the fifth character is not a hyphen, or the first is not a digit. */
  lemma YearOutOfRange(year: int)
    requires !(0 <= year <= 9999)
    ensures var y := YearText(year);
            |y| >= 4 && (y[0] == '-' || (|y| >= 5 && IsDigit(y[4])))
  {
    if year < 0 {
      PadDigitsLength(-year, 3);
    } else {
      assert Power10(4) == 10_000 by { assert Power10(2) == 100; }
      PadDigitsLength(year, 4);
      PadDigitsRoundTrip(year, 4);
    }
  }

  lemma ParseFailsOutOfRange(y: string, rest: string)
    requires |y| >= 4 && (y[0] == '-' || (|y| >= 5 && IsDigit(y[4])))
    ensures Parse(y + rest) == None
  {
    var v := y + rest;
    assert v[0] == y[0] && (|y| >= 5 ==> v[4] == y[4]);
    if |v| >= 20 && v[0] == '-' {
      assert !IsDigit(v[0..4][0]);
    }
  }

  lemma ClockParts(t: Timestamp)
    ensures var r := t.seconds % SECONDS_PER_DAY;
            && r / 3_600 < 24 && r / 60 % 60 < 60 && r % 60 < 60
            && t.seconds == t.seconds / SECONDS_PER_DAY * SECONDS_PER_DAY
                            + r / 3_600 * 3_600 + r / 60 % 60 * 60 + r % 60
  {
  }

  /** Printing and parsing an instant gives it back exactly when its year has four digits. */
  lemma FormatRoundTripIff(t: Timestamp)
    ensures Parse(Format(t)) == Some(t) <==> 0 <= DateOf(t).year <= 9999
    ensures Parse(Format(t)) == None <==> !(0 <= DateOf(t).year <= 9999)
  {
    hide CivilFromDays, DaysFromCivil, Parse, YearText, PadDigits, FractionText;
    var date := DateOf(t);
    DateIsNonNegative(t.seconds / SECONDS_PER_DAY);
    if 0 <= date.year <= 9999 {
      ParseFormatInRange(t);
    } else {
      YearOutOfRange(date.year);
      var y := YearText(date.year);
      var rest := Format(t)[|y|..];
      assert Format(t) == y + rest;
      ParseFailsOutOfRange(y, rest);
    }
  }

  lemma ParseFormatInRange(t: Timestamp)
    ensures 0 <= DateOf(t).year <= 9999 ==> Parse(Format(t)) == Some(t)
  {
    hide CivilFromDays, DaysFromCivil, YearText, PadDigits, FractionText, ParseFraction, AllDigits, ParseDigits, Layout,
         DaysInMonth;
    var date := DateOf(t);
    var days, r := t.seconds / SECONDS_PER_DAY, t.seconds % SECONDS_PER_DAY;
    DateIsNonNegative(days);
    if 0 <= date.year <= 9999 {
      ClockParts(t);
      YearDigits(date.year);
      TwoDigits(date.month);
      TwoDigits(date.day);
      TwoDigits(r / 3_600);
      TwoDigits(r / 60 % 60);
      TwoDigits(r % 60);
      LayoutFields(YearText(date.year), PadDigits(date.month, 2), PadDigits(date.day, 2),
                   PadDigits(r / 3_600, 2), PadDigits(r / 60 % 60, 2), PadDigits(r % 60, 2),
                   FractionText(t.nanos) + "Z");
      FractionRoundTrip(t.nanos);
      DaysOfCivilOfDays(days);
      assert FractionText(t.nanos) != [] by { FractionNonempty(t.nanos); }
    }
  }

  lemma FractionNonempty(nanos: Nanos)
    ensures FractionText(nanos) != []
  {
  }

  /** The parser accepts an instant that the printer cannot write back: an offset can leave years 0 to 9999. */
  lemma ParsedInstantMayNotPrint()
    ensures var t := Timestamp(-62_167_219_260, 0);
            Parse("0000-01-01T00:00:00+00:01") == Some(t) && Parse(Format(t)) == None
  {
    hide Format, Parse, CivilFromDays;
    ParseFirstMinute();
    var t := Timestamp(-62_167_219_260, 0);
    assert t.seconds / SECONDS_PER_DAY == -719_529;
    LastDayBeforeYearZero();
    FormatRoundTripIff(t);
  }

  lemma LastDayBeforeYearZero()
    ensures CivilFromDays(-719_529) == Date(-1, 12, 31)
  {
    hide CivilFromDays;
    assert DaysFromCivil(Date(-1, 12, 31)) == -719_529;
    CivilOfDaysOfCivil(Date(-1, 12, 31));
  }

  lemma FirstMinuteLayout()
    ensures "0000-01-01T00:00:00+00:01" == Layout("0000", "01", "01", "00", "00", "00", "+00:01")
  {
    assert "0000" + "-" + "01" + "-" + "01" == "0000-01-01";
    assert "00" + ":" + "00" + ":" + "00" == "00:00:00";
  }

  lemma ParseFirstMinute()
    ensures Parse("0000-01-01T00:00:00+00:01") == Some(Timestamp(-62_167_219_260, 0))
  {
    hide ParseDigits, AllDigits, ParseOffset, DaysFromCivil;
    var v := "0000-01-01T00:00:00+00:01";
    FirstMinuteLayout();
    LayoutFields("0000", "01", "01", "00", "00", "00", "+00:01");
    hide Layout;
    SmallFields();
    OneMinuteOffset();
    assert DaysFromCivil(Date(0, 1, 1)) == -719_528 by { FirstDayOfYearZero(); }
  }

  lemma FirstDayOfYearZero()
    ensures DaysFromCivil(Date(0, 1, 1)) == -719_528
  {
  }

  lemma SmallFields()
    ensures AllDigits("0000") && ParseDigits("0000") == 0
    ensures AllDigits("01") && ParseDigits("01") == 1
    ensures AllDigits("00") && ParseDigits("00") == 0
  {
    ZerosAreZero(1);
    ZerosAreZero(2);
    ZerosAreZero(4);
    hide ParseDigits;
    assert Zeros(4) == "0000" && Zeros(2) == "00" && Zeros(1) == "0";
    ParseDigitsSnoc("0", '1');
    assert "0" + ['1'] == "01";
  }

  lemma OneMinuteOffset()
    ensures ParseOffset("+00:01") == Some(60)
  {
    hide ParseDigits;
    SmallFields();
    assert "+00:01"[1..3] == "00" && "+00:01"[4..6] == "01";
  }
}
