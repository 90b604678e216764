/** Which texts are instants and which instants they are, for every text and every offset, src/period.rs. */
module TimestampTexts {
  import opened Wrappers
  import opened Slices
  import opened Civil
  import opened Decimals
  import opened Timestamps

  // ---- Texts by their parts ----

  datatype Zone = Zulu(letter: char) | Shifted(east: bool, hours: nat, minutes: nat)

  /** A local date and time; the fraction is given by its digits, of which there may be none. */
  datatype Written = Written(
    date: Date, letter: char, hour: nat, minute: nat, second: nat, fraction: string, zone: Zone)

  predicate IsZone(z: Zone)
  {
    match z
    case Zulu(letter) => letter == 'Z' || letter == 'z'
    case Shifted(_, hours, minutes) => hours <= 23 && minutes <= 59
  }

  predicate IsWritten(w: Written)
  {
    && IsValid(w.date) && 0 <= w.date.year <= 9999 && (w.letter == 'T' || w.letter == 't')
    && w.hour <= 23 && w.minute <= 59 && w.second <= 59
    && |w.fraction| <= 9 && AllDigits(w.fraction) && IsZone(w.zone)
  }

  /** The seconds by which local time is ahead of the instant. */
  function Ahead(z: Zone): int
  {
    match z
    case Zulu(_) => 0
    case Shifted(east, hours, minutes) => if east then hours * 3_600 + minutes * 60 else -(hours * 3_600 + minutes * 60)
  }

  function LocalSeconds(w: Written): int
  {
    DaysFromCivil(w.date) * SECONDS_PER_DAY + w.hour * 3_600 + w.minute * 60 + w.second
  }

  /** The digits of a fraction count tenths, hundredths and so on down to nanoseconds. */
  function NanosOf(fraction: string): (n: Nanos)
    requires |fraction| <= 9 && AllDigits(fraction)
  {
    FractionIsSmall(fraction);
    ParseDigits(fraction) * Power10(9 - |fraction|)
  }

  lemma FractionIsSmall(fraction: string)
    requires |fraction| <= 9 && AllDigits(fraction)
    ensures 0 <= ParseDigits(fraction) * Power10(9 - |fraction|) < NANOS_PER_SECOND
  {
    ParseDigitsBound(fraction);
    Power10Product(|fraction|, 9 - |fraction|);
    PowerIsPositive(9 - |fraction|);
    SmallTimes(ParseDigits(fraction), Power10(|fraction|), Power10(9 - |fraction|));
  }

  lemma SmallTimes(a: nat, b: nat, c: nat)
    requires a < b && c > 0
    ensures 0 <= a * c < b * c
  {
  }

  lemma {:induction false} PowerIsPositive(n: nat)
    ensures Power10(n) > 0
  {
    if n > 0 {
      PowerIsPositive(n - 1);
    }
  }

  lemma {:induction false} Power10Product(a: nat, b: nat)
    ensures Power10(a) * Power10(b) == Power10(a + b)
  {
    if a > 0 {
      Power10Product(a - 1, b);
      assert Power10(a) * Power10(b) == 10 * (Power10(a - 1) * Power10(b));
    }
  }

  function Instant(w: Written): Timestamp
    requires IsWritten(w)
  {
    Timestamp(LocalSeconds(w) - Ahead(w.zone), NanosOf(w.fraction))
  }

  function ZoneText(z: Zone): string
  {
    match z
    case Zulu(letter) => [letter]
    case Shifted(east, hours, minutes) =>
      [if east then '+' else '-'] + PadDigits(hours, 2) + ":" + PadDigits(minutes, 2)
  }

  function Text(w: Written): string
    requires IsWritten(w)
  {
    PadDigits(w.date.year, 4) + "-" + PadDigits(w.date.month, 2) + "-" + PadDigits(w.date.day, 2) + [w.letter]
    + PadDigits(w.hour, 2) + ":" + PadDigits(w.minute, 2) + ":" + PadDigits(w.second, 2)
    + (if w.fraction == "" then "" else "." + w.fraction) + ZoneText(w.zone)
  }

  // ---- Their parts are found ----

  /** Nineteen characters in front, each field in its place. */
  lemma FieldsAt(y: string, mo: string, d: string, letter: char, h: string, mi: string, s: string, rest: string)
    requires |y| == 4 && |mo| == 2 && |d| == 2 && |h| == 2 && |mi| == 2 && |s| == 2
    ensures var v := y + "-" + mo + "-" + d + [letter] + h + ":" + mi + ":" + s + rest;
            && |v| == 19 + |rest|
            && v[0..4] == y && v[5..7] == mo && v[8..10] == d && v[11..13] == h && v[14..16] == mi && v[17..19] == s
            && v[4] == '-' && v[7] == '-' && v[10] == letter && v[13] == ':' && v[16] == ':' && v[19..] == rest
  {
  }

  lemma FourDigits(n: nat)
    requires n <= 9999
    ensures |PadDigits(n, 4)| == 4 && AllDigits(PadDigits(n, 4)) && ParseDigits(PadDigits(n, 4)) == n
  {
    YearDigits(n);
  }

  lemma {:induction false} DigitsThenZeros(s: string, n: nat)
    requires AllDigits(s)
    ensures AllDigits(s + Zeros(n)) && ParseDigits(s + Zeros(n)) == ParseDigits(s) * Power10(n)
  {
    if n == 0 {
      assert s + Zeros(0) == s;
    } else {
      DigitsThenZeros(s, n - 1);
      assert s + Zeros(n) == (s + Zeros(n - 1)) + ['0'];
      ParseDigitsSnoc(s + Zeros(n - 1), '0');
      TimesTen(ParseDigits(s), Power10(n - 1));
    }
  }

  lemma TimesTen(a: nat, b: nat)
    ensures a * b * 10 == a * (10 * b)
  {
  }

  lemma FractionIsFound(fraction: string, rest: string)
    requires |fraction| <= 9 && AllDigits(fraction)
    requires rest != [] && !IsDigit(rest[0]) && rest[0] != '.'
    ensures ParseFraction((if fraction == "" then "" else "." + fraction) + rest) == Some((NanosOf(fraction), rest))
  {
    hide ParseDigits, Zeros, Power10, LeadingDigits;
    var suffix := (if fraction == "" then "" else "." + fraction) + rest;
    if fraction == "" {
      assert suffix == rest;
      NothingIsZero();
    } else {
      assert suffix[1..] == fraction + rest;
      LeadingDigitsOf(fraction, rest);
      assert suffix[1..][..|fraction|] == fraction && suffix[1..][|fraction|..] == rest;
      DigitsThenZeros(fraction, 9 - |fraction|);
    }
  }

  lemma NothingIsZero()
    ensures AllDigits("") && ParseDigits("") * Power10(9) == 0
  {
  }

  lemma ZoneIsFound(z: Zone)
    requires IsZone(z)
    ensures ParseOffset(ZoneText(z)) == Some(Ahead(z))
    ensures ZoneText(z) != [] && !IsDigit(ZoneText(z)[0]) && ZoneText(z)[0] != '.'
  {
    hide ParseDigits, PadDigits, AllDigits;
    if z.Shifted? {
      TwoDigits(z.hours);
      TwoDigits(z.minutes);
      var text := ZoneText(z);
      assert text[1..3] == PadDigits(z.hours, 2) && text[4..6] == PadDigits(z.minutes, 2) && text[3] == ':';
    }
  }

  lemma DayIsSmall(date: Date)
    requires IsValid(date)
    ensures 1 <= date.month <= 12 && 1 <= date.day <= 31
  {
  }

  /** The fields of a text and what it ends with. */
  predicate HasFields(v: string, w: Written, end: string)
  {
    && |v| >= 20 && v[4] == '-' && v[7] == '-' && v[10] == w.letter && v[13] == ':' && v[16] == ':' && v[19..] == end
    && DigitsAt(v, 0, 4) == Some(w.date.year) && DigitsAt(v, 5, 2) == Some(w.date.month)
    && DigitsAt(v, 8, 2) == Some(w.date.day) && DigitsAt(v, 11, 2) == Some(w.hour)
    && DigitsAt(v, 14, 2) == Some(w.minute) && DigitsAt(v, 17, 2) == Some(w.second)
  }

  lemma FieldsAreParsed(v: string, w: Written, end: string, rest: string)
    requires IsWritten(w) && HasFields(v, w, end)
    requires ParseFraction(end) == Some((NanosOf(w.fraction), rest)) && ParseOffset(rest) == Some(Ahead(w.zone))
    ensures Parse(v) == Some(Instant(w))
  {
    hide DigitsAt, DaysFromCivil, ParseFraction, ParseOffset, NanosOf, Ahead, DaysInMonth;
    DayIsSmall(w.date);
  }

  lemma FieldIsFound(v: string, start: nat, field: string, n: nat)
    requires start + |field| <= |v| && v[start..start + |field|] == field && AllDigits(field) && ParseDigits(field) == n
    ensures DigitsAt(v, start, |field|) == Some(n)
  {
  }

  lemma TextHasFields(w: Written, end: string)
    requires IsWritten(w) && end == (if w.fraction == "" then "" else "." + w.fraction) + ZoneText(w.zone) && end != ""
    ensures HasFields(Text(w), w, end)
  {
    hide ParseDigits, PadDigits, AllDigits, ZoneText, DigitsAt, IsZone, DaysInMonth;
    DayIsSmall(w.date);
    var y, mo, d := PadDigits(w.date.year, 4), PadDigits(w.date.month, 2), PadDigits(w.date.day, 2);
    var h, mi, s := PadDigits(w.hour, 2), PadDigits(w.minute, 2), PadDigits(w.second, 2);
    FourDigits(w.date.year);
    TwoDigits(w.date.month);
    TwoDigits(w.date.day);
    TwoDigits(w.hour);
    TwoDigits(w.minute);
    TwoDigits(w.second);
    FieldsAt(y, mo, d, w.letter, h, mi, s, end);
    FrontAndEnd(w);
    var v := Text(w);
    hide Text;
    FieldIsFound(v, 0, y, w.date.year);
    FieldIsFound(v, 5, mo, w.date.month);
    FieldIsFound(v, 8, d, w.date.day);
    FieldIsFound(v, 11, h, w.hour);
    FieldIsFound(v, 14, mi, w.minute);
    FieldIsFound(v, 17, s, w.second);
  }

  /** Every text made of these parts is the instant its local time stands for under its offset. */
  lemma WrittenIsParsed(w: Written)
    requires IsWritten(w)
    ensures Parse(Text(w)) == Some(Instant(w))
  {
    ZoneIsFound(w.zone);
    FractionIsFound(w.fraction, ZoneText(w.zone));
    var end := (if w.fraction == "" then "" else "." + w.fraction) + ZoneText(w.zone);
    hide ParseDigits, AllDigits, ZoneText, HasFields, Parse, ParseFraction, ParseOffset, NanosOf, Text, Instant;
    assert end != "";
    TextHasFields(w, end);
    FieldsAreParsed(Text(w), w, end, ZoneText(w.zone));
  }

  lemma FrontAndEnd(w: Written)
    requires IsWritten(w)
    ensures var end := (if w.fraction == "" then "" else "." + w.fraction) + ZoneText(w.zone);
            Text(w) == PadDigits(w.date.year, 4) + "-" + PadDigits(w.date.month, 2) + "-" + PadDigits(w.date.day, 2)
                       + [w.letter] + PadDigits(w.hour, 2) + ":" + PadDigits(w.minute, 2) + ":"
                       + PadDigits(w.second, 2) + end
  {
    hide PadDigits, ZoneText;
  }

  // ---- Nothing else is accepted ----

  /** Digits are the padded text of the number they stand for. */
  lemma {:induction false} DigitsArePadded(s: string)
    requires AllDigits(s) && s != []
    ensures PadDigits(ParseDigits(s), |s|) == s
  {
    var n := |s| - 1;
    var last := s[n] as int - '0' as int;
    assert s == s[..n] + [s[n]];
    if n > 0 {
      DigitsArePadded(s[..n]);
      assert ParseDigits(s) / 10 == ParseDigits(s[..n]) && ParseDigits(s) % 10 == last;
    } else {
      assert ParseDigits(s[..0]) == 0;
      assert ParseDigits(s) == last;
    }
    assert DigitChar(last) == s[n];
  }

  lemma DigitsFound(v: string, start: nat, length: nat)
    requires length > 0 && DigitsAt(v, start, length).Some?
    ensures start + length <= |v|
        && PadDigits(DigitsAt(v, start, length).value, length) == v[start..start + length]
  {
    DigitsArePadded(v[start..start + length]);
  }

  lemma ZoneOf(suffix: string) returns (z: Zone)
    requires ParseOffset(suffix).Some?
    ensures IsZone(z) && ZoneText(z) == suffix
  {
    hide ParseDigits, PadDigits, AllDigits, DigitsAt;
    if suffix == "Z" || suffix == "z" {
      z := Zulu(suffix[0]);
    } else {
      DigitsFound(suffix, 1, 2);
      DigitsFound(suffix, 4, 2);
      z := Shifted(suffix[0] == '+', DigitsAt(suffix, 1, 2).value, DigitsAt(suffix, 4, 2).value);
      assert suffix == [suffix[0]] + suffix[1..3] + ":" + suffix[4..6];
    }
  }

  lemma FractionOf(suffix: string) returns (fraction: string)
    requires ParseFraction(suffix).Some?
    ensures |fraction| <= 9 && AllDigits(fraction)
    ensures suffix == (if fraction == "" then "" else "." + fraction) + ParseFraction(suffix).value.1
  {
    hide ParseDigits, Zeros;
    if suffix != [] && suffix[0] == '.' {
      LeadingDigitsAre(suffix[1..]);
      fraction := suffix[1..][..LeadingDigits(suffix[1..])];
      assert suffix == "." + suffix[1..];
      assert suffix[1..] == fraction + suffix[1..][|fraction|..];
    } else {
      fraction := "";
      assert suffix == "" + suffix;
    }
  }

  lemma AsFields(v: string)
    requires |v| >= 20 && v[4] == '-' && v[7] == '-' && v[13] == ':' && v[16] == ':'
    ensures v == v[0..4] + "-" + v[5..7] + "-" + v[8..10] + [v[10]] + v[11..13] + ":" + v[14..16] + ":" + v[17..19]
                 + v[19..]
  {
  }

  lemma ParsedIsWritten(v: string) returns (w: Written)
    requires Parse(v).Some?
    ensures IsWritten(w) && Text(w) == v
  {
    hide ParseDigits, PadDigits, AllDigits, DaysFromCivil, ParseFraction, ParseOffset, ZoneText, NanosOf, DigitsAt;
    DigitsFound(v, 0, 4);
    DigitsFound(v, 5, 2);
    DigitsFound(v, 8, 2);
    DigitsFound(v, 11, 2);
    DigitsFound(v, 14, 2);
    DigitsFound(v, 17, 2);
    var fraction := FractionOf(v[19..]);
    var zone := ZoneOf(ParseFraction(v[19..]).value.1);
    YearFits(v);
    w := Written(Date(DigitsAt(v, 0, 4).value, DigitsAt(v, 5, 2).value, DigitsAt(v, 8, 2).value), v[10],
                 DigitsAt(v, 11, 2).value, DigitsAt(v, 14, 2).value, DigitsAt(v, 17, 2).value, fraction, zone);
    AsFields(v);
    FrontAndEnd(w);
  }

  lemma YearFits(v: string)
    requires DigitsAt(v, 0, 4).Some?
    ensures DigitsAt(v, 0, 4).value <= 9999
  {
    ParseDigitsBound(v[0..4]);
    assert Power10(4) == 10_000 by { assert Power10(2) == 100; }
  }

  /**
   * A text is an instant exactly when it is a valid date with a four-digit year, 'T' or 't', a clock time, up to nine
   * digits of a second after a point, and 'Z', 'z' or a signed offset below a day; it then is the local time less the
   * offset.
   */
  lemma ParseIsExact(v: string)
    ensures Parse(v).Some? <==> exists w :: IsWritten(w) && Text(w) == v
    ensures forall w :: IsWritten(w) && Text(w) == v ==> Parse(v) == Some(Instant(w))
  {
    hide Parse, IsWritten, Text, Instant;
    if Parse(v).Some? {
      var w := ParsedIsWritten(v);
    }
    forall w | IsWritten(w) && Text(w) == v ensures Parse(v) == Some(Instant(w)) {
      WrittenIsParsed(w);
    }
  }

  // ---- One instant under any offset ----

  /** The local time that shows the instant under an offset, with all nine digits of the second. */
  function At(t: Timestamp, zone: Zone): (w: Written)
  {
    var local := t.seconds + Ahead(zone);
    var date, clock := CivilFromDays(local / SECONDS_PER_DAY), local % SECONDS_PER_DAY;
    Written(date, 'T', clock / 3_600, clock / 60 % 60, clock % 60, PadDigits(t.nanos, 9), zone)
  }

  lemma AtIsWritten(t: Timestamp, zone: Zone)
    requires IsZone(zone) && 0 <= At(t, zone).date.year <= 9999
    ensures IsWritten(At(t, zone)) && Instant(At(t, zone)) == t
  {
    hide CivilFromDays, DaysFromCivil, PadDigits, AllDigits, ParseDigits, Power10;
    var local := t.seconds + Ahead(zone);
    DaysOfCivilOfDays(local / SECONDS_PER_DAY);
    DateIsNonNegative(local / SECONDS_PER_DAY);
    ClockParts(Timestamp(local, 0));
    Billion();
    PadDigitsLength(t.nanos, 9);
    PadDigitsRoundTrip(t.nanos, 9);
    assert Power10(0) == 1 by { NoPower(); }
  }

  lemma NoPower()
    ensures Power10(0) == 1
  {
  }

  /** Written under whatever offset, as long as the local year has four digits, an instant is parsed as itself. */
  lemma AnyOffsetParsesAlike(t: Timestamp, a: Zone, b: Zone)
    requires IsZone(a) && IsZone(b)
    requires 0 <= At(t, a).date.year <= 9999 && 0 <= At(t, b).date.year <= 9999
    ensures IsWritten(At(t, a)) && IsWritten(At(t, b))
    ensures Parse(Text(At(t, a))) == Parse(Text(At(t, b))) == Some(t)
  {
    hide Parse, At, Text, Instant, IsWritten;
    AtIsWritten(t, a);
    AtIsWritten(t, b);
    WrittenIsParsed(At(t, a));
    WrittenIsParsed(At(t, b));
  }

  // ---- What is printed ----

  lemma {:induction false} TrimmedEnds(s: string)
    ensures TrimZeros(s) == "" || TrimZeros(s)[|TrimZeros(s)| - 1] != '0'
    ensures AllDigits(s) ==> AllDigits(TrimZeros(s))
    ensures |TrimZeros(s)| <= |s|
  {
    if s != [] && s[|s| - 1] == '0' {
      TrimmedEnds(s[..|s| - 1]);
    }
  }

  /** Nothing is left only of zero. */
  lemma TrimmedNanos(nanos: Nanos)
    requires nanos != 0
    ensures var digits := TrimZeros(PadDigits(nanos, 9));
            0 < |digits| <= 9 && AllDigits(digits) && digits[|digits| - 1] != '0'
  {
    var all := PadDigits(nanos, 9);
    PadDigitsRoundTrip(nanos, 9);
    PadDigitsLength(nanos, 9);
    NineDigits(nanos);
    TrimmedEnds(all);
    TrimZerosRoundTrip(all);
    ZerosAreZero(9);
    assert "" + Zeros(9) == Zeros(9);
  }

  lemma NineDigits(nanos: Nanos)
    ensures |PadDigits(nanos, 9)| == 9
  {
    Billion();
    PadDigitsLength(nanos, 9);
  }

  /** An instant as it is printed. */
  function Printed(t: Timestamp): Written
  {
    var r := t.seconds % SECONDS_PER_DAY;
    Written(DateOf(t), 'T', r / 3_600, r / 60 % 60, r % 60,
            if t.nanos == 0 then "000" else TrimZeros(PadDigits(t.nanos, 9)), Zulu('Z'))
  }

  lemma PrintedIsWritten(t: Timestamp)
    requires 0 <= DateOf(t).year <= 9999
    ensures IsWritten(Printed(t))
  {
    hide CivilFromDays, DaysInMonth, TrimZeros, PadDigits;
    DateIsNonNegative(t.seconds / SECONDS_PER_DAY);
    if t.nanos != 0 {
      TrimmedNanos(t.nanos);
    }
  }

  lemma FormatIsText(t: Timestamp)
    requires 0 <= DateOf(t).year <= 9999 && IsWritten(Printed(t))
    ensures Format(t) == Text(Printed(t))
  {
    hide CivilFromDays, PadDigits, TrimZeros, IsWritten;
    var w := Printed(t);
    var date := DateOf(t);
    DateIsNonNegative(t.seconds / SECONDS_PER_DAY);
    var rest := FractionText(t.nanos) + "Z";
    if t.nanos != 0 {
      TrimmedNanos(t.nanos);
    }
    assert rest == (if w.fraction == "" then "" else "." + w.fraction) + "Z";
    FrontAndEnd(w);
  }

  /**
   * An instant with a four-digit year is printed in UTC, with 'T' and 'Z' and a fraction of ".000" for full seconds and
   * otherwise as few digits as tell it exactly; and what is printed means that instant.
   */
  lemma FormatIsExact(t: Timestamp)
    requires 0 <= DateOf(t).year <= 9999
    ensures var w := Printed(t);
            && IsWritten(w) && Format(t) == Text(w) && Instant(w) == t && w.letter == 'T' && w.zone == Zulu('Z')
            && (if t.nanos == 0 then w.fraction == "000"
                else w.fraction != "" && w.fraction[|w.fraction| - 1] != '0')
  {
    PrintedIsWritten(t);
    FormatIsText(t);
    WrittenIsParsed(Printed(t));
    FormatRoundTripIff(t);
    if t.nanos != 0 {
      TrimmedNanos(t.nanos);
    }
    hide Format, Text, Instant, Parse, DateOf, IsWritten, TrimZeros, PadDigits;
  }
}
