// Which texts ConvertAsn1TimeToTimeTUtc reads at all, and which error each other text gets.
module Asn1Grammar {
  import opened Calendar
  import opened Asn1Time

  const DIGITS := "0123456789"
  const FRACTION := ".,0123456789"

  lemma DigitChars(c: char)
    ensures IsDigit(c) <==> c in DIGITS
    ensures InFraction(c) <==> c in FRACTION
  {
  }

  lemma DigitBack(c: char)
    requires IsDigit(c)
    ensures 0 <= DigitOf(c) < 10 && Asn1Time.Digit(DigitOf(c)) == c
  {
  }

  lemma TwoDigitsOnly(text: string, at: nat)
    requires HasNumber(text, at, 2)
    ensures var n := Number(text, at, 2);
            0 <= n < 100 && text[at] == Asn1Time.Digit(n / 10) && text[at + 1] == Asn1Time.Digit(n % 10)
  {
    var digits := text[at..at + 2];
    assert digits[0] in digits && digits[1] in digits;
    DigitBack(digits[0]);
    DigitBack(digits[1]);
    assert digits[..1][..0] == "" && Decimal(digits[..1]) == DigitOf(digits[0]);
  }

  lemma FourDigitsOnly(text: string)
    requires HasNumber(text, 0, 4)
    ensures var n := Number(text, 0, 4);
            && 0 <= n < 10000
            && text[0] == Asn1Time.Digit(n / 1000) && text[1] == Asn1Time.Digit(n / 100 % 10)
            && text[2] == Asn1Time.Digit(n / 10 % 10) && text[3] == Asn1Time.Digit(n % 10)
  {
    var digits := text[0..4];
    assert text[0] == digits[0] && text[1] == digits[1] && text[2] == digits[2] && text[3] == digits[3];
    assert text[0..2] == digits[..2] && AllDigits(text[0..2]);
    TwoDigitsOnly(text, 0);
    assert digits[2] in digits && digits[3] in digits;
    DigitBack(digits[2]);
    DigitBack(digits[3]);
    assert digits[..3][..2] == digits[..2];
    assert Decimal(digits[..3]) == 10 * Decimal(text[0..2]) + DigitOf(text[2]);
    FourFromTwo(Number(text, 0, 2), DigitOf(digits[2]), DigitOf(digits[3]));
  }

  lemma FourFromTwo(high: int, tens: int, ones: int)
    requires 0 <= high < 100 && 0 <= tens < 10 && 0 <= ones < 10
    ensures var n := 10 * (10 * high + tens) + ones;
            n / 1000 == high / 10 && n / 100 % 10 == high % 10 && n / 10 % 10 == tens && n % 10 == ones
  {
    var n := 10 * (10 * high + tens) + ones;
    assert n / 10 == 10 * high + tens;
    assert n / 100 == high;
  }

  // ---------------------------------------------------------------- the fields

  function FieldsText(generalized: bool, c: Civil, short: bool): string
    requires Writable(generalized, c)
  {
    if short then Short(generalized, c) else Printed(generalized, c)
  }

  /** The text starts with these fields; without seconds no digit follows them. */
  predicate Starts(generalized: bool, text: string, c: Civil, short: bool) {
    && Writable(generalized, c) && FieldsText(generalized, c, short) <= text
    && (short ==> c.second == 0 && Char(text, |FieldsText(generalized, c, short)|) !in DIGITS)
  }

  lemma StartsAreRead(generalized: bool, text: string, c: Civil, short: bool)
    requires Starts(generalized, text, c, short)
    ensures FieldsInRange(generalized, text) && FieldsOf(generalized, text) == c
    ensures FieldsEnd(generalized, text) == |FieldsText(generalized, c, short)|
  {
    hide FieldsInRange, FieldsOf, FieldsEnd, Short, Printed;
    if short {
      DigitChars(Char(text, |FieldsText(generalized, c, short)|));
      ShortFieldsAreReadBack(generalized, c, text);
    } else {
      FieldsAreReadBack(generalized, c, text);
    }
  }

  lemma LongYearOnly(text: string)
    requires HasNumber(text, 0, 4)
    ensures 0 <= Number(text, 0, 4) <= 9999 && YearText(true, Number(text, 0, 4)) <= text
  {
    hide Number;
    FourDigitsOnly(text);
    assert YearText(true, Number(text, 0, 4)) == text[..4];
  }

  lemma ShortYearOnly(text: string)
    requires HasNumber(text, 0, 2)
    ensures var year := FullYear(false, Number(text, 0, 2));
            1950 <= year <= 2049 && YearText(false, year) <= text
  {
    hide Number;
    TwoDigitsOnly(text, 0);
    var n := Number(text, 0, 2);
    var year := FullYear(false, n);
    hide HasNumber;
    InsideNumber(text, 0);
    assert year % 100 == n;
    LastTwoDigits(year);
    assert YearText(false, year) == text[..2];
  }

  lemma YearOnly(generalized: bool, text: string)
    requires InRange(text, 0, YearDigits(generalized), 0, if generalized then 9999 else 99)
    ensures var year := FullYear(generalized, Number(text, 0, YearDigits(generalized)));
            && (if generalized then 0 <= year <= 9999 else 1950 <= year <= 2049)
            && YearText(generalized, year) <= text
  {
    hide HasNumber, Number, YearText;
    if generalized {
      LongYearOnly(text);
    } else {
      ShortYearOnly(text);
    }
  }

  lemma RestOnly(text: string, y: nat, c: Civil, short: bool)
    requires InFields(c)
    requires InRange(text, y, 2, 1, 12) && c.month == Number(text, y, 2)
    requires InRange(text, y + 2, 2, 1, 31) && c.day == Number(text, y + 2, 2)
    requires InRange(text, y + 4, 2, 0, 23) && c.hour == Number(text, y + 4, 2)
    requires InRange(text, y + 6, 2, 0, 59) && c.minute == Number(text, y + 6, 2)
    requires !short ==> InRange(text, y + 8, 2, 0, 59) && c.second == Number(text, y + 8, 2)
    ensures var n := if short then 8 else 10;
            y + n <= |text| && forall k :: 0 <= k < n ==> RestText(c)[k] == text[y + k]
  {
    hide Number;
    TwoDigitsOnly(text, y);
    TwoDigitsOnly(text, y + 2);
    TwoDigitsOnly(text, y + 4);
    TwoDigitsOnly(text, y + 6);
    if !short {
      TwoDigitsOnly(text, y + 8);
    }
  }

  lemma FieldsAreWritable(generalized: bool, text: string)
    requires FieldsInRange(generalized, text)
    ensures Writable(generalized, FieldsOf(generalized, text))
  {
    hide HasNumber, Number;
    YearOnly(generalized, text);
  }

  lemma ReadIsStarted(generalized: bool, text: string)
    requires FieldsInRange(generalized, text)
    ensures Starts(generalized, text, FieldsOf(generalized, text), !IsDigit(Char(text, YearDigits(generalized) + 8)))
  {
    hide HasNumber, Number, YearText;
    var y, c := YearDigits(generalized), FieldsOf(generalized, text);
    var short := !IsDigit(Char(text, y + 8));
    FieldsAreWritable(generalized, text);
    YearOnly(generalized, text);
    assert |YearText(generalized, c.year)| == y by { YearTextSize(generalized, c.year); }
    RestOnly(text, y, c, short);
    var f := FieldsText(generalized, c, short);
    assert f == text[..|f|] by {
      forall k | 0 <= k < |f|
        ensures f[k] == text[k]
      {
        if k >= y {
          assert f[k] == RestText(c)[k - y] == text[y + (k - y)];
        } else {
          assert f[k] == YearText(generalized, c.year)[k];
        }
      }
    }
    DigitChars(Char(text, y + 8));
  }

  // ---------------------------------------------------------------- the zone

  lemma ZoneOnly(text: string, at: nat, c: Civil) returns (z: Zone, tail: string)
    requires ZoneAt(text, at, c).Zoned?
    ensures ValidZone(z) && EndsAt(tail) && at <= |text| && text[at..] == ZoneText(z) + tail
    ensures ZoneAt(text, at, c) == Zoned(c, OffsetOf(z))
  {
    hide HasNumber, Number, ZoneText;
    if Char(text, at) == 'Z' && Char(text, at + 1) == '\0' {
      z := Zulu;
      tail := text[at + 1..];
      ZuluOnly(text, at);
    } else {
      z, tail := OffsetOnly(text, at);
    }
  }

  lemma ZuluOnly(text: string, at: nat)
    requires Char(text, at) == 'Z' && Char(text, at + 1) == '\0'
    ensures at < |text| && text[at..] == ZoneText(Zulu) + text[at + 1..] && EndsAt(text[at + 1..])
  {
  }

  lemma OffsetOnly(text: string, at: nat) returns (z: Zone, tail: string)
    requires (Char(text, at) == '+' || Char(text, at) == '-') && Char(text, at + 5) == '\0'
    requires InRange(text, at + 1, 2, 0, 12) && InRange(text, at + 3, 2, 0, 59)
    ensures ValidZone(z) && EndsAt(tail) && at <= |text| && text[at..] == ZoneText(z) + tail
    ensures var minutes := Number(text, at + 1, 2) * 60 + Number(text, at + 3, 2);
            OffsetOf(z) == if Char(text, at) == '-' then -minutes else minutes
  {
    TwoDigitsOnly(text, at + 1);
    TwoDigitsOnly(text, at + 3);
    InsideNumber(text, at + 3);
    var h, m := Number(text, at + 1, 2), Number(text, at + 3, 2);
    hide HasNumber, Number, ZoneText, Asn1Time.Digit;
    z := if text[at] == '+' then East(h * 60 + m) else West(h * 60 + m);
    tail := text[at + 5..];
    OffsetText(h, m);
    FiveChars(text, at, ZoneText(z));
  }

  lemma FiveChars(text: string, at: nat, five: string)
    requires at + 5 <= |text| && |five| == 5 && text[at] == five[0] && text[at + 1] == five[1] && text[at + 2] == five[2]
    requires text[at + 3] == five[3] && text[at + 4] == five[4]
    ensures text[at..] == five + text[at + 5..]
  {
    assert text[at..at + 5] == five;
    SplitAt(text, at, at + 5);
  }

  lemma SplitAt(text: string, from: nat, to: nat)
    requires from <= to <= |text|
    ensures text[from..] == text[from..to] + text[to..]
  {
  }

  lemma OffsetText(h: int, m: int)
    requires 0 <= h <= 12 && 0 <= m <= 59
    ensures var digits :=
              [Asn1Time.Digit(h / 10), Asn1Time.Digit(h % 10), Asn1Time.Digit(m / 10), Asn1Time.Digit(m % 10)];
            ZoneText(East(h * 60 + m)) == ['+'] + digits && ZoneText(West(h * 60 + m)) == ['-'] + digits
  {
    assert (h * 60 + m) / 60 == h && (h * 60 + m) % 60 == m;
  }

  lemma InsideNumber(text: string, at: nat)
    requires HasNumber(text, at, 2)
    ensures at + 2 <= |text|
  {
  }

  // ---------------------------------------------------------------- the whole text

  /** The fields, a fraction that only the generalized form may have, and what follows them. */
  predicate Follows(generalized: bool, text: string, c: Civil, short: bool, fraction: string, rest: string) {
    && Starts(generalized, text, c, short)
    && text == FieldsText(generalized, c, short) + fraction + rest
    && (forall k :: 0 <= k < |fraction| ==> fraction[k] in FRACTION)
    && (if generalized then rest == "" || rest[0] !in FRACTION else fraction == "")
  }

  lemma FractionOnly(text: string, at: nat)
    requires at <= |text|
    ensures var end := AfterFraction(text, at);
            && at <= end <= |text| && (forall k :: at <= k < end ==> text[k] in FRACTION)
            && (end < |text| ==> text[end] !in FRACTION)
  {
    var end := AfterFraction(text, at);
    SkippedOnly(text, at);
    forall k | 0 <= k < |text|
      ensures InFraction(text[k]) <==> text[k] in FRACTION
    {
      DigitChars(text[k]);
    }
  }

  lemma {:induction false} SkippedOnly(text: string, at: nat)
    requires at <= |text|
    ensures forall k :: at <= k < AfterFraction(text, at) && k < |text| ==> InFraction(text[k])
    decreases |text| - at
  {
    if InFraction(Char(text, at)) {
      SkippedOnly(text, at + 1);
    }
  }

  /** Where the fraction of a text ends. */
  lemma FollowedAt(generalized: bool, text: string, c: Civil, short: bool, fraction: string, rest: string)
    requires Follows(generalized, text, c, short, fraction, rest) && generalized
    ensures AfterFraction(text, |FieldsText(generalized, c, short)|) == |text| - |rest|
  {
    hide Starts;
    StartsMeans(generalized, text, c, short);
    hide FieldsText;
    var at, end := |FieldsText(generalized, c, short)|, |text| - |rest|;
    forall k | at <= k < end
      ensures InFraction(Char(text, k))
    {
      assert text[k] == fraction[k - at];
      DigitChars(text[k]);
    }
    DigitChars(Char(text, end));
    FractionIsSkipped(text, at, end);
  }

  /** What is left for the zone when the fields and the fraction are read. */
  lemma ReadIsFollowed(generalized: bool, text: string) returns (c: Civil, short: bool, fraction: string, rest: string)
    requires FieldsInRange(generalized, text)
    ensures Follows(generalized, text, c, short, fraction, rest) && c == FieldsOf(generalized, text)
    ensures FieldsEnd(generalized, text) == |FieldsText(generalized, c, short)|
  {
    hide FieldsInRange, FieldsOf, FieldsEnd, FieldsText, Starts, InFraction, IsDigit;
    c, short := FieldsOf(generalized, text), !IsDigit(Char(text, YearDigits(generalized) + 8));
    ReadIsStarted(generalized, text);
    StartsMeans(generalized, text, c, short);
    StartsAreRead(generalized, text, c, short);
    var at := |FieldsText(generalized, c, short)|;
    FractionOnly(text, at);
    var end := if generalized then AfterFraction(text, at) else at;
    fraction, rest := text[at..end], text[end..];
    ThreeParts(text, FieldsText(generalized, c, short), end);
  }

  lemma ThreeParts(text: string, fields: string, end: nat)
    requires fields <= text && |fields| <= end <= |text|
    ensures text == fields + text[|fields|..end] + text[end..]
  {
  }

  lemma StartsMeans(generalized: bool, text: string, c: Civil, short: bool)
    requires Starts(generalized, text, c, short)
    ensures Writable(generalized, c) && FieldsText(generalized, c, short) <= text
  {
  }

  /** The three ways in which a text can be read, and the two in which it is not. A text is read as a time in a zone
      exactly if it consists of fields in their ranges, with seconds or without, a fraction in the generalized form,
      and a zone, up to a zero or the end; as local time if the zone is missing in the generalized form. */
  lemma TextsAreClassified(generalized: bool, text: string, c: Civil, short: bool, fraction: string, rest: string)
    requires Follows(generalized, text, c, short, fraction, rest)
    ensures StampOf(generalized, text) ==
            if generalized && EndsAt(rest) then Local(c) else ZoneAt(text, |text| - |rest|, c)
  {
    hide FieldsInRange, FieldsOf, FieldsEnd, ZoneAt, FieldsText, Starts;
    assert Starts(generalized, text, c, short) by { FollowsStarts(generalized, text, c, short, fraction, rest); }
    StartsAreRead(generalized, text, c, short);
    var end := |text| - |rest|;
    assert Char(text, end) == if rest == "" then '\0' else rest[0];
    if generalized {
      FollowedAt(generalized, text, c, short, fraction, rest);
    }
  }

  lemma FollowsStarts(generalized: bool, text: string, c: Civil, short: bool, fraction: string, rest: string)
    requires Follows(generalized, text, c, short, fraction, rest)
    ensures Starts(generalized, text, c, short)
  {
  }

  ghost predicate HasFields(generalized: bool, text: string) {
    exists c, short :: Starts(generalized, text, c, short)
  }

  /** "Time" is wrong exactly if the text does not start with fields in their ranges. */
  lemma WrongTimeOnly(generalized: bool, text: string)
    ensures StampOf(generalized, text) == Unreadable(WrongTime) <==> !HasFields(generalized, text)
  {
    hide FieldsInRange, FieldsOf, FieldsEnd, Starts;
    if FieldsInRange(generalized, text) {
      ReadIsStarted(generalized, text);
    } else if c, short :| Starts(generalized, text, c, short) {
      StartsAreRead(generalized, text, c, short);
    }
  }

  /** The text is a time in this zone. */
  ghost predicate Tells(generalized: bool, text: string, c: Civil, z: Zone) {
    exists short, fraction, tail ::
      ValidZone(z) && EndsAt(tail) && Follows(generalized, text, c, short, fraction, ZoneText(z) + tail)
  }

  /** A text is read as a time with an offset exactly if that is what it says. */
  lemma ReadsWhatIsTold(generalized: bool, text: string, c: Civil, offset: int)
    ensures StampOf(generalized, text) == Zoned(c, offset) <==>
            exists z :: Tells(generalized, text, c, z) && OffsetOf(z) == offset
  {
    hide FieldsInRange, FieldsOf, FieldsEnd, Follows, ZoneAt, FieldsText, StampOf;
    if StampOf(generalized, text) == Zoned(c, offset) {
      ReadableHasFields(generalized, text);
      var d, short, fraction, rest := ReadIsFollowed(generalized, text);
      TextsAreClassified(generalized, text, d, short, fraction, rest);
      RestOf(generalized, text, d, short, fraction, rest);
      var z, tail := ZoneOnly(text, |text| - |rest|, d);
      assert Tells(generalized, text, c, z);
    }
    if z :| Tells(generalized, text, c, z) && OffsetOf(z) == offset {
      var short, fraction, tail :|
        ValidZone(z) && EndsAt(tail) && Follows(generalized, text, c, short, fraction, ZoneText(z) + tail);
      var rest := ZoneText(z) + tail;
      TextsAreClassified(generalized, text, c, short, fraction, rest);
      RestOf(generalized, text, c, short, fraction, rest);
      ZoneIsReadBack(text, |text| - |rest|, z, tail, c);
    }
  }

  lemma RestOf(generalized: bool, text: string, c: Civil, short: bool, fraction: string, rest: string)
    requires Follows(generalized, text, c, short, fraction, rest)
    ensures |rest| <= |text| && text[|text| - |rest|..] == rest
  {
  }

  lemma ReadableHasFields(generalized: bool, text: string)
    requires !StampOf(generalized, text).Unreadable?
    ensures FieldsInRange(generalized, text)
  {
  }

  // ---------------------------------------------------------------- what is answered

  /** A time of one of the two forms, with the zero behind it. */
  predicate Supported(time: Asn1) {
    !time.kind.OtherKind? && time.terminated
  }

  /** A conversion gives seconds exactly for what a text tells, unless its instant is across the epoch. */
  lemma SecondsOnly(time: Asn1, value: int)
    ensures Meaning(time) == Seconds(value) <==>
            && Supported(time)
            && exists c, z ::
                 && Tells(time.kind.GeneralizedTime?, time.data, c, z)
                 && c.month >= 1 && value == Epoch(c, OffsetOf(z)) && !AcrossTheEpoch(c.year, value)
  {
    hide StampOf, Tells, Epoch;
    var generalized, stamp := time.kind.GeneralizedTime?, StampOf(time.kind.GeneralizedTime?, time.data);
    if Meaning(time) == Seconds(value) {
      ReadsWhatIsTold(generalized, time.data, stamp.civil, stamp.offset);
      var z :| Tells(generalized, time.data, stamp.civil, z) && OffsetOf(z) == stamp.offset;
      ValueIsGuarded(stamp.civil, stamp.offset);
      assert value == Epoch(stamp.civil, OffsetOf(z));
    }
    if c, z :| Tells(generalized, time.data, c, z) && c.month >= 1 && value == Epoch(c, OffsetOf(z))
               && !AcrossTheEpoch(c.year, value) && Supported(time) {
      ReadsWhatIsTold(generalized, time.data, c, OffsetOf(z));
      TellsFields(generalized, time.data, c, z);
      ValueIsGuarded(c, OffsetOf(z));
    }
  }

  lemma TellsFields(generalized: bool, text: string, c: Civil, z: Zone)
    requires Tells(generalized, text, c, z)
    ensures InFields(c)
  {
    var short, fraction, tail :|
      ValidZone(z) && EndsAt(tail) && Follows(generalized, text, c, short, fraction, ZoneText(z) + tail);
    FollowsStarts(generalized, text, c, short, fraction, ZoneText(z) + tail);
    StartsMeans(generalized, text, c, short);
  }

  lemma ValueIsGuarded(c: Civil, offset: int)
    requires InFields(c) && -779 <= offset <= 779
    ensures ValueOf(c, offset) ==
            if AcrossTheEpoch(c.year, Epoch(c, offset)) then Thrown(WrongFormat) else Seconds(Epoch(c, offset))
  {
    FarFrom1970(c);
  }

  /** Local time is asked for exactly for the generalized form without a zone. */
  lemma LocalOnly(time: Asn1, c: Civil)
    ensures Meaning(time) == LocalTime(c) <==>
            && Supported(time) && time.kind.GeneralizedTime?
            && exists short, fraction, rest :: EndsAt(rest) && Follows(true, time.data, c, short, fraction, rest)
  {
    hide StampOf, Follows, Epoch;
    if Meaning(time) == LocalTime(c) {
      ReadableHasFields(time.kind.GeneralizedTime?, time.data);
      var d, short, fraction, rest := ReadIsFollowed(time.kind.GeneralizedTime?, time.data);
      TextsAreClassified(time.kind.GeneralizedTime?, time.data, d, short, fraction, rest);
      assert EndsAt(rest) && Follows(true, time.data, c, short, fraction, rest);
    }
    if Supported(time) && time.kind.GeneralizedTime? {
      if short, fraction, rest :| EndsAt(rest) && Follows(true, time.data, c, short, fraction, rest) {
        TextsAreClassified(true, time.data, c, short, fraction, rest);
      }
    }
  }

  /** The errors in their order: the type, the length, the fields, and everything else is the format. */
  lemma ErrorsOnly(time: Asn1)
    ensures Meaning(time) == Thrown(WrongType) <==> time.kind.OtherKind?
    ensures Meaning(time) == Thrown(WrongLength) <==> !time.kind.OtherKind? && !time.terminated
    ensures Meaning(time) == Thrown(WrongTime) <==>
              Supported(time) && !HasFields(time.kind.GeneralizedTime?, time.data)
  {
    WrongTimeOnly(time.kind.GeneralizedTime?, time.data);
    OnlyTheseErrors(time.kind.GeneralizedTime?, time.data);
    hide StampOf, HasFields, Epoch;
  }

  lemma OnlyTheseErrors(generalized: bool, text: string)
    ensures StampOf(generalized, text).Unreadable? ==>
              StampOf(generalized, text).error == WrongTime || StampOf(generalized, text).error == WrongFormat
  {
    hide FieldsInRange, FieldsOf, FieldsEnd;
  }
}
