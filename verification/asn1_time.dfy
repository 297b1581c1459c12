// Util::ConvertAsn1TimeToTimeTUtc: the text of an ASN.1 time to seconds since the epoch.
module Asn1Time {
  import opened Calendar
  import opened Wrappers

  newtype int32 = x: int | -0x8000_0000 <= x < 0x8000_0000
  newtype int64 = x: int | -0x8000_0000_0000_0000 <= x < 0x8000_0000_0000_0000

  datatype Kind = GeneralizedTime | UtcTime | OtherKind

  /** `terminated` says that a zero follows the last character. */
  datatype Asn1 = Asn1(kind: Kind, data: string, terminated: bool)

  datatype Error = WrongType | WrongLength | WrongTime | WrongFormat

  /** The fields that were read, and the zone in minutes east of Greenwich, if one was given. */
  datatype Stamp = Zoned(civil: Civil, offset: int) | Local(civil: Civil) | Unreadable(error: Error)

  datatype Converted = Seconds(value: int) | LocalTime(civil: Civil) | Thrown(error: Error)

  // ---------------------------------------------------------------- what the text says

  /** The character at a position; a zero follows the last one. */
  function Char(text: string, at: nat): char {
    if at < |text| then text[at] else '\0'
  }

  predicate IsDigit(c: char) {
    '0' <= c <= '9'
  }

  function DigitOf(c: char): int {
    c as int - '0' as int
  }

  function Decimal(digits: string): int {
    if digits == [] then 0 else 10 * Decimal(digits[..|digits| - 1]) + DigitOf(digits[|digits| - 1])
  }

  predicate AllDigits(s: string) {
    forall c :: c in s ==> IsDigit(c)
  }

  predicate HasNumber(text: string, at: nat, n: nat) {
    at + n <= |text| && AllDigits(text[at..at + n])
  }

  function Number(text: string, at: nat, n: nat): int
    requires HasNumber(text, at, n)
  {
    Decimal(text[at..at + n])
  }

  /** `n` digits from `at` on that stand for a number from `min` to `max`. */
  predicate InRange(text: string, at: nat, n: nat, min: int, max: int) {
    HasNumber(text, at, n) && min <= Number(text, at, n) <= max
  }

  function YearDigits(generalized: bool): nat {
    if generalized then 4 else 2
  }

  predicate FieldsInRange(generalized: bool, text: string) {
    var y := YearDigits(generalized);
    && InRange(text, 0, y, 0, if generalized then 9999 else 99)
    && InRange(text, y, 2, 1, 12)
    && InRange(text, y + 2, 2, 1, 31)
    && InRange(text, y + 4, 2, 0, 23)
    && InRange(text, y + 6, 2, 0, 59)
    && (IsDigit(Char(text, y + 8)) ==> InRange(text, y + 8, 2, 0, 59))
  }

  /** The window of a two-digit year: 1950 to 2049. */
  function FullYear(generalized: bool, written: int): int {
    if generalized then written else if written < 50 then written + 2000 else written + 1900
  }

  function FieldsOf(generalized: bool, text: string): Civil
    requires FieldsInRange(generalized, text)
  {
    var y := YearDigits(generalized);
    Civil(FullYear(generalized, Number(text, 0, y)), Number(text, y, 2), Number(text, y + 2, 2),
          Number(text, y + 4, 2), Number(text, y + 6, 2),
          if IsDigit(Char(text, y + 8)) then Number(text, y + 8, 2) else 0)
  }

  function FieldsEnd(generalized: bool, text: string): nat {
    var y := YearDigits(generalized);
    if IsDigit(Char(text, y + 8)) then y + 10 else y + 8
  }

  predicate InFraction(c: char) {
    c == '.' || c == ',' || IsDigit(c)
  }

  function AfterFraction(text: string, at: nat): (end: nat)
    ensures end >= at && !InFraction(Char(text, end))
    ensures at <= |text| ==> end <= |text|
    decreases |text| - at
  {
    if InFraction(Char(text, at)) then AfterFraction(text, at + 1) else at
  }

  function ZoneAt(text: string, at: nat, c: Civil): (r: Stamp)
    ensures r.Unreadable? || (r.Zoned? && r.civil == c && -779 <= r.offset <= 779)
  {
    var sign := Char(text, at);
    if sign == 'Z' && Char(text, at + 1) == '\0' then Zoned(c, 0)
    else if (sign == '+' || sign == '-')
         && InRange(text, at + 1, 2, 0, 12) && InRange(text, at + 3, 2, 0, 59) && Char(text, at + 5) == '\0' then
      var minutes := Number(text, at + 1, 2) * 60 + Number(text, at + 3, 2);
      Zoned(c, if sign == '-' then -minutes else minutes)
    else Unreadable(WrongFormat)
  }

  function StampOf(generalized: bool, text: string): (r: Stamp)
    ensures !r.Unreadable? ==> FieldsInRange(generalized, text) && r.civil == FieldsOf(generalized, text)
    ensures r.Zoned? ==> -779 <= r.offset <= 779
  {
    if !FieldsInRange(generalized, text) then Unreadable(WrongTime)
    else
      var c := FieldsOf(generalized, text);
      var at := FieldsEnd(generalized, text);
      if !generalized then ZoneAt(text, at, c)
      else
        var end := AfterFraction(text, at);
        if Char(text, end) == '\0' then Local(c) else ZoneAt(text, end, c)
  }

  /** The value, unless its sign does not go with the year as it was written. */
  function ValueOf(c: Civil, offset: int): Converted
    requires c.month >= 1
  {
    if c.year < 1970 <==> Epoch(c, offset) < 0 then Seconds(Epoch(c, offset)) else Thrown(WrongFormat)
  }

  function Meaning(time: Asn1): Converted {
    if time.kind.OtherKind? then Thrown(WrongType)
    else if !time.terminated then Thrown(WrongLength)
    else
      match StampOf(time.kind.GeneralizedTime?, time.data)
      case Unreadable(error) => Thrown(error)
      case Local(c) => LocalTime(c)
      case Zoned(c, offset) => ValueOf(c, offset)
  }

  // ---------------------------------------------------------------- reading

  function Pow10(n: nat): (p: int)
    ensures p >= 1
  {
    if n == 0 then 1 else 10 * Pow10(n - 1)
  }

  lemma {:induction false} DecimalIsSmall(digits: string)
    requires AllDigits(digits)
    ensures 0 <= Decimal(digits) < Pow10(|digits|)
  {
    if digits != [] {
      assert digits[|digits| - 1] in digits;
      DecimalIsSmall(digits[..|digits| - 1]);
    }
  }

  /** The next `n` digits as a number. Without them the error is set and `end` stays at the first other character. */
  method Pint(text: string, at: nat, n: nat, min: int32, max: int32, before: bool)
    returns (value: int32, end: nat, error: bool)
    requires at <= |text| && n <= 9
    ensures at <= end <= |text| && 0 <= value < 1_000_000_000
    ensures error == (before || !InRange(text, at, n, min as int, max as int))
    ensures !error ==> value as int == Number(text, at, n) && end == at + n
  {
    value := 0;
    end := at;
    error := before;
    var left := n;
    assert text[at..at] == "";
    while left > 0
      invariant 0 <= left <= n && at <= end == at + n - left <= |text|
      invariant AllDigits(text[at..end]) && value as int == Decimal(text[at..end])
    {
      if Char(text, end) < '0' || Char(text, end) > '9' {
        NoNumber(text, at, n, end);
        return 0, end, true;
      }
      DecimalIsSmall(text[at..end]);
      SmallPowers(|text[at..end]|);
      assert text[at..end + 1][..end - at] == text[at..end];
      value := value * 10;
      value := value + (DigitOf(text[end]) as int32);
      left := left - 1;
      end := end + 1;
    }
    DecimalIsSmall(text[at..end]);
    PowersGrow(n, 9);
    if value < min || value > max {
      error := true;
    }
  }

  lemma NoNumber(text: string, at: nat, n: nat, k: nat)
    requires at <= k < at + n && !IsDigit(Char(text, k))
    ensures !HasNumber(text, at, n)
  {
    if at + n <= |text| {
      assert text[k] in text[at..at + n] by { assert text[at..at + n][k - at] == text[k]; }
    }
  }

  lemma SmallPowers(n: nat)
    requires n <= 8
    ensures 10 * Pow10(n) <= 1_000_000_000
  {
    assert Pow10(4) == 10_000;
    assert Pow10(8) == 100_000_000;
    PowersGrow(n, 8);
  }

  lemma {:induction false} PowersGrow(m: nat, n: nat)
    requires m <= n
    ensures Pow10(m) <= Pow10(n)
    decreases n
  {
    if m < n {
      PowersGrow(m, n - 1);
    }
  }

  // ---------------------------------------------------------------- the conversion

  /** struct tm: the year since 1900, the month since January. */
  datatype Tm = Tm(year: int32, mon: int32, mday: int32, hour: int32, min: int32, sec: int32)

  function CivilOf(t: Tm): Civil {
    Civil(t.year as int + 1900, t.mon as int + 1, t.mday as int, t.hour as int, t.min as int, t.sec as int)
  }

  /** The year; then the month and the day; then the time of day. Each group fails as a whole. */
  method ReadFields(generalized: bool, text: string) returns (t: Tm, s: nat, failed: bool)
    ensures failed <==> !FieldsInRange(generalized, text)
    ensures !failed ==> CivilOf(t) == FieldsOf(generalized, text) && s == FieldsEnd(generalized, text) <= |text|
  {
    hide HasNumber;
    t := Tm(0, 0, 0, 0, 0, 0);
    var year, month, day, hour, minute, second: int32;
    if generalized {
      year, s, failed := Pint(text, 0, 4, 0, 9999, false);
      year := year - 1900;
    } else {
      year, s, failed := Pint(text, 0, 2, 0, 99, false);
      if year < 50 { year := year + 100; }
    }
    if failed { return; }

    month, s, failed := Pint(text, s, 2, 1, 12, false);
    month := month - 1;
    day, s, failed := Pint(text, s, 2, 1, 31, failed);
    if failed { return; }

    hour, s, failed := Pint(text, s, 2, 0, 23, false);
    minute, s, failed := Pint(text, s, 2, 0, 59, failed);
    if '0' <= Char(text, s) <= '9' {
      second, s, failed := Pint(text, s, 2, 0, 59, failed);
    } else {
      second := 0;
    }
    t := Tm(year, month, day, hour, minute, second);
  }

  method ReadZone(text: string, at: nat, ghost c: Civil) returns (offset: int32, failed: bool)
    requires at <= |text|
    ensures ZoneAt(text, at, c) == if failed then Unreadable(WrongFormat) else Zoned(c, offset as int)
    ensures -779 <= offset <= 779
  {
    hide HasNumber;
    var s := at;
    if Char(text, s) == 'Z' {
      offset := 0;
      s := s + 1;
    } else if Char(text, s) == '-' || Char(text, s) == '+' {
      var negative := Char(text, s) == '-';
      s := s + 1;
      var hours, minutes: int32;
      hours, s, failed := Pint(text, s, 2, 0, 12, false);
      minutes, s, failed := Pint(text, s, 2, 0, 59, failed);
      if failed { return 0, true; }
      offset := hours * 60 + minutes;
      if negative { offset := -offset; }
    } else {
      return 0, true;
    }
    failed := Char(text, s) != '\0';
  }

  method SkipFraction(text: string, at: nat) returns (s: nat)
    requires at <= |text|
    ensures s == AfterFraction(text, at) <= |text|
  {
    s := at;
    while Char(text, s) == '.' || Char(text, s) == ',' || '0' <= Char(text, s) <= '9'
      invariant at <= s <= |text| && AfterFraction(text, s) == AfterFraction(text, at)
      decreases |text| - s
    {
      s := s + 1;
    }
  }

  const COMMON: seq<int32> := [31, 28, 31, 30, 31, 30, 31, 31, 30, 31, 30, 31]
  const LEAP: seq<int32> := [31, 29, 31, 30, 31, 30, 31, 31, 30, 31, 30, 31]

  lemma TablesAreMonths(year: int, i: nat)
    requires i < 12
    ensures (if Leap(year) then LEAP else COMMON)[i] as int == MonthLength(year, i + 1)
  {
  }

  /** The months before this one. */
  method MonthsByHand(year: int32, month: int32) returns (value: int64)
    requires 0 <= year <= 9999 && 0 <= month <= 11
    ensures value as int == DaysInMonths(year as int, month as nat) * 86400 && value <= 366 * 86400
  {
    var isLeap := (year % 4 == 0 && year % 100 != 0) || year % 400 == 0;
    value := 0;
    MonthsFit(year as int, month as nat);
    var i := month - 1;
    while i >= 0
      invariant -1 <= i < month && value >= 0
      invariant value as int == (DaysInMonths(year as int, month as nat) - DaysInMonths(year as int, (i + 1) as nat)) * 86400
    {
      TablesAreMonths(year as int, i as nat);
      value := value + ((if isLeap then LEAP else COMMON)[i] * 86400) as int64;
      i := i - 1;
    }
  }

  /** The leap days since 1970, or those until then, negative. */
  method LeapDaysByHand(year: int32) returns (value: int64)
    requires 0 <= year <= 9999
    ensures value as int == (DaysBeforeYear(year as int) - (year as int - 1970) * 365) * 86400
    ensures -1000 * 86400 <= value <= 3000 * 86400
  {
    hide DaysBeforeYear;
    value := 0;
    if year < 1970 {
      var fourths := (1970 - year + 2) / 4;
      value := value - (fourths * 86400) as int64;
      var i := 1900;
      while i >= year
        invariant year - 100 <= i <= 1900
        invariant -fourths as int64 * 86400 <= value <= (1900 - i) as int64 * 864
        invariant value as int
               == (SkipsDown(1900, year as int) - SkipsDown(i as int, year as int) - fourths as int) * 86400
      {
        if i % 400 != 0 {
          value := value + 86400;
        }
        i := i - 100;
      }
      YearsDown(year as int);
    } else {
      var fourths := (year - 1970 + 1) / 4;
      value := value + (fourths * 86400) as int64;
      var i := 2100;
      while i < year
        invariant 2100 <= i <= year + 100 || i == 2100
        invariant (2100 - i) as int64 * 864 <= value <= fourths as int64 * 86400
        invariant value as int
               == (fourths as int - SkipsUp(2100, year as int) + SkipsUp(i as int, year as int)) * 86400
      {
        if i % 400 != 0 {
          value := value - 86400;
        }
        i := i + 100;
      }
      YearsUp(year as int);
    }
  }

  /** The conversion by hand; products are in 32 bits, sums in 64. */
  method ToEpoch(t: Tm, offset: int32) returns (value: int64, failed: bool)
    requires -1900 <= t.year <= 8099 && 0 <= t.mon <= 11 && 1 <= t.mday <= 31
    requires 0 <= t.hour <= 23 && 0 <= t.min <= 59 && 0 <= t.sec <= 59 && -779 <= offset <= 779
    ensures ValueOf(CivilOf(t), offset as int) == if failed then Thrown(WrongFormat) else Seconds(value as int)
  {
    value := t.sec as int64;
    value := value + ((t.min - offset) * 60) as int64;
    value := value + (t.hour * 3600) as int64;
    value := value + ((t.mday - 1) * 86400) as int64;
    var year := t.year + 1900;
    var months := MonthsByHand(year, t.mon);
    value := value + months;
    value := value + (year as int64 - 1970) * 31536000;
    var leapDays := LeapDaysByHand(year);
    value := value + leapDays;
    assert value as int == Epoch(CivilOf(t), offset as int);
    failed := if year < 1970 then value >= 0 else value < 0;
  }

  /** A time in a zone, or an error, is what the text means; the local-time branch ends where it asks the C library. */
  method ConvertAsn1TimeToTimeTUtc(time: Asn1) returns (r: Converted)
    ensures r == Meaning(time)
  {
    if time.kind.OtherKind? {
      return Thrown(WrongType);
    }
    var generalized := time.kind.GeneralizedTime?;
    if !time.terminated {
      return Thrown(WrongLength);
    }
    var t, s, failed := ReadFields(generalized, time.data);
    if failed {
      return Thrown(WrongTime);
    }
    if generalized {
      s := SkipFraction(time.data, s);
      if Char(time.data, s) == '\0' {
        return LocalTime(CivilOf(t));
      }
    }
    var offset: int32, value: int64;
    offset, failed := ReadZone(time.data, s, CivilOf(t));
    if failed {
      return Thrown(WrongFormat);
    }
    value, failed := ToEpoch(t, offset);
    return if failed then Thrown(WrongFormat) else Seconds(value as int);
  }

  // ---------------------------------------------------------------- the guard on the sign

  /** Even a day that its month does not have stays inside the year. */
  lemma InsideTheYear(c: Civil)
    requires 1 <= c.month <= 12 && 1 <= c.day <= 31 && ValidTime(c)
    ensures DaysBeforeYear(c.year) * 86400 <= Epoch(c, 0) < DaysBeforeYear(c.year + 1) * 86400
  {
    NextYear(c.year);
    if c.month == 12 {
      MonthsGrow(c.year, 11, 12);
    } else {
      MonthsGrow(c.year, c.month - 1, c.month + 1);
      assert DaysInMonths(c.year, c.month + 1) >= DaysInMonths(c.year, c.month - 1) + 56;
    }
  }

  lemma FarFrom1970(c: Civil)
    requires 1 <= c.month <= 12 && 1 <= c.day <= 31 && ValidTime(c)
    ensures c.year < 1970 ==> Epoch(c, 0) < 0
    ensures c.year >= 1970 ==> Epoch(c, 0) >= 0
    ensures c.year < 1969 ==> Epoch(c, 0) < -365 * 86400
    ensures c.year > 1970 ==> Epoch(c, 0) >= 365 * 86400
  {
    InsideTheYear(c);
    if c.year > 1970 { YearsGrow(1970, c.year); }
    if c.year < 1969 { YearsGrow(c.year, 1969); }
  }

  /** A text in universal time, and any text of a year other than 1969 and 1970, never meets the guard. */
  lemma GuardOnlyAround1970(generalized: bool, text: string)
    ensures var stamp := StampOf(generalized, text);
            stamp.Zoned? && (stamp.offset == 0 || stamp.civil.year < 1969 || stamp.civil.year > 1970) ==>
              && ValueOf(stamp.civil, stamp.offset) == Seconds(Epoch(stamp.civil, stamp.offset))
  {
    var stamp := StampOf(generalized, text);
    if stamp.Zoned? {
      FarFrom1970(stamp.civil);
    }
  }

  // ---------------------------------------------------------------- round trips

  function Digit(n: int): char
    requires 0 <= n < 10
  {
    ('0' as int + n) as char
  }

  function YearText(generalized: bool, year: int): string
    requires 0 <= year <= 9999
  {
    var last := [Digit(year / 10 % 10), Digit(year % 10)];
    if generalized then [Digit(year / 1000), Digit(year / 100 % 10)] + last else last
  }

  /** Fields within the ranges that are checked; the day may be one that the month does not have. */
  predicate InFields(c: Civil) {
    1 <= c.month <= 12 && 1 <= c.day <= 31 && 0 <= c.hour <= 23 && 0 <= c.minute <= 59 && 0 <= c.second <= 59
  }

  predicate Writable(generalized: bool, c: Civil) {
    InFields(c) && if generalized then 0 <= c.year <= 9999 else 1950 <= c.year <= 2049
  }

  /** MMDDhhmmss. */
  function RestText(c: Civil): string
    requires InFields(c)
  {
    [Digit(c.month / 10), Digit(c.month % 10), Digit(c.day / 10), Digit(c.day % 10),
     Digit(c.hour / 10), Digit(c.hour % 10), Digit(c.minute / 10), Digit(c.minute % 10),
     Digit(c.second / 10), Digit(c.second % 10)]
  }

  function Printed(generalized: bool, c: Civil): (p: string)
    requires Writable(generalized, c)
    ensures |p| == YearDigits(generalized) + 10
  {
    YearText(generalized, c.year) + RestText(c)
  }

  /** A date and time that exists, in the years the form can write. */
  predicate Printable(generalized: bool, c: Civil) {
    Valid(c) && Writable(generalized, c)
  }

  datatype Zone = Zulu | East(minutes: int) | West(minutes: int)

  predicate ValidZone(z: Zone) {
    z.Zulu? || 0 <= z.minutes <= 779
  }

  function ZoneText(z: Zone): string
    requires ValidZone(z)
  {
    if z.Zulu? then "Z"
    else
      var (h, m) := (z.minutes / 60, z.minutes % 60);
      [if z.East? then '+' else '-', Digit(h / 10), Digit(h % 10), Digit(m / 10), Digit(m % 10)]
  }

  function OffsetOf(z: Zone): int {
    match z
    case Zulu => 0
    case East(minutes) => minutes
    case West(minutes) => -minutes
  }

  lemma TwoDigits(text: string, at: nat, n: int)
    requires 0 <= n < 100 && at + 2 <= |text| && text[at] == Digit(n / 10) && text[at + 1] == Digit(n % 10)
    ensures HasNumber(text, at, 2) && Number(text, at, 2) == n
  {
    var digits := text[at..at + 2];
    assert digits[..1][..0] == "" && Decimal(digits[..1]) == DigitOf(digits[0]);
  }

  lemma FourDigits(text: string, n: int)
    requires 0 <= n < 10000 && 4 <= |text| && text[0] == Digit(n / 1000) && text[1] == Digit(n / 100 % 10)
    requires text[2] == Digit(n / 10 % 10) && text[3] == Digit(n % 10)
    ensures HasNumber(text, 0, 4) && Number(text, 0, 4) == n
  {
    TwoDigits(text, 0, n / 100);
    var digits := text[0..4];
    assert digits[..3][..2] == digits[..2] == text[0..2];
    assert Decimal(digits[..3]) == 10 * Decimal(text[0..2]) + DigitOf(text[2]);
  }

  predicate RestAt(text: string, y: nat, c: Civil)
    requires InFields(c)
  {
    y + 10 <= |text| && forall k :: 0 <= k < 10 ==> text[y + k] == RestText(c)[k]
  }

  lemma RestIsReadBack(text: string, y: nat, c: Civil)
    requires InFields(c) && RestAt(text, y, c)
    ensures InRange(text, y, 2, 1, 12) && Number(text, y, 2) == c.month
    ensures InRange(text, y + 2, 2, 1, 31) && Number(text, y + 2, 2) == c.day
    ensures InRange(text, y + 4, 2, 0, 23) && Number(text, y + 4, 2) == c.hour
    ensures InRange(text, y + 6, 2, 0, 59) && Number(text, y + 6, 2) == c.minute
    ensures IsDigit(Char(text, y + 8)) && InRange(text, y + 8, 2, 0, 59) && Number(text, y + 8, 2) == c.second
  {
    hide HasNumber, Number;
    var rest := RestText(c);
    assert text[y + 0] == rest[0] && text[y + 1] == rest[1] && text[y + 2] == rest[2] && text[y + 3] == rest[3];
    assert text[y + 4] == rest[4] && text[y + 5] == rest[5] && text[y + 6] == rest[6] && text[y + 7] == rest[7];
    assert text[y + 8] == rest[8] && text[y + 9] == rest[9];
    TwoDigits(text, y, c.month);
    TwoDigits(text, y + 2, c.day);
    TwoDigits(text, y + 4, c.hour);
    TwoDigits(text, y + 6, c.minute);
    TwoDigits(text, y + 8, c.second);
  }

  lemma YearIsReadBack(generalized: bool, c: Civil, text: string)
    requires Writable(generalized, c) && YearText(generalized, c.year) <= text
    ensures var y := YearDigits(generalized);
            && InRange(text, 0, y, 0, if generalized then 9999 else 99)
            && FullYear(generalized, Number(text, 0, y)) == c.year
  {
    hide HasNumber, Number, InFields, IsDigit;
    var p := YearText(generalized, c.year);
    assert forall k :: 0 <= k < |p| ==> text[k] == p[k];
    if generalized {
      FourDigits(text, c.year);
    } else {
      LastTwoDigits(c.year);
      TwoDigits(text, 0, c.year % 100);
    }
  }

  lemma LastTwoDigits(year: int)
    requires year >= 0
    ensures year % 100 / 10 == year / 10 % 10 && year % 100 % 10 == year % 10
  {
    var q, tens, ones := year / 100, year % 100 / 10, year % 100 % 10;
    assert year == 10 * (10 * q + tens) + ones;
    assert year / 10 == 10 * q + tens;
  }

  lemma FieldsAreReadBack(generalized: bool, c: Civil, text: string)
    requires Writable(generalized, c) && Printed(generalized, c) <= text
    ensures FieldsInRange(generalized, text) && FieldsOf(generalized, text) == c
    ensures FieldsEnd(generalized, text) == |Printed(generalized, c)|
  {
    hide HasNumber, Number, YearText;
    var p, y := Printed(generalized, c), YearDigits(generalized);
    assert YearText(generalized, c.year) <= text by { assert YearText(generalized, c.year) <= p; }
    YearIsReadBack(generalized, c, text);
    assert RestAt(text, y, c) by {
      forall k | 0 <= k < 10
        ensures text[y + k] == RestText(c)[k]
      {
        assert text[y + k] == p[y + k];
      }
    }
    RestIsReadBack(text, y, c);
  }

  lemma {:induction false} FractionIsSkipped(text: string, at: nat, end: nat)
    requires at <= end && !InFraction(Char(text, end))
    requires forall k :: at <= k < end ==> InFraction(Char(text, k))
    ensures AfterFraction(text, at) == end
    decreases end - at
  {
    if at < end {
      FractionIsSkipped(text, at + 1, end);
    }
  }

  /** The source's texts end at the first zero. */
  predicate EndsAt(tail: string) {
    tail == "" || tail[0] == '\0'
  }

  lemma ZoneIsReadBack(text: string, at: nat, z: Zone, tail: string, c: Civil)
    requires ValidZone(z) && at <= |text| && text[at..] == ZoneText(z) + tail && EndsAt(tail)
    ensures ZoneAt(text, at, c) == Zoned(c, OffsetOf(z))
  {
    hide HasNumber, Number;
    var zone := ZoneText(z);
    assert forall k :: 0 <= k < |zone| ==> (zone + tail)[k] == text[at + k];
    assert |text| == at + |zone| + |tail|;
    assert Char(text, at + |zone|) == '\0' by {
      if tail != "" {
        assert text[at..][|zone|] == tail[0];
      }
    }
    if !z.Zulu? {
      TwoDigits(text, at + 1, z.minutes / 60);
      TwoDigits(text, at + 3, z.minutes % 60);
    }
  }

  /** Any fields in their ranges, printed with any zone, are read back; fractional seconds are dropped. */
  lemma PrintedIsReadBack(generalized: bool, c: Civil, fraction: string, z: Zone)
    requires Writable(generalized, c) && ValidZone(z)
    requires (forall k :: 0 <= k < |fraction| ==> InFraction(fraction[k])) && (fraction == "" || generalized)
    ensures StampOf(generalized, Printed(generalized, c) + fraction + ZoneText(z)) == Zoned(c, OffsetOf(z))
  {
    hide FieldsInRange, FieldsOf, FieldsEnd, Printed, ZoneAt;
    var p, zone := Printed(generalized, c), ZoneText(z);
    var text, end := p + fraction + zone, |p| + |fraction|;
    FieldsAreReadBack(generalized, c, text);
    assert text[end..] == zone + "" && Char(text, end) == zone[0];
    ZoneIsReadBack(text, end, z, "", c);
    FractionIsSkipped(text, |p|, end);
  }

  // ---------------------------------------------------------------- without seconds

  /** The fields without the seconds, which both forms may leave out. */
  function Short(generalized: bool, c: Civil): string
    requires Writable(generalized, c)
  {
    YearText(generalized, c.year) + RestText(c)[..8]
  }

  lemma ShortRestIsReadBack(text: string, y: nat, c: Civil)
    requires InFields(c) && y + 8 <= |text| && forall k :: 0 <= k < 8 ==> text[y + k] == RestText(c)[k]
    ensures InRange(text, y, 2, 1, 12) && Number(text, y, 2) == c.month
    ensures InRange(text, y + 2, 2, 1, 31) && Number(text, y + 2, 2) == c.day
    ensures InRange(text, y + 4, 2, 0, 23) && Number(text, y + 4, 2) == c.hour
    ensures InRange(text, y + 6, 2, 0, 59) && Number(text, y + 6, 2) == c.minute
  {
    hide HasNumber, Number;
    var rest := RestText(c);
    assert text[y + 0] == rest[0] && text[y + 1] == rest[1] && text[y + 2] == rest[2] && text[y + 3] == rest[3];
    assert text[y + 4] == rest[4] && text[y + 5] == rest[5] && text[y + 6] == rest[6] && text[y + 7] == rest[7];
    TwoDigits(text, y, c.month);
    TwoDigits(text, y + 2, c.day);
    TwoDigits(text, y + 4, c.hour);
    TwoDigits(text, y + 6, c.minute);
  }

  lemma ShortFieldsAreReadBack(generalized: bool, c: Civil, text: string)
    requires Writable(generalized, c) && Short(generalized, c) <= text
    requires !IsDigit(Char(text, |Short(generalized, c)|))
    ensures FieldsInRange(generalized, text) && FieldsOf(generalized, text) == c.(second := 0)
    ensures FieldsEnd(generalized, text) == |Short(generalized, c)|
  {
    hide HasNumber, Number, YearText;
    var p, y := Short(generalized, c), YearDigits(generalized);
    assert |YearText(generalized, c.year)| == y by { YearTextSize(generalized, c.year); }
    assert YearText(generalized, c.year) <= text by { assert YearText(generalized, c.year) <= p; }
    YearIsReadBack(generalized, c, text);
    forall k | 0 <= k < 8
      ensures text[y + k] == RestText(c)[k]
    {
      assert text[y + k] == p[y + k];
    }
    ShortRestIsReadBack(text, y, c);
  }

  lemma YearTextSize(generalized: bool, year: int)
    requires 0 <= year <= 9999
    ensures |YearText(generalized, year)| == YearDigits(generalized)
  {
  }

  /** A text without seconds means what it means with the seconds 00. */
  lemma NoSecondsAreZero(generalized: bool, c: Civil, fraction: string, z: Zone)
    requires Writable(generalized, c) && ValidZone(z) && (fraction == "" || (generalized && !IsDigit(fraction[0])))
    requires forall k :: 0 <= k < |fraction| ==> InFraction(fraction[k])
    ensures StampOf(generalized, Short(generalized, c) + fraction + ZoneText(z)) == Zoned(c.(second := 0), OffsetOf(z))
  {
    hide FieldsInRange, FieldsOf, FieldsEnd, Short, ZoneAt;
    var p, zone := Short(generalized, c), ZoneText(z);
    var text, end := p + fraction + zone, |p| + |fraction|;
    assert Char(text, |p|) == if fraction == "" then zone[0] else fraction[0];
    ShortFieldsAreReadBack(generalized, c, text);
    assert text[end..] == zone + "" && Char(text, end) == zone[0];
    ZoneIsReadBack(text, end, z, "", c.(second := 0));
    FractionIsSkipped(text, |p|, end);
  }

  function KindOf(generalized: bool): Kind {
    if generalized then GeneralizedTime else UtcTime
  }

  /** Printing a date and time in universal time and converting it gives its seconds since the epoch. */
  lemma RoundTrip(generalized: bool, c: Civil, fraction: string)
    requires Printable(generalized, c)
    requires (forall k :: 0 <= k < |fraction| ==> InFraction(fraction[k])) && (fraction == "" || generalized)
    ensures Meaning(Asn1(KindOf(generalized), Printed(generalized, c) + fraction + "Z", true)) == Seconds(Epoch(c, 0))
  {
    PrintedIsReadBack(generalized, c, fraction, Zulu);
    GuardOnlyAround1970(generalized, Printed(generalized, c) + fraction + "Z");
  }

  /** Two printed times convert to values in the same order, whichever forms they are printed in. */
  lemma ConversionIsMonotone(g: bool, a: Civil, h: bool, b: Civil)
    requires Printable(g, a) && Printable(h, b)
    ensures var x := Meaning(Asn1(KindOf(g), Printed(g, a) + "Z", true));
            var y := Meaning(Asn1(KindOf(h), Printed(h, b) + "Z", true));
            x.Seconds? && y.Seconds? && (Before(a, b) <==> x.value < y.value)
  {
    assert Printed(g, a) + "" == Printed(g, a) && Printed(h, b) + "" == Printed(h, b);
    RoundTrip(g, a, "");
    RoundTrip(h, b, "");
    EpochIsStrictlyMonotone(a, b);
  }

  predicate AcrossTheEpoch(year: int, instant: int) {
    (year == 1969 && instant >= 0) || (year == 1970 && instant < 0)
  }

  /** With a zone the guard refuses exactly the times whose instant is on the other side of the epoch. */
  lemma ZonedConverts(generalized: bool, c: Civil, fraction: string, z: Zone)
    requires Printable(generalized, c) && ValidZone(z)
    requires (forall k :: 0 <= k < |fraction| ==> InFraction(fraction[k])) && (fraction == "" || generalized)
    ensures var text := Printed(generalized, c) + fraction + ZoneText(z);
            Meaning(Asn1(KindOf(generalized), text, true)) ==
            if AcrossTheEpoch(c.year, Epoch(c, OffsetOf(z))) then Thrown(WrongFormat) else Seconds(Epoch(c, OffsetOf(z)))
  {
    PrintedIsReadBack(generalized, c, fraction, z);
    FarFrom1970(c);
  }

  /** Half a minute after the epoch, written one minute west of Greenwich, is refused. */
  lemma RefusedNextToTheEpoch()
    ensures var c := Civil(1969, 12, 31, 23, 59, 30);
            && Epoch(c, -1) == 30
            && Meaning(Asn1(GeneralizedTime, Printed(true, c) + "" + ZoneText(West(1)), true)) == Thrown(WrongFormat)
  {
    var c := Civil(1969, 12, 31, 23, 59, 30);
    WholeYear(1969);
    assert DaysInMonths(1969, 12) == DaysInMonths(1969, 11) + 31;
    ZonedConverts(true, c, "", West(1));
  }
}
