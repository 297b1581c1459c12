// EncodeUrl and DecodeUrl for wide strings, on code units.
module UrlCodec {

  type Unit = u: int | 0 <= u < 0x1_0000

  const SPACE: Unit := 0x20
  const PERCENT: Unit := 0x25
  const PLUS: Unit := 0x2B
  const MINUS: Unit := 0x2D
  const DOT: Unit := 0x2E
  const UNDERLINE: Unit := 0x5F
  const ZERO: Unit := 0x30
  const UPPER_A: Unit := 0x41
  const LOWER_A: Unit := 0x61

  predicate IsDigit(u: Unit) { ZERO <= u <= ZERO + 9 }

  predicate IsUpper(u: Unit) { UPPER_A <= u <= UPPER_A + 25 }

  predicate IsLower(u: Unit) { LOWER_A <= u <= LOWER_A + 25 }

  predicate IsXDigit(u: Unit) {
    IsDigit(u) || UPPER_A <= u <= UPPER_A + 5 || LOWER_A <= u <= LOWER_A + 5
  }

  /** What may stand for itself in an encoded text. */
  predicate IsPlain(u: Unit) {
    IsDigit(u) || IsUpper(u) || IsLower(u) || u == MINUS || u == DOT || u == UNDERLINE
  }

  /** The table of the source: the upper-case digits. */
  function HexChar(n: int): (u: Unit)
    requires 0 <= n < 16
    ensures IsXDigit(u) && HexValue(u) == n
  {
    if n < 10 then ZERO + n else UPPER_A + n - 10
  }

  function HexValue(u: Unit): int {
    if IsDigit(u) then u - ZERO else if IsUpper(u) then u - UPPER_A + 10 else u - LOWER_A + 10
  }

  // ---------------------------------------------------------------- encoding

  predicate IsByteText(s: seq<Unit>) {
    forall k :: 0 <= k < |s| ==> s[k] < 0x100
  }

  function EncodedUnit(u: Unit): seq<Unit>
    requires u < 0x100
  {
    if u == SPACE then [PLUS]
    else if IsPlain(u) then [u]
    else [PERCENT, HexChar(u / 16), HexChar(u % 16)]
  }

  function Encoded(s: seq<Unit>): seq<Unit>
    requires IsByteText(s)
  {
    if s == [] then [] else EncodedUnit(s[0]) + Encoded(s[1..])
  }

  const UPPER_DIGITS: seq<Unit> :=
    [0x30, 0x31, 0x32, 0x33, 0x34, 0x35, 0x36, 0x37, 0x38, 0x39, 0x41, 0x42, 0x43, 0x44, 0x45, 0x46]
  const LOWER_DIGITS: seq<Unit> :=
    [0x30, 0x31, 0x32, 0x33, 0x34, 0x35, 0x36, 0x37, 0x38, 0x39, 0x61, 0x62, 0x63, 0x64, 0x65, 0x66]

  /** The percent-encoding of section 2.1 of RFC 3986, with '+' for a space: units that stand for themselves, and triples. */
  predicate IsEncoding(text: seq<Unit>) {
    || text == []
    || ((IsPlain(text[0]) || text[0] == PLUS) && IsEncoding(text[1..]))
    || (|text| >= 3 && text[0] == PERCENT && text[1] in UPPER_DIGITS && text[2] in UPPER_DIGITS && IsEncoding(text[3..]))
  }

  /** The comparisons of the source. */
  predicate IsEscaped(ch: Unit) {
    || (ch < ZERO && ch != MINUS && ch != DOT)
    || (ch < UPPER_A && ch > ZERO + 9)
    || (ch > UPPER_A + 25 && ch < LOWER_A && ch != UNDERLINE)
    || ch > LOWER_A + 25
  }

  method EncodeUrl(source: seq<Unit>) returns (destination: seq<Unit>)
    requires IsByteText(source)
    ensures destination == Encoded(source)
  {
    hide Encoded, IsEscaped, IsPlain;
    destination := [];
    var i := 0;
    assert source[0..] == source;
    while i < |source|
      invariant i <= |source| && destination + Encoded(source[i..]) == Encoded(source)
    {
      var ch := source[i];
      ghost var before := destination;
      if ch == SPACE {
        destination := destination + [PLUS];
      } else if IsEscaped(ch) {
        destination := destination + [PERCENT];
        destination := destination + [HexChar(ch / 16)];
        destination := destination + [HexChar(ch % 16)];
      } else {
        destination := destination + [ch];
      }
      EscapedIsNotPlain(ch);
      assert destination == before + EncodedUnit(ch);
      EncodedStep(source, i);
      assert before + (EncodedUnit(ch) + Encoded(source[i + 1..])) == destination + Encoded(source[i + 1..]);
      i := i + 1;
    }
    EncodedEnd(source);
  }

  lemma EncodedEnd(source: seq<Unit>)
    requires IsByteText(source)
    ensures Encoded(source[|source|..]) == []
  {
  }

  lemma EncodedStep(source: seq<Unit>, i: nat)
    requires IsByteText(source) && i < |source|
    ensures Encoded(source[i..]) == EncodedUnit(source[i]) + Encoded(source[i + 1..])
  {
    assert source[i..][1..] == source[i + 1..];
  }

  lemma EscapedIsNotPlain(ch: Unit)
    ensures ch != SPACE ==> (IsEscaped(ch) <==> !IsPlain(ch))
  {
  }

  // ---------------------------------------------------------------- decoding

  /** The decoded text, or the loop passed the end of its range without noticing. */
  datatype Decoding = Decoded(text: seq<Unit>) | Overrun

  function Then(u: Unit, rest: Decoding): Decoding {
    if rest.Decoded? then Decoded([u] + rest.text) else Overrun
  }

  /** The unit at an iterator; a zero follows the last one. */
  function At(source: seq<Unit>, i: nat): Unit {
    if i < |source| then source[i] else 0
  }

  predicate IsTriple(source: seq<Unit>, i: nat, end: nat) {
    i + 1 != end && IsXDigit(At(source, i + 1)) && IsXDigit(At(source, i + 2))
  }

  /** One turn of the loop: what is written and where it goes on. */
  datatype Turn = Turn(unit: Unit, next: nat)

  function TurnAt(source: seq<Unit>, i: nat, end: nat): (t: Turn)
    requires i < end <= |source|
    ensures t.next > i
  {
    if source[i] == PLUS then Turn(SPACE, i + 1)
    else if source[i] == PERCENT && IsTriple(source, i, end) then
      Turn(HexValue(At(source, i + 1)) * 16 + HexValue(At(source, i + 2)), i + 3)
    else Turn(source[i], i + 1)
  }

  function Decode(source: seq<Unit>, i: nat, end: nat): Decoding
    requires end <= |source|
    decreases end - i
  {
    if i > end then Overrun
    else if i == end then Decoded([])
    else
      var t := TurnAt(source, i, end);
      Then(t.unit, Decode(source, t.next, end))
  }

  function After(text: seq<Unit>, rest: Decoding): Decoding {
    if rest.Decoded? then Decoded(text + rest.text) else Overrun
  }

  lemma OneMore(text: seq<Unit>, u: Unit, rest: Decoding)
    ensures After(text, Then(u, rest)) == After(text + [u], rest)
  {
    if rest.Decoded? {
      assert text + ([u] + rest.text) == text + [u] + rest.text;
    }
  }

  lemma LowerCaseValue(u: Unit)
    requires IsXDigit(u)
    ensures var c := ToLower(u);
            HexValue(u) == (if ZERO <= c <= ZERO + 9 then c - ZERO else c - LOWER_A + 10) && 0 <= HexValue(u) < 16
  {
  }

  method DecodeUrl(source: seq<Unit>, begin: nat, end: nat) returns (r: Decoding)
    requires begin <= end <= |source|
    ensures r == Decode(source, begin, end)
  {
    hide After, Then, IsXDigit, HexValue, ToLower;
    var destination: seq<Unit> := [];
    var i := begin;
    NothingBefore(Decode(source, begin, end));
    while i != end
      invariant i <= end && After(destination, Decode(source, i, end)) == Decode(source, begin, end)
      decreases end - i
    {
      ghost var t := TurnAt(source, i, end);
      OneMore(destination, t.unit, Decode(source, t.next, end));
      var ch := source[i];
      if ch == PLUS {
        destination := destination + [SPACE];
      } else if ch == PERCENT {
        var nextI := i + 1;
        var nextNextI := nextI;
        var isTriple := false;
        if nextI != end {
          nextNextI := nextNextI + 1;
          isTriple := nextNextI != i && IsXDigit(At(source, nextI)) && IsXDigit(At(source, nextNextI));
        }
        if isTriple {
          LowerCaseValue(At(source, nextI));
          LowerCaseValue(At(source, nextNextI));
          var hi, lo := ToLower(At(source, nextI)), ToLower(At(source, nextNextI));
          var unit := (if ZERO <= hi <= ZERO + 9 then hi - ZERO else hi - LOWER_A + 10) * 16;
          unit := unit + if ZERO <= lo <= ZERO + 9 then lo - ZERO else lo - LOWER_A + 10;
          destination := destination + [unit];
          i := nextNextI;
        } else {
          destination := destination + [ch];
        }
      } else {
        destination := destination + [ch];
      }
      i := i + 1;
      if i > end {
        OverrunStays(destination);
        return Overrun;
      }
    }
    OneMoreEnd(destination);
    return Decoded(destination);
  }

  lemma NothingBefore(d: Decoding)
    ensures After([], d) == d
  {
  }

  lemma OverrunStays(text: seq<Unit>)
    ensures After(text, Overrun) == Overrun
  {
  }

  lemma OneMoreEnd(text: seq<Unit>)
    ensures After(text, Decoded([])) == Decoded(text)
  {
  }

  function ToLower(u: Unit): Unit {
    if IsUpper(u) then u + (LOWER_A - UPPER_A) else u
  }

  // ---------------------------------------------------------------- the round trip

  lemma {:induction false} EncodingIsWellFormed(s: seq<Unit>)
    requires IsByteText(s)
    ensures IsEncoding(Encoded(s))
  {
    if s != [] {
      EncodingIsWellFormed(s[1..]);
      var e := EncodedUnit(s[0]);
      assert Encoded(s)[|e|..] == Encoded(s[1..]);
    }
  }

  lemma UnitIsReadBack(source: seq<Unit>, i: nat, end: nat, u: Unit)
    requires u < 0x100 && i + |EncodedUnit(u)| <= end <= |source|
    requires forall k :: 0 <= k < |EncodedUnit(u)| ==> source[i + k] == EncodedUnit(u)[k]
    ensures TurnAt(source, i, end) == Turn(u, i + |EncodedUnit(u)|)
  {
    var e := EncodedUnit(u);
    assert source[i + 0] == e[0];
    if |e| == 3 {
      assert source[i + 1] == e[1] && source[i + 2] == e[2];
    }
  }

  /** Decoding the place of an encoded text in any larger text gives the text back, and stays inside that place. */
  lemma {:induction false} RoundTripInPlace(before: seq<Unit>, s: seq<Unit>, after: seq<Unit>)
    requires IsByteText(s)
    ensures Decode(before + Encoded(s) + after, |before|, |before| + |Encoded(s)|) == Decoded(s)
    decreases |s|
  {
    hide TurnAt, EncodedUnit;
    var whole := before + Encoded(s) + after;
    if s != [] {
      var e := EncodedUnit(s[0]);
      assert before + e + Encoded(s[1..]) + after == whole;
      RoundTripInPlace(before + e, s[1..], after);
      assert e != [] by { EncodedIsNotEmpty(s[0]); }
      forall k | 0 <= k < |e|
        ensures whole[|before| + k] == e[k]
      {
      }
      UnitIsReadBack(whole, |before|, |before| + |Encoded(s)|, s[0]);
    }
  }

  lemma EncodedIsNotEmpty(u: Unit)
    requires u < 0x100
    ensures EncodedUnit(u) != []
  {
  }

  /** DecodeUrl(EncodeUrl(s)) == s for every text of units below 256. */
  lemma RoundTrip(s: seq<Unit>)
    requires IsByteText(s)
    ensures Decode(Encoded(s), 0, |Encoded(s)|) == Decoded(s)
  {
    RoundTripInPlace([], s, []);
    assert [] + Encoded(s) + [] == Encoded(s);
  }

  // ---------------------------------------------------------------- what texts mean

  /** A hexadecimal digit of this value, in either case. */
  predicate Digit(u: Unit, n: int) {
    0 <= n < 16 && (UPPER_DIGITS[n] == u || LOWER_DIGITS[n] == u)
  }

  lemma DigitValue(u: Unit, n: int)
    ensures Digit(u, n) <==> IsXDigit(u) && HexValue(u) == n
  {
  }

  predicate StartsTriple(text: seq<Unit>) {
    && |text| >= 3 && text[0] == PERCENT
    && (exists n | 0 <= n < 16 :: Digit(text[1], n)) && (exists n | 0 <= n < 16 :: Digit(text[2], n))
  }

  /** The text spells these units: '+' is a space, a triple the unit of its value, anything else itself. */
  predicate Spells(text: seq<Unit>, s: seq<Unit>)
    decreases |text|
  {
    if text == [] then s == []
    else if s == [] then false
    else if text[0] == PLUS then s[0] == SPACE && Spells(text[1..], s[1..])
    else if StartsTriple(text) then Digit(text[1], s[0] / 16) && Digit(text[2], s[0] % 16) && Spells(text[3..], s[1..])
    else s[0] == text[0] && Spells(text[1..], s[1..])
  }

  lemma TripleIsSeen(source: seq<Unit>, i: nat)
    requires i < |source| && source[i] == PERCENT
    ensures IsTriple(source, i, |source|) <==> StartsTriple(source[i..])
  {
    hide Digit, HexValue, IsXDigit;
    forall u: Unit
      ensures IsXDigit(u) <==> exists n | 0 <= n < 16 :: Digit(u, n)
    {
      DigitValue(u, HexValue(u));
      LowerCaseValueIf(u);
      if n :| 0 <= n < 16 && Digit(u, n) {
        DigitValue(u, n);
      }
    }
    assert !IsXDigit(0) by { ZeroIsNoDigit(); }
  }

  lemma ZeroIsNoDigit()
    ensures !IsXDigit(0)
  {
  }

  lemma LowerCaseValueIf(u: Unit)
    ensures IsXDigit(u) ==> 0 <= HexValue(u) < 16
  {
  }

  /** DecodeUrl reads every whole text, well formed or not, as what it spells, and as nothing else. */
  lemma {:induction false} DecodesWhatIsSpelled(source: seq<Unit>, i: nat, s: seq<Unit>)
    requires i <= |source|
    ensures Decode(source, i, |source|) == Decoded(s) <==> Spells(source[i..], s)
    decreases |source| - i
  {
    WholeStringsStayInside(source, i);
    if i < |source| {
      var t := TurnAt(source, i, |source|);
      if source[i] == PERCENT {
        TripleIsSeen(source, i);
      }
      assert t.next <= |source|;
      WholeStringsStayInside(source, t.next);
      assert source[i..][t.next - i..] == source[t.next..];
      if s != [] {
        DecodesWhatIsSpelled(source, t.next, s[1..]);
        assert s == [s[0]] + s[1..];
        if source[i] == PERCENT && IsTriple(source, i, |source|) {
          TripleValue(source[i + 1], source[i + 2], s[0]);
        }
      }
    }
  }

  lemma TripleValue(high: Unit, low: Unit, u: Unit)
    requires IsXDigit(high) && IsXDigit(low)
    ensures u == HexValue(high) * 16 + HexValue(low) <==> Digit(high, u / 16) && Digit(low, u % 16)
  {
    hide Digit;
    DigitValue(high, u / 16);
    DigitValue(low, u % 16);
    LowerCaseValueIf(high);
    LowerCaseValueIf(low);
  }

  /** A part of a string that ends with '%' and one digit, right before another digit. */
  predicate CutsTriple(source: seq<Unit>, begin: nat, end: nat)
    requires begin <= end <= |source|
  {
    end - begin >= 2 && source[end - 2] == PERCENT && IsXDigit(source[end - 1]) && IsXDigit(At(source, end))
  }

  /** The loop passes the end of its part exactly when that cuts a triple after its first digit. */
  lemma {:induction false} OverrunsAtCutTriple(source: seq<Unit>, begin: nat, end: nat)
    requires begin <= end <= |source|
    ensures Decode(source, begin, end) == Overrun <==> CutsTriple(source, begin, end)
    decreases end - begin
  {
    if begin < end {
      var next := TurnAt(source, begin, end).next;
      if next <= end {
        OverrunsAtCutTriple(source, next, end);
      }
    }
  }

  /** The first two units of "%41", decoded as a part. */
  lemma OverrunsInTheMiddle()
    ensures Decode([PERCENT, ZERO + 4, ZERO + 1], 0, 2) == Overrun
  {
    OverrunsAtCutTriple([PERCENT, ZERO + 4, ZERO + 1], 0, 2);
  }

  /** A whole string never does: its end reads as zero. */
  lemma WholeStringsStayInside(source: seq<Unit>, begin: nat)
    requires begin <= |source|
    ensures Decode(source, begin, |source|).Decoded?
  {
    OverrunsAtCutTriple(source, begin, |source|);
  }

  // ---------------------------------------------------------------- the only encoding

  lemma UpperTriple(text: seq<Unit>, u: Unit)
    requires |text| >= 3 && text[0] == PERCENT && text[1] in UPPER_DIGITS && text[2] in UPPER_DIGITS
    requires Digit(text[1], u / 16) && Digit(text[2], u % 16)
    ensures u < 0x100 && text[..3] == [PERCENT, HexChar(u / 16), HexChar(u % 16)]
  {
    DigitValue(text[1], u / 16);
    DigitValue(text[2], u % 16);
    DigitValue(HexChar(u / 16), u / 16);
    DigitValue(HexChar(u % 16), u % 16);
  }

  lemma UpperStarts(text: seq<Unit>)
    requires |text| >= 3 && text[0] == PERCENT && text[1] in UPPER_DIGITS && text[2] in UPPER_DIGITS
    ensures StartsTriple(text)
  {
    var n, m :| 0 <= n < 16 && 0 <= m < 16 && UPPER_DIGITS[n] == text[1] && UPPER_DIGITS[m] == text[2];
    assert Digit(text[1], n) && Digit(text[2], m);
  }

  /** Of all encodings that spell a text EncodeUrl gives the shortest, which is the only one of its length. */
  lemma {:induction false} EncodesShortest(s: seq<Unit>, text: seq<Unit>)
    requires IsByteText(s) && IsEncoding(text) && Spells(text, s)
    ensures |Encoded(s)| <= |text|
    ensures |Encoded(s)| == |text| <==> text == Encoded(s)
    decreases |s|
  {
    hide StartsTriple, Digit;
    if text != [] {
      if IsPlain(text[0]) || text[0] == PLUS {
        assert !StartsTriple(text) by { NoTriple(text); }
        EncodesShortest(s[1..], text[1..]);
        assert text == [text[0]] + text[1..];
      } else {
        UpperStarts(text);
        UpperTriple(text, s[0]);
        EncodesShortest(s[1..], text[3..]);
        assert text == text[..3] + text[3..];
      }
    }
  }

  lemma NoTriple(text: seq<Unit>)
    requires text != [] && text[0] != PERCENT
    ensures !StartsTriple(text)
  {
  }

  /** It is an encoding that spells the text. */
  lemma EncodingSpells(s: seq<Unit>)
    requires IsByteText(s)
    ensures IsEncoding(Encoded(s)) && Spells(Encoded(s), s)
  {
    EncodingIsWellFormed(s);
    RoundTrip(s);
    DecodesWhatIsSpelled(Encoded(s), 0, s);
    assert Encoded(s)[0..] == Encoded(s);
  }
}
