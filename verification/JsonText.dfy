/**
  Text as UTF-16 code units, and the tokens of JSON in it: white space, strings and numbers
  (client-typescript/src/json.ts, client-typescript/src/jcs.ts, client-rust/src/json.rs).
 */
module JsonText {

  import opened Basics

  type Unit = x: nat | x < 0x10000

  type Text = seq<Unit>

  const QUOTE: Unit := 0x22
  const BACKSLASH: Unit := 0x5c
  const LOWER_U: Unit := 0x75

  // ---- White space ----

  predicate IsWhite(c: Unit) { c == 0x20 || c == 0x0a || c == 0x0d || c == 0x09 }

  function SkipWhite(rest: Text): (r: Text)
    ensures |r| <= |rest| && (r != [] ==> !IsWhite(r[0]))
  {
    if rest != [] && IsWhite(rest[0]) then SkipWhite(rest[1..]) else rest
  }

  // ---- Strings ----

  predicate IsHigh(c: Unit) { 0xd800 <= c <= 0xdbff }
  predicate IsLow(c: Unit) { 0xdc00 <= c <= 0xdfff }

  /** A surrogate without its pair. */
  predicate IsLone(s: Text, i: nat)
    requires i < |s|
  {
    || (IsHigh(s[i]) && !(i + 1 < |s| && IsLow(s[i + 1])))
    || (IsLow(s[i]) && !(i > 0 && IsHigh(s[i - 1])))
  }

  predicate HasLoneSurrogate(s: Text) { exists i | 0 <= i < |s| :: IsLone(s, i) }

  function HexDigit(c: Unit): Option<nat> {
    if 0x30 <= c <= 0x39 then Some(c - 0x30)
    else if 0x61 <= c <= 0x66 then Some(c - 0x61 + 10)
    else if 0x41 <= c <= 0x46 then Some(c - 0x41 + 10)
    else None
  }

  function Hex4(s: Text): Option<Unit>
    requires |s| == 4
  {
    var a, b, c, d := HexDigit(s[0]), HexDigit(s[1]), HexDigit(s[2]), HexDigit(s[3]);
    if a.None? || b.None? || c.None? || d.None? then None
    else
      var n := ((a.value * 16 + b.value) * 16 + c.value) * 16 + d.value;
      if n < 0x10000 then Some(n) else None
  }

  /** What a backslash and the unit after it stand for, `\u` apart. */
  function Unescape(e: Unit): Option<Unit> {
    if e == QUOTE || e == BACKSLASH || e == 0x2f then Some(e)
    else if e == 0x62 then Some(0x08)
    else if e == 0x66 then Some(0x0c)
    else if e == 0x6e then Some(0x0a)
    else if e == 0x72 then Some(0x0d)
    else if e == 0x74 then Some(0x09)
    else None
  }

  datatype Read = Read(text: Text, rest: Text)

  function Prepend(c: Unit, r: Option<Read>): Option<Read> {
    if r.None? then None else Some(Read([c] + r.value.text, r.value.rest))
  }

  /** The rest of a string literal after its opening quote: what it says, and what follows its closing quote. */
  function ScanString(rest: Text): (r: Option<Read>)
    ensures r.Some? ==> |r.value.rest| < |rest|
  {
    if rest == [] || rest[0] < 0x20 then None
    else if rest[0] == QUOTE then Some(Read([], rest[1..]))
    else if rest[0] != BACKSLASH then Prepend(rest[0], ScanString(rest[1..]))
    else if |rest| < 2 then None
    else if rest[1] == LOWER_U then
      if |rest| < 6 || Hex4(rest[2..6]).None? then None
      else Prepend(Hex4(rest[2..6]).value, ScanString(rest[6..]))
    else if Unescape(rest[1]).None? then None
    else Prepend(Unescape(rest[1]).value, ScanString(rest[2..]))
  }

  /** A whole string literal. */
  function ReadString(rest: Text): (r: Option<Read>)
    ensures r.Some? ==> |r.value.rest| < |rest| && !HasLoneSurrogate(r.value.text)
  {
    if rest == [] || rest[0] != QUOTE then None
    else
      var r := ScanString(rest[1..]);
      if r.None? || HasLoneSurrogate(r.value.text) then None else r
  }

  function HexLower(n: nat): Unit
    requires n < 16
  {
    if n < 10 then 0x30 + n else 0x61 + n - 10
  }

  /** One unit as JSON.stringify writes it. */
  function Escape(c: Unit): Text {
    if c == QUOTE then [BACKSLASH, QUOTE]
    else if c == BACKSLASH then [BACKSLASH, BACKSLASH]
    else if c == 0x08 then [BACKSLASH, 0x62]
    else if c == 0x09 then [BACKSLASH, 0x74]
    else if c == 0x0a then [BACKSLASH, 0x6e]
    else if c == 0x0c then [BACKSLASH, 0x66]
    else if c == 0x0d then [BACKSLASH, 0x72]
    else if c < 0x20 then [BACKSLASH, LOWER_U, 0x30, 0x30, HexLower(c / 16), HexLower(c % 16)]
    else [c]
  }

  function EscapeAll(s: Text): Text { if s == [] then [] else Escape(s[0]) + EscapeAll(s[1..]) }

  function PrintString(s: Text): Text { [QUOTE] + EscapeAll(s) + [QUOTE] }

  lemma HexBack(c: Unit)
    requires c < 0x20
    ensures Hex4([0x30, 0x30, HexLower(c / 16), HexLower(c % 16)]) == Some(c)
  {
    assert HexDigit(HexLower(c / 16)) == Some(c / 16) && HexDigit(HexLower(c % 16)) == Some(c % 16);
  }

  lemma PlainReads(c: Unit, more: Text)
    requires c >= 0x20 && c != QUOTE && c != BACKSLASH
    ensures ScanString([c] + more) == Prepend(c, ScanString(more))
  {
    assert ([c] + more)[1..] == more;
  }

  lemma ShortReads(e: Unit, c: Unit, more: Text)
    requires e != LOWER_U && Unescape(e) == Some(c)
    ensures ScanString([BACKSLASH, e] + more) == Prepend(c, ScanString(more))
  {
    hide Unescape, Hex4;
    assert ([BACKSLASH, e] + more)[2..] == more;
  }

  lemma LongReads(h: Text, c: Unit, more: Text)
    requires |h| == 4 && Hex4(h) == Some(c)
    ensures ScanString([BACKSLASH, LOWER_U] + h + more) == Prepend(c, ScanString(more))
  {
    hide Unescape, Hex4;
    var t := [BACKSLASH, LOWER_U] + h + more;
    assert t[2..6] == h && t[6..] == more;
  }

  /** A unit written reads back, whatever follows. */
  lemma EscapeReads(c: Unit, more: Text)
    ensures ScanString(Escape(c) + more) == Prepend(c, ScanString(more))
  {
    hide ScanString, Hex4;
    if |Escape(c)| == 6 {
      var h := [0x30, 0x30, HexLower(c / 16), HexLower(c % 16)];
      HexBack(c);
      LongReads(h, c, more);
      assert Escape(c) == [BACKSLASH, LOWER_U] + h;
    } else if |Escape(c)| == 2 {
      ShortReads(Escape(c)[1], c, more);
    } else {
      PlainReads(c, more);
    }
  }

  lemma {:induction false} StringScans(s: Text, tail: Text)
    ensures ScanString(EscapeAll(s) + [QUOTE] + tail) == Some(Read(s, tail))
  {
    if s == [] {
      assert EscapeAll(s) + [QUOTE] + tail == [QUOTE] + tail;
      assert ([QUOTE] + tail)[1..] == tail;
    } else {
      var more := EscapeAll(s[1..]) + [QUOTE] + tail;
      assert EscapeAll(s) + [QUOTE] + tail == Escape(s[0]) + more;
      EscapeReads(s[0], more);
      StringScans(s[1..], tail);
      assert [s[0]] + s[1..] == s;
    }
  }

  /** A printed string reads back, unless it holds a lone surrogate. */
  lemma StringRoundTrip(s: Text, tail: Text)
    ensures ReadString(PrintString(s) + tail) == if HasLoneSurrogate(s) then None else Some(Read(s, tail))
  {
    hide ScanString, EscapeAll, HasLoneSurrogate;
    StringScans(s, tail);
    assert (PrintString(s) + tail)[1..] == EscapeAll(s) + [QUOTE] + tail;
  }

  // ---- Numbers ----

  predicate IsDigit(c: Unit) { 0x30 <= c <= 0x39 }

  function Digits(rest: Text): (n: nat)
    ensures n <= |rest| && (forall i | 0 <= i < n :: IsDigit(rest[i])) && (n < |rest| ==> !IsDigit(rest[n]))
  {
    if rest != [] && IsDigit(rest[0]) then 1 + Digits(rest[1..]) else 0
  }

  /** A fraction, if one begins here: a point and at least one digit. */
  function Fraction(rest: Text): (n: nat)
    ensures n <= |rest|
  {
    if rest != [] && rest[0] == 0x2e && Digits(rest[1..]) > 0 then 1 + Digits(rest[1..]) else 0
  }

  /** An exponent, if one begins here. */
  function Exponent(rest: Text): (n: nat)
    ensures n <= |rest|
  {
    if rest == [] || (rest[0] != 0x65 && rest[0] != 0x45) then 0
    else if |rest| > 1 && (rest[1] == 0x2b || rest[1] == 0x2d) then
      if Digits(rest[2..]) > 0 then 2 + Digits(rest[2..]) else 0
    else if Digits(rest[1..]) > 0 then 1 + Digits(rest[1..]) else 0
  }

  /** A sign and an integer without leading zeros, if one begins here. */
  function Whole(rest: Text): (n: nat)
    ensures n <= |rest|
  {
    var sign := if rest != [] && rest[0] == 0x2d then 1 else 0;
    if sign == |rest| || !IsDigit(rest[sign]) then 0
    else sign + if rest[sign] == 0x30 then 1 else Digits(rest[sign..])
  }

  /** The length of the number that begins here, or 0. */
  function NumberLength(rest: Text): (n: nat)
    ensures n <= |rest|
  {
    var whole := Whole(rest);
    if whole == 0 then 0
    else
      var frac := whole + Fraction(rest[whole..]);
      frac + Exponent(rest[frac..])
  }

  /** A text that is one number, whole. */
  predicate IsNumber(s: Text) { s != [] && NumberLength(s) == |s| }

  /** What cannot go on a number. */
  predicate Ends(tail: Text) {
    tail == [] || !(IsDigit(tail[0]) || tail[0] == 0x2e || tail[0] == 0x65 || tail[0] == 0x45 || tail[0] == 0x2b || tail[0] == 0x2d)
  }

  lemma {:induction false} DigitsThen(s: Text, tail: Text)
    requires Ends(tail)
    ensures Digits(s + tail) == Digits(s)
  {
    if s == [] {
      assert s + tail == tail;
    } else {
      assert (s + tail)[1..] == s[1..] + tail;
      DigitsThen(s[1..], tail);
    }
  }

  lemma FractionThen(s: Text, tail: Text)
    requires Ends(tail)
    ensures Fraction(s + tail) == Fraction(s)
  {
    if s == [] {
      assert s + tail == tail;
    } else {
      assert (s + tail)[1..] == s[1..] + tail;
      DigitsThen(s[1..], tail);
    }
  }

  lemma ExponentThen(s: Text, tail: Text)
    requires Ends(tail)
    ensures Exponent(s + tail) == Exponent(s)
  {
    hide Digits;
    if s == [] {
      assert s + tail == tail;
    } else {
      assert (s + tail)[1..] == s[1..] + tail;
      DigitsThen(s[1..], tail);
      if |s| > 1 {
        assert (s + tail)[2..] == s[2..] + tail;
        DigitsThen(s[2..], tail);
      }
    }
  }

  lemma WholeThen(s: Text, tail: Text)
    requires Whole(s) > 0 && Ends(tail)
    ensures Whole(s + tail) == Whole(s)
  {
    hide Digits;
    var sign := if s[0] == 0x2d then 1 else 0;
    assert (s + tail)[sign..] == s[sign..] + tail;
    DigitsThen(s[sign..], tail);
  }

  /** A number is read to its end, and no further. */
  lemma NumberThen(s: Text, tail: Text)
    requires IsNumber(s) && Ends(tail)
    ensures NumberLength(s + tail) == |s|
  {
    hide Whole, Fraction, Exponent;
    var t, whole := s + tail, Whole(s);
    WholeThen(s, tail);
    assert t[whole..] == s[whole..] + tail;
    FractionThen(s[whole..], tail);
    var frac := whole + Fraction(s[whole..]);
    assert t[frac..] == s[frac..] + tail;
    ExponentThen(s[frac..], tail);
  }

  // ---- A number found is a number ----

  lemma {:induction false} DigitsOwn(rest: Text, n: nat)
    requires Digits(rest) <= n <= |rest|
    ensures Digits(rest[..n]) == Digits(rest)
  {
    if rest != [] && IsDigit(rest[0]) {
      DigitsOwn(rest[1..], n - 1);
      assert rest[..n][1..] == rest[1..][..n - 1];
    }
  }

  lemma FractionOwn(rest: Text, n: nat)
    requires Fraction(rest) <= n <= |rest| && (Fraction(rest) == 0 ==> n == 0 || rest[0] != 0x2e)
    ensures Fraction(rest[..n]) == Fraction(rest)
  {
    hide Digits;
    if Fraction(rest) > 0 {
      DigitsOwn(rest[1..], n - 1);
      assert rest[..n][1..] == rest[1..][..n - 1];
    }
  }

  lemma ExponentOwn(rest: Text)
    ensures Exponent(rest[..Exponent(rest)]) == Exponent(rest)
  {
    hide Digits;
    var n := Exponent(rest);
    if n > 0 {
      var k := if |rest| > 1 && (rest[1] == 0x2b || rest[1] == 0x2d) then 2 else 1;
      DigitsOwn(rest[k..], n - k);
      assert rest[..n][k..] == rest[k..][..n - k];
    }
  }

  lemma WholeOwn(rest: Text, n: nat)
    requires 0 < Whole(rest) <= n <= |rest|
    ensures Whole(rest[..n]) == Whole(rest)
  {
    hide Digits;
    var sign := if rest[0] == 0x2d then 1 else 0;
    assert rest[..n][sign..] == rest[sign..][..n - sign];
    if rest[sign] != 0x30 {
      DigitsOwn(rest[sign..], n - sign);
    }
  }

  lemma NumberOwn(rest: Text)
    requires NumberLength(rest) > 0
    ensures IsNumber(rest[..NumberLength(rest)])
  {
    hide Whole, Fraction, Exponent;
    var n, whole := NumberLength(rest), Whole(rest);
    var s, frac := rest[..n], whole + Fraction(rest[whole..]);
    WholeOwn(rest, n);
    assert s[whole..] == rest[whole..][..n - whole];
    NoPointLeft(rest, whole, n);
    FractionOwn(rest[whole..], n - whole);
    assert s[frac..] == rest[frac..][..n - frac];
    ExponentOwn(rest[frac..]);
  }

  /** Where no fraction begins, what is read on from there is an exponent or nothing. */
  lemma NoPointLeft(rest: Text, whole: nat, n: nat)
    requires whole <= n <= |rest| && n == whole + Fraction(rest[whole..]) + Exponent(rest[whole + Fraction(rest[whole..])..])
    ensures Fraction(rest[whole..]) == 0 ==> n == whole || rest[whole..][0] != 0x2e
  {
    hide Digits;
  }
}
