/**
  Every number as it is laid out is one whole number of the JSON grammar, so a print whose numbers are laid out so
  can be read (client-rust/src/json.rs).
 */
module NumberGrammar {

  import opened Basics
  import opened JsonText
  import opened Json
  import JsonRoundTrip
  import Layouts = NumberLayout

  /** A text of the layout as code units. */
  function Units(s: string): (t: Text)
    ensures |t| == |s|
  {
    seq(|s|, i requires 0 <= i < |s| => UnitOf(s[i]))
  }

  function UnitOf(c: char): Unit { if c as int < 0x10000 then c as int else 0 }

  /** What write_number writes of a number that is not zero. */
  function Spelled(negative: bool, d: string, n: int): Text
    requires d != []
  {
    Units((if negative then ['-'] else []) + Layouts.Layout(d, n))
  }

  // ---- The parts of a number ----

  predicate AllDigits(s: Text) { forall i | 0 <= i < |s| :: IsDigit(s[i]) }

  predicate NoDigit(tail: Text) { tail == [] || !IsDigit(tail[0]) }

  predicate IsWhole(w: Text) { w != [] && AllDigits(w) && (w[0] == 0x30 ==> |w| == 1) }

  predicate IsFraction(f: Text) { f == [] || (f[0] == 0x2e && |f| > 1 && AllDigits(f[1..])) }

  predicate IsExponent(x: Text) {
    || x == []
    || (x[0] == 0x65 && |x| > 1 && AllDigits(x[1..]))
    || (x[0] == 0x65 && |x| > 2 && (x[1] == 0x2b || x[1] == 0x2d) && AllDigits(x[2..]))
  }

  lemma {:induction false} DigitsUpTo(s: Text, tail: Text)
    requires AllDigits(s) && NoDigit(tail)
    ensures Digits(s + tail) == |s|
  {
    if s == [] {
      assert s + tail == tail;
    } else {
      assert (s + tail)[1..] == s[1..] + tail;
      DigitsUpTo(s[1..], tail);
    }
  }

  lemma WholeIs(sign: Text, w: Text, tail: Text)
    requires (sign == [] || sign == [0x2d]) && IsWhole(w) && NoDigit(tail)
    ensures Whole(sign + w + tail) == |sign + w|
  {
    hide Digits;
    var t := sign + w + tail;
    assert t[|sign|..] == w + tail;
    DigitsUpTo(w, tail);
  }

  lemma FractionIs(f: Text, tail: Text)
    requires IsFraction(f) && NoDigit(tail) && (tail != [] ==> tail[0] != 0x2e)
    ensures Fraction(f + tail) == |f|
  {
    hide Digits;
    if f == [] {
      assert f + tail == tail;
    } else {
      assert (f + tail)[1..] == f[1..] + tail;
      DigitsUpTo(f[1..], tail);
    }
  }

  lemma ExponentIs(x: Text)
    requires IsExponent(x)
    ensures Exponent(x) == |x|
  {
    hide Digits;
    if x != [] {
      var k := if x[1] == 0x2b || x[1] == 0x2d then 2 else 1;
      DigitsUpTo(x[k..], []);
      assert x[k..] + [] == x[k..];
    }
  }

  /** A sign, a whole part, a fraction and an exponent are one number. */
  lemma PartsAreNumber(sign: Text, w: Text, f: Text, x: Text)
    requires (sign == [] || sign == [0x2d]) && IsWhole(w) && IsFraction(f) && IsExponent(x)
    ensures IsNumber(sign + w + f + x)
  {
    hide Whole, Fraction, Exponent, AllDigits;
    var t, k := sign + w + f + x, |sign + w|;
    assert t == sign + w + (f + x);
    WholeIs(sign, w, f + x);
    assert t[k..] == f + x;
    FractionIs(f, x);
    assert t[k + |f|..] == x;
    ExponentIs(x);
  }

  // ---- The layouts ----

  lemma UnitsAppend(a: string, b: string)
    ensures Units(a + b) == Units(a) + Units(b)
  {}

  lemma UnitDigits(s: string)
    requires Layouts.AllDigits(s)
    ensures AllDigits(Units(s)) && (s != [] && s[0] != '0' ==> Units(s)[0] != 0x30)
  {}

  lemma FourParts(a: string, b: string, c: string, d: string)
    ensures Units(a + b + c + d) == Units(a) + Units(b) + Units(c) + Units(d)
  {
    hide Units;
    UnitsAppend(a + b + c, d);
    UnitsAppend(a + b, c);
    UnitsAppend(a, b);
  }

  /** A layout is a whole part, a fraction and an exponent. */
  lemma LayoutParts(d: string, n: int) returns (w: string, f: string, x: string)
    requires Layouts.Significant(d)
    ensures Layouts.Layout(d, n) == w + f + x
    ensures IsWhole(Units(w)) && IsFraction(Units(f)) && IsExponent(Units(x))
  {
    hide Units, IsWhole, IsFraction, IsExponent, Layouts.Zeros, Layouts.Signed;
    NothingMore();
    if |d| <= n <= 21 {
      w, f, x := d + Layouts.Zeros(n - |d|), [], [];
      WholeUnits(w);
      assert w + f + x == w;
    } else if 0 < n <= 21 {
      w, f, x := d[..n], ['.'] + d[n..], [];
      WholeUnits(w);
      PointDigits(d[n..]);
      assert w + f + x == d[..n] + ['.'] + d[n..];
    } else if -6 < n <= 0 {
      var ds := Layouts.Zeros(-n) + d;
      w, f, x := ['0'], ['.'] + ds, [];
      WholeUnits(w);
      PointDigits(ds);
      assert w + f + x == ['0', '.'] + Layouts.Zeros(-n) + d;
    } else {
      w, f := d[..1], if |d| == 1 then [] else ['.'] + d[1..];
      WholeUnits(w);
      PointDigits(d[1..]);
      x := ['e'] + (if n > 0 then ['+'] else []) + Layouts.Signed(n - 1);
      ExponentUnits(n);
      assert w + f + x == w + f + ['e'] + (if n > 0 then ['+'] else []) + Layouts.Signed(n - 1);
    }
  }

  lemma WholeUnits(w: string)
    requires w != [] && Layouts.AllDigits(w) && (w[0] == '0' ==> |w| == 1)
    ensures IsWhole(Units(w))
  {
    UnitDigits(w);
  }

  lemma NothingMore()
    ensures IsFraction(Units([])) && IsExponent(Units([]))
  {}

  lemma PointDigits(ds: string)
    requires Layouts.AllDigits(ds)
    ensures ds != [] ==> IsFraction(Units(['.'] + ds))
  {
    UnitDigits(ds);
    assert Units(['.'] + ds)[1..] == Units(ds);
  }

  lemma ExponentUnits(n: int)
    requires n > 21 || n <= -6
    ensures IsExponent(Units(['e'] + (if n > 0 then ['+'] else []) + Layouts.Signed(n - 1)))
  {
    hide Layouts.Decimal;
    var ds := Layouts.Decimal(if n > 0 then n - 1 else 1 - n);
    var sign := if n > 0 then '+' else '-';
    var x := ['e'] + (if n > 0 then ['+'] else []) + Layouts.Signed(n - 1);
    assert x == ['e', sign] + ds;
    UnitDigits(ds);
    assert Units(x)[2..] == Units(ds);
  }

  /** Every number laid out is one whole number, however many digits it has and wherever its point is. */
  lemma LayoutIsNumber(negative: bool, d: string, n: int)
    requires Layouts.Significant(d)
    ensures IsNumber(Spelled(negative, d, n))
  {
    hide Layouts.Layout, IsNumber, Units;
    var w, f, x := LayoutParts(d, n);
    var sign := if negative then ['-'] else [];
    assert sign + Layouts.Layout(d, n) == sign + w + f + x;
    FourParts(sign, w, f, x);
    SignUnits();
    PartsAreNumber(Units(sign), Units(w), Units(f), Units(x));
  }

  lemma SignUnits()
    ensures Units(['-']) == [0x2d] && Units([]) == []
  {}

  // ---- Prints of laid-out numbers ----

  ghost predicate Written(lexeme: Text) {
    lexeme == [0x30] || exists negative, d, n :: Layouts.Significant(d) && lexeme == Spelled(negative, d, n)
  }

  /** Every number of the tree is laid out. */
  ghost predicate LaidOut(v: Json) {
    match v
    case Number(lexeme) => Written(lexeme)
    case Arr(items) => forall i | 0 <= i < |items| :: LaidOut(items[i])
    case Obj(ms) => forall i | 0 <= i < |ms| :: LaidOut(ms[i].value)
    case _ => true
  }

  lemma {:induction false} LaidOutNumbers(v: Json)
    requires LaidOut(v)
    ensures NumbersOk(v)
  {
    match v
    case Number(lexeme) => WrittenIsNumber(lexeme);
    case Arr(items) =>
      forall i | 0 <= i < |items| ensures NumbersOk(items[i]) {
        LaidOutNumbers(items[i]);
      }
    case Obj(ms) =>
      forall i | 0 <= i < |ms| ensures NumbersOk(ms[i].value) {
        LaidOutNumbers(ms[i].value);
      }
    case _ =>
  }

  lemma WrittenIsNumber(lexeme: Text)
    requires Written(lexeme)
    ensures IsNumber(lexeme)
  {
    if lexeme != [0x30] {
      var negative, d, n :| Layouts.Significant(d) && lexeme == Spelled(negative, d, n);
      LayoutIsNumber(negative, d, n);
    }
  }

  /** The parser reads a canonical print with laid-out numbers exactly when the tree is acceptable. */
  lemma LaidOutReads(v: Json, finite: Text -> bool)
    requires LaidOut(v)
    ensures Parse(Print(v, true), finite) == if Acceptable(v, 0, finite) then Ok(Norm(v, true)) else Err
  {
    hide Start, Print, Acceptable, Norm, NumbersOk;
    LaidOutNumbers(v);
    JsonRoundTrip.RoundTrip(v, true, finite);
  }
}
