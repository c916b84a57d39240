/**
  How a number is laid out as ECMAScript writes it, and how its digits and exponent are read back
  (client-rust/src/json.rs; RFC 8785 section 3.2.2.3). Its shortest digits are taken as given: the value is
  0.digits x 10^n.
 */
module NumberLayout {

  import opened Basics

  predicate IsDigit(c: char) { '0' <= c <= '9' }

  predicate AllDigits(s: string) { forall i | 0 <= i < |s| :: IsDigit(s[i]) }

  /** Digits without leading or trailing zeros. */
  predicate Significant(d: string) { d != [] && AllDigits(d) && d[0] != '0' && d[|d| - 1] != '0' }

  function Zeros(k: nat): (z: string)
    ensures |z| == k && forall i | 0 <= i < k :: z[i] == '0'
  {
    if k == 0 then [] else Zeros(k - 1) + ['0']
  }

  function DigitOf(v: nat): char
    requires v < 10
  {
    '0' + v as char
  }

  /** A whole number in decimal. */
  function Decimal(v: nat): (s: string)
    ensures s != [] && AllDigits(s)
  {
    if v < 10 then [DigitOf(v)] else Decimal(v / 10) + [DigitOf(v % 10)]
  }

  function Signed(e: int): string { if e < 0 then ['-'] + Decimal(-e) else Decimal(e) }

  /** The four layouts of write_number. */
  function Layout(d: string, n: int): string
    requires d != []
  {
    if |d| <= n <= 21 then d + Zeros(n - |d|)
    else if 0 < n <= 21 then d[..n] + ['.'] + d[n..]
    else if -6 < n <= 0 then ['0', '.'] + Zeros(-n) + d
    else d[..1] + (if |d| == 1 then [] else ['.'] + d[1..]) + ['e'] + (if n > 0 then ['+'] else []) + Signed(n - 1)
  }

  method WriteZeros(out: string, k: nat) returns (r: string)
    ensures r == out + Zeros(k)
  {
    r := out;
    for i := 0 to k
      invariant r == out + Zeros(i)
    {
      r := r + ['0'];
    }
  }

  method WriteNumber(out: string, d: string, n: int) returns (r: string)
    requires d != []
    ensures r == out + Layout(d, n)
  {
    hide Zeros, Signed;
    var k := |d|;
    if k <= n && n <= 21 {
      r := WriteZeros(out + d, n - k);
      assert r == out + (d + Zeros(n - k));
    } else if 0 < n && n <= 21 {
      r := out + d[..n] + ['.'] + d[n..];
      assert r == out + (d[..n] + ['.'] + d[n..]);
    } else if -6 < n && n <= 0 {
      r := WriteZeros(out + ['0', '.'], -n);
      r := r + d;
      assert r == out + (['0', '.'] + Zeros(-n) + d);
    } else {
      r := WriteExponent(out, d, n);
    }
  }

  method WriteExponent(out: string, d: string, n: int) returns (r: string)
    requires d != [] && (n > 21 || n <= -6)
    ensures r == out + Layout(d, n)
  {
    hide Zeros, Signed;
    r := out + d[..1];
    if |d| > 1 {
      r := r + ['.'] + d[1..];
    }
    r := r + ['e'];
    ghost var so := d[..1] + (if |d| == 1 then [] else ['.'] + d[1..]) + ['e'];
    assert r == out + so;
    if n > 0 {
      r := r + ['+'];
    }
    ghost var more := so + (if n > 0 then ['+'] else []);
    assert r == out + more;
    r := r + Signed(n - 1);
    assert r == out + (more + Signed(n - 1));
  }

  lemma DigitsOnly(s: string)
    requires AllDigits(s)
    ensures 'e' !in s && '.' !in s && '+' !in s && '-' !in s
  {}

  lemma InBoth(c: char, a: string, b: string)
    ensures c in a + b <==> c in a || c in b
  {
    assert c in a ==> exists i | 0 <= i < |a| :: (a + b)[i] == c by {
      if c in a {
        var i :| 0 <= i < |a| && a[i] == c;
        assert (a + b)[i] == c;
      }
    }
    if c in b {
      var i :| 0 <= i < |b| && b[i] == c;
      assert (a + b)[|a| + i] == c;
    }
  }

  lemma SignedForm(e: int, c: char)
    requires c == 'e' || c == '.' || c == '+' || c == '-'
    ensures c in Signed(e) <==> c == '-' && e < 0
  {
    hide Decimal;
    DigitsOnly(Decimal(if e < 0 then -e else e));
    InBoth(c, ['-'], Decimal(if e < 0 then -e else e));
  }

  lemma ExponentForm(d: string, n: int, c: char)
    requires AllDigits(d) && d != [] && (n > 21 || n <= -6) && (c == 'e' || c == '.' || c == '+' || c == '-')
    ensures c in Layout(d, n) <==> c == 'e' || (c == '+' && n > 21) || (c == '-' && n <= -6) || (c == '.' && |d| > 1)
  {
    hide Signed;
    var point, plus := if |d| == 1 then [] else ['.'] + d[1..], if n > 0 then ['+'] else [];
    SignedForm(n - 1, c);
    DigitsOnly(d[..1]);
    DigitsOnly(d[1..]);
    InBoth(c, ['.'], d[1..]);
    InBoth(c, d[..1], point);
    InBoth(c, d[..1] + point, ['e']);
    InBoth(c, d[..1] + point + ['e'], plus);
    InBoth(c, d[..1] + point + ['e'] + plus, Signed(n - 1));
    assert Layout(d, n) == d[..1] + point + ['e'] + plus + Signed(n - 1);
    hide Layout, AllDigits;
  }

  lemma PlainForm(d: string, n: int, c: char)
    requires AllDigits(d) && d != [] && -6 < n <= 21 && (c == 'e' || c == '.' || c == '+' || c == '-')
    ensures c in Layout(d, n) <==> c == '.' && n < |d|
  {
    hide Zeros;
    DigitsOnly(d);
    if |d| <= n {
      DigitsOnly(Zeros(n - |d|));
      InBoth(c, d, Zeros(n - |d|));
    } else if 0 < n {
      DigitsOnly(d[..n]);
      DigitsOnly(d[n..]);
      InBoth(c, d[..n], ['.']);
      InBoth(c, d[..n] + ['.'], d[n..]);
    } else {
      DigitsOnly(Zeros(-n));
      InBoth(c, ['0', '.'], Zeros(-n));
      InBoth(c, ['0', '.'] + Zeros(-n), d);
    }
  }

  /**
    Which layout a number has: an exponent exactly when it is 1e21 or more, or less than 1e-6; a point exactly when a
    digit written stands behind it.
   */
  lemma LayoutForm(d: string, n: int)
    requires Significant(d)
    ensures 'e' in Layout(d, n) <==> n > 21 || n <= -6
    ensures '+' in Layout(d, n) <==> n > 21
    ensures '-' in Layout(d, n) <==> n <= -6
    ensures '.' in Layout(d, n) <==> if n > 21 || n <= -6 then |d| > 1 else n < |d|
  {
    hide Layout;
    if n > 21 || n <= -6 {
      ExponentForm(d, n, 'e');
      ExponentForm(d, n, '.');
      ExponentForm(d, n, '+');
      ExponentForm(d, n, '-');
    } else {
      PlainForm(d, n, 'e');
      PlainForm(d, n, '.');
      PlainForm(d, n, '+');
      PlainForm(d, n, '-');
    }
  }

  // ---- Reading back ----

  /** The place of the first `c`, or the end. */
  function Find(s: string, c: char): (i: nat)
    ensures i <= |s| && (forall j | 0 <= j < i :: s[j] != c) && (i < |s| ==> s[i] == c)
  {
    if s == [] || s[0] == c then 0 else 1 + Find(s[1..], c)
  }

  function Without(s: string, c: char): string {
    if s == [] then [] else (if s[0] == c then [] else [s[0]]) + Without(s[1..], c)
  }

  function LeadingZeros(s: string): (k: nat)
    ensures k <= |s| && (forall i | 0 <= i < k :: s[i] == '0') && (k < |s| ==> s[k] != '0')
  {
    if s == [] || s[0] != '0' then 0 else 1 + LeadingZeros(s[1..])
  }

  function TrimZeros(s: string): (r: string)
    ensures |r| <= |s| && r == s[..|r|] && (forall i | |r| <= i < |s| :: s[i] == '0') && (r != [] ==> r[|r| - 1] != '0')
  {
    if s == [] || s[|s| - 1] != '0' then s else TrimZeros(s[..|s| - 1])
  }

  function Int(s: string): nat
    requires AllDigits(s)
  {
    if s == [] then 0 else Int(s[..|s| - 1]) * 10 + (s[|s| - 1] - '0') as nat
  }

  /** A signed 32-bit integer as Rust parses it. */
  function ParseI32(s: string): Option<int> {
    var neg := s != [] && s[0] == '-';
    var ds := if s != [] && (s[0] == '-' || s[0] == '+') then s[1..] else s;
    if ds == [] || !AllDigits(ds) then None
    else
      var v: int := if neg then 0 - Int(ds) else Int(ds);
      if -0x8000_0000 <= v < 0x8000_0000 then Some(v) else None
  }

  datatype Parts = Parts(mant: string, exp: int)

  function SplitExp(s: string): Option<Parts> {
    var i := Find(s, 'e');
    if i == |s| then Some(Parts(s, 0))
    else
      var e := ParseI32(s[i + 1..]);
      if e.None? then None else Some(Parts(s[..i], e.value))
  }

  datatype Digits = Digits(digits: string, n: int)

  function RyuDigits(s: string): Option<Digits> {
    var p := SplitExp(s);
    if p.None? then None
    else
      var point, all := Find(p.value.mant, '.'), Without(p.value.mant, '.');
      var lead := LeadingZeros(all);
      var digits := TrimZeros(all[lead..]);
      if digits == [] || !AllDigits(digits) then None else Some(Digits(digits, point - lead + p.value.exp))
  }

  // ---- What a text means ----

  function Pow10(e: int): real
    decreases if e >= 0 then e else -e
  {
    if e == 0 then 1.0 else if e > 0 then 10.0 * Pow10(e - 1) else Pow10(e + 1) / 10.0
  }

  /** A decimal literal: all its digits, moved by its exponent and by how many stand after the point. */
  function Meaning(p: Parts): real
    requires AllDigits(Without(p.mant, '.'))
  {
    var all := Without(p.mant, '.');
    Int(all) as real * Pow10(p.exp + Find(p.mant, '.') - |all|)
  }

  lemma {:induction false} PowStep(e: int)
    ensures Pow10(e + 1) == 10.0 * Pow10(e)
  {}

  lemma {:induction false} PowSum(a: nat, e: int)
    ensures Pow10(a + e) == Pow10(a) * Pow10(e)
  {
    if a > 0 {
      PowSum(a - 1, e);
      PowStep(a - 1 + e);
      PowStep(a - 1);
      TenTimes(Pow10(a - 1), Pow10(e));
    }
  }

  lemma TenTimes(a: real, b: real)
    ensures 10.0 * (a * b) == (10.0 * a) * b
  {}

  function TenTo(k: nat): nat { if k == 0 then 1 else 10 * TenTo(k - 1) }

  lemma {:induction false} TenIs(k: nat)
    ensures TenTo(k) as real == Pow10(k)
  {
    if k > 0 {
      TenIs(k - 1);
    }
  }

  lemma {:induction false} IntShifts(s: string, r: string)
    requires AllDigits(s) && |r| <= |s| && r == s[..|r|] && forall i | |r| <= i < |s| :: s[i] == '0'
    ensures AllDigits(r) && Int(s) == Int(r) * TenTo(|s| - |r|)
    decreases |s|
  {
    if |s| > |r| {
      var init := s[..|s| - 1];
      IntShifts(init, r);
      Tens(Int(r), TenTo(|init| - |r|));
    } else {
      assert s == r;
    }
  }

  lemma Tens(a: nat, p: nat)
    ensures a * p * 10 == a * (10 * p)
  {}

  lemma IntAppendZeros(s: string, r: string)
    requires AllDigits(s) && |r| <= |s| && r == s[..|r|] && forall i | |r| <= i < |s| :: s[i] == '0'
    ensures AllDigits(r) && Int(s) as real == Int(r) as real * Pow10(|s| - |r|)
  {
    hide Int, TenTo, Pow10;
    IntShifts(s, r);
    TenIs(|s| - |r|);
    Exact(Int(r), TenTo(|s| - |r|));
  }

  lemma Exact(a: nat, b: nat)
    ensures (a * b) as real == a as real * b as real
  {}

  lemma {:induction false} IntDropZeros(s: string, k: nat)
    requires AllDigits(s) && k <= |s| && forall i | 0 <= i < k :: s[i] == '0'
    ensures Int(s) == Int(s[k..])
    decreases |s|
  {
    if |s| > k {
      var init := s[..|s| - 1];
      IntDropZeros(init, k);
      assert init[k..] == s[k..][..|s[k..]| - 1];
    } else if k > 0 {
      var init := s[..k - 1];
      IntDropZeros(init, k - 1);
      assert s[k..] == [] && init[k - 1..] == [];
    }
  }

  /** The digits and exponent read from a literal are those of its value: it means 0.digits x 10^n. */
  lemma RyuMeaning(s: string)
    requires RyuDigits(s).Some? && AllDigits(Without(SplitExp(s).value.mant, '.'))
    ensures var r := RyuDigits(s).value;
            Significant(r.digits) && Meaning(SplitExp(s).value) == Int(r.digits) as real * Pow10(r.n - |r.digits|)
  {
    hide Int, Pow10, Find, Without, LeadingZeros, TrimZeros;
    var p := SplitExp(s).value;
    var point, all := Find(p.mant, '.'), Without(p.mant, '.');
    var lead := LeadingZeros(all);
    var rest := all[lead..];
    var d := TrimZeros(rest);
    IntDropZeros(all, lead);
    IntAppendZeros(rest, d);
    assert d[0] == all[lead];
    var e := p.exp + point - |all|;
    PowSum(|rest| - |d|, e);
    assert |rest| - |d| + e == point - lead + p.exp - |d|;
    AssocReal(Int(d) as real, Pow10(|rest| - |d|), Pow10(e));
  }

  lemma AssocReal(a: real, b: real, c: real)
    ensures (a * b) * c == a * (b * c)
  {}

  // ---- Reading back what was laid out ----

  lemma {:induction false} FindIn(a: string, b: string, c: char)
    requires forall i | 0 <= i < |a| :: a[i] != c
    ensures Find(a + b, c) == |a| + Find(b, c)
  {
    if a == [] {
      assert a + b == b;
    } else {
      assert (a + b)[1..] == a[1..] + b;
      FindIn(a[1..], b, c);
    }
  }

  lemma {:induction false} WithoutAppend(a: string, b: string, c: char)
    ensures Without(a + b, c) == Without(a, c) + Without(b, c)
  {
    if a == [] {
      assert a + b == b;
    } else {
      assert (a + b)[1..] == a[1..] + b;
      WithoutAppend(a[1..], b, c);
    }
  }

  lemma {:induction false} WithoutNone(a: string, c: char)
    requires forall i | 0 <= i < |a| :: a[i] != c
    ensures Without(a, c) == a
  {
    if a != [] {
      WithoutNone(a[1..], c);
      assert a == [a[0]] + a[1..];
    }
  }

  lemma {:induction false} LeadingOf(k: nat, d: string)
    requires d != [] && d[0] != '0'
    ensures LeadingZeros(Zeros(k) + d) == k
  {
    var s := Zeros(k) + d;
    assert s[k] == d[0] && forall i | 0 <= i < k :: s[i] == '0';
  }

  lemma {:induction false} TrimOf(d: string, k: nat)
    requires d != [] && d[|d| - 1] != '0'
    ensures TrimZeros(d + Zeros(k)) == d
  {
    hide TrimZeros;
    var s := d + Zeros(k);
    var r := TrimZeros(s);
    assert s[|d| - 1] == d[|d| - 1] && forall i | |d| <= i < |s| :: s[i] == '0';
    assert r == s[..|r|] && d == s[..|d|];
  }

  /** A mantissa of leading zeros, significant digits and trailing zeros, with or without a point. */
  lemma FromMantissa(s: string, mant: string, exp: int, point: nat, lead: nat, d: string, trail: nat)
    requires SplitExp(s) == Some(Parts(mant, exp)) && Significant(d)
    requires Find(mant, '.') == point && Without(mant, '.') == Zeros(lead) + d + Zeros(trail)
    ensures RyuDigits(s) == Some(Digits(d, point - lead + exp))
  {
    hide Find, Without, LeadingZeros, TrimZeros, SplitExp, Zeros;
    var all := Without(mant, '.');
    var tail := d + Zeros(trail);
    assert all == Zeros(lead) + tail;
    LeadingOf(lead, tail);
    assert all[lead..] == tail;
    TrimOf(d, trail);
  }

  lemma StillDigits(lead: nat, d: string, trail: nat)
    requires AllDigits(d)
    ensures AllDigits(Zeros(lead) + d + Zeros(trail))
  {}

  lemma NoExponent(s: string)
    requires forall i | 0 <= i < |s| :: s[i] != 'e'
    ensures SplitExp(s) == Some(Parts(s, 0))
  {
    hide ParseI32;
  }

  lemma Around(a: string, b: string)
    requires AllDigits(a) && AllDigits(b)
    ensures Find(a + ['.'] + b, '.') == |a| && Without(a + ['.'] + b, '.') == a + b
    ensures Find(a, '.') == |a| && Without(a, '.') == a
  {
    hide Find, Without;
    assert a + ['.'] + b == a + (['.'] + b);
    FindIn(a, ['.'] + b, '.');
    assert Find(['.'] + b, '.') == 0 by { PointFirst(b); }
    WithoutAppend(a, ['.'] + b, '.');
    WithoutNone(a, '.');
    WithoutNone(b, '.');
    assert Without(['.'] + b, '.') == b by { PointFirst(b); }
  }

  lemma PointFirst(b: string)
    ensures Find(['.'] + b, '.') == 0 && (Without(b, '.') == b ==> Without(['.'] + b, '.') == b)
  {
    assert (['.'] + b)[1..] == b;
  }

  // ---- The exponent ----

  lemma {:induction false} DecimalBack(v: nat)
    ensures Int(Decimal(v)) == v
  {
    if v < 10 {
      assert [DigitOf(v)][..0] == [];
    } else {
      var s := Decimal(v);
      DecimalBack(v / 10);
      assert s[..|s| - 1] == Decimal(v / 10);
    }
  }

  /** The exponent as written, with a plus sign or not, parses back. */
  lemma ExponentBack(e: int)
    requires -0x8000_0000 <= e < 0x8000_0000
    ensures ParseI32(Signed(e)) == Some(e) && (e >= 0 ==> ParseI32(['+'] + Signed(e)) == Some(e))
  {
    hide Int, Decimal;
    if e < 0 {
      DecimalBack(-e);
      assert Signed(e)[1..] == Decimal(-e);
    } else {
      DecimalBack(e);
      assert (['+'] + Signed(e))[1..] == Decimal(e);
    }
  }

  lemma SplitsAt(mant: string, exp: string, e: int)
    requires (forall i | 0 <= i < |mant| :: mant[i] != 'e') && ParseI32(exp) == Some(e)
    ensures SplitExp(mant + ['e'] + exp) == Some(Parts(mant, e))
  {
    hide ParseI32, Find;
    var s := mant + ['e'] + exp;
    assert s == mant + (['e'] + exp);
    FindIn(mant, ['e'] + exp, 'e');
    assert Find(['e'] + exp, 'e') == 0 by { ExponentFirst(exp); }
    assert s[..|mant|] == mant && s[|mant| + 1..] == exp;
  }

  lemma ExponentFirst(exp: string)
    ensures Find(['e'] + exp, 'e') == 0
  {}

  lemma PlainLayout(d: string, n: int)
    requires Significant(d) && -6 < n <= 21
    ensures RyuDigits(Layout(d, n)) == Some(Digits(d, n))
    ensures SplitExp(Layout(d, n)).Some? && AllDigits(Without(SplitExp(Layout(d, n)).value.mant, '.'))
  {
    hide Find, Without, LeadingZeros, TrimZeros, SplitExp, RyuDigits, Zeros;
    var s := Layout(d, n);
    NoExponent(s);
    if |d| <= n {
      Around(s, []);
      assert Zeros(0) == [] && Zeros(0) + d + Zeros(n - |d|) == s;
      FromMantissa(s, s, 0, n, 0, d, n - |d|);
      StillDigits(0, d, n - |d|);
    } else if 0 < n {
      PointLayout(d, n);
    } else {
      var rest := Zeros(-n) + d;
      assert s == ['0'] + ['.'] + rest;
      Around(['0'], rest);
      assert ['0'] + Zeros(-n) == Zeros(1 - n) && Zeros(0) == [];
      assert Zeros(1 - n) + d + Zeros(0) == ['0'] + rest;
      FromMantissa(s, s, 0, 1, 1 - n, d, 0);
      StillDigits(1 - n, d, 0);
    }
  }

  lemma PointLayout(d: string, n: int)
    requires Significant(d) && 0 < n < |d| && n <= 21
    ensures RyuDigits(Layout(d, n)) == Some(Digits(d, n))
    ensures SplitExp(Layout(d, n)).Some? && AllDigits(Without(SplitExp(Layout(d, n)).value.mant, '.'))
  {
    hide Find, Without, LeadingZeros, TrimZeros, SplitExp, RyuDigits, Zeros;
    var s := d[..n] + ['.'] + d[n..];
    NoExponent(s);
    Around(d[..n], d[n..]);
    assert Zeros(0) == [] && Zeros(0) + d + Zeros(0) == d[..n] + d[n..];
    FromMantissa(s, s, 0, n, 0, d, 0);
    StillDigits(0, d, 0);
  }

  lemma ExponentLayout(d: string, n: int)
    requires Significant(d) && !(-6 < n <= 21) && -0x8000_0000 <= n - 1 < 0x8000_0000
    ensures RyuDigits(Layout(d, n)) == Some(Digits(d, n))
    ensures SplitExp(Layout(d, n)).Some? && AllDigits(Without(SplitExp(Layout(d, n)).value.mant, '.'))
  {
    hide Find, Without, LeadingZeros, TrimZeros, SplitExp, RyuDigits, Zeros, ParseI32, Signed;
    var s := Layout(d, n);
    var mant := d[..1] + (if |d| == 1 then [] else ['.'] + d[1..]);
    var exp := (if n > 0 then ['+'] else []) + Signed(n - 1);
    assert s == mant + ['e'] + exp;
    ExponentBack(n - 1);
    assert n <= 0 ==> exp == Signed(n - 1);
    SplitsAt(mant, exp, n - 1);
    Around(d[..1], d[1..]);
    assert |d| == 1 ==> mant == d[..1] == d;
    assert |d| > 1 ==> mant == d[..1] + ['.'] + d[1..];
    assert Zeros(0) == [] && Zeros(0) + d + Zeros(0) == d == d[..1] + d[1..];
    FromMantissa(s, mant, n - 1, 1, 0, d, 0);
    StillDigits(0, d, 0);
  }

  /** Every layout reads back to the digits and the exponent it was made of. */
  lemma LayoutBack(d: string, n: int)
    requires Significant(d) && -0x8000_0000 <= n - 1 < 0x8000_0000
    ensures RyuDigits(Layout(d, n)) == Some(Digits(d, n))
    ensures SplitExp(Layout(d, n)).Some? && AllDigits(Without(SplitExp(Layout(d, n)).value.mant, '.'))
  {
    hide RyuDigits, Layout;
    if -6 < n <= 21 {
      PlainLayout(d, n);
    } else {
      ExponentLayout(d, n);
    }
  }

  /** Every layout means 0.digits x 10^n. */
  lemma LayoutMeaning(d: string, n: int)
    requires Significant(d) && -0x8000_0000 <= n - 1 < 0x8000_0000
    ensures SplitExp(Layout(d, n)).Some? && AllDigits(Without(SplitExp(Layout(d, n)).value.mant, '.'))
    ensures Meaning(SplitExp(Layout(d, n)).value) == Int(d) as real * Pow10(n - |d|)
  {
    hide RyuDigits, Layout, SplitExp, Meaning, Int, Pow10;
    LayoutBack(d, n);
    RyuMeaning(Layout(d, n));
  }
}
