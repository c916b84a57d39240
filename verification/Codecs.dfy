/**
  Strict base64url and base32 without padding (client-rust/src/bytes.rs; RFC 4648 sections 5 and 6). A text and the
  bytes it stands for are the same number, up to the zero bits that fill the last symbol.
 */
module Codecs {

  import opened Basics
  import opened Limbs

  // ---- Numbers in a base ----

  function Quot(v: nat, n: nat): nat
    requires n > 0
  {
    v / n
  }

  function Rem(v: nat, n: nat): nat
    requires n > 0
  {
    v % n
  }

  lemma Divides(v: nat, n: nat)
    requires n > 0
    ensures v == Quot(v, n) * n + Rem(v, n) && Rem(v, n) < n
  {}

  /** There is one way to divide. */
  lemma OneWay(q: nat, m: nat, n: nat)
    requires m < n
    ensures Quot(q * n + m, n) == q && Rem(q * n + m, n) == m
  {
    hide Quot, Rem;
    var x := q * n + m;
    Divides(x, n);
    Quotients(q, m, Quot(x, n), Rem(x, n), n);
    if Quot(x, n) < q {
      Apart(Quot(x, n), q, n);
    } else if Quot(x, n) > q {
      Apart(q, Quot(x, n), n);
    }
  }

  /** Digits, the greatest first. */
  function Num(ds: seq<nat>, base: nat): nat {
    if ds == [] then 0 else Num(ds[..|ds| - 1], base) * base + ds[|ds| - 1]
  }

  predicate InBase(ds: seq<nat>, base: nat) { forall i | 0 <= i < |ds| :: ds[i] < base }

  /** The last `n` digits of a number. */
  function Digits(v: nat, n: nat, base: nat): (ds: seq<nat>)
    requires base > 0
    ensures |ds| == n
    decreases n
  {
    if n == 0 then [] else Digits(Quot(v, base), n - 1, base) + [Rem(v, base)]
  }

  lemma NumAppend(ds: seq<nat>, d: nat, base: nat)
    ensures Num(ds + [d], base) == Num(ds, base) * base + d
  {
    assert (ds + [d])[..|ds|] == ds;
  }

  lemma {:induction false} DigitsInBase(v: nat, n: nat, base: nat)
    requires base > 0
    ensures InBase(Digits(v, n, base), base)
  {
    hide Quot, Rem;
    if n > 0 {
      Divides(v, base);
      DigitsInBase(Quot(v, base), n - 1, base);
    }
  }

  /** The digits of a number below base^n make it up. */
  lemma {:induction false} DigitsBack(v: nat, n: nat, base: nat)
    requires base > 0 && v < Pow(base, n)
    ensures Num(Digits(v, n, base), base) == v
  {
    hide Quot, Rem, Num;
    if n == 0 {
      assert Num([], base) == 0 by { NumNothing(base); }
    } else {
      Divides(v, base);
      Shrinks(v, base, Pow(base, n - 1));
      DigitsBack(Quot(v, base), n - 1, base);
      NumAppend(Digits(Quot(v, base), n - 1, base), Rem(v, base), base);
    }
  }

  lemma NumNothing(base: nat)
    ensures Num([], base) == 0
  {}

  lemma Shrinks(v: nat, base: nat, p: nat)
    requires base > 0 && v < base * p
    ensures Quot(v, base) < p
  {
    hide Quot, Rem;
    Divides(v, base);
    if p <= Quot(v, base) {
      Above(p, Quot(v, base), base);
    }
  }

  lemma Above(a: nat, b: nat, n: nat)
    requires a <= b
    ensures b * n >= n * a
  {
    assert b * n == a * n + (b - a) * n;
  }

  /** A digit string is the digits of its number. */
  lemma {:induction false} NumBack(ds: seq<nat>, base: nat)
    requires base > 0 && InBase(ds, base)
    ensures Digits(Num(ds, base), |ds|, base) == ds && Num(ds, base) < Pow(base, |ds|)
  {
    hide Quot, Rem;
    if ds != [] {
      var init, d := ds[..|ds| - 1], ds[|ds| - 1];
      NumBack(init, base);
      OneWay(Num(init, base), d, base);
      assert ds == init + [d];
      Room(Num(init, base), d, base, Pow(base, |init|));
    }
  }

  lemma Room(v: nat, d: nat, base: nat, p: nat)
    requires v < p && d < base
    ensures v * base + d < base * p
  {
    assert base * p == v * base + (p - v) * base;
    assert (p - v) * base == base + (p - v - 1) * base;
  }

  // ---- Groups of k bits ----

  /** Symbols of k bits for m bytes. */
  function Symbols(m: nat, k: nat): nat
    requires k > 0
  {
    Quot(8 * m + k - 1, k)
  }

  /** The zero bits that fill the last symbol. */
  function Fill(m: nat, k: nat): (f: nat)
    requires k > 0
    ensures f < k && 8 * m + f == k * Symbols(m, k)
  {
    var n := Symbols(m, k);
    Divides(8 * m + k - 1, k);
    assert n * k == k * n;
    k * n - 8 * m
  }

  /** The symbols of some bytes: their number, moved up by the fill. */
  function Encode(b: seq<Byte>, k: nat): seq<nat>
    requires 0 < k <= 8
  {
    Digits(Num(b, 256) * Pow(2, Fill(|b|, k)), Symbols(|b|, k), Pow(2, k))
  }

  /** The bytes of some symbols, if no whole symbol is left over and what is left over is zero. */
  function Decode(vs: seq<nat>, k: nat): Option<seq<nat>>
    requires 0 < k <= 8
  {
    var m, rest := k * |vs| / 8, k * |vs| % 8;
    var v := Num(vs, Pow(2, k));
    if rest >= k || Rem(v, Pow(2, rest)) != 0 then None else Some(Digits(Quot(v, Pow(2, rest)), m, 256))
  }

  lemma {:induction false} PowAdd(b: nat, i: nat, j: nat)
    ensures Pow(b, i + j) == Pow(b, i) * Pow(b, j)
  {
    if i > 0 {
      PowAdd(b, i - 1, j);
      Assoc(b, Pow(b, i - 1), Pow(b, j));
    }
  }

  lemma {:induction false} PowTimes(k: nat, n: nat)
    ensures Pow(Pow(2, k), n) == Pow(2, k * n)
  {
    if n > 0 {
      PowTimes(k, n - 1);
      PowAdd(2, k, k * (n - 1));
      assert k + k * (n - 1) == k * n;
    }
  }

  lemma TwoToEight()
    ensures Pow(2, 8) == 256
  {
    Powers();
  }

  /** The number to encode fits the symbols. */
  lemma Fits(b: seq<Byte>, k: nat)
    requires 0 < k <= 8
    ensures Num(b, 256) * Pow(2, Fill(|b|, k)) < Pow(Pow(2, k), Symbols(|b|, k))
  {
    hide Num, Pow;
    var f, n, m := Fill(|b|, k), Symbols(|b|, k), |b|;
    NumBack(b, 256);
    TwoToEight();
    PowTimes(8, m);
    PowTimes(k, n);
    PowAdd(2, 8 * m, f);
    Scales(Num(b, 256), Pow(2, 8 * m), Pow(2, f));
  }

  lemma Scales(a: nat, b: nat, c: nat)
    requires a < b && c > 0
    ensures a * c < b * c
  {}

  /** m bytes come back as m bytes: what is left over is the fill. */
  lemma Lengths(m: nat, k: nat)
    requires 0 < k <= 8
    ensures k * Symbols(m, k) / 8 == m && k * Symbols(m, k) % 8 == Fill(m, k)
  {}

  /** Decoding an encoding gives the bytes back. */
  lemma EncodeDecode(b: seq<Byte>, k: nat)
    requires 0 < k <= 8
    ensures Decode(Encode(b, k), k) == Some(b)
  {
    hide Num, Pow, Digits, Symbols, Quot, Rem;
    var v, f := Num(b, 256), Fill(|b|, k);
    Fits(b, k);
    DigitsBack(v * Pow(2, f), Symbols(|b|, k), Pow(2, k));
    Lengths(|b|, k);
    OneWay(v, 0, Pow(2, f));
    NumBack(b, 256);
  }

  /** n symbols come back as n symbols, unless a whole one is left over. */
  lemma LengthsBack(n: nat, k: nat)
    requires 0 < k <= 8 && k * n % 8 < k
    ensures Symbols(k * n / 8, k) == n && Fill(k * n / 8, k) == k * n % 8
  {
    var m, rest := k * n / 8, k * n % 8;
    assert 8 * m + rest == k * n;
    SymbolsAre(m, n, rest, k);
  }

  lemma SymbolsAre(m: nat, n: nat, rest: nat, k: nat)
    requires 0 < k && 8 * m + rest == k * n && rest < k
    ensures Symbols(m, k) == n
  {
    var x := 8 * m + k - 1;
    assert x == k * n + (k - 1 - rest);
    assert n * k == k * n;
    OneWay(n, k - 1 - rest, k);
  }

  /** Symbols that decode are the encoding of what they decode to. */
  lemma DecodeEncode(vs: seq<nat>, k: nat)
    requires 0 < k <= 8 && InBase(vs, Pow(2, k)) && Decode(vs, k).Some?
    ensures InBase(Decode(vs, k).value, 256) && Encode(Decode(vs, k).value, k) == vs
  {
    hide Num, Pow, Digits, Symbols, Quot, Rem;
    var m, rest := k * |vs| / 8, k * |vs| % 8;
    var v := Num(vs, Pow(2, k));
    var b := Decode(vs, k).value;
    LengthsBack(|vs|, k);
    DigitsInBase(Quot(v, Pow(2, rest)), m, 256);
    NumBack(vs, Pow(2, k));
    PowTimes(k, |vs|);
    PowTimes(8, m);
    TwoToEight();
    assert 8 * m + rest == k * |vs|;
    PowAdd(2, rest, 8 * m);
    Shrinks(v, Pow(2, rest), Pow(2, 8 * m));
    DigitsBack(Quot(v, Pow(2, rest)), m, 256);
    Divides(v, Pow(2, rest));
  }
}
