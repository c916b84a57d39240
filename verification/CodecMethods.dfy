/**
  The codecs as they run, over an accumulator and a bit count (client-rust/src/bytes.rs).
 */
module CodecMethods {

  import opened Basics
  import opened Limbs
  import opened Codecs

  // ---- Alphabets ----

  /** A-Z, a-z, 0-9, -, _ */
  function Sym64(v: nat): Byte {
    if v < 26 then 0x41 + v
    else if v < 52 then 0x61 + v - 26
    else if v < 62 then 0x30 + v - 52
    else if v == 62 then 0x2d
    else 0x5f
  }

  function Val64(c: Byte): Option<nat> {
    if 0x41 <= c <= 0x5a then Some(c - 0x41)
    else if 0x61 <= c <= 0x7a then Some(c - 0x61 + 26)
    else if 0x30 <= c <= 0x39 then Some(c - 0x30 + 52)
    else if c == 0x2d then Some(62)
    else if c == 0x5f then Some(63)
    else None
  }

  /** a-z, 2-7 */
  function Sym32(v: nat): Byte { if v < 26 then 0x61 + v else if v < 32 then 0x32 + v - 26 else 0 }

  function Val32(c: Byte): Option<nat> {
    if 0x61 <= c <= 0x7a then Some(c - 0x61)
    else if 0x32 <= c <= 0x37 then Some(c - 0x32 + 26)
    else None
  }

  /** Either alphabet, by its bits per symbol. */
  function Sym(v: nat, k: nat): Byte { if k == 6 then Sym64(v) else Sym32(v) }

  function Val(c: Byte, k: nat): Option<nat> { if k == 6 then Val64(c) else Val32(c) }

  predicate IsCodec(k: nat) { k == 5 || k == 6 }

  lemma SymVal(v: nat, c: Byte, k: nat)
    requires IsCodec(k)
    ensures Pow(2, k) == if k == 6 then 64 else 32
    ensures v < Pow(2, k) ==> Val(Sym(v, k), k) == Some(v)
    ensures Val(c, k).Some? ==> Val(c, k).value < Pow(2, k) && Sym(Val(c, k).value, k) == c
  {
    Powers();
  }

  function Spell(vs: seq<nat>, k: nat): seq<Byte> { seq(|vs|, i requires 0 <= i < |vs| => Sym(vs[i], k)) }

  predicate Spelled(s: seq<Byte>, k: nat) { forall i | 0 <= i < |s| :: Val(s[i], k).Some? }

  function Values(s: seq<Byte>, k: nat): seq<nat>
    requires Spelled(s, k)
  {
    seq(|s|, i requires 0 <= i < |s| => Val(s[i], k).value)
  }

  function ToText(b: seq<Byte>, k: nat): seq<Byte>
    requires IsCodec(k)
  {
    Spell(Encode(b, k), k)
  }

  function FromText(s: seq<Byte>, k: nat): Option<seq<nat>>
    requires IsCodec(k)
  {
    if Spelled(s, k) then Decode(Values(s, k), k) else None
  }

  /** Decoding an encoding returns the bytes, at any length. */
  lemma TextBack(b: seq<Byte>, k: nat)
    requires IsCodec(k)
    ensures FromText(ToText(b, k), k) == Some(b)
  {
    hide Encode, Decode, Spell, Values, Spelled;
    EncodeInBase(b, k);
    SpelledBack(Encode(b, k), k);
    EncodeDecode(b, k);
  }

  lemma EncodeInBase(b: seq<Byte>, k: nat)
    requires 0 < k <= 8
    ensures InBase(Encode(b, k), Pow(2, k))
  {
    hide Num, Pow, Digits, Quot, Symbols;
    DigitsInBase(Num(b, 256) * Pow(2, Fill(|b|, k)), Symbols(|b|, k), Pow(2, k));
  }

  lemma SpelledBack(vs: seq<nat>, k: nat)
    requires IsCodec(k) && InBase(vs, Pow(2, k))
    ensures Spelled(Spell(vs, k), k) && Values(Spell(vs, k), k) == vs
  {
    forall i | 0 <= i < |vs| ensures Val(Sym(vs[i], k), k) == Some(vs[i]) {
      SymVal(vs[i], 0, k);
    }
  }

  /** Every text the decoder accepts is the encoding of what it decodes to. */
  lemma OnlyEncodings(s: seq<Byte>, k: nat)
    requires IsCodec(k) && FromText(s, k).Some?
    ensures InBase(FromText(s, k).value, 256) && ToText(FromText(s, k).value, k) == s
  {
    var vs := Values(s, k);
    forall i | 0 <= i < |s| ensures vs[i] < Pow(2, k) && Sym(vs[i], k) == s[i] {
      SymVal(0, s[i], k);
    }
    DecodeEncode(vs, k);
    assert Spell(vs, k) == s;
  }

  // ---- Encoding ----

  /** The encoding is the one symbol string of its length that makes up the number. */
  lemma IsEncoding(b: seq<Byte>, vs: seq<nat>, k: nat, fill: nat)
    requires 0 < k <= 8 && InBase(vs, Pow(2, k)) && fill < k && 8 * |b| + fill == k * |vs|
    requires Num(vs, Pow(2, k)) == Num(b, 256) * Pow(2, fill)
    ensures vs == Encode(b, k)
  {
    hide Num, Digits, Quot, Rem, Pow, Symbols;
    SymbolsAre(|b|, |vs|, fill, k);
    NumBack(vs, Pow(2, k));
  }

  lemma NumFour(vs: seq<nat>, a: nat, b: nat, c: nat, d: nat)
    ensures Num(vs + [a] + [b] + [c] + [d], 64) == Num(vs, 64) * 16777216 + a * 262144 + b * 4096 + c * 64 + d
    ensures Num(vs + [a] + [b] + [c], 64) == Num(vs, 64) * 262144 + a * 4096 + b * 64 + c
    ensures Num(vs + [a] + [b], 64) == Num(vs, 64) * 4096 + a * 64 + b
  {
    NumAppend(vs, a, 64);
    NumAppend(vs + [a], b, 64);
    NumAppend(vs + [a] + [b], c, 64);
    NumAppend(vs + [a] + [b] + [c], d, 64);
  }

  lemma NumThree(b: seq<Byte>, i: nat)
    ensures i + 3 <= |b| ==> Num(b[..i + 3], 256) == Num(b[..i], 256) * 16777216 + (b[i] as nat) * 65536 + (b[i + 1] as nat) * 256 + b[i + 2]
    ensures i + 2 <= |b| ==> Num(b[..i + 2], 256) == Num(b[..i], 256) * 65536 + (b[i] as nat) * 256 + b[i + 1]
    ensures i + 1 <= |b| ==> Num(b[..i + 1], 256) == Num(b[..i], 256) * 256 + b[i]
  {
    if i + 1 <= |b| {
      assert b[..i + 1] == b[..i] + [b[i]];
      NumAppend(b[..i], b[i], 256);
    }
    if i + 2 <= |b| {
      assert b[..i + 2] == b[..i + 1] + [b[i + 1]];
      NumAppend(b[..i + 1], b[i + 1], 256);
    }
    if i + 3 <= |b| {
      assert b[..i + 3] == b[..i + 2] + [b[i + 2]];
      NumAppend(b[..i + 2], b[i + 2], 256);
    }
  }

  /** The four six-bit parts of 24 bits. */
  function Part(n: nat, j: nat): nat {
    Rem(Quot(n, if j == 0 then 262144 else if j == 1 then 4096 else if j == 2 then 64 else 1), 64)
  }

  lemma PartsAre(n: nat, a: nat, b: nat, c: nat, d: nat)
    requires a < 64 && b < 64 && c < 64 && d < 64 && n == a * 262144 + b * 4096 + c * 64 + d
    ensures Part(n, 0) == a && Part(n, 1) == b && Part(n, 2) == c && Part(n, 3) == d
  {
    hide Quot, Rem;
    OneWay(a, b * 4096 + c * 64 + d, 262144);
    OneWay(0, a, 64);
    OneWay(a * 64 + b, c * 64 + d, 4096);
    OneWay(a, b, 64);
    OneWay(a * 4096 + b * 64 + c, d, 64);
    OneWay(a * 64 + b, c, 64);
    OneWay(n, 0, 1);
    assert n == (a * 4096 + b * 64 + c) * 64 + d;
  }

  lemma Parts(n: nat)
    requires n < 16777216
    ensures Part(n, 0) * 262144 + Part(n, 1) * 4096 + Part(n, 2) * 64 + Part(n, 3) == n
  {
    hide Quot, Rem, Part;
    Divides(n, 64);
    var q := Quot(n, 64);
    Divides(q, 64);
    var q1 := Quot(q, 64);
    Divides(q1, 64);
    PartsAre(n, Quot(q1, 64), Rem(q1, 64), Rem(q, 64), Rem(n, 64));
  }

  method B64u(b: seq<Byte>) returns (s: seq<Byte>)
    ensures s == ToText(b, 6)
  {
    hide Num, Encode, Sym64, Part;
    Powers();
    s := [];
    ghost var vs: seq<nat> := [];
    var i := 0;
    assert Num(b[..0], 256) == Num([], 64) by { NumNothing(64); NumNothing(256); }
    while i + 3 <= |b|
      invariant i <= |b| && i % 3 == 0 && |vs| * 3 == i * 4
      invariant InBase(vs, 64) && s == Spell(vs, 6) && Num(vs, 64) == Num(b[..i], 256)
    {
      var n := (b[i] as nat) * 65536 + (b[i + 1] as nat) * 256 + b[i + 2];
      NumThree(b, i);
      NumFour(vs, Part(n, 0), Part(n, 1), Part(n, 2), Part(n, 3));
      Parts(n);
      PartsInBase(n);
      s := s + [Sym64(Part(n, 0))] + [Sym64(Part(n, 1))] + [Sym64(Part(n, 2))] + [Sym64(Part(n, 3))];
      vs := vs + [Part(n, 0)] + [Part(n, 1)] + [Part(n, 2)] + [Part(n, 3)];
      i := i + 3;
    }
    NumThree(b, i);
    if i + 1 == |b| {
      var n := (b[i] as nat) * 65536;
      assert b[..i + 1] == b;
      NumFour(vs, Part(n, 0), Part(n, 1), 0, 0);
      PartsInBase(n);
      TwoParts(b[i]);
      s := s + [Sym64(Part(n, 0))] + [Sym64(Part(n, 1))];
      vs := vs + [Part(n, 0)] + [Part(n, 1)];
      IsEncoding(b, vs, 6, 4);
    } else if i + 2 == |b| {
      var n := (b[i] as nat) * 65536 + (b[i + 1] as nat) * 256;
      assert b[..i + 2] == b;
      NumFour(vs, Part(n, 0), Part(n, 1), Part(n, 2), 0);
      PartsInBase(n);
      ThreeParts(b[i], b[i + 1]);
      s := s + [Sym64(Part(n, 0))] + [Sym64(Part(n, 1))] + [Sym64(Part(n, 2))];
      vs := vs + [Part(n, 0)] + [Part(n, 1)] + [Part(n, 2)];
      IsEncoding(b, vs, 6, 2);
    } else {
      assert b[..i] == b;
      IsEncoding(b, vs, 6, 0);
    }
  }

  lemma PartsInBase(n: nat)
    ensures Part(n, 0) < 64 && Part(n, 1) < 64 && Part(n, 2) < 64 && Part(n, 3) < 64
  {
    hide Quot, Rem;
    Divides(Quot(n, 262144), 64);
    Divides(Quot(n, 4096), 64);
    Divides(Quot(n, 64), 64);
    Divides(Quot(n, 1), 64);
  }

  lemma TwoParts(x: Byte)
    ensures Part((x as nat) * 65536, 0) * 64 + Part((x as nat) * 65536, 1) == (x as nat) * 16
  {
    hide Part, Quot, Rem;
    Divides(x, 4);
    PartsAre((x as nat) * 65536, Quot(x, 4), Rem(x, 4) * 16, 0, 0);
  }

  lemma ThreeParts(x: Byte, y: Byte)
    ensures var n := (x as nat) * 65536 + (y as nat) * 256;
            Part(n, 0) * 4096 + Part(n, 1) * 64 + Part(n, 2) == ((x as nat) * 256 + y) * 4
  {
    hide Part, Quot, Rem;
    Divides(x, 4);
    Divides(y, 16);
    PartsAre((x as nat) * 65536 + (y as nat) * 256, Quot(x, 4), Rem(x, 4) * 16 + Quot(y, 16), Rem(y, 16) * 4, 0);
  }

  // ---- The accumulator ----

  const ACC := 65536

  /** A remainder by a divisor of the mask is the same after masking. */
  lemma MaskedRem(x: nat, d: nat, f: nat)
    requires d > 0 && d * f == ACC
    ensures Rem(Rem(x, ACC), d) == Rem(x, d)
  {
    hide Quot, Rem;
    Divides(x, ACC);
    var r := Rem(x, ACC);
    Divides(r, d);
    var q, q2 := Quot(x, ACC), Quot(r, d);
    assert q * (d * f) == (q * f) * d by { Assoc(q, f, d); }
    assert (q * f + q2) * d == (q * f) * d + q2 * d;
    OneWay(q * f + q2, Rem(r, d), d);
  }

  lemma ShiftedRem(acc: nat, v: nat, d: nat, e: nat)
    requires d > 0 && v < e
    ensures Rem(acc * e + v, d * e) == Rem(acc, d) * e + v
  {
    hide Quot, Rem;
    Divides(acc, d);
    var q, m := Quot(acc, d), Rem(acc, d);
    assert acc * e == q * (d * e) + m * e by {
      assert (q * d + m) * e == (q * d) * e + m * e;
      Assoc(q, d, e);
    }
    Room(m, v, e, d);
    assert e * d == d * e;
    OneWay(q, m * e + v, d * e);
  }

  /** Masking the accumulator to 16 bits loses none of the bits that count. */
  lemma Masked(acc: nat, v: nat, bits: nat, k: nat)
    requires v < Pow(2, k) && bits + k <= 16
    ensures Rem(Rem(acc * Pow(2, k) + v, ACC), Pow(2, bits + k)) == Rem(acc, Pow(2, bits)) * Pow(2, k) + v
  {
    hide Quot, Rem, Pow;
    PowAdd(2, bits, k);
    PowAdd(2, bits + k, 16 - bits - k);
    Sixteen();
    MaskedRem(acc * Pow(2, k) + v, Pow(2, bits + k), Pow(2, 16 - bits - k));
    ShiftedRem(acc, v, Pow(2, bits), Pow(2, k));
  }

  lemma Sixteen()
    ensures Pow(2, 16) == ACC
  {
    Powers();
    PowAdd(2, 8, 8);
  }

  /** The top `w` of the bits that count, and the rest. */
  lemma Taken(acc: nat, j: nat, w: nat)
    ensures Rem(acc, Pow(2, j + w)) == Rem(Quot(acc, Pow(2, j)), Pow(2, w)) * Pow(2, j) + Rem(acc, Pow(2, j))
  {
    hide Quot, Rem, Pow;
    var d, e := Pow(2, j), Pow(2, w);
    PowAdd(2, w, j);
    assert w + j == j + w;
    Divides(acc, d);
    ShiftedRem(Quot(acc, d), Rem(acc, d), e, d);
  }

  /** One symbol more: what was written and what is pending make up the number read. */
  lemma OneMore(o: nat, d: nat, m: nat, e: nat, v: nat, n: nat)
    requires n == o * d + m
    ensures n * e + v == o * (d * e) + (m * e + v)
  {
    assert (o * d + m) * e == (o * d) * e + m * e;
    Assoc(o, d, e);
  }

  /** Writing the top bits moves them from what is pending to what is written. */
  lemma Written(o: nat, t: nat, e: nat, d: nat, rest: nat)
    ensures o * (e * d) + (t * d + rest) == (o * e + t) * d + rest
  {
    Assoc(o, e, d);
    assert (o * e + t) * d == (o * e) * d + t * d;
  }

  /** The decoders' loop: `bits` of the accumulator are pending. */
  method Accumulate(s: seq<Byte>, k: nat) returns (ok: bool, out: seq<Byte>, acc: nat, bits: nat)
    requires IsCodec(k)
    ensures ok <==> Spelled(s, k)
    ensures ok ==> bits < 8 && 8 * |out| + bits == k * |s|
    ensures ok ==> Num(Values(s, k), Pow(2, k)) == Num(out, 256) * Pow(2, bits) + Rem(acc, Pow(2, bits))
  {
    hide Num, Pow, Rem, Quot, Val64, Val32;
    out, acc, bits := [], 0, 0;
    ghost var vs: seq<nat> := [];
    assert Num(vs, Pow(2, k)) == 0 && Num(out, 256) == 0 && Rem(acc, Pow(2, bits)) == 0 by { Initially(k); }
    for i := 0 to |s|
      invariant bits < 8 && 8 * |out| + bits == k * i && acc < ACC
      invariant |vs| == i && forall j | 0 <= j < i :: Val(s[j], k) == Some(vs[j])
      invariant Num(vs, Pow(2, k)) == Num(out, 256) * Pow(2, bits) + Rem(acc, Pow(2, bits))
    {
      var v := Val(s[i], k);
      if v.None? {
        return false, out, acc, bits;
      }
      SymVal(0, s[i], k);
      ghost var o, m := Num(out, 256), Rem(acc, Pow(2, bits));
      OneMore(o, Pow(2, bits), m, Pow(2, k), v.value, Num(vs, Pow(2, k)));
      NumAppend(vs, v.value, Pow(2, k));
      PowAdd(2, bits, k);
      Masked(acc, v.value, bits, k);
      Divides(acc * Pow(2, k) + v.value, ACC);
      vs := vs + [v.value];
      acc, bits := Rem(acc * Pow(2, k) + v.value, ACC), bits + k;
      if bits >= 8 {
        bits := bits - 8;
        Taken(acc, bits, 8);
        var t := Rem(Quot(acc, Pow(2, bits)), Pow(2, 8));
        TwoToEight();
        Divides(Quot(acc, Pow(2, bits)), 256);
        PowAdd(2, 8, bits);
        Written(o, t, 256, Pow(2, bits), Rem(acc, Pow(2, bits)));
        NumAppend(out, t, 256);
        out := out + [t];
      }
    }
    assert vs == Values(s, k);
    ok := true;
  }

  lemma Initially(k: nat)
    ensures Num([], Pow(2, k)) == 0 && Num([], 256) == 0 && Pow(2, 0) == 1 && Rem(0, Pow(2, 0)) == 0
  {}

  /** What the loop leaves is the decoding, if no whole symbol is left over and the pending bits are zero. */
  lemma IsDecoding(vs: seq<nat>, k: nat, out: seq<Byte>, bits: nat, low: nat)
    requires 0 < k <= 8 && bits < 8 && 8 * |out| + bits == k * |vs| && low < Pow(2, bits)
    requires Num(vs, Pow(2, k)) == Num(out, 256) * Pow(2, bits) + low
    ensures Decode(vs, k) == if bits >= k || low != 0 then None else Some(out)
  {
    hide Num, Pow, Digits, Quot, Rem;
    assert k * |vs| / 8 == |out| && k * |vs| % 8 == bits;
    OneWay(Num(out, 256), low, Pow(2, bits));
    NumBack(out, 256);
  }

  method FromB64u(s: seq<Byte>) returns (r: Option<seq<nat>>)
    ensures r == FromText(s, 6)
  {
    hide Num, Pow, Rem, Decode, Val64, Val32, Digits;
    var ok, out, acc, bits := Accumulate(s, 6);
    if ok {
      Divides(acc, Pow(2, bits));
      IsDecoding(Values(s, 6), 6, out, bits, Rem(acc, Pow(2, bits)));
    }
    if |s| % 4 == 1 || !ok || Rem(acc, Pow(2, bits)) != 0 {
      return None;
    }
    return Some(out);
  }

  method FromB32(s: seq<Byte>) returns (r: Option<seq<nat>>)
    ensures r == FromText(s, 5)
  {
    hide Num, Pow, Rem, Decode, Val64, Val32, Digits;
    var ok, out, acc, bits := Accumulate(s, 5);
    if ok {
      Divides(acc, Pow(2, bits));
      IsDecoding(Values(s, 5), 5, out, bits, Rem(acc, Pow(2, bits)));
    }
    if !ok || bits >= 5 || Rem(acc, Pow(2, bits)) != 0 {
      return None;
    }
    return Some(out);
  }

  /** The encoder's inner loop: whole symbols leave the accumulator. */
  method WriteSymbols(s: seq<Byte>, acc: nat, pending: nat, ghost vs: seq<nat>, ghost n: nat)
    returns (t: seq<Byte>, bits: nat, ghost ws: seq<nat>)
    requires pending < 13 && InBase(vs, 32) && s == Spell(vs, 5) && n == Num(vs, 32) * Pow(2, pending) + Rem(acc, Pow(2, pending))
    ensures bits < 5 && InBase(ws, 32) && t == Spell(ws, 5) && n == Num(ws, 32) * Pow(2, bits) + Rem(acc, Pow(2, bits))
    ensures 5 * |ws| + bits == 5 * |vs| + pending
  {
    hide Num, Pow, Rem, Quot, Sym32;
    t, bits, ws := s, pending, vs;
    assert Pow(2, 5) == 32 by { Powers(); }
    while bits >= 5
      invariant bits < 13 && 5 * |ws| + bits == 5 * |vs| + pending && InBase(ws, 32) && t == Spell(ws, 5)
      invariant n == Num(ws, 32) * Pow(2, bits) + Rem(acc, Pow(2, bits))
    {
      bits := bits - 5;
      Taken(acc, bits, 5);
      var v := Rem(Quot(acc, Pow(2, bits)), 32);
      Divides(Quot(acc, Pow(2, bits)), 32);
      PowAdd(2, 5, bits);
      Written(Num(ws, 32), v, 32, Pow(2, bits), Rem(acc, Pow(2, bits)));
      NumAppend(ws, v, 32);
      t, ws := t + [Sym32(v)], ws + [v];
    }
  }

  method B32(b: seq<Byte>) returns (s: seq<Byte>)
    ensures s == ToText(b, 5)
  {
    hide Num, Pow, Rem, Quot, Encode, Sym32;
    s := [];
    var acc: nat, bits: nat := 0, 0;
    ghost var vs: seq<nat> := [];
    assert b[..0] == [];
    assert Num(vs, 32) == 0 && Num(b[..0], 256) == 0 && Rem(acc, Pow(2, bits)) == 0 by { Initially(5); NumNothing(32); }
    assert Pow(2, 5) == 32 && Pow(2, 8) == 256 by { Powers(); }
    for i := 0 to |b|
      invariant bits < 5 && 5 * |vs| + bits == 8 * i && InBase(vs, 32) && s == Spell(vs, 5)
      invariant Num(b[..i], 256) == Num(vs, 32) * Pow(2, bits) + Rem(acc, Pow(2, bits))
    {
      assert b[..i + 1] == b[..i] + [b[i]];
      NumAppend(b[..i], b[i], 256);
      OneMore(Num(vs, 32), Pow(2, bits), Rem(acc, Pow(2, bits)), 256, b[i], Num(b[..i], 256));
      PowAdd(2, bits, 8);
      Masked(acc, b[i], bits, 8);
      acc, bits := Rem(acc * 256 + b[i], ACC), bits + 8;
      s, bits, vs := WriteSymbols(s, acc, bits, vs, Num(b[..i + 1], 256));
    }
    assert b[..|b|] == b;
    if bits > 0 {
      var t := Rem(acc * Pow(2, 5 - bits), 32);
      LastSymbol(acc, bits, t, Num(vs, 32), Num(b, 256));
      NumAppend(vs, t, 32);
      s, vs := s + [Sym32(t)], vs + [t];
      IsEncoding(b, vs, 5, 5 - bits);
    } else {
      assert Pow(2, 0) == 1 && Rem(acc, 1) == 0 by { Powers(); Divides(acc, 1); }
      IsEncoding(b, vs, 5, 0);
    }
  }

  /** The pending bits, filled with zeros, are the last symbol. */
  lemma LastSymbol(acc: nat, bits: nat, t: nat, o: nat, n: nat)
    requires 0 < bits < 5 && t == Rem(acc * Pow(2, 5 - bits), 32) && n == o * Pow(2, bits) + Rem(acc, Pow(2, bits))
    ensures t < 32 && n * Pow(2, 5 - bits) == o * 32 + t
  {
    hide Pow, Rem, Quot;
    assert Pow(2, 5) == 32 by { Powers(); }
    PowAdd(2, bits, 5 - bits);
    ShiftedRem(acc, 0, Pow(2, bits), Pow(2, 5 - bits));
    Divides(acc * Pow(2, 5 - bits), 32);
    OneMore(o, Pow(2, bits), Rem(acc, Pow(2, bits)), Pow(2, 5 - bits), 0, n);
  }
}
