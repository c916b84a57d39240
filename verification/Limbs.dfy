/**
  Scalars modulo the order of P-256 in four 64-bit limbs, in constant time (client-go/spake2.go). Words are
  naturals below 2^64; shifts, carries and borrows are written out as the arithmetic they do.
 */
module Limbs {

  const BASE := 0x1_0000_0000_0000_0000
  const TOP := 0x1_0000_0000_0000_0000_0000_0000_0000_0000_0000_0000_0000_0000_0000_0000_0000_0000

  /** The order of the group. */
  const N := 0xffff_ffff_0000_0000_ffff_ffff_ffff_ffff_bce6_faad_a717_9e84_f3b9_cac2_fc63_2551

  type Byte = x: nat | x < 256
  type Word = x: nat | x < BASE

  const N_LIMBS: seq<Word> := [0xf3b9_cac2_fc63_2551, 0xbce6_faad_a717_9e84, 0xffff_ffff_ffff_ffff, 0xffff_ffff_0000_0000]

  function Pow(b: nat, k: nat): (p: nat)
    ensures b > 0 ==> p > 0
  {
    if k == 0 then 1 else b * Pow(b, k - 1)
  }

  /** Limbs, the least first. */
  function Value(l: seq<Word>): nat { if l == [] then 0 else l[0] + BASE * Value(l[1..]) }

  /** Bytes, the greatest first. */
  function Big(b: seq<Byte>): nat { if b == [] then 0 else Big(b[..|b| - 1]) * 256 + b[|b| - 1] }

  // ---- Four limbs at a time ----

  lemma FourLimbs(l: seq<Word>)
    requires |l| == 4
    ensures Value(l) == l[0] + BASE * (l[1] + BASE * (l[2] + BASE * l[3])) < TOP
  {
    assert l[1..][1..] == l[2..] && l[2..][1..] == l[3..] && l[3..][1..] == [];
    assert Value(l[3..]) == l[3];
    assert Value(l[2..]) == l[2] + BASE * l[3];
    assert Value(l[1..]) == l[1] + BASE * (l[2] + BASE * l[3]);
  }

  lemma OrderLimbs()
    ensures Value(N_LIMBS) == N
  {
    FourLimbs(N_LIMBS);
  }

  /** The limbs up to `j`, weighed. */
  lemma {:induction false} ValueAppend(l: seq<Word>, w: Word)
    ensures Value(l + [w]) == Value(l) + Pow(BASE, |l|) * w
  {
    if l == [] {
      assert l + [w] == [w] && [w][1..] == [];
    } else {
      assert (l + [w])[1..] == l[1..] + [w];
      ValueAppend(l[1..], w);
      Assoc(BASE, Pow(BASE, |l| - 1), w);
    }
  }

  lemma Assoc(a: nat, b: nat, c: nat)
    ensures a * (b * c) == (a * b) * c
  {}

  lemma FourPow()
    ensures Pow(BASE, 4) == TOP
  {
    assert Pow(BASE, 1) == BASE;
    assert Pow(BASE, 2) == BASE * Pow(BASE, 1);
    assert Pow(BASE, 3) == BASE * Pow(BASE, 2);
    assert Pow(BASE, 4) == BASE * Pow(BASE, 3);
  }

  /** r becomes the low 256 bits of 2r + bit; the carry is the bit above them. */
  method ShiftIn(r: array<Word>, bit: nat) returns (c: nat)
    requires r.Length == 4 && bit <= 1
    modifies r
    ensures c <= 1 && Value(r[..]) + TOP * c == 2 * Value(old(r[..])) + bit
  {
    c := bit;
    ghost var was := r[..];
    for j := 0 to 4
      invariant c <= 1 && forall k | j <= k < 4 :: r[k] == was[k]
      invariant Value(r[..j]) + Pow(BASE, j) * c == 2 * Value(was[..j]) + bit
    {
      ghost var low, c0 := r[..j], c;
      var x := r[j];
      r[j], c := (2 * x + c) % BASE, 2 * x / BASE;
      Carry(x, c0);
      assert r[..j] == low && r[..j + 1] == low + [r[j]] && was[..j + 1] == was[..j] + [x];
      ValueAppend(low, r[j]);
      ValueAppend(was[..j], x);
      ShiftLine(Pow(BASE, j), Value(low), Value(was[..j]), x, r[j], c0, c, bit);
    }
    FourPow();
    assert r[..4] == r[..] && was[..4] == was;
  }

  lemma Carry(x: Word, c: nat)
    requires c <= 1
    ensures (2 * x + c) % BASE + BASE * (2 * x / BASE) == 2 * x + c && 2 * x / BASE <= 1
  {}

  lemma ShiftLine(p: nat, low: nat, was: nat, x: nat, y: nat, c0: nat, c: nat, bit: nat)
    requires low + p * c0 == 2 * was + bit && y + BASE * c == 2 * x + c0
    ensures low + p * y + BASE * p * c == 2 * (was + p * x) + bit
  {
    assert p * (y + BASE * c) == p * (2 * x + c0);
    assert p * (y + BASE * c) == p * y + BASE * p * c;
    assert p * (2 * x + c0) == 2 * (p * x) + p * c0;
  }

  /** bits.Sub64: the difference and the borrow out. */
  method Sub64(x: Word, y: Word, borrow: nat) returns (d: Word, out: nat)
    requires borrow <= 1
    ensures out <= 1 && d + y + borrow == x + BASE * out
  {
    if x >= y + borrow {
      d, out := x - y - borrow, 0;
    } else {
      d, out := x + BASE - y - borrow, 1;
    }
  }

  /** a - b in four limbs, and whether it borrowed. */
  method Subtract(a: seq<Word>, b: seq<Word>, d: array<Word>) returns (borrow: nat)
    requires |a| == |b| == d.Length == 4
    modifies d
    ensures borrow <= 1 && Value(d[..]) + Value(b) == Value(a) + TOP * borrow
  {
    borrow := 0;
    for j := 0 to 4
      invariant borrow <= 1 && Value(d[..j]) + Value(b[..j]) == Value(a[..j]) + Pow(BASE, j) * borrow
    {
      ghost var low, b0 := d[..j], borrow;
      d[j], borrow := Sub64(a[j], b[j], borrow);
      assert d[..j] == low && d[..j + 1] == low + [d[j]] && a[..j + 1] == a[..j] + [a[j]] && b[..j + 1] == b[..j] + [b[j]];
      ValueAppend(low, d[j]);
      ValueAppend(a[..j], a[j]);
      ValueAppend(b[..j], b[j]);
      BorrowLine(Pow(BASE, j), Value(low), Value(a[..j]), Value(b[..j]), a[j], b[j], d[j], b0, borrow);
    }
    FourPow();
    assert d[..4] == d[..] && a[..4] == a && b[..4] == b;
  }

  lemma BorrowLine(p: nat, d: nat, a: nat, b: nat, x: nat, y: nat, z: nat, b0: nat, b1: nat)
    requires d + b == a + p * b0 && z + y + b0 == x + BASE * b1
    ensures d + p * z + (b + p * y) == a + p * x + BASE * p * b1
  {
    assert p * (z + y + b0) == p * (x + BASE * b1);
    assert p * (z + y + b0) == p * z + p * y + p * b0;
    assert p * (x + BASE * b1) == p * x + BASE * p * b1;
  }

  // ---- Words as bits ----

  function And(x: nat, y: nat): nat { if x == 0 || y == 0 then 0 else 2 * And(x / 2, y / 2) + (x % 2) * (y % 2) }

  function Or(x: nat, y: nat): nat {
    if x == 0 then y else if y == 0 then x else 2 * Or(x / 2, y / 2) + if x % 2 == 1 || y % 2 == 1 then 1 else 0
  }

  function Xor(x: nat, y: nat): nat {
    if x == 0 then y else if y == 0 then x else 2 * Xor(x / 2, y / 2) + if x % 2 != y % 2 then 1 else 0
  }

  function Not(x: Word): Word { BASE - 1 - x }

  /** Negation wraps around 2^64. */
  function Neg(x: Word): Word { if x == 0 then 0 else BASE - x }

  lemma {:induction false} AndOnes(x: nat, k: nat)
    requires x < Pow(2, k)
    ensures And(x, Pow(2, k) - 1) == x
  {
    if x > 0 {
      AndOnes(x / 2, k - 1);
    }
  }

  lemma {:induction false} PowAdds(b: nat, j: nat, k: nat)
    ensures Pow(b, j + k) == Pow(b, j) * Pow(b, k)
  {
    if j > 0 {
      PowAdds(b, j - 1, k);
      Assoc(b, Pow(b, j - 1), Pow(b, k));
    }
  }

  lemma BaseBits()
    ensures Pow(2, 64) == BASE
  {
    Powers();
    PowAdds(2, 8, 8);
    PowAdds(2, 16, 16);
    PowAdds(2, 32, 32);
  }

  /** -(c | (borrow ^ 1)) */
  function Mask(c: nat, borrow: nat): Word
    requires c <= 1 && borrow <= 1
  {
    OfBits(c, borrow);
    Neg(Or(c, Xor(borrow, 1)))
  }

  lemma OfBits(c: nat, borrow: nat)
    requires c <= 1 && borrow <= 1
    ensures Or(c, Xor(borrow, 1)) == if c == 1 || borrow == 0 then 1 else 0
  {}

  /** Every bit of the mask is set when the doubled value overflowed or did not borrow, and otherwise none. */
  lemma MaskIs(c: nat, borrow: nat)
    requires c <= 1 && borrow <= 1
    ensures Mask(c, borrow) == if c == 1 || borrow == 0 then BASE - 1 else 0
  {
    OfBits(c, borrow);
  }

  /** r &^ mask | d & mask */
  function Choose(r: Word, d: Word, mask: Word): nat { Or(And(r, Not(mask)), And(d, mask)) }

  /** The masked choice is all of one word or all of the other. */
  lemma MaskChooses(r: Word, d: Word, c: nat, borrow: nat)
    requires c <= 1 && borrow <= 1
    ensures Choose(r, d, Mask(c, borrow)) == if c == 1 || borrow == 0 then d else r
  {
    MaskIs(c, borrow);
    BaseBits();
    AndOnes(r, 64);
    AndOnes(d, 64);
  }

  /** The order comes off exactly when the doubled value overflowed 256 bits or did not borrow. */
  lemma Choice(v: nat, bit: nat, shifted: nat, c: nat, d: nat, borrow: nat)
    requires v < N && bit <= 1 && c <= 1 && borrow <= 1 && shifted < TOP && d < TOP
    requires shifted + TOP * c == 2 * v + bit && d + N == shifted + TOP * borrow
    ensures c == 1 || borrow == 0 ==> d < N && d + N == 2 * v + bit
    ensures !(c == 1 || borrow == 0) ==> shifted < N && shifted == 2 * v + bit
  {}

  /** One bit: r becomes 2r + bit, less n if that is not below n. */
  method TakeBit(r: array<Word>, bit: nat)
    requires r.Length == 4 && bit <= 1 && Value(r[..]) < N
    modifies r
    ensures Value(r[..]) < N
    ensures Value(r[..]) == 2 * Value(old(r[..])) + bit || Value(r[..]) + N == 2 * Value(old(r[..])) + bit
  {
    hide Value;
    var c := ShiftIn(r, bit);
    ghost var shifted := r[..];
    var d := new Word[4];
    var borrow := Subtract(r[..], N_LIMBS, d);
    OrderLimbs();
    FourLimbs(shifted);
    FourLimbs(d[..]);
    Choice(Value(old(r[..])), bit, Value(shifted), c, Value(d[..]), borrow);
    Select(r, d, c, borrow);
    assert r[..] == if c == 1 || borrow == 0 then d[..] else shifted;
  }

  /** The loop over the limbs that keeps r or takes d, by the mask of carry and borrow. */
  method Select(r: array<Word>, d: array<Word>, c: nat, borrow: nat)
    requires r.Length == 4 && d.Length == 4 && r != d && c <= 1 && borrow <= 1
    modifies r
    ensures r[..] == if c == 1 || borrow == 0 then d[..] else old(r[..])
  {
    hide Choose, Mask;
    var mask := Mask(c, borrow);
    for j := 0 to 4
      invariant forall k | 0 <= k < j :: r[k] == if c == 1 || borrow == 0 then d[k] else old(r[k])
      invariant forall k | j <= k < 4 :: r[k] == old(r[k])
    {
      MaskChooses(r[j], d[j], c, borrow);
      r[j] := Choose(r[j], d[j], mask);
    }
  }

  // ---- Remainders ----

  lemma Apart(a: nat, b: nat, n: nat)
    requires a < b
    ensures b * n >= a * n + n
  {
    assert b * n - a * n == (b - a) * n;
    assert (b - a) * n == n + (b - a - 1) * n;
  }

  lemma Quotients(q: nat, m: nat, q1: nat, m1: nat, n: nat)
    requires n > 0 && q * n + m == q1 * n + m1 && m < n && m1 < n
    ensures m == m1
  {
    if q < q1 {
      Apart(q, q1, n);
    } else if q1 < q {
      Apart(q1, q, n);
    }
  }

  lemma Remainder(x: nat, q: nat, m: nat, n: nat)
    requires n > 0 && x == q * n + m && m < n
    ensures x % n == m
  {
    Quotients(q, m, x / n, x % n, n);
  }

  /** Doubling a remainder, and taking the order off at most once. */
  lemma DoubledRemainder(x: nat, m: nat, bit: nat, m1: nat)
    requires m == x % N && m1 < N && (m1 == 2 * m + bit || m1 + N == 2 * m + bit)
    ensures m1 == (2 * x + bit) % N
  {
    var q := x / N;
    if m1 == 2 * m + bit {
      Remainder(2 * x + bit, 2 * q, m1, N);
    } else {
      Remainder(2 * x + bit, 2 * q + 1, m1, N);
    }
  }

  /** The bits of a byte from bit `i` up, as a number. */
  function From(x: Byte, i: nat): nat { x / Pow(2, i) }

  function Bit(x: Byte, i: nat): nat { From(x, i) % 2 }

  lemma NextBit(x: Byte, i: nat)
    requires i < 8
    ensures From(x, i) == 2 * From(x, i + 1) + Bit(x, i) && Bit(x, i) <= 1
  {
    var p := Pow(2, i);
    assert Pow(2, i + 1) == 2 * p;
    Halves(x, p);
  }

  lemma Halves(x: nat, p: nat)
    requires p > 0
    ensures x / p / 2 == x / (2 * p)
  {
    var q, r := x / p, x % p;
    assert x == q * p + r;
    var h, b := q / 2, q % 2;
    assert q * p == h * (2 * p) + b * p;
    assert b * p + r < 2 * p;
    Quotient(x, h, b * p + r, 2 * p);
  }

  lemma Quotient(x: nat, q: nat, m: nat, n: nat)
    requires n > 0 && x == q * n + m && m < n
    ensures x / n == q
  {
    Remainder(x, q, m, n);
    if x / n < q {
      Apart(x / n, q, n);
    } else if q < x / n {
      Apart(q, x / n, n);
    }
  }

  /** The number read so far: what came before, then the bits of `x` from bit `i` up. */
  function Upto(before: nat, x: Byte, i: nat): nat
    requires i <= 8
  {
    before * Pow(2, 8 - i) + From(x, i)
  }

  lemma UptoEnds(before: nat, x: Byte)
    ensures Upto(before, x, 8) == before && Upto(before, x, 0) == before * 256 + x
  {
    Powers();
  }

  lemma UptoStep(before: nat, x: Byte, i: nat)
    requires i < 8
    ensures Upto(before, x, i) == 2 * Upto(before, x, i + 1) + Bit(x, i) && Bit(x, i) <= 1
  {
    hide From, Bit;
    NextBit(x, i);
    Doubles(before, 7 - i);
  }

  lemma Powers()
    ensures Pow(2, 0) == 1 && Pow(2, 1) == 2 && Pow(2, 2) == 4 && Pow(2, 3) == 8 && Pow(2, 4) == 16
    ensures Pow(2, 5) == 32 && Pow(2, 6) == 64 && Pow(2, 7) == 128 && Pow(2, 8) == 256
  {}

  lemma BigGrows(b: seq<Byte>, k: nat)
    requires k < |b|
    ensures Big(b[..k + 1]) == Big(b[..k]) * 256 + b[k]
  {
    assert b[..k + 1][..k] == b[..k];
  }

  /** The eight bits of one byte, the greatest first. */
  method TakeByte(r: array<Word>, x: Byte, ghost before: nat)
    requires r.Length == 4 && Value(r[..]) == before % N
    modifies r
    ensures Value(r[..]) == (before * 256 + x) % N
  {
    hide Value, Upto, Bit;
    UptoEnds(before, x);
    var i := 8;
    while i > 0
      invariant i <= 8 && Value(r[..]) == Upto(before, x, i) % N
    {
      ghost var m := Value(r[..]);
      i := i - 1;
      UptoStep(before, x, i);
      TakeBit(r, Bit(x, i));
      DoubledRemainder(Upto(before, x, i + 1), m, Bit(x, i), Value(r[..]));
    }
  }

  /** reduceModN: the remainder of a byte string of any length, in 32 bytes. */
  method ReduceModN(b: seq<Byte>) returns (out: seq<Byte>)
    ensures |out| == 32 && Big(out) == Big(b) % N
  {
    var r := new Word[4](_ => 0);
    FourLimbs(r[..]);
    assert b[..0] == [];
    for k := 0 to |b|
      invariant Value(r[..]) == Big(b[..k]) % N
    {
      hide Value, Big;
      TakeByte(r, b[k], Big(b[..k]));
      BigGrows(b, k);
    }
    assert b[..|b|] == b;
    out := LimbBytes(r[..]);
  }

  lemma Doubles(a: nat, k: nat)
    ensures a * Pow(2, k + 1) == 2 * (a * Pow(2, k))
  {
    Assoc(a, 2, Pow(2, k));
  }

  // ---- Bytes ----

  function WordBytes(w: nat, n: nat): (b: seq<Byte>)
    ensures |b| == n
  {
    if n == 0 then [] else WordBytes(w / 256, n - 1) + [w % 256]
  }

  lemma {:induction false} WordBack(w: nat, n: nat)
    requires w < Pow(256, n)
    ensures Big(WordBytes(w, n)) == w
  {
    if n > 0 {
      var b := WordBytes(w, n);
      assert b[..|b| - 1] == WordBytes(w / 256, n - 1);
      WordBack(w / 256, n - 1);
    }
  }

  lemma {:induction false} BigAppend(a: seq<Byte>, b: seq<Byte>)
    ensures Big(a + b) == Big(a) * Pow(256, |b|) + Big(b)
    decreases |b|
  {
    if b == [] {
      assert a + b == a;
    } else {
      var init := b[..|b| - 1];
      assert (a + b)[..|a + b| - 1] == a + init;
      BigAppend(a, init);
      Assoc(Big(a), Pow(256, |init|), 256);
      Assoc(256, Pow(256, |init|), 1);
    }
  }

  lemma EightBytes()
    ensures Pow(256, 8) == BASE
  {
    assert Pow(256, 2) == 256 * Pow(256, 1) && Pow(256, 1) == 256;
    assert Pow(256, 4) == 256 * Pow(256, 3) && Pow(256, 3) == 256 * Pow(256, 2);
    assert Pow(256, 6) == 256 * Pow(256, 5) && Pow(256, 5) == 256 * Pow(256, 4);
    assert Pow(256, 8) == 256 * Pow(256, 7) && Pow(256, 7) == 256 * Pow(256, 6);
  }

  /** limbBytes: each limb as eight bytes, the last limb first. */
  function LimbBytes(l: seq<Word>): (b: seq<Byte>)
    requires |l| == 4
    ensures |b| == 32 && Big(b) == Value(l)
  {
    LimbBytesBig(l);
    WordBytes(l[3], 8) + WordBytes(l[2], 8) + WordBytes(l[1], 8) + WordBytes(l[0], 8)
  }

  lemma LimbBytesBig(l: seq<Word>)
    requires |l| == 4
    ensures Big(WordBytes(l[3], 8) + WordBytes(l[2], 8) + WordBytes(l[1], 8) + WordBytes(l[0], 8)) == Value(l)
  {
    hide Big, WordBytes;
    EightBytes();
    FourLimbs(l);
    var a, b, c, d := WordBytes(l[3], 8), WordBytes(l[2], 8), WordBytes(l[1], 8), WordBytes(l[0], 8);
    WordBack(l[3], 8);
    WordBack(l[2], 8);
    WordBack(l[1], 8);
    WordBack(l[0], 8);
    BigAppend(a, b);
    BigAppend(a + b, c);
    BigAppend(a + b + c, d);
  }

  /** limbs: 32 bytes as four limbs, the last eight bytes first. */
  function LimbsOf(b: seq<Byte>): (l: seq<Word>)
    requires |b| == 32
    ensures |l| == 4 && Value(l) == Big(b)
  {
    LimbsOfBig(b);
    [Big(b[24..32]), Big(b[16..24]), Big(b[8..16]), Big(b[0..8])]
  }

  lemma {:induction false} BigBound(b: seq<Byte>)
    ensures Big(b) < Pow(256, |b|)
  {
    if b != [] {
      BigBound(b[..|b| - 1]);
    }
  }

  lemma LimbsOfBig(b: seq<Byte>)
    requires |b| == 32
    ensures Big(b[24..32]) < BASE && Big(b[16..24]) < BASE && Big(b[8..16]) < BASE && Big(b[0..8]) < BASE
    ensures Value([Big(b[24..32]), Big(b[16..24]), Big(b[8..16]), Big(b[0..8])]) == Big(b)
  {
    hide Big;
    EightBytes();
    BigBound(b[24..32]);
    BigBound(b[16..24]);
    BigBound(b[8..16]);
    BigBound(b[0..8]);
    var l: seq<Word> := [Big(b[24..32]), Big(b[16..24]), Big(b[8..16]), Big(b[0..8])];
    FourLimbs(l);
    assert b[0..16] == b[0..8] + b[8..16] && b[0..24] == b[0..16] + b[16..24] && b == b[0..24] + b[24..32];
    BigAppend(b[0..8], b[8..16]);
    BigAppend(b[0..16], b[16..24]);
    BigAppend(b[0..24], b[24..32]);
  }

  /** negModN: n - s for every s up to n; beyond n it wraps around 2^256. */
  method NegModN(s: seq<Byte>) returns (out: seq<Byte>)
    requires |s| == 32
    ensures |out| == 32 && Big(out) == if Big(s) <= N then N - Big(s) else N + TOP - Big(s)
    ensures 0 < Big(s) < N ==> 0 < Big(out) < N && (Big(s) + Big(out)) % N == 0
  {
    hide Value, Big;
    var d := new Word[4];
    var borrow := Subtract(N_LIMBS, LimbsOf(s), d);
    OrderLimbs();
    FourLimbs(d[..]);
    FourLimbs(LimbsOf(s));
    out := LimbBytes(d[..]);
    Remainder(N, 1, 0, N);
  }
}
