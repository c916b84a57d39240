/**
  The Noise engine (client-rust/src/noise.rs; Noise Protocol Framework, revision 34, sections 5.1
  to 5.3) over an abstract suite: hashing, DH and AEAD are parameters, of which only the usual
  equations are known.
 */
module Noise {

  import opened Basics

  type Bytes = seq<int>

  datatype Error =
    | NonceExhausted | DecryptionFailed | Missing | LowOrder | UnexpectedToken | Truncated | BadStatic
    | AlreadyComplete | NotOurTurn | TooLong | UnsupportedPre

  datatype Result<T> = Ok(value: T) | Err(error: Error)

  const MAX_NONCE: nat := 0xffff_ffff_ffff_ffff
  const MAX_MESSAGE: nat := 65535
  const TAG_LEN: nat := 16
  const KEY_LEN: nat := 32

  /** The primitives. `dh` fails on a low-order public key. */
  datatype Suite = Suite(
    hash: Bytes -> Bytes,
    hmac: (Bytes, Bytes) -> Bytes,
    dh: (Bytes, Bytes) -> Option<Bytes>,
    public: Bytes -> Bytes,
    seal: (Bytes, nat, Bytes, Bytes) -> Bytes,
    open: (Bytes, nat, Bytes, Bytes) -> Option<Bytes>)

  /** What is known of them: opening undoes sealing, both sides of a DH agree, lengths are fixed. */
  ghost predicate Lawful(c: Suite) {
    && (forall k, n, ad, p :: c.open(k, n, ad, c.seal(k, n, ad, p)) == Some(p))
    && (forall k, n, ad, p :: |c.seal(k, n, ad, p)| == |p| + TAG_LEN)
    && (forall a, b :: c.dh(a, c.public(b)) == c.dh(b, c.public(a)))
    && (forall a :: |c.public(a)| == KEY_LEN)
  }

  // ---- CipherState (section 5.1) ----

  datatype Cipher = Cipher(k: Option<Bytes>, n: nat)

  function EncryptWithAd(c: Suite, cs: Cipher, ad: Bytes, pt: Bytes): (Cipher, Result<Bytes>) {
    if cs.k.None? then (cs, Ok(pt))
    else if cs.n == MAX_NONCE then (cs, Err(NonceExhausted))
    else (cs.(n := cs.n + 1), Ok(c.seal(cs.k.value, cs.n, ad, pt)))
  }

  function DecryptWithAd(c: Suite, cs: Cipher, ad: Bytes, ct: Bytes): (Cipher, Result<Bytes>) {
    if cs.k.None? then (cs, Ok(ct))
    else if cs.n == MAX_NONCE then (cs, Err(NonceExhausted))
    else
      var pt := c.open(cs.k.value, cs.n, ad, ct);
      if pt.None? then (cs, Err(DecryptionFailed)) else (cs.(n := cs.n + 1), Ok(pt.value))
  }

  // ---- SymmetricState (section 5.2) ----

  datatype Symmetric = Symmetric(ck: Bytes, h: Bytes, cs: Cipher)

  function Hkdf2(c: Suite, ck: Bytes, ikm: Bytes): (Bytes, Bytes) {
    var temp := c.hmac(ck, ikm);
    var o1 := c.hmac(temp, [1]);
    (o1, c.hmac(temp, o1 + [2]))
  }

  function MixKey(c: Suite, ss: Symmetric, ikm: Bytes): Symmetric {
    var (ck, k) := Hkdf2(c, ss.ck, ikm);
    ss.(ck := ck, cs := Cipher(Some(k), 0))
  }

  function MixHash(c: Suite, ss: Symmetric, data: Bytes): Symmetric { ss.(h := c.hash(ss.h + data)) }

  function EncryptAndHash(c: Suite, ss: Symmetric, pt: Bytes): (Symmetric, Result<Bytes>) {
    var (cs, r) := EncryptWithAd(c, ss.cs, ss.h, pt);
    if r.Err? then (ss.(cs := cs), r) else (MixHash(c, ss.(cs := cs), r.value), r)
  }

  function DecryptAndHash(c: Suite, ss: Symmetric, ct: Bytes): (Symmetric, Result<Bytes>) {
    var (cs, r) := DecryptWithAd(c, ss.cs, ss.h, ct);
    if r.Err? then (ss.(cs := cs), r) else (MixHash(c, ss.(cs := cs), ct), r)
  }

  function Split(c: Suite, ss: Symmetric): (Cipher, Cipher) {
    var (k1, k2) := Hkdf2(c, ss.ck, []);
    (Cipher(Some(k1), 0), Cipher(Some(k2), 0))
  }

  // ---- HandshakeState (section 5.3) ----

  datatype Token = E | S | Ee | Es | Se | Ss

  /** A message of a pattern: whether the initiator writes it, and its tokens. */
  datatype Turn = Turn(initiator: bool, tokens: seq<Token>)

  datatype Pattern = Pattern(name: string, pre: seq<Turn>, messages: seq<Turn>)

  datatype KeyPair = KeyPair(private: Bytes, public: Bytes)

  function FromPrivate(c: Suite, private: Bytes): KeyPair { KeyPair(private, c.public(private)) }

  /** The transport ciphers from one side's point of view. */
  datatype Transport = Transport(send: Cipher, recv: Cipher, hash: Bytes)

  datatype Shake = Shake(
    ss: Symmetric, initiator: bool, messages: seq<Turn>,
    s: Option<KeyPair>, e: Option<KeyPair>, rs: Option<Bytes>, re: Option<Bytes>, index: nat)

  /** The keys a DH token takes: this side's private key and the other side's public key. */
  function DhKeys(hs: Shake, t: Token): Result<(Bytes, Bytes)> {
    var mine := if t == Ee || (t == Es && hs.initiator) || (t == Se && !hs.initiator) then hs.e else hs.s;
    var theirs := if t == Ee || (t == Es && !hs.initiator) || (t == Se && hs.initiator) then hs.re else hs.rs;
    if t == E || t == S then Err(UnexpectedToken)
    else if mine.None? || theirs.None? then Err(Missing)
    else Ok((mine.value.private, theirs.value))
  }

  function MixDh(c: Suite, hs: Shake, t: Token): (Shake, Result<()>) {
    var keys := DhKeys(hs, t);
    if keys.Err? then (hs, Err(keys.error)) else
    var shared := c.dh(keys.value.0, keys.value.1);
    if shared.None? then (hs, Err(LowOrder)) else (hs.(ss := MixKey(c, hs.ss, shared.value)), Ok(()))
  }

  /** One token written: the state after it, and the bytes it adds. `eph` is the fresh private key. */
  function WriteToken(c: Suite, hs: Shake, t: Token, eph: Bytes): (Shake, Result<Bytes>) {
    match t
    case E =>
      var e := FromPrivate(c, eph);
      (hs.(ss := MixHash(c, hs.ss, e.public), e := Some(e)), Ok(e.public))
    case S =>
      if hs.s.None? then (hs, Err(Missing)) else
      var (ss, ct) := EncryptAndHash(c, hs.ss, hs.s.value.public);
      (hs.(ss := ss), ct)
    case _ =>
      var (hs1, r) := MixDh(c, hs, t);
      (hs1, if r.Err? then Err(r.error) else Ok([]))
  }

  function WriteTokens(c: Suite, hs: Shake, tokens: seq<Token>, eph: seq<Bytes>, out: Bytes): (Shake, Result<Bytes>)
    requires |eph| == |tokens|
    decreases |tokens|
  {
    if tokens == [] then (hs, Ok(out)) else
    var (hs1, r) := WriteToken(c, hs, tokens[0], eph[0]);
    if r.Err? then (hs1, r) else WriteTokens(c, hs1, tokens[1..], eph[1..], out + r.value)
  }

  function MaybeSplit(c: Suite, hs: Shake): Option<Transport> {
    if hs.index < |hs.messages| then None else
    var (c1, c2) := Split(c, hs.ss);
    Some(if hs.initiator then Transport(c1, c2, hs.ss.h) else Transport(c2, c1, hs.ss.h))
  }

  /** The payload that ends a message, and its length limit. */
  function WritePayload(c: Suite, hs: Shake, payload: Bytes, out: Bytes): (Shake, Result<Bytes>) {
    var (ss, ct) := EncryptAndHash(c, hs.ss, payload);
    var hs1 := hs.(ss := ss);
    if ct.Err? then (hs1, ct)
    else if |out + ct.value| > MAX_MESSAGE then (hs1, Err(TooLong))
    else (hs1, Ok(out + ct.value))
  }

  predicate MayWrite(hs: Shake) { hs.index < |hs.messages| && hs.messages[hs.index].initiator == hs.initiator }

  function WriteMessage(c: Suite, hs: Shake, payload: Bytes, eph: seq<Bytes>): (Shake, Result<Bytes>)
    requires hs.index < |hs.messages| ==> |eph| == |hs.messages[hs.index].tokens|
  {
    if hs.index >= |hs.messages| then (hs, Err(AlreadyComplete))
    else if hs.messages[hs.index].initiator != hs.initiator then (hs, Err(NotOurTurn))
    else
      var (hs1, out) := WriteTokens(c, hs.(index := hs.index + 1), hs.messages[hs.index].tokens, eph, []);
      if out.Err? then (hs1, out) else WritePayload(c, hs1, payload, out.value)
  }

  /** One token read from the front of `rest`: the state after it, and what is left. */
  function ReadToken(c: Suite, hs: Shake, t: Token, rest: Bytes): (Shake, Result<Bytes>) {
    match t
    case E =>
      if |rest| < KEY_LEN then (hs, Err(Truncated)) else
      var re := rest[..KEY_LEN];
      (hs.(ss := MixHash(c, hs.ss, re), re := Some(re)), Ok(rest[KEY_LEN..]))
    case S =>
      var n := if hs.ss.cs.k.Some? then KEY_LEN + TAG_LEN else KEY_LEN;
      if |rest| < n then (hs, Err(Truncated)) else
      var (ss, pt) := DecryptAndHash(c, hs.ss, rest[..n]);
      if pt.Err? then (hs.(ss := ss), pt)
      else if |pt.value| != KEY_LEN then (hs.(ss := ss), Err(BadStatic))
      else (hs.(ss := ss, rs := Some(pt.value)), Ok(rest[n..]))
    case _ =>
      var (hs1, r) := MixDh(c, hs, t);
      (hs1, if r.Err? then Err(r.error) else Ok(rest))
  }

  function ReadTokens(c: Suite, hs: Shake, tokens: seq<Token>, rest: Bytes): (Shake, Result<Bytes>)
    decreases |tokens|
  {
    if tokens == [] then (hs, Ok(rest)) else
    var (hs1, r) := ReadToken(c, hs, tokens[0], rest);
    if r.Err? then (hs1, r) else ReadTokens(c, hs1, tokens[1..], r.value)
  }

  function ReadPayload(c: Suite, hs: Shake, rest: Bytes): (Shake, Result<Bytes>) {
    var (ss, pt) := DecryptAndHash(c, hs.ss, rest);
    (hs.(ss := ss), pt)
  }

  function ReadMessage(c: Suite, hs: Shake, message: Bytes): (Shake, Result<Bytes>) {
    if |message| > MAX_MESSAGE then (hs, Err(TooLong))
    else if hs.index >= |hs.messages| then (hs, Err(AlreadyComplete))
    else if hs.messages[hs.index].initiator == hs.initiator then (hs, Err(NotOurTurn))
    else
      var (hs1, rest) := ReadTokens(c, hs.(index := hs.index + 1), hs.messages[hs.index].tokens, message);
      if rest.Err? then (hs1, rest) else ReadPayload(c, hs1, rest.value)
  }

  // ---- Opening ----

  /** The pre-message tokens: static keys each side already knows. */
  function PreTokens(c: Suite, ss: Symmetric, mine: bool, s: Option<KeyPair>, rs: Option<Bytes>, tokens: seq<Token>): Result<Symmetric>
    decreases |tokens|
  {
    if tokens == [] then Ok(ss)
    else if tokens[0] != S then Err(UnsupportedPre)
    else if (if mine then s.None? else rs.None?) then Err(Missing)
    else PreTokens(c, MixHash(c, ss, if mine then s.value.public else rs.value), mine, s, rs, tokens[1..])
  }

  function PreMessages(c: Suite, ss: Symmetric, initiator: bool, s: Option<KeyPair>, rs: Option<Bytes>, pre: seq<Turn>): Result<Symmetric>
    decreases |pre|
  {
    if pre == [] then Ok(ss) else
    var r := PreTokens(c, ss, pre[0].initiator == initiator, s, rs, pre[0].tokens);
    if r.Err? then r else PreMessages(c, r.value, initiator, s, rs, pre[1..])
  }

  function Zeros(n: nat): (z: Bytes)
    ensures |z| == n
  {
    seq(n, _ => 0)
  }

  function Initial(c: Suite, protocol: Bytes): Symmetric {
    var h := if |protocol| <= 32 then protocol + Zeros(32 - |protocol|) else c.hash(protocol);
    Symmetric(h, h, Cipher(None, 0))
  }

  function Ascii(s: string): Bytes { seq(|s|, i requires 0 <= i < |s| => s[i] as int) }

  function ProtocolName(name: string): Bytes { Ascii("Noise_" + name + "_25519_ChaChaPoly_SHA256") }

  function Begin(c: Suite, p: Pattern, initiator: bool, prologue: Bytes, s: Option<KeyPair>, rs: Option<Bytes>): Result<Shake> {
    var ss := PreMessages(c, MixHash(c, Initial(c, ProtocolName(p.name)), prologue), initiator, s, rs, p.pre);
    if ss.Err? then Err(ss.error) else Ok(Shake(ss.value, initiator, p.messages, s, None, rs, None, 0))
  }

  // ---- The object ----

  class HandshakeState {
    var ss: Symmetric
    const initiator: bool
    const messages: seq<Turn>
    const s: Option<KeyPair>
    var e: Option<KeyPair>
    var rs: Option<Bytes>
    var re: Option<Bytes>
    var index: nat

    ghost function View(): Shake
      reads this
    {
      Shake(ss, initiator, messages, s, e, rs, re, index)
    }

    constructor (start: Shake)
      ensures View() == start
    {
      ss, initiator, messages, s := start.ss, start.initiator, start.messages, start.s;
      e, rs, re, index := start.e, start.rs, start.re, start.index;
    }

    method MixDhToken(c: Suite, t: Token) returns (r: Result<()>)
      modifies this`ss
      ensures (View(), r) == MixDh(c, old(View()), t)
    {
      var mine := if t == Ee || (t == Es && initiator) || (t == Se && !initiator) then e else s;
      var theirs := if t == Ee || (t == Es && !initiator) || (t == Se && initiator) then re else rs;
      if t == E || t == S {
        return Err(UnexpectedToken);
      }
      if mine.None? || theirs.None? {
        return Err(Missing);
      }
      var shared := c.dh(mine.value.private, theirs.value);
      if shared.None? {
        return Err(LowOrder);
      }
      ss := MixKey(c, ss, shared.value);
      return Ok(());
    }

    /** One token of a message written. */
    method WriteOne(c: Suite, t: Token, eph: Bytes) returns (r: Result<Bytes>)
      modifies this`ss, this`e
      ensures (View(), r) == WriteToken(c, old(View()), t, eph)
    {
      hide EncryptAndHash, MixHash;
      match t {
        case E =>
          var pair := FromPrivate(c, eph);
          ss := MixHash(c, ss, pair.public);
          e := Some(pair);
          return Ok(pair.public);
        case S =>
          if s.None? {
            return Err(Missing);
          }
          var (ss1, ct) := EncryptAndHash(c, ss, s.value.public);
          ss := ss1;
          return ct;
        case _ =>
          var ok := MixDhToken(c, t);
          return if ok.Err? then Err(ok.error) else Ok([]);
      }
    }

    method Write(c: Suite, payload: Bytes, eph: seq<Bytes>) returns (r: Result<Bytes>)
      requires index < |messages| ==> |eph| == |messages[index].tokens|
      modifies this
      ensures (View(), r) == WriteMessage(c, old(View()), payload, eph)
    {
      hide WriteToken, EncryptAndHash;
      if index >= |messages| {
        return Err(AlreadyComplete);
      }
      if messages[index].initiator != initiator {
        return Err(NotOurTurn);
      }
      var tokens := messages[index].tokens;
      index := index + 1;
      var out := [];
      ghost var goal := WriteTokens(c, View(), tokens, eph, []);
      var i := 0;
      assert tokens[0..] == tokens && eph[0..] == eph;
      while i < |tokens|
        invariant 0 <= i <= |tokens|
        invariant WriteTokens(c, View(), tokens[i..], eph[i..], out) == goal
      {
        assert tokens[i..][1..] == tokens[i + 1..] && eph[i..][1..] == eph[i + 1..];
        var part := WriteOne(c, tokens[i], eph[i]);
        if part.Err? {
          return part;
        }
        out := out + part.value;
        i := i + 1;
      }
      var (ss2, ct) := EncryptAndHash(c, ss, payload);
      ss := ss2;
      if ct.Err? {
        return ct;
      }
      if |out + ct.value| > MAX_MESSAGE {
        return Err(TooLong);
      }
      return Ok(out + ct.value);
    }

    /** One token read from the front of what is left of a message. */
    method ReadOne(c: Suite, t: Token, rest: Bytes) returns (r: Result<Bytes>)
      modifies this`ss, this`re, this`rs
      ensures (View(), r) == ReadToken(c, old(View()), t, rest)
    {
      hide DecryptAndHash, MixHash;
      match t {
        case E =>
          if |rest| < KEY_LEN {
            return Err(Truncated);
          }
          var key := rest[..KEY_LEN];
          ss := MixHash(c, ss, key);
          re := Some(key);
          return Ok(rest[KEY_LEN..]);
        case S =>
          var n := if ss.cs.k.Some? then KEY_LEN + TAG_LEN else KEY_LEN;
          if |rest| < n {
            return Err(Truncated);
          }
          var (ss1, pt) := DecryptAndHash(c, ss, rest[..n]);
          ss := ss1;
          if pt.Err? {
            return pt;
          }
          if |pt.value| != KEY_LEN {
            return Err(BadStatic);
          }
          rs := Some(pt.value);
          return Ok(rest[n..]);
        case _ =>
          var ok := MixDhToken(c, t);
          return if ok.Err? then Err(ok.error) else Ok(rest);
      }
    }

    method Read(c: Suite, message: Bytes) returns (r: Result<Bytes>)
      modifies this
      ensures (View(), r) == ReadMessage(c, old(View()), message)
    {
      hide ReadToken, DecryptAndHash;
      if |message| > MAX_MESSAGE {
        return Err(TooLong);
      }
      if index >= |messages| {
        return Err(AlreadyComplete);
      }
      if messages[index].initiator == initiator {
        return Err(NotOurTurn);
      }
      var tokens := messages[index].tokens;
      index := index + 1;
      var rest := message;
      ghost var goal := ReadTokens(c, View(), tokens, message);
      var i := 0;
      assert tokens[0..] == tokens;
      while i < |tokens|
        invariant 0 <= i <= |tokens|
        invariant ReadTokens(c, View(), tokens[i..], rest) == goal
      {
        assert tokens[i..][1..] == tokens[i + 1..];
        var left := ReadOne(c, tokens[i], rest);
        if left.Err? {
          return left;
        }
        rest := left.value;
        i := i + 1;
      }
      var (ss2, pt) := DecryptAndHash(c, ss, rest);
      ss := ss2;
      return pt;
    }

    /** The transport ciphers, once the last message is through. */
    method Finish(c: Suite) returns (t: Option<Transport>)
      ensures t == MaybeSplit(c, View())
      ensures t.Some? <==> index >= |messages|
      ensures t.Some? ==> t.value.send.n == t.value.recv.n == 0 && t.value.hash == ss.h
    {
      if index < |messages| {
        return None;
      }
      var (c1, c2) := Split(c, ss);
      return Some(if initiator then Transport(c1, c2, ss.h) else Transport(c2, c1, ss.h));
    }
  }
}
