/**
  What keys and hashes are bound to (client-rust/src/noise.rs; Noise Protocol Framework, revision 34, sections 5.2 and
  5.3): over hash functions without collisions, two sides of a pattern that end with the same keys mixed the same
  secrets in the same order, and two that end with the same hash had the same prologue, known keys and messages.
 */
module NoiseBinding {

  import opened Basics
  import opened Noise

  const HASH_LEN: nat := 32

  /** No two inputs hash alike, and hashes have one length. */
  ghost predicate NoCollisions(c: Suite) {
    && (forall x, y :: c.hash(x) == c.hash(y) ==> x == y)
    && (forall x :: |c.hash(x)| == HASH_LEN)
    && (forall k, m, k', m' :: c.hmac(k, m) == c.hmac(k', m') ==> k == k' && m == m')
  }

  // ---- Secrets in the chaining key, data in the hash ----

  /** The chaining key after secrets were mixed in, in order: the first output of HKDF each time. */
  function Chained(c: Suite, ck: Bytes, secrets: seq<Bytes>): Bytes {
    if secrets == [] then ck
    else c.hmac(c.hmac(Chained(c, ck, secrets[..|secrets| - 1]), secrets[|secrets| - 1]), [1])
  }

  /** The hash after parts were mixed in, in order. */
  function Hashed(c: Suite, h: Bytes, parts: seq<Bytes>): Bytes {
    if parts == [] then h else c.hash(Hashed(c, h, parts[..|parts| - 1]) + parts[|parts| - 1])
  }

  lemma {:induction false} HashLength(c: Suite, h: Bytes, parts: seq<Bytes>)
    requires NoCollisions(c) && |h| == HASH_LEN
    ensures |Hashed(c, h, parts)| == HASH_LEN
  {}

  lemma {:induction false} SameSecrets(c: Suite, ck: Bytes, ck': Bytes, a: seq<Bytes>, b: seq<Bytes>)
    requires NoCollisions(c) && |a| == |b| && Chained(c, ck, a) == Chained(c, ck', b)
    ensures a == b && ck == ck'
    decreases |a|
  {
    if a != [] {
      var x, y := c.hmac(Chained(c, ck, a[..|a| - 1]), a[|a| - 1]), c.hmac(Chained(c, ck', b[..|b| - 1]), b[|b| - 1]);
      assert c.hmac(x, [1]) == c.hmac(y, [1]) && x == y;
      SameSecrets(c, ck, ck', a[..|a| - 1], b[..|b| - 1]);
      assert a == a[..|a| - 1] + [a[|a| - 1]] && b == b[..|b| - 1] + [b[|b| - 1]];
    }
  }

  lemma {:induction false} SameParts(c: Suite, h: Bytes, h': Bytes, a: seq<Bytes>, b: seq<Bytes>)
    requires NoCollisions(c) && |a| == |b| && |h| == |h'| == HASH_LEN && Hashed(c, h, a) == Hashed(c, h', b)
    ensures a == b && h == h'
    decreases |a|
  {
    if a != [] {
      var x, y := Hashed(c, h, a[..|a| - 1]), Hashed(c, h', b[..|b| - 1]);
      HashLength(c, h, a[..|a| - 1]);
      HashLength(c, h', b[..|b| - 1]);
      SameHalves(x, a[|a| - 1], y, b[|b| - 1]);
      SameParts(c, h, h', a[..|a| - 1], b[..|b| - 1]);
      assert a == a[..|a| - 1] + [a[|a| - 1]] && b == b[..|b| - 1] + [b[|b| - 1]];
    }
  }

  lemma SameHalves(x: Bytes, a: Bytes, y: Bytes, b: Bytes)
    requires |x| == |y| && x + a == y + b
    ensures x == y && a == b
  {
    assert x == (x + a)[..|x|] && y == (y + b)[..|y|];
    assert a == (x + a)[|x|..] && b == (y + b)[|y|..];
  }

  lemma {:induction false} ChainedMore(c: Suite, ck: Bytes, a: seq<Bytes>, b: seq<Bytes>)
    ensures Chained(c, ck, a + b) == Chained(c, Chained(c, ck, a), b)
    decreases |b|
  {
    if b == [] {
      assert a + b == a;
    } else {
      ChainedMore(c, ck, a, b[..|b| - 1]);
      assert (a + b)[..|a + b| - 1] == a + b[..|b| - 1];
    }
  }

  lemma {:induction false} HashedMore(c: Suite, h: Bytes, a: seq<Bytes>, b: seq<Bytes>)
    ensures Hashed(c, h, a + b) == Hashed(c, Hashed(c, h, a), b)
    decreases |b|
  {
    if b == [] {
      assert a + b == a;
    } else {
      HashedMore(c, h, a, b[..|b| - 1]);
      assert (a + b)[..|a + b| - 1] == a + b[..|b| - 1];
    }
  }

  // ---- What a side mixes, token by token ----

  /** The secrets and the parts of messages a side has mixed. */
  datatype Trace = Trace(secrets: seq<Bytes>, parts: seq<Bytes>)

  function Join(a: Trace, b: Trace): Trace { Trace(a.secrets + b.secrets, a.parts + b.parts) }

  predicate IsDh(t: Token) { t != E && t != S }

  /** The secret a token stands for: DH of the two keys it names. */
  function Secret(c: Suite, hs: Shake, t: Token): seq<Bytes> {
    var keys := DhKeys(hs, t);
    if keys.Err? then [] else
    var shared := c.dh(keys.value.0, keys.value.1);
    if shared.None? then [] else [shared.value]
  }

  /** Mixed by a token: its secret, or the bytes it has in the message. */
  function OfToken(c: Suite, hs: Shake, t: Token, bytes: Bytes): Trace {
    if IsDh(t) then Trace(Secret(c, hs, t), []) else Trace([], [bytes])
  }

  /** The trace is that of `ss1` as it came from `ss`. */
  predicate Traces(c: Suite, ss: Symmetric, ss1: Symmetric, tr: Trace) {
    ss1.ck == Chained(c, ss.ck, tr.secrets) && ss1.h == Hashed(c, ss.h, tr.parts)
  }

  lemma NoTrace(c: Suite, ss: Symmetric)
    ensures Traces(c, ss, ss, Trace([], []))
  {}

  lemma OneSecret(c: Suite, ss: Symmetric, secret: Bytes)
    ensures Traces(c, ss, MixKey(c, ss, secret), Trace([secret], []))
  {
    assert [secret][..0] == [];
  }

  lemma OnePart(c: Suite, ss: Symmetric, ss1: Symmetric, part: Bytes)
    requires ss1.ck == ss.ck && ss1.h == MixHash(c, ss, part).h
    ensures Traces(c, ss, ss1, Trace([], [part]))
  {
    assert [part][..0] == [];
  }

  lemma TracesJoin(c: Suite, ss: Symmetric, ss1: Symmetric, ss2: Symmetric, a: Trace, b: Trace)
    requires Traces(c, ss, ss1, a) && Traces(c, ss1, ss2, b)
    ensures Traces(c, ss, ss2, Join(a, b))
  {
    ChainedMore(c, ss.ck, a.secrets, b.secrets);
    HashedMore(c, ss.h, a.parts, b.parts);
  }

  lemma DhTraced(c: Suite, hs: Shake, t: Token)
    requires IsDh(t) && MixDh(c, hs, t).1.Ok?
    ensures |Secret(c, hs, t)| == 1 && Traces(c, hs.ss, MixDh(c, hs, t).0.ss, Trace(Secret(c, hs, t), []))
  {
    hide MixKey;
    OneSecret(c, hs.ss, Secret(c, hs, t)[0]);
  }

  lemma WriteTraced(c: Suite, hs: Shake, t: Token, eph: Bytes)
    requires WriteToken(c, hs, t, eph).1.Ok?
    ensures var (hs1, b) := WriteToken(c, hs, t, eph);
            && Traces(c, hs.ss, hs1.ss, OfToken(c, hs, t, b.value)) && (IsDh(t) ==> b.value == [] && |Secret(c, hs, t)| == 1)
  {
    hide Traces, MixDh, Secret;
    var (hs1, b) := WriteToken(c, hs, t, eph);
    if IsDh(t) {
      DhTraced(c, hs, t);
    } else {
      OnePart(c, hs.ss, hs1.ss, b.value);
    }
  }

  /** How many bytes a token that is read has in the message. */
  function Width(hs: Shake, t: Token): nat {
    match t
    case E => KEY_LEN
    case S => if hs.ss.cs.k.Some? then KEY_LEN + TAG_LEN else KEY_LEN
    case _ => 0
  }

  lemma ReadTraced(c: Suite, hs: Shake, t: Token, rest: Bytes)
    requires ReadToken(c, hs, t, rest).1.Ok?
    ensures Width(hs, t) <= |rest|
    ensures var (hs1, left) := ReadToken(c, hs, t, rest);
            && Traces(c, hs.ss, hs1.ss, OfToken(c, hs, t, rest[..Width(hs, t)])) && left.value == rest[Width(hs, t)..]
            && (IsDh(t) ==> |Secret(c, hs, t)| == 1)
  {
    hide Traces, MixDh, Secret;
    var (hs1, left) := ReadToken(c, hs, t, rest);
    if IsDh(t) {
      DhTraced(c, hs, t);
    } else {
      OnePart(c, hs.ss, hs1.ss, rest[..Width(hs, t)]);
    }
  }

  // ---- Messages ----

  function WriteTrace(c: Suite, hs: Shake, tokens: seq<Token>, eph: seq<Bytes>): Trace
    requires |eph| == |tokens|
    decreases |tokens|
  {
    if tokens == [] then Trace([], []) else
    var (hs1, b) := WriteToken(c, hs, tokens[0], eph[0]);
    if b.Err? then Trace([], []) else Join(OfToken(c, hs, tokens[0], b.value), WriteTrace(c, hs1, tokens[1..], eph[1..]))
  }

  function ReadTrace(c: Suite, hs: Shake, tokens: seq<Token>, rest: Bytes): Trace
    decreases |tokens|
  {
    if tokens == [] then Trace([], []) else
    var (hs1, left) := ReadToken(c, hs, tokens[0], rest);
    if left.Err? || Width(hs, tokens[0]) > |rest| then Trace([], [])
    else Join(OfToken(c, hs, tokens[0], rest[..Width(hs, tokens[0])]), ReadTrace(c, hs1, tokens[1..], left.value))
  }

  function Concat(parts: seq<Bytes>): Bytes { if parts == [] then [] else parts[0] + Concat(parts[1..]) }

  lemma {:induction false} ConcatMore(a: seq<Bytes>, b: seq<Bytes>)
    ensures Concat(a + b) == Concat(a) + Concat(b)
  {
    if a == [] {
      assert a + b == b;
    } else {
      assert (a + b)[1..] == a[1..] + b;
      ConcatMore(a[1..], b);
    }
  }

  /** How many secrets and parts the tokens of a message have. */
  function Secrets(tokens: seq<Token>): nat { if tokens == [] then 0 else (if IsDh(tokens[0]) then 1 else 0) + Secrets(tokens[1..]) }

  predicate Fits(tr: Trace, tokens: seq<Token>) { |tr.secrets| == Secrets(tokens) && |tr.secrets| + |tr.parts| == |tokens| }

  lemma ConcatOne(b: Bytes)
    ensures Concat([b]) == b && Concat([]) == []
  {
    assert [b][1..] == [];
  }

  lemma {:induction false} TokensWritten(c: Suite, hs: Shake, tokens: seq<Token>, eph: seq<Bytes>, out: Bytes)
    requires |eph| == |tokens| && WriteTokens(c, hs, tokens, eph, out).1.Ok?
    ensures var (hs1, b) := WriteTokens(c, hs, tokens, eph, out);
            var tr := WriteTrace(c, hs, tokens, eph);
            Traces(c, hs.ss, hs1.ss, tr) && Fits(tr, tokens) && b.value == out + Concat(tr.parts)
    decreases |tokens|
  {
    hide Traces, WriteToken, Secret;
    if tokens == [] {
      NoTrace(c, hs.ss);
      assert out + [] == out;
    } else {
      var (hs1, b) := WriteToken(c, hs, tokens[0], eph[0]);
      var one, more := OfToken(c, hs, tokens[0], b.value), WriteTrace(c, hs1, tokens[1..], eph[1..]);
      WriteTraced(c, hs, tokens[0], eph[0]);
      TokensWritten(c, hs1, tokens[1..], eph[1..], out + b.value);
      TracesJoin(c, hs.ss, hs1.ss, WriteTokens(c, hs, tokens, eph, out).0.ss, one, more);
      ConcatMore(one.parts, more.parts);
      ConcatOne(b.value);
      assert out + b.value + Concat(more.parts) == out + (b.value + Concat(more.parts));
    }
  }

  lemma {:induction false} TokensRead(c: Suite, hs: Shake, tokens: seq<Token>, rest: Bytes)
    requires ReadTokens(c, hs, tokens, rest).1.Ok?
    ensures var (hs1, left) := ReadTokens(c, hs, tokens, rest);
            var tr := ReadTrace(c, hs, tokens, rest);
            Traces(c, hs.ss, hs1.ss, tr) && Fits(tr, tokens) && rest == Concat(tr.parts) + left.value
    decreases |tokens|
  {
    hide Traces, ReadToken, Secret, Width;
    if tokens == [] {
      NoTrace(c, hs.ss);
      assert [] + rest == rest;
    } else {
      var (hs1, left) := ReadToken(c, hs, tokens[0], rest);
      ReadTraced(c, hs, tokens[0], rest);
      var w := Width(hs, tokens[0]);
      var one, more := OfToken(c, hs, tokens[0], rest[..w]), ReadTrace(c, hs1, tokens[1..], left.value);
      TokensRead(c, hs1, tokens[1..], left.value);
      TracesJoin(c, hs.ss, hs1.ss, ReadTokens(c, hs, tokens, rest).0.ss, one, more);
      ConcatMore(one.parts, more.parts);
      ConcatOne(rest[..w]);
      NoWidth(hs, tokens[0]);
      assert [] + Concat(more.parts) == Concat(more.parts);
      var last := ReadTokens(c, hs, tokens, rest).1.value;
      Regrouped(rest, w, Concat(more.parts), last);
    }
  }

  lemma Regrouped(rest: Bytes, w: nat, a: Bytes, b: Bytes)
    requires w <= |rest| && rest[w..] == a + b
    ensures rest == rest[..w] + a + b && (w == 0 ==> rest == a + b && rest[..w] == [])
  {
    assert rest == rest[..w] + rest[w..];
    assert rest[..w] + (a + b) == rest[..w] + a + b;
  }

  lemma NoWidth(hs: Shake, t: Token)
    ensures IsDh(t) ==> Width(hs, t) == 0
  {}

  // ---- A side's part of a handshake ----

  /** What a side does in its turn: it writes a message, or reads one. */
  datatype Move = Writes(payload: Bytes, eph: seq<Bytes>) | Reads(message: Bytes)

  /** How far a side came: its state, the messages written or read, and all it mixed. */
  datatype Played = Played(hs: Shake, messages: seq<Bytes>, tr: Trace) | Stuck

  predicate MayMove(hs: Shake, m: Move) {
    m.Writes? ==> hs.index < |hs.messages| && |m.eph| == |hs.messages[hs.index].tokens|
  }

  function Moved(c: Suite, hs: Shake, m: Move): (Shake, Result<Bytes>)
    requires MayMove(hs, m)
  {
    if m.Writes? then WriteMessage(c, hs, m.payload, m.eph)
    else
      var (hs1, r) := ReadMessage(c, hs, m.message);
      (hs1, if r.Err? then r else Ok(m.message))
  }

  /** What the tokens of a message mixed, and its payload as it stands in the message. */
  function MoveTrace(c: Suite, hs: Shake, m: Move, message: Bytes): Trace
    requires MayMove(hs, m) && hs.index < |hs.messages|
  {
    var hs0, tokens := hs.(index := hs.index + 1), hs.messages[hs.index].tokens;
    var tr := if m.Writes? then WriteTrace(c, hs0, tokens, m.eph) else ReadTrace(c, hs0, tokens, m.message);
    var n := |Concat(tr.parts)|;
    if n > |message| then tr else Join(tr, Trace([], [message[n..]]))
  }

  function Play(c: Suite, hs: Shake, moves: seq<Move>): Played
    decreases |moves|
  {
    if moves == [] then Played(hs, [], Trace([], []))
    else if !MayMove(hs, moves[0]) || hs.index >= |hs.messages| then Stuck
    else
      var (hs1, r) := Moved(c, hs, moves[0]);
      if r.Err? then Stuck else
      match Play(c, hs1, moves[1..])
      case Stuck => Stuck
      case Played(end, ms, tr) => Played(end, [r.value] + ms, Join(MoveTrace(c, hs, moves[0], r.value), tr))
  }

  /** A payload sealed, or opened, goes into the hash as it stands in the message. */
  lemma PayloadTraced(c: Suite, ss: Symmetric, text: Bytes)
    ensures var (ss1, ct) := EncryptAndHash(c, ss, text);
            ct.Ok? ==> Traces(c, ss, ss1, Trace([], [ct.value]))
    ensures var (ss1, pt) := DecryptAndHash(c, ss, text);
            pt.Ok? ==> Traces(c, ss, ss1, Trace([], [text]))
  {
    hide Traces;
    var (ss1, ct) := EncryptAndHash(c, ss, text);
    if ct.Ok? {
      OnePart(c, ss, ss1, ct.value);
    }
    var (ss2, pt) := DecryptAndHash(c, ss, text);
    if pt.Ok? {
      OnePart(c, ss, ss2, text);
    }
  }

  lemma WroteTraced(c: Suite, hs: Shake, m: Move)
    requires m.Writes? && MayMove(hs, m) && Moved(c, hs, m).1.Ok?
    ensures var (hs1, r) := Moved(c, hs, m);
            var tr := MoveTrace(c, hs, m, r.value);
            Traces(c, hs.ss, hs1.ss, tr) && r.value == Concat(tr.parts) && |tr.secrets| == Secrets(hs.messages[hs.index].tokens)
            && |tr.secrets| + |tr.parts| == |hs.messages[hs.index].tokens| + 1
  {
    hide Traces, WriteTokens, WriteTrace, EncryptAndHash;
    var hs0, tokens := hs.(index := hs.index + 1), hs.messages[hs.index].tokens;
    TokensWritten(c, hs0, tokens, m.eph, []);
    var (hs1, out) := WriteTokens(c, hs0, tokens, m.eph, []);
    var tr := WriteTrace(c, hs0, tokens, m.eph);
    PayloadTraced(c, hs1.ss, m.payload);
    var (ss2, ct) := EncryptAndHash(c, hs1.ss, m.payload);
    assert [] + Concat(tr.parts) == Concat(tr.parts);
    Ends(c, hs0.ss, hs1.ss, ss2, tr, ct.value);
  }

  lemma ReadsTraced(c: Suite, hs: Shake, m: Move)
    requires m.Reads? && hs.index < |hs.messages| && Moved(c, hs, m).1.Ok?
    ensures var (hs1, r) := Moved(c, hs, m);
            var tr := MoveTrace(c, hs, m, r.value);
            Traces(c, hs.ss, hs1.ss, tr) && r.value == Concat(tr.parts) && |tr.secrets| == Secrets(hs.messages[hs.index].tokens)
            && |tr.secrets| + |tr.parts| == |hs.messages[hs.index].tokens| + 1
  {
    hide Traces, ReadTokens, ReadTrace, DecryptAndHash;
    var hs0, tokens := hs.(index := hs.index + 1), hs.messages[hs.index].tokens;
    TokensRead(c, hs0, tokens, m.message);
    var (hs1, left) := ReadTokens(c, hs0, tokens, m.message);
    var tr := ReadTrace(c, hs0, tokens, m.message);
    PayloadTraced(c, hs1.ss, left.value);
    Ends(c, hs0.ss, hs1.ss, DecryptAndHash(c, hs1.ss, left.value).0, tr, left.value);
  }

  /** The payload comes last, in the message and in the trace. */
  lemma Ends(c: Suite, ss: Symmetric, ss1: Symmetric, ss2: Symmetric, tr: Trace, last: Bytes)
    requires Traces(c, ss, ss1, tr) && Traces(c, ss1, ss2, Trace([], [last]))
    ensures Traces(c, ss, ss2, Join(tr, Trace([], [last])))
    ensures Concat(Join(tr, Trace([], [last])).parts) == Concat(tr.parts) + last
    ensures var m := Concat(tr.parts) + last; |Concat(tr.parts)| <= |m| && m[|Concat(tr.parts)|..] == last
  {
    hide Traces;
    TracesJoin(c, ss, ss1, ss2, tr, Trace([], [last]));
    ConcatMore(tr.parts, [last]);
    ConcatOne(last);
  }

  /** How many secrets and parts a stretch of a pattern has. */
  function SecretsIn(messages: seq<Turn>): nat { if messages == [] then 0 else Secrets(messages[0].tokens) + SecretsIn(messages[1..]) }

  function MixesIn(messages: seq<Turn>): nat { if messages == [] then 0 else |messages[0].tokens| + 1 + MixesIn(messages[1..]) }

  /** The messages a list of parts makes up: each message's parts, put together. */
  function Grouped(parts: seq<Bytes>, messages: seq<Turn>): seq<Bytes>
    decreases |messages|
  {
    if messages == [] then []
    else
      var n := |messages[0].tokens| + 1 - Secrets(messages[0].tokens);
      if 0 <= n <= |parts| then [Concat(parts[..n])] + Grouped(parts[n..], messages[1..]) else []
  }

  lemma MoveKeeps(c: Suite, hs: Shake, m: Move)
    requires MayMove(hs, m) && hs.index < |hs.messages| && Moved(c, hs, m).1.Ok?
    ensures var hs1 := Moved(c, hs, m).0; hs1.index == hs.index + 1 && hs1.messages == hs.messages && hs1.initiator == hs.initiator
  {
    hide EncryptAndHash, DecryptAndHash, WriteTokens, ReadTokens;
    var hs0, tokens := hs.(index := hs.index + 1), hs.messages[hs.index].tokens;
    if m.Writes? {
      WriteKeeps(c, hs0, tokens, m.eph, []);
    } else {
      ReadKeeps(c, hs0, tokens, m.message);
    }
  }

  lemma {:induction false} WriteKeeps(c: Suite, hs: Shake, tokens: seq<Token>, eph: seq<Bytes>, out: Bytes)
    requires |eph| == |tokens|
    ensures var h := WriteTokens(c, hs, tokens, eph, out).0; h.index == hs.index && h.messages == hs.messages && h.initiator == hs.initiator
    decreases |tokens|
  {
    hide EncryptAndHash, MixHash, MixKey;
    if tokens != [] {
      var (h, r) := WriteToken(c, hs, tokens[0], eph[0]);
      if r.Ok? {
        WriteKeeps(c, h, tokens[1..], eph[1..], out + r.value);
      }
    }
  }

  lemma {:induction false} ReadKeeps(c: Suite, hs: Shake, tokens: seq<Token>, rest: Bytes)
    ensures var h := ReadTokens(c, hs, tokens, rest).0; h.index == hs.index && h.messages == hs.messages && h.initiator == hs.initiator
    decreases |tokens|
  {
    hide DecryptAndHash, MixHash, MixKey;
    if tokens != [] {
      var (h, r) := ReadToken(c, hs, tokens[0], rest);
      if r.Ok? {
        ReadKeeps(c, h, tokens[1..], r.value);
      }
    }
  }

  lemma MoveTraced(c: Suite, hs: Shake, m: Move)
    requires MayMove(hs, m) && hs.index < |hs.messages| && Moved(c, hs, m).1.Ok?
    ensures var (hs1, r) := Moved(c, hs, m);
            var tr, tokens := MoveTrace(c, hs, m, r.value), hs.messages[hs.index].tokens;
            && Traces(c, hs.ss, hs1.ss, tr) && r.value == Concat(tr.parts)
            && |tr.secrets| == Secrets(tokens) && |tr.secrets| + |tr.parts| == |tokens| + 1
            && hs1.index == hs.index + 1 && hs1.messages == hs.messages && hs1.initiator == hs.initiator
  {
    hide Moved, MoveTrace, Traces;
    MoveKeeps(c, hs, m);
    if m.Writes? {
      WroteTraced(c, hs, m);
    } else {
      ReadsTraced(c, hs, m);
    }
  }

  /** A side's whole way: what it mixed is in its chaining key and hash, and the messages are the parts put together. */
  lemma {:induction false} PlayTraced(c: Suite, hs: Shake, moves: seq<Move>)
    requires hs.index + |moves| <= |hs.messages| && Play(c, hs, moves).Played?
    ensures var end := Play(c, hs, moves);
            var turns := hs.messages[hs.index..hs.index + |moves|];
            && Traces(c, hs.ss, end.hs.ss, end.tr) && end.messages == Grouped(end.tr.parts, turns)
            && |end.tr.secrets| == SecretsIn(turns) && |end.tr.secrets| + |end.tr.parts| == MixesIn(turns)
            && end.hs.index == hs.index + |moves| && end.hs.messages == hs.messages && end.hs.initiator == hs.initiator
    decreases |moves|
  {
    hide Moved, MoveTrace, Traces;
    var turns := hs.messages[hs.index..hs.index + |moves|];
    if moves == [] {
      NoTrace(c, hs.ss);
      assert turns == [];
    } else {
      MoveTraced(c, hs, moves[0]);
      var (hs1, r) := Moved(c, hs, moves[0]);
      PlayTraced(c, hs1, moves[1..]);
      var tr, rest := MoveTrace(c, hs, moves[0], r.value), Play(c, hs1, moves[1..]);
      TracesJoin(c, hs.ss, hs1.ss, rest.hs.ss, tr, rest.tr);
      assert turns[0] == hs.messages[hs.index] && turns[1..] == hs.messages[hs.index + 1..hs.index + |moves|];
      var parts := tr.parts + rest.tr.parts;
      assert parts[..|tr.parts|] == tr.parts && parts[|tr.parts|..] == rest.tr.parts;
    }
  }

  // ---- What equal keys and equal hashes mean ----

  /** Both directions' keys of the ciphers after a handshake. */
  predicate SameKeys(a: Transport, b: Transport) { a.send.k == b.recv.k && a.recv.k == b.send.k }

  /** Equal transport keys mean equal chaining keys: the two outputs of HKDF are those of one input. */
  lemma SplitBinds(c: Suite, a: Symmetric, b: Symmetric)
    requires NoCollisions(c) && Split(c, a).0.k == Split(c, b).0.k
    ensures a.ck == b.ck
  {
    var x, y := c.hmac(a.ck, []), c.hmac(b.ck, []);
    assert c.hmac(x, [1]) == c.hmac(y, [1]);
    assert x == y;
  }

  /**
    Two sides that began in any way, one as initiator, and went through the same pattern: if they end with the same
    transport keys, they began with the same chaining key and mixed the same secrets, token by token; if they end with
    the same handshake hash, they began with the same hash and their messages were the same.
   */
  lemma KeysAndHashBind(c: Suite, a: Shake, b: Shake, ma: seq<Move>, mb: seq<Move>)
    requires NoCollisions(c) && a.initiator && !b.initiator && a.messages == b.messages && a.index == b.index == 0
    requires |ma| == |mb| == |a.messages| && |a.ss.h| == |b.ss.h| == HASH_LEN
    requires Play(c, a, ma).Played? && Play(c, b, mb).Played?
    ensures var pa, pb := Play(c, a, ma), Play(c, b, mb);
            && MaybeSplit(c, pa.hs).Some? && MaybeSplit(c, pb.hs).Some?
            && var ta, tb := MaybeSplit(c, pa.hs).value, MaybeSplit(c, pb.hs).value;
               && (SameKeys(ta, tb) ==> a.ss.ck == b.ss.ck && pa.tr.secrets == pb.tr.secrets)
               && (ta.hash == tb.hash ==> a.ss.h == b.ss.h && pa.messages == pb.messages)
  {
    hide NoCollisions, Split, Play;
    assert a.messages[0..|ma|] == a.messages;
    PlayTraced(c, a, ma);
    PlayTraced(c, b, mb);
    var pa, pb := Play(c, a, ma), Play(c, b, mb);
    var ta, tb := MaybeSplit(c, pa.hs).value, MaybeSplit(c, pb.hs).value;
    if SameKeys(ta, tb) {
      SplitBinds(c, pa.hs.ss, pb.hs.ss);
      SameSecrets(c, a.ss.ck, b.ss.ck, pa.tr.secrets, pb.tr.secrets);
    }
    if ta.hash == tb.hash {
      SameParts(c, a.ss.h, b.ss.h, pa.tr.parts, pb.tr.parts);
    }
  }

  // ---- From the beginning ----

  /** The static keys a side takes as known before the first message, in the order of the pattern. */
  function KnownOf(mine: bool, s: Option<KeyPair>, rs: Option<Bytes>, tokens: seq<Token>): seq<Bytes> {
    if tokens == [] then []
    else
      var key := if mine then (if s.Some? then s.value.public else []) else if rs.Some? then rs.value else [];
      [key] + KnownOf(mine, s, rs, tokens[1..])
  }

  function Known(initiator: bool, s: Option<KeyPair>, rs: Option<Bytes>, pre: seq<Turn>): seq<Bytes> {
    if pre == [] then [] else KnownOf(pre[0].initiator == initiator, s, rs, pre[0].tokens) + Known(initiator, s, rs, pre[1..])
  }

  lemma {:induction false} TokensHashed(c: Suite, ss: Symmetric, mine: bool, s: Option<KeyPair>, rs: Option<Bytes>, tokens: seq<Token>)
    requires PreTokens(c, ss, mine, s, rs, tokens).Ok?
    ensures var ss1 := PreTokens(c, ss, mine, s, rs, tokens).value;
            ss1.ck == ss.ck && ss1.h == Hashed(c, ss.h, KnownOf(mine, s, rs, tokens)) && |KnownOf(mine, s, rs, tokens)| == |tokens|
    decreases |tokens|
  {
    if tokens != [] {
      var key := if mine then s.value.public else rs.value;
      TokensHashed(c, MixHash(c, ss, key), mine, s, rs, tokens[1..]);
      HashedMore(c, ss.h, [key], KnownOf(mine, s, rs, tokens[1..]));
      assert [key][..0] == [];
      assert Hashed(c, ss.h, [key]) == c.hash(ss.h + key);
    }
  }

  function Tokens(pre: seq<Turn>): nat { if pre == [] then 0 else |pre[0].tokens| + Tokens(pre[1..]) }

  lemma {:induction false} PreHashed(c: Suite, ss: Symmetric, initiator: bool, s: Option<KeyPair>, rs: Option<Bytes>, pre: seq<Turn>)
    requires PreMessages(c, ss, initiator, s, rs, pre).Ok?
    ensures var ss1 := PreMessages(c, ss, initiator, s, rs, pre).value;
            ss1.ck == ss.ck && ss1.h == Hashed(c, ss.h, Known(initiator, s, rs, pre)) && |Known(initiator, s, rs, pre)| == Tokens(pre)
    decreases |pre|
  {
    if pre != [] {
      var mine := pre[0].initiator == initiator;
      TokensHashed(c, ss, mine, s, rs, pre[0].tokens);
      var ss1 := PreTokens(c, ss, mine, s, rs, pre[0].tokens).value;
      PreHashed(c, ss1, initiator, s, rs, pre[1..]);
      HashedMore(c, ss.h, KnownOf(mine, s, rs, pre[0].tokens), Known(initiator, s, rs, pre[1..]));
    }
  }

  /** A handshake's first hash is of the protocol's name, the prologue and the keys known before. */
  lemma BeginHashed(c: Suite, p: Pattern, initiator: bool, prologue: Bytes, s: Option<KeyPair>, rs: Option<Bytes>)
    requires NoCollisions(c) && Begin(c, p, initiator, prologue, s, rs).Ok?
    ensures var hs := Begin(c, p, initiator, prologue, s, rs).value;
            var name := Initial(c, ProtocolName(p.name)).h;
            && |name| == HASH_LEN && hs.ss.ck == name && hs.ss.h == Hashed(c, name, [prologue] + Known(initiator, s, rs, p.pre))
            && |hs.ss.h| == HASH_LEN && |Known(initiator, s, rs, p.pre)| == Tokens(p.pre)
            && hs.initiator == initiator && hs.messages == p.messages && hs.index == 0
  {
    var ss := Initial(c, ProtocolName(p.name));
    PreHashed(c, MixHash(c, ss, prologue), initiator, s, rs, p.pre);
    HashedMore(c, ss.h, [prologue], Known(initiator, s, rs, p.pre));
    assert [prologue][..0] == [];
    assert Hashed(c, ss.h, [prologue]) == c.hash(ss.h + prologue);
    HashLength(c, ss.h, [prologue] + Known(initiator, s, rs, p.pre));
  }

  /**
    Whatever two sides of a pattern were given and whatever came between them: if they end with the same hash, they
    had the same prologue, took the same static keys as known, and wrote and read the same messages; if they end with
    the same keys, they mixed the same secrets. A side with another prologue, key, message or secret ends with another
    hash, or other keys.
   */
  lemma HandshakeBinds(c: Suite, p: Pattern, prologue: Bytes, s: Option<KeyPair>, rs: Option<Bytes>, a: Shake, ma: seq<Move>,
                       prologue': Bytes, s': Option<KeyPair>, rs': Option<Bytes>, b: Shake, mb: seq<Move>)
    requires NoCollisions(c) && |ma| == |mb| == |p.messages|
    requires Begin(c, p, true, prologue, s, rs) == Ok(a) && Begin(c, p, false, prologue', s', rs') == Ok(b)
    requires Play(c, a, ma).Played? && Play(c, b, mb).Played?
    ensures var pa, pb := Play(c, a, ma), Play(c, b, mb);
            && MaybeSplit(c, pa.hs).Some? && MaybeSplit(c, pb.hs).Some?
            && var ta, tb := MaybeSplit(c, pa.hs).value, MaybeSplit(c, pb.hs).value;
               && (SameKeys(ta, tb) ==> pa.tr.secrets == pb.tr.secrets)
               && (ta.hash == tb.hash ==>
                     prologue == prologue' && Known(true, s, rs, p.pre) == Known(false, s', rs', p.pre) && pa.messages == pb.messages)
  {
    hide NoCollisions, Play, MaybeSplit, Hashed, Known, Begin, Initial, SameKeys, ProtocolName, Tokens;
    BeginHashed(c, p, true, prologue, s, rs);
    BeginHashed(c, p, false, prologue', s', rs');
    KeysAndHashBind(c, a, b, ma, mb);
    if a.ss.h == b.ss.h {
      var ka, kb := Known(true, s, rs, p.pre), Known(false, s', rs', p.pre);
      SameParts(c, a.ss.ck, b.ss.ck, [prologue] + ka, [prologue'] + kb);
      SameFirst(prologue, ka, prologue', kb);
    }
  }

  lemma SameFirst(x: Bytes, a: seq<Bytes>, y: Bytes, b: seq<Bytes>)
    requires [x] + a == [y] + b
    ensures x == y && a == b
  {
    assert ([x] + a)[0] == x && ([y] + b)[0] == y;
    assert ([x] + a)[1..] == a && ([y] + b)[1..] == b;
  }

  // ---- What opens under a key ----

  /** Sealing is without collisions, and only what was sealed so opens. */
  ghost predicate Authentic(c: Suite) {
    && (forall k, n, ad, ct :: c.open(k, n, ad, ct).Some? ==> ct == c.seal(k, n, ad, c.open(k, n, ad, ct).value))
    && (forall k, n, ad, p, k', n', ad', p' :: c.seal(k, n, ad, p) == c.seal(k', n', ad', p') ==> k == k' && n == n' && ad == ad' && p == p')
  }

  /** A part sealed by one side opens for the other only if it has the same key, nonce and hash so far, and then to what was sealed. */
  lemma OpenedMeans(c: Suite, w: Symmetric, r: Symmetric, text: Bytes)
    requires Authentic(c) && w.cs.k.Some? && r.cs.k.Some?
    requires EncryptAndHash(c, w, text).1.Ok? && DecryptAndHash(c, r, EncryptAndHash(c, w, text).1.value).1.Ok?
    ensures r.cs == w.cs && r.h == w.h && DecryptAndHash(c, r, EncryptAndHash(c, w, text).1.value).1.value == text
  {
    var ct := EncryptAndHash(c, w, text).1.value;
    assert ct == c.seal(w.cs.k.value, w.cs.n, w.h, text);
    assert ct == c.seal(r.cs.k.value, r.cs.n, r.h, c.open(r.cs.k.value, r.cs.n, r.h, ct).value);
  }

  /** The key a secret makes is bound to it and to all mixed before it, begins at nonce zero, and is not the chaining key. */
  lemma KeyBinds(c: Suite, a: Symmetric, x: Bytes, b: Symmetric, y: Bytes)
    requires NoCollisions(c)
    ensures MixKey(c, a, x).cs.k == MixKey(c, b, y).cs.k ==> a.ck == b.ck && x == y
    ensures MixKey(c, a, x).cs.k != Some(MixKey(c, a, x).ck) && MixKey(c, a, x).cs.k.Some? && MixKey(c, a, x).cs.n == 0
    ensures MixKey(c, a, x).h == a.h
  {
    var t, u := c.hmac(a.ck, x), c.hmac(b.ck, y);
    var o, q := c.hmac(t, [1]), c.hmac(u, [1]);
    if c.hmac(t, o + [2]) == c.hmac(u, q + [2]) {
      assert t == u;
    }
    assert (o + [2])[|o|] == 2 && o + [2] != [1];
  }

  /** The two directions have different keys, and the first output of HKDF is what the initiator sends under. */
  lemma DirectionsApart(c: Suite, hs: Shake)
    requires NoCollisions(c) && MaybeSplit(c, hs).Some?
    ensures var t := MaybeSplit(c, hs).value;
            && t.send.k != t.recv.k && t.send.n == t.recv.n == 0 && t.hash == hs.ss.h
            && (if hs.initiator then t.send else t.recv).k == Some(c.hmac(c.hmac(hs.ss.ck, []), [1]))
  {
    var t := c.hmac(hs.ss.ck, []);
    var o := c.hmac(t, [1]);
    assert (o + [2])[|o|] == 2 && o + [2] != [1];
  }

  /** A message is read only in the other side's turn, while one is due, and within 65535 bytes. */
  lemma ReadNeeds(c: Suite, hs: Shake, message: Bytes)
    ensures ReadMessage(c, hs, message).1.Ok? ==>
              |message| <= MAX_MESSAGE && hs.index < |hs.messages| && hs.messages[hs.index].initiator != hs.initiator
    ensures |message| > MAX_MESSAGE || hs.index >= |hs.messages| || hs.messages[hs.index].initiator == hs.initiator ==>
              ReadMessage(c, hs, message).0 == hs
  {
    hide ReadTokens, ReadPayload;
  }

  /** Patterns of two letters begin with their own names: each has its own first hash. */
  lemma NamesApart(c: Suite, a: string, b: string)
    requires |a| == |b| == 2 && Initial(c, ProtocolName(a)).h == Initial(c, ProtocolName(b)).h
    ensures a == b && Initial(c, ProtocolName(a)).h == ProtocolName(a)
  {
    NameLength(a);
    NameLength(b);
    var x, y := ProtocolName(a), ProtocolName(b);
    assert x + Zeros(0) == x && y + Zeros(0) == y;
    forall i | 0 <= i < 2 ensures a[i] == b[i] {
      assert x[6 + i] == ("Noise_" + a + "_25519_ChaChaPoly_SHA256")[6 + i] as int == a[i] as int;
      assert y[6 + i] == ("Noise_" + b + "_25519_ChaChaPoly_SHA256")[6 + i] as int == b[i] as int;
    }
  }

  lemma NameLength(a: string)
    requires |a| == 2
    ensures |ProtocolName(a)| == 32
  {
    assert |"Noise_"| == 6 && |"_25519_ChaChaPoly_SHA256"| == 24;
  }
}
