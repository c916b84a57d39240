/**
  The two sides of a Noise handshake agree, for any pattern: what one writes the other reads, both
  end with the same keys mirrored, and transport messages then open in order.
 */
module NoiseAgreement {
  import opened Basics
  import opened Noise

  // ---- What the two sides have in common ----

  ghost predicate OwnKeys(c: Suite, a: Shake) {
    && (a.s.Some? ==> a.s.value.public == c.public(a.s.value.private))
    && (a.e.Some? ==> a.e.value.public == c.public(a.e.value.private))
  }

  /** What `a` knows of `b`'s keys is right, and it has seen `b`'s ephemeral key once there is one. */
  predicate Knows(a: Shake, b: Shake) {
    && (a.rs.Some? ==> b.s.Some? && a.rs.value == b.s.value.public)
    && (a.re.Some? <==> b.e.Some?)
    && (a.re.Some? ==> a.re.value == b.e.value.public)
  }

  ghost predicate Paired(c: Suite, a: Shake, b: Shake) {
    && a.ss == b.ss && a.initiator != b.initiator && a.messages == b.messages && a.index == b.index
    && OwnKeys(c, a) && OwnKeys(c, b) && Knows(a, b) && Knows(b, a)
  }

  // ---- Which patterns can be read ----

  /** Whether a DH token takes the static key of the side that writes it. */
  predicate TakesStatic(t: Token, initiator: bool) {
    t == Ss || (t == Se && initiator) || (t == Es && !initiator)
  }

  /** The reader can follow a message: the writer's static key is known before it is used. */
  predicate Readable(tokens: seq<Token>, initiator: bool, known: bool)
    decreases |tokens|
  {
    tokens == []
    || ((TakesStatic(tokens[0], initiator) ==> known) && Readable(tokens[1..], initiator, known || tokens[0] == S))
  }

  // ---- One token ----

  lemma SealOpens(c: Suite, ss: Symmetric, pt: Bytes)
    requires Lawful(c)
    ensures var (ss1, ct) := EncryptAndHash(c, ss, pt);
            ct.Ok? ==> DecryptAndHash(c, ss, ct.value) == (ss1, Ok(pt))
                       && |ct.value| == |pt| + (if ss.cs.k.Some? then TAG_LEN else 0)
  {
    if ss.cs.k.Some? {
      var sealed := c.seal(ss.cs.k.value, ss.cs.n, ss.h, pt);
      assert c.open(ss.cs.k.value, ss.cs.n, ss.h, sealed) == Some(pt);
    }
  }

  lemma DhAgrees(c: Suite, w: Shake, r: Shake, t: Token)
    requires Lawful(c) && Paired(c, w, r) && t != E && t != S && MixDh(c, w, t).1.Ok?
    ensures if TakesStatic(t, w.initiator) && r.rs.None? then MixDh(c, r, t) == (r, Err(Missing))
            else MixDh(c, r, t).1.Ok? && Paired(c, MixDh(c, w, t).0, MixDh(c, r, t).0) && MixDh(c, r, t).0.rs == r.rs
  {
    var (a, pubB) := DhKeys(w, t).value;
    if TakesStatic(t, w.initiator) && r.rs.None? {
    } else {
      var (b, pubA) := DhKeys(r, t).value;
      assert pubB == c.public(b) && pubA == c.public(a);
      assert c.dh(a, c.public(b)) == c.dh(b, c.public(a));
    }
  }

  lemma TokenAgrees(c: Suite, w: Shake, r: Shake, t: Token, eph: Bytes, rest: Bytes)
    requires Lawful(c) && Paired(c, w, r) && WriteToken(c, w, t, eph).1.Ok?
    ensures var (w1, b) := WriteToken(c, w, t, eph);
            var (r1, left) := ReadToken(c, r, t, b.value + rest);
            if TakesStatic(t, w.initiator) && r.rs.None? then left.Err?
            else left == Ok(rest) && Paired(c, w1, r1) && (r1.rs.Some? <==> r.rs.Some? || t == S)
  {
    var b := WriteToken(c, w, t, eph).1.value;
    match t
    case E =>
      assert |c.public(eph)| == KEY_LEN;
      assert (b + rest)[..KEY_LEN] == b && (b + rest)[KEY_LEN..] == rest;
    case S =>
      assert |c.public(w.s.value.private)| == KEY_LEN;
      SealOpens(c, w.ss, w.s.value.public);
      assert (b + rest)[..|b|] == b && (b + rest)[|b|..] == rest;
    case _ =>
      assert b + rest == rest;
      DhAgrees(c, w, r, t);
  }

  // ---- One message ----

  /** The bytes written are appended to what was there. */
  lemma {:induction false} OutGrows(c: Suite, hs: Shake, tokens: seq<Token>, eph: seq<Bytes>, out: Bytes)
    requires |eph| == |tokens|
    ensures var (h0, r0) := WriteTokens(c, hs, tokens, eph, []);
            var (h1, r1) := WriteTokens(c, hs, tokens, eph, out);
            h0 == h1 && r0.Ok? == r1.Ok? && (r0.Ok? ==> r1.value == out + r0.value)
    decreases |tokens|
  {
    hide WriteToken;
    if tokens == [] {
    } else {
      var (h, r) := WriteToken(c, hs, tokens[0], eph[0]);
      if r.Ok? {
        OutGrows(c, h, tokens[1..], eph[1..], out + r.value);
        OutGrows(c, h, tokens[1..], eph[1..], [] + r.value);
        var r0 := WriteTokens(c, h, tokens[1..], eph[1..], []).1;
        if r0.Ok? {
          assert (out + r.value) + r0.value == out + (([] + r.value) + r0.value);
        }
      }
    }
  }

  lemma {:induction false} TokensAgree(c: Suite, w: Shake, r: Shake, tokens: seq<Token>, eph: seq<Bytes>, rest: Bytes)
    requires Lawful(c) && Paired(c, w, r) && |eph| == |tokens|
    requires WriteTokens(c, w, tokens, eph, []).1.Ok?
    ensures var (w1, b) := WriteTokens(c, w, tokens, eph, []);
            var (r1, left) := ReadTokens(c, r, tokens, b.value + rest);
            if Readable(tokens, w.initiator, r.rs.Some?)
            then left == Ok(rest) && Paired(c, w1, r1) && (r1.rs.Some? <==> r.rs.Some? || S in tokens)
            else left.Err?
    decreases |tokens|
  {
    hide WriteToken, ReadToken, Lawful, Paired;
    if tokens == [] {
      assert [] + rest == rest;
    } else {
      var t, ts, es := tokens[0], tokens[1..], eph[1..];
      var (w1, r1) := WriteToken(c, w, t, eph[0]);
      OutGrows(c, w1, ts, es, [] + r1.value);
      var tail := WriteTokens(c, w1, ts, es, []).1.value;
      var b := WriteTokens(c, w, tokens, eph, []).1.value;
      assert b + rest == r1.value + (tail + rest);
      TokenAgrees(c, w, r, t, eph[0], tail + rest);
      assert w1.initiator == w.initiator by { SameSide(c, w, t, eph[0]); }
      if TakesStatic(t, w.initiator) ==> r.rs.Some? {
        var r2 := ReadToken(c, r, t, r1.value + (tail + rest)).0;
        TokensAgree(c, w1, r2, ts, es, rest);
      }
      assert tokens == [t] + ts;
    }
  }

  lemma SameSide(c: Suite, w: Shake, t: Token, eph: Bytes)
    ensures WriteToken(c, w, t, eph).0.initiator == w.initiator
  {}

  /**
    A message that was written reads back to its payload and leaves both sides in step, exactly
    when the pattern makes the writer's static key known to the reader before it is used.
   */
  lemma MessageAgrees(c: Suite, w: Shake, r: Shake, payload: Bytes, eph: seq<Bytes>)
    requires Lawful(c) && Paired(c, w, r) && MayWrite(w) && |eph| == |w.messages[w.index].tokens|
    requires WriteMessage(c, w, payload, eph).1.Ok?
    ensures var (w1, m) := WriteMessage(c, w, payload, eph);
            var (r1, got) := ReadMessage(c, r, m.value);
            && (got.Ok? <==> Readable(w.messages[w.index].tokens, w.initiator, r.rs.Some?))
            && (got.Ok? ==> got.value == payload && Paired(c, w1, r1) && w1.index == w.index + 1
                            && w1.messages == w.messages && w1.initiator == w.initiator
                            && (r1.rs.Some? <==> r.rs.Some? || S in w.messages[w.index].tokens)
                            && (w1.rs.Some? <==> w.rs.Some?))
  {
    hide WriteToken, ReadToken, Lawful;
    var tokens := w.messages[w.index].tokens;
    var w0, r0 := w.(index := w.index + 1), r.(index := r.index + 1);
    var (w1, out) := WriteTokens(c, w0, tokens, eph, []);
    SealOpens(c, w1.ss, payload);
    var ct := EncryptAndHash(c, w1.ss, payload).1.value;
    TokensAgree(c, w0, r0, tokens, eph, ct);
    Unmoved(c, w0, tokens, eph, []);
  }

  lemma {:induction false} Unmoved(c: Suite, hs: Shake, tokens: seq<Token>, eph: seq<Bytes>, out: Bytes)
    requires |eph| == |tokens|
    ensures var h := WriteTokens(c, hs, tokens, eph, out).0;
            h.rs == hs.rs && h.index == hs.index && h.messages == hs.messages && h.initiator == hs.initiator
    decreases |tokens|
  {
    if tokens != [] {
      var (h, r) := WriteToken(c, hs, tokens[0], eph[0]);
      if r.Ok? {
        Unmoved(c, h, tokens[1..], eph[1..], out + r.value);
      }
    }
  }

  // ---- The whole handshake ----

  datatype Talk = Done(i: Shake, r: Shake, heard: seq<Bytes>) | NotWritten | NotRead

  /** The messages of a pattern exchanged in turn, each delivered as it was written. */
  function Converse(c: Suite, i: Shake, r: Shake, payloads: seq<Bytes>, ephs: seq<seq<Bytes>>): Talk
    requires |payloads| == |ephs|
    decreases |payloads|
  {
    if payloads == [] then Done(i, r, [])
    else if i.index >= |i.messages| || r.index >= |r.messages| then NotWritten
    else
      var turn := i.messages[i.index];
      var (w, d) := if turn.initiator then (i, r) else (r, i);
      if w.messages[w.index].tokens != turn.tokens || |ephs[0]| != |turn.tokens| then NotWritten else
      var (w1, m) := WriteMessage(c, w, payloads[0], ephs[0]);
      if m.Err? then NotWritten else
      var (d1, got) := ReadMessage(c, d, m.value);
      if got.Err? then NotRead else
      match Converse(c, if turn.initiator then w1 else d1, if turn.initiator then d1 else w1, payloads[1..], ephs[1..])
      case Done(i2, r2, heard) => Done(i2, r2, [got.value] + heard)
      case other => other
  }

  /** Every message can be followed, given which side already knows the other's static key. */
  predicate PatternReadable(messages: seq<Turn>, initiatorKnows: bool, responderKnows: bool)
    decreases |messages|
  {
    messages == [] ||
    var m := messages[0];
    && Readable(m.tokens, m.initiator, if m.initiator then responderKnows else initiatorKnows)
    && PatternReadable(messages[1..],
                       initiatorKnows || (!m.initiator && S in m.tokens),
                       responderKnows || (m.initiator && S in m.tokens))
  }

  /**
    Agreement for any pattern: once both sides have begun in step and every message could be
    written, each is heard as it was sent and the sides finish in step, exactly when the pattern
    is readable.
   */
  lemma {:induction false} HandshakeAgrees(c: Suite, i: Shake, r: Shake, payloads: seq<Bytes>, ephs: seq<seq<Bytes>>)
    requires Lawful(c) && Paired(c, i, r) && i.initiator && i.index <= |i.messages|
    requires |payloads| == |ephs| == |i.messages| - i.index
    requires !Converse(c, i, r, payloads, ephs).NotWritten?
    ensures match Converse(c, i, r, payloads, ephs)
            case Done(i1, r1, heard) =>
              && PatternReadable(i.messages[i.index..], i.rs.Some?, r.rs.Some?)
              && heard == payloads && Paired(c, i1, r1) && i1.initiator && i1.index == |i1.messages|
            case NotRead => !PatternReadable(i.messages[i.index..], i.rs.Some?, r.rs.Some?)
            case NotWritten => true
    decreases |payloads|
  {
    hide Lawful, WriteMessage, ReadMessage, Readable;
    if payloads != [] {
      var turn, later := i.messages[i.index], i.messages[i.index + 1..];
      assert i.messages[i.index..][1..] == later;
      var w, d := if turn.initiator then i else r, if turn.initiator then r else i;
      MessageAgrees(c, w, d, payloads[0], ephs[0]);
      var (w1, m) := WriteMessage(c, w, payloads[0], ephs[0]);
      var (d1, got) := ReadMessage(c, d, m.value);
      if got.Ok? {
        HandshakeAgrees(c, if turn.initiator then w1 else d1, if turn.initiator then d1 else w1, payloads[1..], ephs[1..]);
      }
    }
  }

  /** After the last message the transport keys are mirrored and the handshake hashes equal. */
  lemma TransportsMirror(c: Suite, i: Shake, r: Shake)
    requires Paired(c, i, r) && i.initiator && i.index >= |i.messages|
    ensures MaybeSplit(c, i).Some? && MaybeSplit(c, r).Some?
    ensures var ti, tr := MaybeSplit(c, i).value, MaybeSplit(c, r).value;
            ti.send == tr.recv && ti.recv == tr.send && ti.hash == tr.hash && ti.send.n == ti.recv.n == 0
  {}

  // ---- Beginning in step ----

  lemma {:induction false} PreAgrees(c: Suite, ss: Symmetric, s: Option<KeyPair>, rs: Option<Bytes>,
                                     s': Option<KeyPair>, rs': Option<Bytes>, mine: bool, tokens: seq<Token>)
    requires rs.Some? ==> s'.Some? && rs.value == s'.value.public
    requires rs'.Some? ==> s.Some? && rs'.value == s.value.public
    requires PreTokens(c, ss, mine, s, rs, tokens).Ok? && PreTokens(c, ss, !mine, s', rs', tokens).Ok?
    ensures PreTokens(c, ss, mine, s, rs, tokens) == PreTokens(c, ss, !mine, s', rs', tokens)
    decreases |tokens|
  {
    if tokens != [] {
      PreAgrees(c, MixHash(c, ss, if mine then s.value.public else rs.value), s, rs, s', rs', mine, tokens[1..]);
    }
  }

  lemma {:induction false} PresAgree(c: Suite, ss: Symmetric, s: Option<KeyPair>, rs: Option<Bytes>,
                                     s': Option<KeyPair>, rs': Option<Bytes>, pre: seq<Turn>)
    requires rs.Some? ==> s'.Some? && rs.value == s'.value.public
    requires rs'.Some? ==> s.Some? && rs'.value == s.value.public
    requires PreMessages(c, ss, true, s, rs, pre).Ok? && PreMessages(c, ss, false, s', rs', pre).Ok?
    ensures PreMessages(c, ss, true, s, rs, pre) == PreMessages(c, ss, false, s', rs', pre)
    decreases |pre|
  {
    if pre != [] {
      PreAgrees(c, ss, s, rs, s', rs', pre[0].initiator, pre[0].tokens);
      PresAgree(c, PreTokens(c, ss, pre[0].initiator, s, rs, pre[0].tokens).value, s, rs, s', rs', pre[1..]);
    }
  }

  /** Two sides that could begin, with the same pattern and prologue and matching keys, are in step. */
  lemma BeginAgrees(c: Suite, p: Pattern, prologue: Bytes, s: Option<KeyPair>, rs: Option<Bytes>,
                    s': Option<KeyPair>, rs': Option<Bytes>)
    requires s.Some? ==> s.value.public == c.public(s.value.private)
    requires s'.Some? ==> s'.value.public == c.public(s'.value.private)
    requires rs.Some? ==> s'.Some? && rs.value == s'.value.public
    requires rs'.Some? ==> s.Some? && rs'.value == s.value.public
    requires Begin(c, p, true, prologue, s, rs).Ok? && Begin(c, p, false, prologue, s', rs').Ok?
    ensures Paired(c, Begin(c, p, true, prologue, s, rs).value, Begin(c, p, false, prologue, s', rs').value)
  {
    PresAgree(c, MixHash(c, Initial(c, ProtocolName(p.name)), prologue), s, rs, s', rs', p.pre);
  }

  // ---- The client's patterns ----

  const IK := [Turn(true, [E, Es, S, Ss]), Turn(false, [E, Ee, Se])]
  const NN := [Turn(true, [E]), Turn(false, [E, Ee])]
  const KK := [Turn(true, [E, Es, Ss]), Turn(false, [E, Ee, Se])]
  const XX := [Turn(true, [E]), Turn(false, [E, Ee, S, Es]), Turn(true, [S, Se])]

  lemma ReadableFour(a: Token, b: Token, d: Token, e: Token, i: bool, k: bool)
    ensures Readable([a, b, d, e], i, k)
         == ((TakesStatic(a, i) ==> k) && (TakesStatic(b, i) ==> k || a == S) && (TakesStatic(d, i) ==> k || a == S || b == S)
             && (TakesStatic(e, i) ==> k || a == S || b == S || d == S))
    ensures Readable([b, d, e], i, k)
         == ((TakesStatic(b, i) ==> k) && (TakesStatic(d, i) ==> k || b == S) && (TakesStatic(e, i) ==> k || b == S || d == S))
    ensures Readable([d, e], i, k) == ((TakesStatic(d, i) ==> k) && (TakesStatic(e, i) ==> k || d == S))
    ensures Readable([e], i, k) == (TakesStatic(e, i) ==> k)
  {
    assert [a, b, d, e][1..] == [b, d, e] && [b, d, e][1..] == [d, e] && [d, e][1..] == [e] && [e][1..] == [];
    forall x ensures Readable([e], i, x) == (TakesStatic(e, i) ==> x) {}
    forall x ensures Readable([d, e], i, x) == ((TakesStatic(d, i) ==> x) && Readable([e], i, x || d == S)) {}
    forall x ensures Readable([b, d, e], i, x) == ((TakesStatic(b, i) ==> x) && Readable([d, e], i, x || b == S)) {}
    assert Readable([a, b, d, e], i, k) == ((TakesStatic(a, i) ==> k) && Readable([b, d, e], i, k || a == S));
  }

  /** IK as the sessions use it, and the other patterns, each with the keys it takes as known. */
  lemma ClientPatternsAreReadable()
    ensures PatternReadable(IK, true, false) && PatternReadable(NN, false, false)
    ensures PatternReadable(KK, true, true) && PatternReadable(XX, false, false)
  {
    hide Readable;
    assert IK[1..] == [Turn(false, [E, Ee, Se])] && NN[1..] == [Turn(false, [E, Ee])] && KK[1..] == IK[1..];
    assert XX[1..] == [Turn(false, [E, Ee, S, Es]), Turn(true, [S, Se])] && XX[1..][1..] == [Turn(true, [S, Se])];
    ReadableFour(E, Es, S, Ss, true, false);
    ReadableFour(E, E, Ee, Se, false, true);
    ReadableFour(E, E, E, Ee, false, false);
    ReadableFour(E, E, Es, Ss, true, true);
    ReadableFour(E, Ee, S, Es, false, false);
    ReadableFour(E, E, S, Se, true, false);
    ReadableFour(E, E, E, E, true, false);
  }

  /** A pattern that uses a static key before sending it cannot be read: es before s, say. */
  lemma EarlyStaticIsUnreadable()
    ensures !PatternReadable([Turn(true, [E]), Turn(false, [E, Ee, Es, S])], false, false)
  {
    hide Readable;
    var messages := [Turn(true, [E]), Turn(false, [E, Ee, Es, S])];
    assert messages[1..] == [Turn(false, [E, Ee, Es, S])];
    ReadableFour(E, Ee, Es, S, false, false);
  }

  // ---- Transport ----

  /** Messages sealed one after the other, each with its associated data; None once a nonce runs out. */
  function SealAll(c: Suite, cs: Cipher, ads: seq<Bytes>, pts: seq<Bytes>): (Cipher, Option<seq<Bytes>>)
    requires |ads| == |pts|
    decreases |pts|
  {
    if pts == [] then (cs, Some([])) else
    var (cs1, ct) := EncryptWithAd(c, cs, ads[0], pts[0]);
    if ct.Err? then (cs1, None) else
    var (cs2, rest) := SealAll(c, cs1, ads[1..], pts[1..]);
    (cs2, if rest.None? then None else Some([ct.value] + rest.value))
  }

  function OpenAll(c: Suite, cs: Cipher, ads: seq<Bytes>, cts: seq<Bytes>): (Cipher, Option<seq<Bytes>>)
    requires |ads| == |cts|
    decreases |cts|
  {
    if cts == [] then (cs, Some([])) else
    var (cs1, pt) := DecryptWithAd(c, cs, ads[0], cts[0]);
    if pt.Err? then (cs1, None) else
    var (cs2, rest) := OpenAll(c, cs1, ads[1..], cts[1..]);
    (cs2, if rest.None? then None else Some([pt.value] + rest.value))
  }

  /**
    Transport messages of one direction open in order with the counters in lockstep. They can all
    be sealed exactly while the counter stays at or below the reserved 2^64 - 1, which no message
    is sealed under.
   */
  lemma {:induction false} TransportInOrder(c: Suite, cs: Cipher, ads: seq<Bytes>, pts: seq<Bytes>)
    requires Lawful(c) && cs.k.Some? && cs.n <= MAX_NONCE && |ads| == |pts|
    ensures var (cs1, cts) := SealAll(c, cs, ads, pts);
            && (cts.Some? <==> cs.n + |pts| <= MAX_NONCE)
            && (cts.Some? ==> |cts.value| == |pts| && OpenAll(c, cs, ads, cts.value) == (cs1, Some(pts))
                              && cs1 == cs.(n := cs.n + |pts|))
    decreases |pts|
  {
    if pts != [] && cs.n < MAX_NONCE {
      var cs1 := cs.(n := cs.n + 1);
      var ct := c.seal(cs.k.value, cs.n, ads[0], pts[0]);
      assert c.open(cs.k.value, cs.n, ads[0], ct) == Some(pts[0]);
      TransportInOrder(c, cs1, ads[1..], pts[1..]);
      var rest := SealAll(c, cs1, ads[1..], pts[1..]).1;
      if rest.Some? {
        assert ([ct] + rest.value)[1..] == rest.value;
        assert [pts[0]] + pts[1..] == pts;
      }
    }
  }
}
