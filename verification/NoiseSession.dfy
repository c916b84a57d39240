/**
  From matching keys to transport messages: exactly when a handshake goes through, for any pattern, and what both
  sides can do then (client-rust/src/noise.rs).
 */
module NoiseSession {

  import opened Basics
  import opened Noise
  import opened NoiseAgreement

  /** No public key of a private one is of low order. */
  ghost predicate NoLowOrder(c: Suite) { forall a, b :: c.dh(a, c.public(b)).Some? }

  // ---- What can be written ----

  /** Which keys a side has, and whether what it writes is sealed. */
  datatype Have = Have(s: bool, e: bool, rs: bool, re: bool, keyed: bool)

  function HaveOf(a: Shake): Have { Have(a.s.Some?, a.e.Some?, a.rs.Some?, a.re.Some?, a.ss.cs.k.Some?) }

  predicate IsDh(t: Token) { t != E && t != S }

  predicate Can(h: Have, initiator: bool, t: Token) {
    match t
    case E => true
    case S => h.s
    case Ee => h.e && h.re
    case Es => if initiator then h.e && h.rs else h.s && h.re
    case Se => if initiator then h.s && h.re else h.e && h.rs
    case Ss => h.s && h.rs
  }

  function After(h: Have, t: Token): Have { h.(e := h.e || t == E, keyed := h.keyed || IsDh(t)) }

  predicate CanAll(h: Have, initiator: bool, tokens: seq<Token>)
    decreases |tokens|
  {
    tokens == [] || (Can(h, initiator, tokens[0]) && CanAll(After(h, tokens[0]), initiator, tokens[1..]))
  }

  function AfterAll(h: Have, tokens: seq<Token>): Have
    decreases |tokens|
  {
    if tokens == [] then h else AfterAll(After(h, tokens[0]), tokens[1..])
  }

  function Size(h: Have, t: Token): nat {
    match t
    case E => KEY_LEN
    case S => KEY_LEN + if h.keyed then TAG_LEN else 0
    case _ => 0
  }

  function Sizes(h: Have, tokens: seq<Token>): nat
    decreases |tokens|
  {
    if tokens == [] then 0 else Size(h, tokens[0]) + Sizes(After(h, tokens[0]), tokens[1..])
  }

  /** A message with these tokens and a payload of `n` bytes: the keys are there, and it is not too long. */
  predicate CanMessage(h: Have, initiator: bool, tokens: seq<Token>, n: nat) {
    CanAll(h, initiator, tokens) && Sizes(h, tokens) + n + (if AfterAll(h, tokens).keyed then TAG_LEN else 0) <= MAX_MESSAGE
  }

  ghost predicate IsPublic(c: Suite, k: Bytes) { exists p :: k == c.public(p) }

  /** The keys a side has of the other are public keys. */
  ghost predicate KeysPublic(c: Suite, a: Shake) {
    (a.re.Some? ==> IsPublic(c, a.re.value)) && (a.rs.Some? ==> IsPublic(c, a.rs.value))
  }

  lemma PairedPublic(c: Suite, a: Shake, b: Shake)
    requires Paired(c, a, b)
    ensures KeysPublic(c, a)
  {}

  lemma DhWorks(c: Suite, a: Shake, t: Token)
    requires NoLowOrder(c) && KeysPublic(c, a) && IsDh(t)
    ensures MixDh(c, a, t).1.Ok? <==> Can(HaveOf(a), a.initiator, t)
    ensures MixDh(c, a, t).1.Ok? ==> MixDh(c, a, t).0 == a.(ss := MixDh(c, a, t).0.ss) && MixDh(c, a, t).0.ss.cs.k.Some? && MixDh(c, a, t).0.ss.cs.n == 0
  {
    var keys := DhKeys(a, t);
    if keys.Ok? {
      assert IsPublic(c, keys.value.1);
    }
  }

  lemma TokenWrites(c: Suite, w: Shake, t: Token, eph: Bytes)
    requires Lawful(c) && NoLowOrder(c) && KeysPublic(c, w) && OwnKeys(c, w) && w.ss.cs.n < MAX_NONCE
    ensures var (w1, b) := WriteToken(c, w, t, eph);
            && (b.Ok? <==> Can(HaveOf(w), w.initiator, t))
            && (b.Ok? ==> |b.value| == Size(HaveOf(w), t) && HaveOf(w1) == After(HaveOf(w), t) && w1.initiator == w.initiator
                          && KeysPublic(c, w1) && OwnKeys(c, w1) && w1.ss.cs.n <= w.ss.cs.n + 1)
  {
    hide MixDh, NoLowOrder, Hkdf2;
    match t
    case E => assert |c.public(eph)| == KEY_LEN;
    case S =>
      if w.s.Some? {
        assert |c.public(w.s.value.private)| == KEY_LEN;
        SealOpens(c, w.ss, w.s.value.public);
      }
    case _ => DhWorks(c, w, t);
  }

  lemma {:induction false} TokensWrite(c: Suite, w: Shake, tokens: seq<Token>, eph: seq<Bytes>, out: Bytes)
    requires Lawful(c) && NoLowOrder(c) && KeysPublic(c, w) && OwnKeys(c, w)
    requires |eph| == |tokens| && w.ss.cs.n + |tokens| <= MAX_NONCE
    ensures var (w1, b) := WriteTokens(c, w, tokens, eph, out);
            && (b.Ok? <==> CanAll(HaveOf(w), w.initiator, tokens))
            && (b.Ok? ==> |b.value| == |out| + Sizes(HaveOf(w), tokens) && HaveOf(w1) == AfterAll(HaveOf(w), tokens)
                          && w1.initiator == w.initiator && w1.ss.cs.n <= w.ss.cs.n + |tokens|)
    decreases |tokens|
  {
    hide Lawful, NoLowOrder, KeysPublic, OwnKeys, WriteToken, HaveOf, Can, After, Size;
    if tokens != [] {
      TokenWrites(c, w, tokens[0], eph[0]);
      var (w1, b) := WriteToken(c, w, tokens[0], eph[0]);
      if b.Ok? {
        TokensWrite(c, w1, tokens[1..], eph[1..], out + b.value);
      }
    }
  }

  lemma MessageWrites(c: Suite, w: Shake, payload: Bytes, eph: seq<Bytes>)
    requires Lawful(c) && NoLowOrder(c) && KeysPublic(c, w) && OwnKeys(c, w) && MayWrite(w)
    requires var tokens := w.messages[w.index].tokens; |eph| == |tokens| && w.ss.cs.n + |tokens| < MAX_NONCE
    ensures var (w1, m) := WriteMessage(c, w, payload, eph);
            var tokens := w.messages[w.index].tokens;
            && (m.Ok? <==> CanMessage(HaveOf(w), w.initiator, tokens, |payload|))
            && (m.Ok? ==> HaveOf(w1) == AfterAll(HaveOf(w), tokens) && w1.ss.cs.n <= w.ss.cs.n + |tokens| + 1)
  {
    hide Lawful, NoLowOrder, OwnKeys, KeysPublic, WriteTokens;
    var tokens := w.messages[w.index].tokens;
    var w0 := w.(index := w.index + 1);
    SameKeys(c, w, w0);
    TokensWrite(c, w0, tokens, eph, []);
    var (w1, out) := WriteTokens(c, w0, tokens, eph, []);
    SealOpens(c, w1.ss, payload);
  }

  lemma SameKeys(c: Suite, w: Shake, w0: Shake)
    requires KeysPublic(c, w) && OwnKeys(c, w) && w0 == w.(index := w0.index)
    ensures KeysPublic(c, w0) && OwnKeys(c, w0)
  {}

  // ---- The whole handshake ----

  /** What the reader of a message has after it. */
  function Heard(h: Have, tokens: seq<Token>, keyed: bool): Have {
    h.(re := h.re || E in tokens, rs := h.rs || S in tokens, keyed := keyed)
  }

  /** Every message in turn can be written, with the keys both sides begin with. */
  predicate Writable(messages: seq<Turn>, i: Have, r: Have, payloads: seq<Bytes>)
    requires |payloads| == |messages|
    decreases |messages|
  {
    messages == [] ||
    var m := messages[0];
    var w, d := if m.initiator then i else r, if m.initiator then r else i;
    var w1 := AfterAll(w, m.tokens);
    var d1 := Heard(d, m.tokens, w1.keyed);
    && CanMessage(w, m.initiator, m.tokens, |payloads[0]|)
    && Writable(messages[1..], if m.initiator then w1 else d1, if m.initiator then d1 else w1, payloads[1..])
  }

  /** At most how often the handshake cipher is used. */
  function Uses(messages: seq<Turn>): nat {
    if messages == [] then 0 else |messages[0].tokens| + 1 + Uses(messages[1..])
  }

  predicate Fits(messages: seq<Turn>, payloads: seq<Bytes>, ephs: seq<seq<Bytes>>) {
    && |payloads| == |ephs| == |messages|
    && forall k | 0 <= k < |messages| :: |ephs[k]| == |messages[k].tokens|
  }

  lemma {:induction false} GainsEphemeral(h: Have, tokens: seq<Token>)
    ensures AfterAll(h, tokens).e == (h.e || E in tokens)
    ensures var h1 := AfterAll(h, tokens); h1 == h.(e := h1.e, keyed := h1.keyed)
    decreases |tokens|
  {
    if tokens != [] {
      GainsEphemeral(After(h, tokens[0]), tokens[1..]);
      assert tokens == [tokens[0]] + tokens[1..];
    }
  }

  /** One message that was written and can be read, seen from both sides. */
  lemma Exchanged(c: Suite, w: Shake, d: Shake, payload: Bytes, eph: seq<Bytes>)
    requires Lawful(c) && NoLowOrder(c) && Paired(c, w, d) && MayWrite(w)
    requires var tokens := w.messages[w.index].tokens; |eph| == |tokens| && w.ss.cs.n + |tokens| < MAX_NONCE
    requires WriteMessage(c, w, payload, eph).1.Ok? && Readable(w.messages[w.index].tokens, w.initiator, d.rs.Some?)
    ensures var (w1, m) := WriteMessage(c, w, payload, eph);
            var (d1, got) := ReadMessage(c, d, m.value);
            var tokens := w.messages[w.index].tokens;
            && got == Ok(payload) && Paired(c, w1, d1) && w1.index == w.index + 1 && w1.messages == w.messages && w1.initiator == w.initiator
            && HaveOf(w1) == AfterAll(HaveOf(w), tokens) && HaveOf(d1) == Heard(HaveOf(d), tokens, HaveOf(w1).keyed)
            && w1.ss.cs.n <= w.ss.cs.n + |tokens| + 1
  {
    hide Lawful, NoLowOrder, WriteMessage, ReadMessage, Readable, CanMessage;
    PairedPublic(c, w, d);
    MessageWrites(c, w, payload, eph);
    MessageAgrees(c, w, d, payload, eph);
    var m := WriteMessage(c, w, payload, eph).1.value;
    ReadKeeps(c, d, m);
    GainsEphemeral(HaveOf(w), w.messages[w.index].tokens);
  }

  /** Reading changes nothing of the reader's own keys. */
  lemma ReadKeeps(c: Suite, d: Shake, m: Bytes)
    ensures ReadMessage(c, d, m).0.s == d.s && ReadMessage(c, d, m).0.e == d.e
  {
    hide ReadTokens, DecryptAndHash;
    if d.index < |d.messages| {
      TokensKeep(c, d.(index := d.index + 1), d.messages[d.index].tokens, m);
    }
  }

  lemma {:induction false} TokensKeep(c: Suite, d: Shake, tokens: seq<Token>, rest: Bytes)
    ensures ReadTokens(c, d, tokens, rest).0.s == d.s && ReadTokens(c, d, tokens, rest).0.e == d.e
    decreases |tokens|
  {
    hide DecryptAndHash, MixHash, MixKey;
    if tokens != [] {
      var (d1, r) := ReadToken(c, d, tokens[0], rest);
      if r.Ok? {
        TokensKeep(c, d1, tokens[1..], r.value);
      }
    }
  }

  /** Sides in step get through the rest of a pattern exactly when every message can be written and followed. */
  lemma {:induction false} GetsThrough(c: Suite, i: Shake, r: Shake, payloads: seq<Bytes>, ephs: seq<seq<Bytes>>)
    requires Lawful(c) && NoLowOrder(c) && Paired(c, i, r) && i.initiator && i.index <= |i.messages|
    requires Fits(i.messages[i.index..], payloads, ephs) && i.ss.cs.n + Uses(i.messages[i.index..]) <= MAX_NONCE
    ensures Converse(c, i, r, payloads, ephs).Done?
       <==> Writable(i.messages[i.index..], HaveOf(i), HaveOf(r), payloads)
            && PatternReadable(i.messages[i.index..], i.rs.Some?, r.rs.Some?)
    decreases |payloads|
  {
    hide Lawful, NoLowOrder, WriteMessage, ReadMessage, Readable, CanMessage, AfterAll;
    if payloads != [] {
      var turn, rest := i.messages[i.index], i.messages[i.index..];
      assert rest[0] == turn && rest[1..] == i.messages[i.index + 1..];
      assert |ephs[0]| == |rest[0].tokens|;
      var w, d := if turn.initiator then i else r, if turn.initiator then r else i;
      PairedPublic(c, w, d);
      MessageWrites(c, w, payloads[0], ephs[0]);
      if WriteMessage(c, w, payloads[0], ephs[0]).1.Ok? {
        MessageAgrees(c, w, d, payloads[0], ephs[0]);
        if Readable(turn.tokens, turn.initiator, d.rs.Some?) {
          Exchanged(c, w, d, payloads[0], ephs[0]);
          var (w1, m) := WriteMessage(c, w, payloads[0], ephs[0]);
          var d1 := ReadMessage(c, d, m.value).0;
          GetsThrough(c, if turn.initiator then w1 else d1, if turn.initiator then d1 else w1, payloads[1..], ephs[1..]);
        } else {
          assert w.messages[w.index] == turn && w.initiator == turn.initiator;
          assert ReadMessage(c, d, WriteMessage(c, w, payloads[0], ephs[0]).1.value).1.Err?;
        }
      }
    }
  }

  /** One direction of the transport: whatever is sealed in order opens in order, while the nonces last. */
  ghost predicate Carries(c: Suite, send: Cipher, recv: Cipher) {
    forall ads: seq<Bytes>, pts: seq<Bytes> | |ads| == |pts| ::
      var cts := SealAll(c, send, ads, pts).1;
      && (cts.Some? <==> |pts| <= MAX_NONCE)
      && (cts.Some? ==> |cts.value| == |pts| && OpenAll(c, recv, ads, cts.value).1 == Some(pts))
  }

  lemma Carried(c: Suite, cs: Cipher)
    requires Lawful(c) && cs.k.Some? && cs.n == 0
    ensures Carries(c, cs, cs)
  {
    forall ads: seq<Bytes>, pts: seq<Bytes> | |ads| == |pts|
      ensures var cts := SealAll(c, cs, ads, pts).1;
              && (cts.Some? <==> |pts| <= MAX_NONCE)
              && (cts.Some? ==> |cts.value| == |pts| && OpenAll(c, cs, ads, cts.value).1 == Some(pts))
    {
      TransportInOrder(c, cs, ads, pts);
    }
  }

  /**
    Two sides that could begin with the same pattern and prologue and with matching keys get through the handshake
    exactly when every message can be written with the keys at hand and within 65535 bytes, and followed by its
    reader. Then each payload is heard as it was sent, the handshake hashes are equal, and both directions carry
    any messages in order.
   */
  lemma SessionAgrees(c: Suite, p: Pattern, prologue: Bytes, s: Option<KeyPair>, rs: Option<Bytes>,
                      s': Option<KeyPair>, rs': Option<Bytes>, payloads: seq<Bytes>, ephs: seq<seq<Bytes>>)
    requires Lawful(c) && NoLowOrder(c) && Fits(p.messages, payloads, ephs) && Uses(p.messages) <= MAX_NONCE
    requires s.Some? ==> s.value.public == c.public(s.value.private)
    requires s'.Some? ==> s'.value.public == c.public(s'.value.private)
    requires rs.Some? ==> s'.Some? && rs.value == s'.value.public
    requires rs'.Some? ==> s.Some? && rs'.value == s.value.public
    requires Begin(c, p, true, prologue, s, rs).Ok? && Begin(c, p, false, prologue, s', rs').Ok?
    ensures var i, r := Begin(c, p, true, prologue, s, rs).value, Begin(c, p, false, prologue, s', rs').value;
            var talk := Converse(c, i, r, payloads, ephs);
            && (talk.Done? <==> Writable(p.messages, Have(s.Some?, false, rs.Some?, false, false), Have(s'.Some?, false, rs'.Some?, false, false), payloads)
                                && PatternReadable(p.messages, rs.Some?, rs'.Some?))
            && (talk.Done? ==>
                  && talk.heard == payloads && MaybeSplit(c, talk.i).Some? && MaybeSplit(c, talk.r).Some?
                  && var ti, tr := MaybeSplit(c, talk.i).value, MaybeSplit(c, talk.r).value;
                     ti.hash == tr.hash && Carries(c, ti.send, tr.recv) && Carries(c, tr.send, ti.recv))
  {
    hide Lawful, NoLowOrder, Writable, PatternReadable, Converse, PreMessages, Carries, Split, Hkdf2;
    var i, r := Begin(c, p, true, prologue, s, rs).value, Begin(c, p, false, prologue, s', rs').value;
    BeginAgrees(c, p, prologue, s, rs, s', rs');
    Unkeyed(c, p, prologue, s, rs);
    assert i.messages[0..] == p.messages;
    GetsThrough(c, i, r, payloads, ephs);
    var talk := Converse(c, i, r, payloads, ephs);
    if talk.Done? {
      HandshakeAgrees(c, i, r, payloads, ephs);
      TransportsMirror(c, talk.i, talk.r);
      var ti := MaybeSplit(c, talk.i).value;
      SplitKeyed(c, talk.i.ss);
      Carried(c, ti.send);
      Carried(c, ti.recv);
    }
  }

  /** IK as sessions use it goes through exactly while its payloads leave room for 96 and 48 bytes of keys and tags. */
  lemma IkGoesThrough(a: Bytes, b: Bytes)
    ensures Writable(IK, Have(true, false, true, false, false), Have(true, false, false, false, false), [a, b])
       <==> |a| + 96 <= MAX_MESSAGE && |b| + 48 <= MAX_MESSAGE
  {
    hide Writable, CanMessage;
    var i, r := Have(true, false, true, false, false), Have(true, false, false, false, false);
    var t1, t2 := [E, Es, S, Ss], [E, Ee, Se];
    var i1, r1 := Have(true, true, true, false, true), Have(true, false, true, true, true);
    FourTokens(i, true, E, Es, S, Ss);
    ThreeTokens(r1, false, E, Ee, Se);
    assert CanMessage(i, true, t1, |a|) <==> |a| + 96 <= MAX_MESSAGE by { assert Sizes(i, t1) == 80; CanIs(i, true, t1, |a|); }
    assert CanMessage(r1, false, t2, |b|) <==> |b| + 48 <= MAX_MESSAGE by { assert Sizes(r1, t2) == 32; CanIs(r1, false, t2, |b|); }
    assert AfterAll(i, t1) == i1 && Heard(r, t1, true) == r1;
    assert IK[1..] == [Turn(false, t2)] && [a, b][1..] == [b] && [b][1..] == [] && IK[1..][1..] == [];
    WritableStep(IK, i, r, [a, b]);
    WritableStep(IK[1..], i1, r1, [b]);
    assert forall h, h' :: Writable([], h, h', []) by { WritableNone(); }
  }

  lemma CanIs(h: Have, initiator: bool, tokens: seq<Token>, n: nat)
    ensures CanMessage(h, initiator, tokens, n)
       <==> CanAll(h, initiator, tokens) && Sizes(h, tokens) + n + (if AfterAll(h, tokens).keyed then TAG_LEN else 0) <= MAX_MESSAGE
  {}

  lemma WritableNone()
    ensures forall h, h' :: Writable([], h, h', [])
  {}

  lemma WritableStep(messages: seq<Turn>, i: Have, r: Have, payloads: seq<Bytes>)
    requires |payloads| == |messages| > 0
    ensures var m := messages[0];
            var w, d := if m.initiator then i else r, if m.initiator then r else i;
            var w1 := AfterAll(w, m.tokens);
            var d1 := Heard(d, m.tokens, w1.keyed);
            Writable(messages, i, r, payloads) == (
              && CanMessage(w, m.initiator, m.tokens, |payloads[0]|)
              && Writable(messages[1..], if m.initiator then w1 else d1, if m.initiator then d1 else w1, payloads[1..]))
  {
    hide CanMessage;
  }

  lemma FirstToken(h: Have, initiator: bool, t: Token, rest: seq<Token>)
    ensures CanAll(h, initiator, [t] + rest) <==> Can(h, initiator, t) && CanAll(After(h, t), initiator, rest)
    ensures AfterAll(h, [t] + rest) == AfterAll(After(h, t), rest)
    ensures Sizes(h, [t] + rest) == Size(h, t) + Sizes(After(h, t), rest)
    ensures CanAll(h, initiator, []) && AfterAll(h, []) == h && Sizes(h, []) == 0
  {
    hide Can, Size;
    assert ([t] + rest)[1..] == rest;
  }

  lemma ThreeTokens(h: Have, initiator: bool, a: Token, b: Token, d: Token)
    ensures var h1, h2 := After(h, a), After(After(h, a), b);
            && (CanAll(h, initiator, [a, b, d]) <==> Can(h, initiator, a) && Can(h1, initiator, b) && Can(h2, initiator, d))
            && AfterAll(h, [a, b, d]) == After(h2, d)
            && Sizes(h, [a, b, d]) == Size(h, a) + Size(h1, b) + Size(h2, d)
  {
    hide Can, After, Size, CanAll, AfterAll, Sizes;
    var h1, h2 := After(h, a), After(After(h, a), b);
    assert [a, b, d] == [a] + [b, d] && [b, d] == [b] + [d] && [d] == [d] + [];
    FirstToken(h, initiator, a, [b, d]);
    FirstToken(h1, initiator, b, [d]);
    FirstToken(h2, initiator, d, []);
    FirstToken(After(h2, d), initiator, d, []);
  }

  lemma FourTokens(h: Have, initiator: bool, a: Token, b: Token, d: Token, e: Token)
    ensures var h1 := After(h, a);
            var h2, h3 := After(h1, b), After(After(h1, b), d);
            && (CanAll(h, initiator, [a, b, d, e])
                <==> Can(h, initiator, a) && Can(h1, initiator, b) && Can(h2, initiator, d) && Can(h3, initiator, e))
            && AfterAll(h, [a, b, d, e]) == After(h3, e)
            && Sizes(h, [a, b, d, e]) == Size(h, a) + Size(h1, b) + Size(h2, d) + Size(h3, e)
  {
    hide Can, After, Size, CanAll, AfterAll, Sizes;
    assert [a, b, d, e] == [a] + [b, d, e];
    FirstToken(h, initiator, a, [b, d, e]);
    ThreeTokens(After(h, a), initiator, b, d, e);
  }

  lemma SplitKeyed(c: Suite, ss: Symmetric)
    ensures Split(c, ss).0.k.Some? && Split(c, ss).1.k.Some?
  {}

  /** A handshake begins without a key. */
  lemma Unkeyed(c: Suite, p: Pattern, prologue: Bytes, s: Option<KeyPair>, rs: Option<Bytes>)
    requires Begin(c, p, true, prologue, s, rs).Ok?
    ensures Begin(c, p, true, prologue, s, rs).value.ss.cs == Cipher(None, 0)
  {
    PreUnkeyed(c, MixHash(c, Initial(c, ProtocolName(p.name)), prologue), s, rs, p.pre);
  }

  lemma {:induction false} PreUnkeyed(c: Suite, ss: Symmetric, s: Option<KeyPair>, rs: Option<Bytes>, pre: seq<Turn>)
    ensures var r := PreMessages(c, ss, true, s, rs, pre); r.Ok? ==> r.value.cs == ss.cs
    decreases |pre|
  {
    if pre != [] {
      PreTokensUnkeyed(c, ss, pre[0].initiator, s, rs, pre[0].tokens);
      var r := PreTokens(c, ss, pre[0].initiator, s, rs, pre[0].tokens);
      if r.Ok? {
        PreUnkeyed(c, r.value, s, rs, pre[1..]);
      }
    }
  }

  lemma {:induction false} PreTokensUnkeyed(c: Suite, ss: Symmetric, mine: bool, s: Option<KeyPair>, rs: Option<Bytes>, tokens: seq<Token>)
    ensures var r := PreTokens(c, ss, mine, s, rs, tokens); r.Ok? ==> r.value.cs == ss.cs
    decreases |tokens|
  {
    if tokens != [] && tokens[0] == S && (if mine then s.Some? else rs.Some?) {
      PreTokensUnkeyed(c, MixHash(c, ss, if mine then s.value.public else rs.value), mine, s, rs, tokens[1..]);
    }
  }
}
