/**
  What reaches the application of the messages sent to a peer (client-go/sessions.go), over any
  number of sessions and any relay.

  Each session seals its frames with a counter, in the step that hands them over, so a frame's
  nonce is its place among its session's frames. The sender cuts messages as it likes, moves to
  another session at message boundaries, and abandons a started message only with its session, or
  when a sealed frame could not be handed over (its nonce is then spent). The relay delivers any
  frame it was handed, any number of times, in any order, forges others, and drops what it likes.
  The receiver opens a frame only under the session it was sealed for and at its own count.
 */
module Delivery {
  import opened Basics
  import opened Flow
  import opened CreditLink

  type Bytes = seq<Byte>

  /** A session's frames by nonce; None is a nonce spent on a frame that was not handed over. */
  type Log = seq<Option<Frame>>

  /** A frame on its way; `owner` is the message it completes, a bookkeeping note. */
  datatype Slot = Slot(session: nat, nonce: nat, owner: Option<nat>)

  datatype Sender = Sender(
    queue: seq<Bytes>,            // every message accepted for the peer, in order
    next: nat,                    // the one being sent; those before it are done with
    bound: Option<nat>,           // the session it is bound to
    off: nat,                     // its bytes already handed over
    logs: map<nat, Log>,          // the sessions opened
    owners: map<nat, seq<nat>>,   // per session, the messages completed on it, in order
    over: set<nat>,               // sessions this side has ended
    wire: seq<Slot>)

  datatype Got = Got(session: nat, place: nat, bytes: Bytes)

  datatype Receiver = Receiver(
    count: map<nat, nat>, partial: map<nat, Bytes>, dead: set<nat>, places: map<nat, nat>,
    got: seq<Got>)                // the messages delivered, each with its place on its session

  datatype Net = Net(tx: Sender, rx: Receiver, passed: nat)

  datatype Step =
    | Enqueue(message: Bytes)
    | Open(session: nat)
    | Bind(session: nat)
    | Cut(n: nat, up: bool)
    | Other(session: nat, frame: Frame, up: bool)
    | GiveUp
    | EndHere(session: nat)
    | Relay(slot: nat)
    | Forge(session: nat)
    | EndThere(session: nat)

  // ---- The sender ----

  predicate Usable(t: Sender, s: nat) { s in t.logs && s in t.owners && s !in t.over }

  predicate Started(t: Sender) { t.bound.Some? && t.off > 0 }

  /** A message gives up its place only before its first byte, or with its session. */
  predicate MayGiveUp(t: Sender) {
    t.next < |t.queue| && (Started(t) ==> t.bound.value in t.over)
  }

  function Hand(t: Sender, s: nat, frame: Frame, owner: Option<nat>, up: bool): Sender
    requires s in t.logs
  {
    if up then
      t.(logs := t.logs[s := t.logs[s] + [Some(frame)]], wire := t.wire + [Slot(s, |t.logs[s]|, owner)])
    else
      t.(logs := t.logs[s := t.logs[s] + [None]])
  }

  function Finished(t: Sender): Sender { t.(next := t.next + 1, bound := None, off := 0) }

  predicate MayCut(t: Sender, n: nat) {
    && t.next < |t.queue| && t.bound.Some? && Usable(t, t.bound.value)
    && t.off + n <= |t.queue[t.next]| && (n == 0 ==> t.queue[t.next] == [])
  }

  function CutNext(t: Sender, n: nat, up: bool): Sender
    requires MayCut(t, n)
  {
    var s, m := t.bound.value, t.queue[t.next];
    var last := t.off + n == |m|;
    var t1 := Hand(t, s, Message(!last, m[t.off..t.off + n]), if last then Some(t.next) else None, up);
    if !up then Finished(t1)
    else if last then Finished(t1.(owners := t1.owners[s := t1.owners[s] + [t.next]]))
    else t1.(off := t.off + n)
  }

  function SenderStep(t: Sender, step: Step): Sender {
    match step
    case Enqueue(m) => t.(queue := t.queue + [m])
    case Open(s) => if s in t.logs then t else t.(logs := t.logs[s := []], owners := t.owners[s := []])
    case Bind(s) =>
      if t.bound.None? && t.next < |t.queue| && Usable(t, s) then t.(bound := Some(s), off := 0) else t
    case Cut(n, up) => if MayCut(t, n) then CutNext(t, n, up) else t
    case Other(s, f, up) => if Usable(t, s) && !f.Message? then Hand(t, s, f, None, up) else t
    case GiveUp => if MayGiveUp(t) then Finished(t) else t
    case EndHere(s) => t.(over := t.over + {s})
    case _ => t
  }

  // ---- The receiver ----

  function CountOf(r: Receiver, s: nat): nat { if s in r.count then r.count[s] else 0 }

  function PartialOf(r: Receiver, s: nat): Bytes { if s in r.partial then r.partial[s] else [] }

  function PlaceOf(r: Receiver, s: nat): nat { if s in r.places then r.places[s] else 0 }

  function Kill(r: Receiver, s: nat): Receiver { r.(dead := r.dead + {s}) }

  function OnFrame(r: Receiver, s: nat, nonce: nat, f: Frame): Receiver {
    if s in r.dead then r
    else if nonce != CountOf(r, s) then Kill(r, s)
    else
      var r1 := r.(count := r.count[s := nonce + 1]);
      if !f.Message? then r1
      else
        var whole := PartialOf(r, s) + f.bytes;
        if f.more then r1.(partial := r1.partial[s := whole])
        else r1.(partial := r1.partial[s := []], places := r1.places[s := PlaceOf(r, s) + 1],
                 got := r1.got + [Got(s, PlaceOf(r, s), whole)])
  }

  // ---- The whole ----

  predicate OnWire(t: Sender, slot: nat) {
    && slot < |t.wire| && t.wire[slot].session in t.logs
    && t.wire[slot].nonce < |t.logs[t.wire[slot].session]|
    && t.logs[t.wire[slot].session][t.wire[slot].nonce].Some?
  }

  function Next(n: Net, step: Step): Net {
    match step
    case Relay(slot) =>
      if OnWire(n.tx, slot) then
        var w := n.tx.wire[slot];
        n.(rx := OnFrame(n.rx, w.session, w.nonce, n.tx.logs[w.session][w.nonce].value), passed := slot + 1)
      else n
    case Forge(s) => n.(rx := Kill(n.rx, s))
    case EndThere(s) => n.(rx := Kill(n.rx, s))
    case _ => n.(tx := SenderStep(n.tx, step))
  }

  const START := Net(Sender([], 0, None, 0, map[], map[], {}, []), Receiver(map[], map[], {}, map[], []), 0)

  function Run(n: Net, steps: seq<Step>): Net
    decreases |steps|
  {
    if steps == [] then n else Run(Next(n, steps[0]), steps[1..])
  }

  /** A relay that keeps order: it may drop frames, but never goes back. */
  predicate InOrder(n: Net, steps: seq<Step>)
    decreases |steps|
  {
    steps == [] || ((steps[0].Relay? ==> steps[0].slot >= n.passed) && InOrder(Next(n, steps[0]), steps[1..]))
  }

  // ---- The invariant ----

  /** The frames of a log up to the first nonce that was spent for nothing. */
  function Sound(log: Log): (fs: seq<Frame>)
    ensures |fs| <= |log|
    ensures forall i | 0 <= i < |fs| :: log[i] == Some(fs[i])
    ensures |fs| < |log| ==> log[|fs|] == None
  {
    if log == [] || log[0].None? then [] else [log[0].value] + Sound(log[1..])
  }

  predicate Final(f: Frame) { f.Message? && !f.more }

  /** The part of the message being sent that has gone out on session `s`; None once it is over. */
  function Begun(t: Sender, s: nat): Option<Bytes> {
    if s in t.over then None
    else if t.bound == Some(s) && t.next < |t.queue| && t.off <= |t.queue[t.next]| then Some(t.queue[t.next][..t.off])
    else Some([])
  }

  /** What a session carries: the messages it completed, and while none was lost, what is begun after them. */
  predicate Carries(own: seq<nat>, queue: seq<Bytes>, next: nat, begun: Option<Bytes>, whole: seq<Bytes>, left: Bytes, full: bool) {
    && |own| >= |whole|
    && next <= |queue| && (forall k | 0 <= k < |own| :: own[k] < next)
    && (forall k | 0 <= k < |whole| :: whole[k] == queue[own[k]])
    && (full ==> |own| == |whole| && (begun.Some? ==> left == begun.value))
  }

  predicate SessionOk(log: Log, own: seq<nat>, queue: seq<Bytes>, next: nat, begun: Option<Bytes>) {
    var fs := Sound(log);
    Carries(own, queue, next, begun, Messages([], fs), Leftover([], fs), |fs| == |log|)
  }

  predicate SessionsOk(t: Sender) {
    && t.logs.Keys == t.owners.Keys
    && forall s | s in t.logs :: SessionOk(t.logs[s], t.owners[s], t.queue, t.next, Begun(t, s))
  }

  /** One frame on the wire: it is in its session's log, and names the message it completes. */
  predicate SlotOk(log: Log, own: seq<nat>, next: nat, nonce: nat, owner: Option<nat>) {
    && nonce < |log| && log[nonce].Some?
    && (owner.Some? <==> Final(log[nonce].value))
    && (owner.Some? ==> owner.value < next)
    && (owner.Some? && nonce < |Sound(log)| ==>
          var k := |Messages([], Sound(log)[..nonce])|;
          k < |own| && owner.value == own[k])
  }

  predicate SlotsOk(t: Sender) {
    forall p | 0 <= p < |t.wire| ::
      && t.wire[p].session in t.logs && t.wire[p].session in t.owners
      && SlotOk(t.logs[t.wire[p].session], t.owners[t.wire[p].session], t.next, t.wire[p].nonce, t.wire[p].owner)
  }

  predicate WireOrder(t: Sender) {
    forall p, q | 0 <= p < q < |t.wire| && t.wire[p].owner.Some? && t.wire[q].owner.Some? ::
      t.wire[p].owner.value < t.wire[q].owner.value
  }

  predicate OneOwner(t: Sender) {
    forall s, k, s', k' | s in t.owners && s' in t.owners && 0 <= k < |t.owners[s]| && 0 <= k' < |t.owners[s']| ::
      t.owners[s][k] == t.owners[s'][k'] ==> s == s' && k == k'
  }

  predicate SenderOk(t: Sender) {
    && t.next <= |t.queue|
    && (t.bound.Some? ==> t.bound.value in t.logs && t.next < |t.queue| && t.off <= |t.queue[t.next]|)
    && SessionsOk(t) && SlotsOk(t) && WireOrder(t) && OneOwner(t)
  }

  // ---- The sender keeps it ----

  lemma {:induction false} SoundAppend(log: Log, x: Option<Frame>)
    ensures Sound(log + [x])
         == if |Sound(log)| == |log| && x.Some? then Sound(log) + [x.value] else Sound(log)
  {
    if log == [] {
      assert (log + [x])[1..] == [];
    } else if log[0].Some? {
      assert (log + [x])[1..] == log[1..] + [x];
      SoundAppend(log[1..], x);
    } else {
      assert (log + [x])[0] == log[0];
    }
  }

  /** What a frame adds to the messages its session carries. */
  lemma AppendFrame(fs: seq<Frame>, f: Frame)
    ensures Messages([], fs + [f]) == Messages([], fs) + (if Final(f) then [Leftover([], fs) + f.bytes] else [])
    ensures Leftover([], fs + [f])
         == if !f.Message? then Leftover([], fs) else if f.more then Leftover([], fs) + f.bytes else []
  {
    AssembleAppend([], fs, [f]);
    assert [f][1..] == [];
    var p := Leftover([], fs);
    if f.Message? && f.more {
      assert Messages(p + f.bytes, []) == [] && Leftover(p + f.bytes, []) == p + f.bytes;
    }
  }

  /** A session's frames go on as they were while the message in progress moves on elsewhere. */
  lemma SessionStays(log: Log, own: seq<nat>, queue: seq<Bytes>, next: nat, begun: Option<Bytes>,
                     queue': seq<Bytes>, next': nat, begun': Option<Bytes>)
    requires SessionOk(log, own, queue, next, begun)
    requires queue <= queue' && next <= next' <= |queue'| && (begun' == None || begun' == begun)
    ensures SessionOk(log, own, queue', next', begun')
  {}

  /** A session's frames with one more, as the messages they carry. */
  lemma SoundGrows(log: Log, f: Frame)
    requires f.Message?
    ensures var fs, fs1 := Sound(log), Sound(log + [Some(f)]);
            if |fs| == |log| then
              && |fs1| == |log| + 1
              && Messages([], fs1) == Messages([], fs) + (if f.more then [] else [Leftover([], fs) + f.bytes])
              && Leftover([], fs1) == (if f.more then Leftover([], fs) + f.bytes else [])
            else |fs1| < |log| + 1 && Messages([], fs1) == Messages([], fs) && Leftover([], fs1) == Leftover([], fs)
  {
    SoundAppend(log, Some(f));
    AppendFrame(Sound(log), f);
  }

  lemma CarriesMore(own: seq<nat>, queue: seq<Bytes>, next: nat, begun: Bytes, whole: seq<Bytes>, left: Bytes, full: bool, bytes: Bytes)
    requires Carries(own, queue, next, Some(begun), whole, left, full)
    ensures Carries(own, queue, next, Some(begun + bytes), whole, if full then left + bytes else left, full)
  {}

  lemma CarriesLast(own: seq<nat>, queue: seq<Bytes>, next: nat, begun: Bytes, whole: seq<Bytes>, left: Bytes, full: bool, bytes: Bytes)
    requires Carries(own, queue, next, Some(begun), whole, left, full) && next < |queue| && begun + bytes == queue[next]
    ensures Carries(own + [next], queue, next + 1, Some([]), if full then whole + [left + bytes] else whole, if full then [] else left, full)
  {
    var own1 := own + [next];
    forall k | 0 <= k < |own| ensures own1[k] == own[k] {}
  }

  /** The next fragment of a message, handed over on its session. */
  lemma FragmentStep(log: Log, own: seq<nat>, queue: seq<Bytes>, next: nat, off: nat, n: nat)
    requires next < |queue| && off + n <= |queue[next]|
    requires SessionOk(log, own, queue, next, Some(queue[next][..off]))
    ensures var m := queue[next];
            var last := off + n == |m|;
            var log' := log + [Some(Message(!last, m[off..off + n]))];
            if last then SessionOk(log', own + [next], queue, next + 1, Some([]))
            else SessionOk(log', own, queue, next, Some(m[..off + n]))
  {
    hide Carries, Messages, Leftover, Sound;
    var m := queue[next];
    var last := off + n == |m|;
    var f := Message(!last, m[off..off + n]);
    var fs, begun := Sound(log), m[..off];
    SoundGrows(log, f);
    assert begun + f.bytes == m[..off + n];
    if last {
      assert m[..off + n] == m;
      CarriesLast(own, queue, next, begun, Messages([], fs), Leftover([], fs), |fs| == |log|, f.bytes);
    } else {
      assert Messages([], fs) + [] == Messages([], fs);
      CarriesMore(own, queue, next, begun, Messages([], fs), Leftover([], fs), |fs| == |log|, f.bytes);
    }
  }

  /** A frame that carries no message, or a nonce spent for nothing. */
  lemma QuietStep(log: Log, own: seq<nat>, queue: seq<Bytes>, next: nat, begun: Option<Bytes>, x: Option<Frame>, begun': Option<Bytes>)
    requires SessionOk(log, own, queue, next, begun)
    requires x.Some? ==> !x.value.Message? && begun' == begun
    ensures SessionOk(log + [x], own, queue, next, begun')
  {
    SoundAppend(log, x);
    if x.Some? {
      AppendFrame(Sound(log), x.value);
    }
  }

  lemma CutSessions(t: Sender, n: nat, up: bool)
    requires SenderOk(t) && MayCut(t, n)
    ensures SessionsOk(CutNext(t, n, up))
  {
    hide SessionOk;
    var s, t1 := t.bound.value, CutNext(t, n, up);
    FragmentStep(t.logs[s], t.owners[s], t.queue, t.next, t.off, n);
    QuietStep(t.logs[s], t.owners[s], t.queue, t.next, Begun(t, s), None, Some([]));
    SessionStays(t.logs[s] + [None], t.owners[s], t.queue, t.next, Some([]), t.queue, t.next + 1, Some([]));
    forall s' | s' in t1.logs ensures SessionOk(t1.logs[s'], t1.owners[s'], t1.queue, t1.next, Begun(t1, s')) {
      if s' != s {
        SessionStays(t.logs[s'], t.owners[s'], t.queue, t.next, Begun(t, s'), t1.queue, t1.next, Begun(t1, s'));
      }
    }
  }

  lemma CutOwners(t: Sender, n: nat, up: bool)
    requires SenderOk(t) && MayCut(t, n)
    ensures OneOwner(CutNext(t, n, up))
  {
    hide Sound, Messages, Leftover;
    forall s, k | s in t.owners && 0 <= k < |t.owners[s]| ensures t.owners[s][k] < t.next {
      assert SessionOk(t.logs[s], t.owners[s], t.queue, t.next, Begun(t, s));
    }
  }

  /** A frame on the wire stays in order as its session goes on. */
  lemma SlotStays(log: Log, own: seq<nat>, next: nat, nonce: nat, owner: Option<nat>, x: Option<Frame>, own': seq<nat>, next': nat)
    requires SlotOk(log, own, next, nonce, owner) && own <= own' && next <= next'
    ensures SlotOk(log + [x], own', next', nonce, owner) && SlotOk(log, own', next', nonce, owner)
  {
    SoundAppend(log, x);
    var fs := Sound(log);
    if nonce < |fs| && |fs| == |log| && x.Some? {
      assert (fs + [x.value])[..nonce] == fs[..nonce];
    }
  }

  lemma WireStays(t: Sender, t1: Sender, s: nat, x: Option<Frame>)
    requires SlotsOk(t) && s in t.logs && t.logs.Keys == t.owners.Keys
    requires t1.logs == t.logs[s := t.logs[s] + [x]] && t1.next >= t.next && t1.wire == t.wire
    requires t1.owners.Keys == t.owners.Keys && forall s' | s' in t.owners :: t.owners[s'] <= t1.owners[s']
    ensures SlotsOk(t1)
  {
    forall p | 0 <= p < |t1.wire|
      ensures && t1.wire[p].session in t1.logs && t1.wire[p].session in t1.owners
              && SlotOk(t1.logs[t1.wire[p].session], t1.owners[t1.wire[p].session], t1.next, t1.wire[p].nonce, t1.wire[p].owner)
    {
      var w := t.wire[p];
      SlotStays(t.logs[w.session], t.owners[w.session], t.next, w.nonce, w.owner, x, t1.owners[w.session], t1.next);
    }
  }

  lemma NewSlot(log: Log, own: seq<nat>, queue: seq<Bytes>, next: nat, begun: Option<Bytes>, f: Frame)
    requires SessionOk(log, own, queue, next, begun)
    ensures SlotOk(log + [Some(f)], if Final(f) then own + [next] else own, next + 1, |log|, if Final(f) then Some(next) else None)
  {
    SoundAppend(log, Some(f));
    if |Sound(log)| == |log| {
      assert (Sound(log) + [f])[..|log|] == Sound(log);
    }
  }

  lemma CutSlots(t: Sender, n: nat, up: bool)
    requires SenderOk(t) && MayCut(t, n)
    ensures SlotsOk(CutNext(t, n, up))
  {
    hide SlotOk, SessionOk, WireOrder, OneOwner;
    var s, m, t1 := t.bound.value, t.queue[t.next], CutNext(t, n, up);
    var f := Message(!(t.off + n == |m|), m[t.off..t.off + n]);
    var x := if up then Some(f) else None;
    WireStays(t, t1.(wire := t.wire), s, x);
    if up {
      NewSlot(t.logs[s], t.owners[s], t.queue, t.next, Begun(t, s), f);
      assert t1.wire[|t.wire|].session == s;
      if f.more {
        SlotNext(t1.logs[s], t1.owners[s], t.next, |t.logs[s]|);
      }
    }
  }

  /** A frame that completes nothing does not care what is next. */
  lemma SlotNext(log: Log, own: seq<nat>, next: nat, nonce: nat)
    requires SlotOk(log, own, next + 1, nonce, None)
    ensures SlotOk(log, own, next, nonce, None)
  {}

  lemma CutOrder(t: Sender, n: nat, up: bool)
    requires SenderOk(t) && MayCut(t, n)
    ensures WireOrder(CutNext(t, n, up))
  {
    hide Sound, Messages, Leftover, OneOwner, SessionsOk;
    var t1 := CutNext(t, n, up);
    forall p | 0 <= p < |t.wire| ensures t.wire[p].owner.Some? ==> t.wire[p].owner.value < t.next {
      assert SlotOk(t.logs[t.wire[p].session], t.owners[t.wire[p].session], t.next, t.wire[p].nonce, t.wire[p].owner);
    }
  }

  lemma CutWire(t: Sender, n: nat, up: bool)
    requires SenderOk(t) && MayCut(t, n)
    ensures SlotsOk(CutNext(t, n, up)) && WireOrder(CutNext(t, n, up))
  {
    hide SenderOk, SlotsOk, WireOrder, CutNext;
    CutSlots(t, n, up);
    CutOrder(t, n, up);
  }

  lemma OtherKeeps(t: Sender, s: nat, f: Frame, up: bool)
    requires SenderOk(t) && Usable(t, s) && !f.Message?
    ensures SenderOk(Hand(t, s, f, None, up))
  {
    hide SessionOk;
    var t1 := Hand(t, s, f, None, up);
    QuietStep(t.logs[s], t.owners[s], t.queue, t.next, Begun(t, s), if up then Some(f) else None, Begun(t, s));
    forall s' | s' in t1.logs ensures SessionOk(t1.logs[s'], t1.owners[s'], t1.queue, t1.next, Begun(t1, s')) {
      assert SessionOk(t.logs[s'], t.owners[s'], t.queue, t.next, Begun(t, s'));
    }
    WireStays(t, t1.(wire := t.wire), s, if up then Some(f) else None);
  }

  lemma EmptySession(queue: seq<Bytes>, next: nat)
    requires next <= |queue|
    ensures SessionOk([], [], queue, next, Some([])) && SessionOk([], [], queue, next, None)
  {}

  /** Other than by sending, a session's begun part goes only with the session. */
  lemma BegunStays(t: Sender, step: Step, s: nat)
    requires SenderOk(t) && !step.Cut? && !step.Other?
    ensures var b := Begun(SenderStep(t, step), s); b == None || b == Begun(t, s)
  {
    hide SessionsOk, SlotsOk, WireOrder, OneOwner;
    if t.next < |t.queue| {
      assert t.queue[t.next][..0] == [];
    }
  }

  lemma PlainKeeps(t: Sender, step: Step)
    requires SenderOk(t) && !step.Cut? && !step.Other?
    ensures SenderOk(SenderStep(t, step))
  {
    hide SessionOk;
    var t1 := SenderStep(t, step);
    EmptySession(t1.queue, t1.next);
    forall s | s in t1.logs ensures SessionOk(t1.logs[s], t1.owners[s], t1.queue, t1.next, Begun(t1, s)) {
      if s in t.logs {
        BegunStays(t, step, s);
        SessionStays(t.logs[s], t.owners[s], t.queue, t.next, Begun(t, s), t1.queue, t1.next, Begun(t1, s));
      } else {
        assert t1.logs[s] == [] && t1.owners[s] == [] && (Begun(t1, s) == Some([]) || Begun(t1, s) == None);
      }
    }
    forall p | 0 <= p < |t1.wire|
      ensures && t1.wire[p].session in t1.logs && t1.wire[p].session in t1.owners
              && SlotOk(t1.logs[t1.wire[p].session], t1.owners[t1.wire[p].session], t1.next, t1.wire[p].nonce, t1.wire[p].owner)
    {
      var w := t.wire[p];
      SlotStays(t.logs[w.session], t.owners[w.session], t.next, w.nonce, w.owner, None, t1.owners[w.session], t1.next);
    }
  }

  lemma SenderKeeps(t: Sender, step: Step)
    requires SenderOk(t)
    ensures SenderOk(SenderStep(t, step))
  {
    match step
    case Cut(n, up) =>
      if MayCut(t, n) {
        CutSessions(t, n, up);
        CutOwners(t, n, up);
        CutWire(t, n, up);
      }
    case Other(s, f, up) =>
      if Usable(t, s) && !f.Message? {
        OtherKeeps(t, s, f, up);
      }
    case _ => PlainKeeps(t, step);
  }

  // ---- The receiver keeps its own ----

  function LogOf(t: Sender, s: nat): Log { if s in t.logs then t.logs[s] else [] }

  /** A session the receiver still holds stands at a point of that session's sound frames. */
  predicate StandsAt(fs: seq<Frame>, count: nat, partial: Bytes, place: nat) {
    && count <= |fs|
    && partial == Leftover([], fs[..count])
    && place == |Messages([], fs[..count])|
  }

  ghost predicate Standing(t: Sender, r: Receiver) {
    forall s :: s !in r.dead ==> StandsAt(Sound(LogOf(t, s)), CountOf(r, s), PartialOf(r, s), PlaceOf(r, s))
  }

  /** A delivered message is the one its sender completed at that place on that session. */
  predicate GotOk(t: Sender, r: Receiver, g: Got) {
    && g.session in t.owners && g.place < |t.owners[g.session]| && g.place < PlaceOf(r, g.session)
    && t.owners[g.session][g.place] < |t.queue|
    && g.bytes == t.queue[t.owners[g.session][g.place]]
  }

  /** Each session's messages arrive in the order of their places, none missing. */
  function OnSession(got: seq<Got>, s: nat): seq<nat> {
    if got == [] then []
    else OnSession(got[..|got| - 1], s) + (if got[|got| - 1].session == s then [got[|got| - 1].place] else [])
  }

  /** The places 0, 1, ... below n. */
  function UpTo(n: nat): (r: seq<nat>)
    ensures |r| == n && forall i | 0 <= i < n :: r[i] == i
  {
    if n == 0 then [] else UpTo(n - 1) + [n - 1]
  }

  ghost predicate Delivered(t: Sender, r: Receiver) {
    && (forall i | 0 <= i < |r.got| :: GotOk(t, r, r.got[i]))
    && (forall i, j | 0 <= i < j < |r.got| && r.got[i].session == r.got[j].session :: r.got[i].place < r.got[j].place)
    && (forall s :: OnSession(r.got, s) == UpTo(PlaceOf(r, s)))
  }

  ghost predicate Inv(n: Net) {
    SenderOk(n.tx) && Standing(n.tx, n.rx) && Delivered(n.tx, n.rx) && n.passed <= |n.tx.wire|
  }

  /** What a frame at the receiver's count does to where it stands. */
  lemma Advance(fs: seq<Frame>, count: nat, partial: Bytes, place: nat)
    requires StandsAt(fs, count, partial, place) && count < |fs|
    ensures var f := fs[count];
            if !f.Message? then StandsAt(fs, count + 1, partial, place)
            else if f.more then StandsAt(fs, count + 1, partial + f.bytes, place)
            else StandsAt(fs, count + 1, [], place + 1)
                 && place < |Messages([], fs)| && Messages([], fs)[place] == partial + f.bytes
  {
    var f := fs[count];
    assert fs[..count + 1] == fs[..count] + [f];
    AppendFrame(fs[..count], f);
    assert fs == fs[..count + 1] + fs[count + 1..];
    AssembleAppend([], fs[..count + 1], fs[count + 1..]);
  }

  /** A frame on the wire that the receiver opens is the next sound frame of its session. */
  lemma Opens(t: Sender, r: Receiver, p: nat)
    requires SenderOk(t) && Standing(t, r) && OnWire(t, p)
    requires t.wire[p].session !in r.dead && t.wire[p].nonce == CountOf(r, t.wire[p].session)
    ensures var fs := Sound(LogOf(t, t.wire[p].session));
            t.wire[p].nonce < |fs| && Some(fs[t.wire[p].nonce]) == t.logs[t.wire[p].session][t.wire[p].nonce]
  {
    hide SessionsOk, SlotsOk, WireOrder, OneOwner;
    var s := t.wire[p].session;
    assert StandsAt(Sound(LogOf(t, s)), CountOf(r, s), PartialOf(r, s), PlaceOf(r, s));
  }

  /** The message a final frame completes at the receiver. */
  lemma Completes(t: Sender, r: Receiver, s: nat)
    requires SenderOk(t) && s in t.logs
    requires StandsAt(Sound(t.logs[s]), CountOf(r, s), PartialOf(r, s), PlaceOf(r, s))
    requires CountOf(r, s) < |Sound(t.logs[s])| && Final(Sound(t.logs[s])[CountOf(r, s)])
    ensures s in t.owners && PlaceOf(r, s) < |t.owners[s]| && t.owners[s][PlaceOf(r, s)] < |t.queue|
    ensures PartialOf(r, s) + Sound(t.logs[s])[CountOf(r, s)].bytes == t.queue[t.owners[s][PlaceOf(r, s)]]
  {
    Advance(Sound(t.logs[s]), CountOf(r, s), PartialOf(r, s), PlaceOf(r, s));
    assert SessionOk(t.logs[s], t.owners[s], t.queue, t.next, Begun(t, s));
  }

  lemma FinalKeeps(t: Sender, r: Receiver, s: nat, bytes: Bytes)
    requires Delivered(t, r) && s in t.owners && PlaceOf(r, s) < |t.owners[s]|
    requires t.owners[s][PlaceOf(r, s)] < |t.queue| && bytes == t.queue[t.owners[s][PlaceOf(r, s)]]
    ensures var r1 := r.(places := r.places[s := PlaceOf(r, s) + 1], got := r.got + [Got(s, PlaceOf(r, s), bytes)]);
            Delivered(t, r1)
  {
    var r1 := r.(places := r.places[s := PlaceOf(r, s) + 1], got := r.got + [Got(s, PlaceOf(r, s), bytes)]);
    forall s' ensures OnSession(r1.got, s') == UpTo(PlaceOf(r1, s')) {
      assert r1.got[..|r1.got| - 1] == r.got;
      assert OnSession(r.got, s') == UpTo(PlaceOf(r, s'));
    }
    forall i | 0 <= i < |r1.got| ensures GotOk(t, r1, r1.got[i]) {
      if i < |r.got| {
        assert GotOk(t, r, r.got[i]);
      }
    }
  }

  lemma FrameStanding(t: Sender, r: Receiver, p: nat)
    requires SenderOk(t) && Standing(t, r) && OnWire(t, p)
    ensures var w := t.wire[p];
            Standing(t, OnFrame(r, w.session, w.nonce, t.logs[w.session][w.nonce].value))
  {
    hide StandsAt, Messages, Leftover, SenderOk, Sound;
    var w := t.wire[p];
    var s := w.session;
    if s !in r.dead && w.nonce == CountOf(r, s) {
      Opens(t, r, p);
      Advance(Sound(LogOf(t, s)), w.nonce, PartialOf(r, s), PlaceOf(r, s));
    }
  }

  lemma FrameDelivered(t: Sender, r: Receiver, p: nat)
    requires SenderOk(t) && Standing(t, r) && Delivered(t, r) && OnWire(t, p)
    ensures var w := t.wire[p];
            Delivered(t, OnFrame(r, w.session, w.nonce, t.logs[w.session][w.nonce].value))
  {
    hide StandsAt, Messages, Leftover, SenderOk, Delivered, Sound;
    var w := t.wire[p];
    var s := w.session;
    var r1 := OnFrame(r, s, w.nonce, t.logs[s][w.nonce].value);
    if s !in r.dead && w.nonce == CountOf(r, s) && Final(t.logs[s][w.nonce].value) {
      Opens(t, r, p);
      Completes(t, r, s);
      var bytes := PartialOf(r, s) + t.logs[s][w.nonce].value.bytes;
      FinalKeeps(t, r, s, bytes);
      SameDelivered(t, r.(places := r1.places, got := r1.got), r1);
    } else {
      SameDelivered(t, r, r1);
    }
  }

  lemma SameDelivered(t: Sender, r: Receiver, r1: Receiver)
    requires Delivered(t, r) && r1.got == r.got && r1.places == r.places
    ensures Delivered(t, r1)
  {
    forall i | 0 <= i < |r1.got| ensures GotOk(t, r1, r1.got[i]) {
      assert GotOk(t, r, r.got[i]);
    }
  }

  /** How a sender's step may grow what the receiver is measured against. */
  predicate Grows(t: Sender, t1: Sender) {
    && t.queue <= t1.queue && t.wire <= t1.wire && t.next <= t1.next
    && (forall s | s in t.logs :: s in t1.logs && Sound(t.logs[s]) <= Sound(t1.logs[s]))
    && (forall s | s in t.owners :: s in t1.owners && t.owners[s] <= t1.owners[s])
    && (forall p | |t.wire| <= p < |t1.wire| && t1.wire[p].owner.Some? :: t1.wire[p].owner.value >= t.next)
  }

  lemma LogGrows(t: Sender, t1: Sender, s: nat, x: Option<Frame>)
    requires s in t.logs && t1.logs == t.logs[s := t.logs[s] + [x]]
    ensures forall s' | s' in t.logs :: s' in t1.logs && Sound(t.logs[s']) <= Sound(t1.logs[s'])
  {
    SoundAppend(t.logs[s], x);
  }

  lemma CutGrows(t: Sender, n: nat, up: bool)
    requires MayCut(t, n) && t.bound.value in t.owners
    ensures Grows(t, CutNext(t, n, up))
  {
    hide Sound;
    var s, m := t.bound.value, t.queue[t.next];
    var f := Message(!(t.off + n == |m|), m[t.off..t.off + n]);
    LogGrows(t, CutNext(t, n, up), s, if up then Some(f) else None);
  }

  lemma HandGrows(t: Sender, s: nat, f: Frame, up: bool)
    requires s in t.logs
    ensures Grows(t, Hand(t, s, f, None, up))
  {
    hide Sound;
    LogGrows(t, Hand(t, s, f, None, up), s, if up then Some(f) else None);
  }

  lemma StepGrows(t: Sender, step: Step)
    requires SenderOk(t)
    ensures Grows(t, SenderStep(t, step))
  {
    hide SessionOk, SlotsOk, WireOrder, OneOwner, Sound, CutNext, Hand;
    if step.Cut? && MayCut(t, step.n) {
      CutGrows(t, step.n, step.up);
    } else if step.Other? && Usable(t, step.session) && !step.frame.Message? {
      HandGrows(t, step.session, step.frame, step.up);
    }
  }

  lemma GrowthKeeps(t: Sender, t1: Sender, r: Receiver)
    requires Grows(t, t1) && Standing(t, r) && Delivered(t, r)
    ensures Standing(t1, r) && Delivered(t1, r)
  {
    hide Messages, Leftover;
    forall s | s !in r.dead ensures StandsAt(Sound(LogOf(t1, s)), CountOf(r, s), PartialOf(r, s), PlaceOf(r, s)) {
      var fs, fs1 := Sound(LogOf(t, s)), Sound(LogOf(t1, s));
      assert StandsAt(fs, CountOf(r, s), PartialOf(r, s), PlaceOf(r, s));
      assert fs1[..CountOf(r, s)] == fs[..CountOf(r, s)];
    }
    forall i | 0 <= i < |r.got| ensures GotOk(t1, r, r.got[i]) {
      assert GotOk(t, r, r.got[i]);
    }
  }

  lemma StepKeeps(n: Net, step: Step)
    requires Inv(n)
    ensures Inv(Next(n, step))
  {
    hide SenderOk, Standing, Delivered;
    match step
    case Relay(p) =>
      if OnWire(n.tx, p) {
        FrameStanding(n.tx, n.rx, p);
        FrameDelivered(n.tx, n.rx, p);
      }
    case Forge(s) => KillKeeps(n.tx, n.rx, s);
    case EndThere(s) => KillKeeps(n.tx, n.rx, s);
    case _ =>
      SenderKeeps(n.tx, step);
      StepGrows(n.tx, step);
      GrowthKeeps(n.tx, SenderStep(n.tx, step), n.rx);
  }

  lemma KillKeeps(t: Sender, r: Receiver, s: nat)
    requires Standing(t, r) && Delivered(t, r)
    ensures Standing(t, Kill(r, s)) && Delivered(t, Kill(r, s))
  {
    SameDelivered(t, r, Kill(r, s));
  }

  lemma {:induction false} RunKeeps(n: Net, steps: seq<Step>)
    requires Inv(n)
    ensures Inv(Run(n, steps))
    decreases |steps|
  {
    hide Inv, Next;
    if steps != [] {
      StepKeeps(n, steps[0]);
      RunKeeps(Next(n, steps[0]), steps[1..]);
    }
  }

  // ---- What every run guarantees ----

  /** The message, by its place in the send queue, that a delivery is of. */
  ghost function Origin(n: Net, g: Got): nat
    requires g.session in n.tx.owners && g.place < |n.tx.owners[g.session]|
  {
    n.tx.owners[g.session][g.place]
  }

  /**
    At most once, whole and unspliced, whatever the relay does: every message delivered is exactly
    one that was sent, no message is delivered twice, and on each session those delivered are the
    first so many completed on it.
   */
  lemma AtMostOnce(steps: seq<Step>)
    ensures var n := Run(START, steps);
            && (forall i | 0 <= i < |n.rx.got| :: GotOk(n.tx, n.rx, n.rx.got[i]))
            && (forall i, j | 0 <= i < j < |n.rx.got| && GotOk(n.tx, n.rx, n.rx.got[i]) && GotOk(n.tx, n.rx, n.rx.got[j]) ::
                  Origin(n, n.rx.got[i]) != Origin(n, n.rx.got[j]))
            && (forall s :: OnSession(n.rx.got, s) == UpTo(PlaceOf(n.rx, s)))
  {
    hide Run, SessionsOk, SlotsOk, WireOrder, Standing, OnSession, UpTo;
    assert Inv(START) by { Nothing(); }
    RunKeeps(START, steps);
  }

  lemma Nothing()
    ensures Inv(START)
  {}

  /** Every frame still to pass completes a later message than those delivered. */
  ghost predicate Ahead(n: Net) {
    && (forall i, p | 0 <= i < |n.rx.got| && GotOk(n.tx, n.rx, n.rx.got[i]) && n.passed <= p < |n.tx.wire| && n.tx.wire[p].owner.Some? ::
          Origin(n, n.rx.got[i]) < n.tx.wire[p].owner.value)
    && (forall i, j | 0 <= i < j < |n.rx.got| && GotOk(n.tx, n.rx, n.rx.got[i]) && GotOk(n.tx, n.rx, n.rx.got[j]) ::
          Origin(n, n.rx.got[i]) < Origin(n, n.rx.got[j]))
  }

  lemma Gotten(n: Net, i: nat)
    requires Inv(n) && i < |n.rx.got|
    ensures GotOk(n.tx, n.rx, n.rx.got[i]) && Origin(n, n.rx.got[i]) < n.tx.next
  {
    hide SlotsOk, WireOrder, OneOwner, Standing, OnSession;
    OwnedBefore(n.tx, n.rx.got[i].session);
  }

  lemma SenderStepAhead(n: Net, step: Step)
    requires Inv(n) && Ahead(n) && !step.Relay? && !step.Forge? && !step.EndThere?
    ensures Ahead(Next(n, step))
  {
    hide Inv, SenderOk, SenderStep;
    var t1 := SenderStep(n.tx, step);
    assert Grows(n.tx, t1) by {
      StepSender(n, step);
    }
    forall i | 0 <= i < |n.rx.got|
      ensures GotOk(n.tx, n.rx, n.rx.got[i]) && Origin(n, n.rx.got[i]) < n.tx.next
    {
      Gotten(n, i);
    }
  }

  lemma StepSender(n: Net, step: Step)
    requires Inv(n)
    ensures Grows(n.tx, SenderStep(n.tx, step))
  {
    hide SessionsOk, SlotsOk, WireOrder, OneOwner, Standing, Delivered;
    StepGrows(n.tx, step);
  }

  lemma OwnedBefore(t: Sender, s: nat)
    requires SenderOk(t) && s in t.owners
    ensures forall k | 0 <= k < |t.owners[s]| :: t.owners[s][k] < t.next
  {
    assert SessionOk(t.logs[s], t.owners[s], t.queue, t.next, Begun(t, s));
  }

  /** The message a frame completes at the receiver is the one the wire says it completes. */
  lemma Names(n: Net, p: nat)
    requires Inv(n) && OnWire(n.tx, p)
    requires n.tx.wire[p].session !in n.rx.dead && n.tx.wire[p].nonce == CountOf(n.rx, n.tx.wire[p].session)
    requires n.tx.wire[p].owner.Some?
    ensures var s := n.tx.wire[p].session;
            s in n.tx.owners && PlaceOf(n.rx, s) < |n.tx.owners[s]|
            && n.tx.owners[s][PlaceOf(n.rx, s)] == n.tx.wire[p].owner.value
  {
    var s := n.tx.wire[p].session;
    Opens(n.tx, n.rx, p);
    assert StandsAt(Sound(LogOf(n.tx, s)), CountOf(n.rx, s), PartialOf(n.rx, s), PlaceOf(n.rx, s));
    assert SlotOk(n.tx.logs[s], n.tx.owners[s], n.tx.next, n.tx.wire[p].nonce, n.tx.wire[p].owner);
  }

  lemma RelayAhead(n: Net, p: nat)
    requires Inv(n) && Ahead(n) && p >= n.passed
    ensures Ahead(Next(n, Relay(p)))
  {
    hide SessionsOk, OneOwner, Standing, Sound;
    if OnWire(n.tx, p) {
      var w, n1 := n.tx.wire[p], Next(n, Relay(p));
      var f := n.tx.logs[w.session][w.nonce].value;
      assert SlotOk(n.tx.logs[w.session], n.tx.owners[w.session], n.tx.next, w.nonce, w.owner);
      assert forall i | 0 <= i < |n.rx.got| :: GotOk(n.tx, n.rx, n.rx.got[i]);
      if w.session !in n.rx.dead && w.nonce == CountOf(n.rx, w.session) && Final(f) {
        Names(n, p);
        assert n1.rx.got[|n.rx.got|] == Got(w.session, PlaceOf(n.rx, w.session), PartialOf(n.rx, w.session) + f.bytes);
      } else {
        assert n1.rx.got == n.rx.got;
      }
    }
  }

  lemma {:induction false} RunAhead(n: Net, steps: seq<Step>)
    requires Inv(n) && Ahead(n) && InOrder(n, steps)
    ensures Inv(Run(n, steps)) && Ahead(Run(n, steps))
    decreases |steps|
  {
    hide Inv, Ahead;
    if steps != [] {
      StepKeeps(n, steps[0]);
      match steps[0] {
        case Relay(p) => RelayAhead(n, p);
        case Forge(s) => KillAhead(n, steps[0]);
        case EndThere(s) => KillAhead(n, steps[0]);
        case _ => SenderStepAhead(n, steps[0]);
      }
      RunAhead(Next(n, steps[0]), steps[1..]);
    }
  }

  lemma KillAhead(n: Net, step: Step)
    requires Inv(n) && Ahead(n) && (step.Forge? || step.EndThere?)
    ensures Ahead(Next(n, step))
  {
    hide SenderOk, Standing;
    assert forall i | 0 <= i < |n.rx.got| :: GotOk(n.tx, n.rx, n.rx.got[i]);
  }

  /**
    Over a relay that keeps order, though it may drop frames and forge others, the messages
    delivered are a subsequence of those sent, across any number of sessions and rekeys.
   */
  lemma Subsequence(steps: seq<Step>)
    requires InOrder(START, steps)
    ensures var n := Run(START, steps);
            && (forall i | 0 <= i < |n.rx.got| ::
                  GotOk(n.tx, n.rx, n.rx.got[i]) && n.rx.got[i].bytes == n.tx.queue[Origin(n, n.rx.got[i])])
            && (forall i, j | 0 <= i < j < |n.rx.got| && GotOk(n.tx, n.rx, n.rx.got[i]) && GotOk(n.tx, n.rx, n.rx.got[j]) ::
                  Origin(n, n.rx.got[i]) < Origin(n, n.rx.got[j]))
  {
    RunAhead(START, steps);
  }
}
