/**
  Two sides of one session joined by FIFO wires: what every run keeps of the credit between them.

  A side sends fragments within its credit, control frames, and the credit frames that Flow's
  receive side produces; frames arrive in order; the application takes messages when and in the
  order it likes; the credit timer fires when it likes.
 */
module CreditLink {
  import opened Basics
  import opened Flow

  datatype Side = Side(
    window: int, out: Outbound, inb: Inbound,
    sending: seq<Byte>,       // the part already sent of the message being sent
    sent: seq<seq<Byte>>,     // the messages whose last fragment was sent, in order
    got: seq<seq<Byte>>)      // the messages handed to the application, in order

  /** `here` and `there`, and the wires towards each. */
  datatype Link = Link(here: Side, there: Side, outgoing: seq<Frame>, incoming: seq<Frame>)

  datatype Act =
    | Send(bytes: seq<Byte>, last: bool)
    | SendControl
    | Arrive(room: PeerRoom)
    | Take(index: nat)
    | TimerFires

  datatype Step = Step(mine: bool, act: Act)

  datatype Outcome = Live(link: Link) | Over(why: Refusal)

  function Flip(l: Link): Link {
    Link(l.there, l.here, l.incoming, l.outgoing)
  }

  predicate Enabled(l: Link, act: Act) {
    match act
    case Send(bytes, last) =>
      && |bytes| <= MAX_FRAGMENT && |bytes| <= l.here.out.sendCredit
      && (last || bytes != [])
      && |l.here.sending| + |bytes| <= MAX_MESSAGE
    case SendControl => true
    case Arrive(_) => l.incoming != []
    case Take(i) => i < |l.here.inb.untaken|
    case TimerFires => l.here.inb.timer
  }

  function Perform(l: Link, act: Act): Outcome
    requires Enabled(l, act)
  {
    var h := l.here;
    match act
    case Send(bytes, last) =>
      var whole := h.sending + bytes;
      var h1 := h.(out := Spend(h.out, |bytes|),
                   sending := if last then [] else whole,
                   sent := if last then h.sent + [whole] else h.sent);
      Live(l.(here := h1, outgoing := l.outgoing + [Message(!last, bytes)]))
    case SendControl => Live(l.(outgoing := l.outgoing + [Control]))
    case Arrive(room) =>
      var l1 := l.(incoming := l.incoming[1..]);
      (match l.incoming[0]
       case Control => Live(l1)
       case Credit(c) => Live(l1.(here := h.(out := OnCredit(h.out, c))))
       case Message(more, bytes) =>
         match Receive(h.inb, more, bytes, room, true)
         case Ends(why) => Over(why)
         case Takes(r, frames, whole) =>
           Live(l1.(here := h.(inb := r, got := h.got + whole), outgoing := l.outgoing + frames)))
    case Take(i) =>
      var (r, frames) := Release(h.inb, i, true);
      Live(l.(here := h.(inb := r), outgoing := l.outgoing + frames))
    case TimerFires =>
      var (r, frames) := Timer(h.inb, true);
      Live(l.(here := h.(inb := r), outgoing := l.outgoing + frames))
  }

  predicate CanStep(l: Link, s: Step) { Enabled(if s.mine then l else Flip(l), s.act) }

  function Next(l: Link, s: Step): Outcome
    requires CanStep(l, s)
  {
    if s.mine then Perform(l, s.act) else
    match Perform(Flip(l), s.act)
    case Over(why) => Over(why)
    case Live(l1) => Live(Flip(l1))
  }

  /** The outcome of a run: steps that are not enabled do nothing, and nothing follows an end. */
  function Run(l: Link, steps: seq<Step>): Outcome
    decreases |steps|
  {
    if steps == [] then Live(l)
    else if !CanStep(l, steps[0]) then Run(l, steps[1..])
    else match Next(l, steps[0])
         case Over(why) => Over(why)
         case Live(l1) => Run(l1, steps[1..])
  }

  function Fresh(window: int, r: Inbound): Side {
    Side(window, Outbound(INITIAL_CREDIT, 0), r, [], [], [])
  }

  predicate WindowOk(w: int) { INITIAL_CREDIT <= w <= MAX_CREDIT }

  /** Both sides have just adopted the session; each may have granted a larger window. */
  function Adopted(here: int, there: int): Link {
    var (r1, f1) := Opened(here);
    var (r2, f2) := Opened(there);
    Link(Fresh(here, r1), Fresh(there, r2), f1, f2)
  }

  // ---- Sums ----

  function MessageBytes(frames: seq<Frame>): (n: int)
    ensures n >= 0
  {
    if frames == [] then 0
    else (if frames[0].Message? then |frames[0].bytes| else 0) + MessageBytes(frames[1..])
  }

  function CreditTotal(frames: seq<Frame>): int {
    if frames == [] then 0
    else (if frames[0].Credit? then frames[0].amount else 0) + CreditTotal(frames[1..])
  }

  function Uncredited(us: seq<Untaken>): int {
    if us == [] then 0 else us[0].uncredited + Uncredited(us[1..])
  }

  /** What a receiver with `partial` buffered makes of the frames to come: the whole messages. */
  function Messages(partial: seq<Byte>, frames: seq<Frame>): seq<seq<Byte>>
    decreases |frames|
  {
    if frames == [] then []
    else if !frames[0].Message? then Messages(partial, frames[1..])
    else if frames[0].more then Messages(partial + frames[0].bytes, frames[1..])
    else [partial + frames[0].bytes] + Messages([], frames[1..])
  }

  /** ... and what is left in its buffer. */
  function Leftover(partial: seq<Byte>, frames: seq<Frame>): seq<Byte>
    decreases |frames|
  {
    if frames == [] then partial
    else if !frames[0].Message? then Leftover(partial, frames[1..])
    else if frames[0].more then Leftover(partial + frames[0].bytes, frames[1..])
    else Leftover([], frames[1..])
  }

  // ---- The invariant ----

  predicate FrameOk(f: Frame) {
    match f
    case Message(more, bytes) => more ==> bytes != []
    case Credit(c) => 0 < c
    case Control => true
  }

  predicate Wire(frames: seq<Frame>) { forall i | 0 <= i < |frames| :: FrameOk(frames[i]) }

  /** What the receiver still owes the sender, in any form. */
  function Retained(r: Inbound): int {
    r.owed + (|r.partial| - r.partialCredited) + Uncredited(r.untaken)
  }

  /** The receive side alone. */
  predicate ReceiverOk(r: Inbound, window: int) {
    && WindowOk(window)
    && r.allowance + Retained(r) == window
    && 0 <= r.partialCredited <= |r.partial|
    && r.held == |r.untaken|
    && (forall u <- r.untaken :: 0 <= u.uncredited <= u.size)
    && (r.held == 0 ==> r.partialCredited == |r.partial|)
    && 0 <= r.owed < CREDIT_BATCH
    && (r.timer <==> r.owed > 0)
  }

  /** One direction: `s` sends to `r` over `fwd`, and credit comes back over `back`. */
  predicate Direction(s: Side, r: Side, fwd: seq<Frame>, back: seq<Frame>) {
    && ReceiverOk(r.inb, r.window)
    && Wire(fwd)
    && r.inb.allowance == s.out.sendCredit + MessageBytes(fwd) + CreditTotal(back)
    && 0 <= s.out.sendCredit && 0 <= s.out.inflight
    && INITIAL_CREDIT <= s.out.sendCredit + s.out.inflight <= r.window
    && |s.sending| <= MAX_MESSAGE
    && (forall m <- s.sent :: |m| <= MAX_MESSAGE)
    && s.sent == r.got + Messages(r.inb.partial, fwd)
    && s.sending == Leftover(r.inb.partial, fwd)
  }

  predicate Inv(l: Link) {
    && Direction(l.here, l.there, l.outgoing, l.incoming)
    && Direction(l.there, l.here, l.incoming, l.outgoing)
  }

  // ---- Lemmas about the sums ----

  lemma {:induction false} SumsAppend(a: seq<Frame>, b: seq<Frame>)
    ensures MessageBytes(a + b) == MessageBytes(a) + MessageBytes(b)
    ensures CreditTotal(a + b) == CreditTotal(a) + CreditTotal(b)
  {
    if a == [] {
      assert a + b == b;
    } else {
      SumsAppend(a[1..], b);
      assert (a + b)[1..] == a[1..] + b;
    }
  }

  lemma {:induction false} CreditPositive(frames: seq<Frame>)
    requires Wire(frames)
    ensures CreditTotal(frames) >= 0
  {
    if frames != [] {
      assert FrameOk(frames[0]);
      CreditPositive(frames[1..]);
    }
  }

  lemma {:induction false} AssembleAppend(partial: seq<Byte>, a: seq<Frame>, b: seq<Frame>)
    ensures Messages(partial, a + b) == Messages(partial, a) + Messages(Leftover(partial, a), b)
    ensures Leftover(partial, a + b) == Leftover(Leftover(partial, a), b)
    decreases |a|
  {
    if a == [] {
      assert a + b == b;
    } else {
      assert (a + b)[1..] == a[1..] + b;
      var p := if !a[0].Message? then partial else if a[0].more then partial + a[0].bytes else [];
      AssembleAppend(p, a[1..], b);
    }
  }

  lemma {:induction false} UncreditedAppend(a: seq<Untaken>, b: seq<Untaken>)
    ensures Uncredited(a + b) == Uncredited(a) + Uncredited(b)
  {
    if a == [] {
      assert a + b == b;
    } else {
      UncreditedAppend(a[1..], b);
      assert (a + b)[1..] == a[1..] + b;
    }
  }

  lemma {:induction false} UncreditedWithout(us: seq<Untaken>, i: nat)
    requires i < |us|
    ensures Uncredited(Without(us, i)) == Uncredited(us) - us[i].uncredited
  {
    if i == 0 {
      assert Without(us, i) == us[1..];
    } else {
      UncreditedWithout(us[1..], i - 1);
      assert Without(us, i)[1..] == Without(us[1..], i - 1);
    }
  }

  lemma {:induction false} UncreditedBound(us: seq<Untaken>)
    requires forall u <- us :: 0 <= u.uncredited
    ensures Uncredited(us) >= 0
  {
    if us != [] {
      UncreditedBound(us[1..]);
    }
  }

  lemma CreditFramesOnly(owed: int, frames: seq<Frame>)
    requires 0 < owed <= MAX_CREDIT
    requires frames == CreditFrames(owed)
    ensures frames == [Credit(owed)]
  {
    assert CreditFrames(0) == [];
  }

  // ---- Every step keeps the invariant ----

  /** A side's own frames that carry no message bytes leave the other direction's reassembly alone. */
  lemma NoMessages(partial: seq<Byte>, frames: seq<Frame>, f: Frame)
    requires !f.Message?
    ensures Messages(partial, frames + [f]) == Messages(partial, frames)
    ensures Leftover(partial, frames + [f]) == Leftover(partial, frames)
    ensures MessageBytes(frames + [f]) == MessageBytes(frames)
    ensures CreditTotal(frames + [f]) == CreditTotal(frames) + (if f.Credit? then f.amount else 0)
  {
    AssembleAppend(partial, frames, [f]);
    SumsAppend(frames, [f]);
    assert [f][1..] == [];
    var p := Leftover(partial, frames);
    assert Messages(p, [f]) == [] && Leftover(p, [f]) == p;
  }

  /** A flush keeps the receiver in order once what it was owed is accounted for. */
  lemma FlushKeeps(r: Inbound, now: bool, window: int)
    requires r.owed >= 0 && r.allowance >= 0
    requires ReceiverOk(r.(owed := 0, timer := false, allowance := r.allowance + r.owed), window)
    requires r.timer ==> 0 < r.owed
    ensures var (r', frames) := Flush(r, now, true);
            && ReceiverOk(r', window)
            && frames == (if r'.owed == 0 < r.owed then [Credit(r.owed)] else [])
            && r'.partial == r.partial && r'.allowance == r.allowance + r.owed - r'.owed
  {
    if r.owed > 0 {
      UncreditedBound(r.untaken);
      assert Retained(r.(owed := 0, timer := false, allowance := r.allowance + r.owed)) == Retained(r) - r.owed;
      if now || r.owed >= CREDIT_BATCH {
        CreditFramesOnly(r.owed, CreditFrames(r.owed));
      }
    }
  }

  /** The receive side's own theorem: taking a fragment, or a message, keeps it in order. */
  lemma FragmentKeeps(r: Inbound, more: bool, bytes: seq<Byte>, room: PeerRoom, window: int)
    requires ReceiverOk(r, window) && r.allowance >= 0
    requires more ==> bytes != []
    ensures match Receive(r, more, bytes, room, true)
            case Ends(_) => true
            case Takes(r', frames, whole) =>
              && ReceiverOk(r', window)
              && r'.partial == Leftover(r.partial, [Message(more, bytes)])
              && whole == Messages(r.partial, [Message(more, bytes)])
              && (frames == [] || exists c :: 0 < c && frames == [Credit(c)])
              && r'.allowance == r.allowance - |bytes| + CreditTotal(frames)
  {
    if Refusals(r, more, |bytes|, room) == [] {
      assert [Message(more, bytes)][1..] == [];
      var r1 := r.(allowance := r.allowance - |bytes|, partial := r.partial + bytes);
      if more && r.held == 0 {
        var r2 := r1.(owed := r1.owed + |bytes|, partialCredited := r1.partialCredited + |bytes|);
        FlushKeeps(r2, false, window);
      } else if !more {
        UncreditedAppend(r.untaken, [Untaken(|r1.partial|, |r1.partial| - r1.partialCredited)]);
      }
    }
  }

  lemma TakeKeeps(r: Inbound, i: nat, window: int)
    requires ReceiverOk(r, window) && r.allowance >= 0 && i < |r.untaken|
    ensures var (r', frames) := Release(r, i, true);
            && ReceiverOk(r', window) && r'.partial == r.partial
            && (frames == [] || exists c :: 0 < c && frames == [Credit(c)])
            && r'.allowance == r.allowance + CreditTotal(frames)
  {
    UncreditedWithout(r.untaken, i);
    FlushKeeps(Taken(r, i), false, window);
  }

  /** A frame of `here` that carries no message, with its credit counted, keeps both directions. */
  lemma SendKeeps(l: Link, bytes: seq<Byte>, last: bool)
    requires Inv(l) && Enabled(l, Send(bytes, last))
    ensures Perform(l, Send(bytes, last)).Live? && Inv(Perform(l, Send(bytes, last)).link)
  {
    var f := Message(!last, bytes);
    var l1 := Perform(l, Send(bytes, last)).link;
    SumsAppend(l.outgoing, [f]);
    AssembleAppend(l.there.inb.partial, l.outgoing, [f]);
    assert [f][1..] == [];
    CreditPositive(l.incoming);
    assert l.there.inb.allowance <= l.there.window by { UncreditedBound(l.there.inb.untaken); }
    assert l1.here.sent == l.there.got + Messages(l.there.inb.partial, l1.outgoing);
  }

  /** What the first frame of a wire contributes to its sums and to the reassembly. */
  lemma Head(partial: seq<Byte>, wire: seq<Frame>)
    requires Wire(wire) && wire != []
    ensures FrameOk(wire[0]) && Wire(wire[1..]) && CreditTotal(wire[1..]) >= 0
    ensures Messages(partial, wire)
         == Messages(partial, [wire[0]]) + Messages(Leftover(partial, [wire[0]]), wire[1..])
    ensures Leftover(partial, wire) == Leftover(Leftover(partial, [wire[0]]), wire[1..])
  {
    assert wire == [wire[0]] + wire[1..];
    AssembleAppend(partial, [wire[0]], wire[1..]);
    CreditPositive(wire[1..]);
  }

  lemma CreditArrives(l: Link, room: PeerRoom)
    requires Inv(l) && l.incoming != [] && !l.incoming[0].Message?
    ensures Perform(l, Arrive(room)).Live? && Inv(Perform(l, Arrive(room)).link)
  {
    Head(l.here.inb.partial, l.incoming);
    assert [l.incoming[0]][1..] == [];
    if l.incoming[0].Credit? {
      CapNeverBites(l);
      UncreditedBound(l.there.inb.untaken);
      CreditPositive(l.incoming);
    }
  }

  /** Once the receiver has taken the first fragment, the direction it came in is in order. */
  lemma StillGets(l: Link, r: Inbound, frames: seq<Frame>, whole: seq<seq<Byte>>)
    requires Direction(l.there, l.here, l.incoming, l.outgoing) && l.incoming != [] && l.incoming[0].Message?
    requires ReceiverOk(r, l.here.window)
    requires r.partial == Leftover(l.here.inb.partial, [l.incoming[0]])
    requires whole == Messages(l.here.inb.partial, [l.incoming[0]])
    requires r.allowance == l.here.inb.allowance - |l.incoming[0].bytes| + CreditTotal(frames)
    requires CreditTotal(l.outgoing + frames) == CreditTotal(l.outgoing) + CreditTotal(frames)
    ensures Direction(l.there, l.here.(inb := r, got := l.here.got + whole), l.incoming[1..], l.outgoing + frames)
  {
    Head(l.here.inb.partial, l.incoming);
    assert l.there.sent == (l.here.got + whole) + Messages(r.partial, l.incoming[1..]);
  }

  lemma MessageArrives(l: Link, room: PeerRoom)
    requires Inv(l) && l.incoming != [] && l.incoming[0].Message?
    ensures match Perform(l, Arrive(room))
            case Over(why) => why == PeerBuffer || why == PeerMessages
            case Live(l1) => Inv(l1)
  {
    var Message(more, bytes) := l.incoming[0];
    assert FrameOk(l.incoming[0]);
    MessageFits(l, more, bytes);
    FragmentKeeps(l.here.inb, more, bytes, room, l.here.window);
    match Receive(l.here.inb, more, bytes, room, true)
    case Ends(_) =>
    case Takes(r, frames, whole) =>
      CreditOut(l, frames);
      StillSends(l, l.here.(inb := r, got := l.here.got + whole), frames, l.incoming[1..]);
      StillGets(l, r, frames, whole);
  }

  /** A message in flight is within the credit granted and within the largest message. */
  lemma MessageFits(l: Link, more: bool, bytes: seq<Byte>)
    requires Inv(l) && l.incoming != [] && l.incoming[0] == Message(more, bytes)
    ensures |bytes| <= l.here.inb.allowance
    ensures |l.here.inb.partial| + |bytes| <= MAX_MESSAGE
  {
    var rest := l.incoming[1..];
    assert l.incoming == [l.incoming[0]] + rest;
    CreditPositive(l.outgoing);
    var p := l.here.inb.partial + bytes;
    if more {
      LeftoverGrows(p, rest);
      if Messages(p, rest) != [] {
        var m := Messages(p, rest)[0];
        assert m == l.there.sent[|l.here.got|];
      }
    } else {
      assert p == l.there.sent[|l.here.got|];
    }
  }

  /** What is buffered is a prefix of the next whole message, or of what is left over. */
  lemma {:induction false} LeftoverGrows(partial: seq<Byte>, frames: seq<Frame>)
    ensures |partial| <= |if Messages(partial, frames) == [] then Leftover(partial, frames) else Messages(partial, frames)[0]|
    decreases |frames|
  {
    if frames != [] {
      if !frames[0].Message? {
        LeftoverGrows(partial, frames[1..]);
      } else if frames[0].more {
        LeftoverGrows(partial + frames[0].bytes, frames[1..]);
      }
    }
  }

  /** The effect on the far side's books of credit frames sent by `here`. */
  lemma CreditOut(l: Link, frames: seq<Frame>)
    requires Wire(l.outgoing)
    requires frames == [] || exists c :: 0 < c && frames == [Credit(c)]
    ensures Wire(l.outgoing + frames)
    ensures MessageBytes(l.outgoing + frames) == MessageBytes(l.outgoing)
    ensures CreditTotal(l.outgoing + frames) == CreditTotal(l.outgoing) + CreditTotal(frames)
    ensures Messages(l.there.inb.partial, l.outgoing + frames) == Messages(l.there.inb.partial, l.outgoing)
    ensures Leftover(l.there.inb.partial, l.outgoing + frames) == Leftover(l.there.inb.partial, l.outgoing)
  {
    if frames == [] {
      assert l.outgoing + frames == l.outgoing;
    } else {
      var c :| 0 < c && frames == [Credit(c)];
      NoMessages(l.there.inb.partial, l.outgoing, Credit(c));
      assert frames[1..] == [];
    }
  }

  /** Credit frames sent by `here` leave the direction in which it sends messages in order. */
  lemma StillSends(l: Link, h: Side, frames: seq<Frame>, incoming: seq<Frame>)
    requires Direction(l.here, l.there, l.outgoing, l.incoming)
    requires h.out == l.here.out && h.sending == l.here.sending && h.sent == l.here.sent
    requires frames == [] || exists c :: 0 < c && frames == [Credit(c)]
    requires CreditTotal(incoming) == CreditTotal(l.incoming)
    ensures Direction(h, l.there, l.outgoing + frames, incoming)
  {
    CreditOut(l, frames);
  }

  lemma ActKeeps(l: Link, act: Act)
    requires Inv(l) && Enabled(l, act)
    ensures match Perform(l, act)
            case Over(why) => why == PeerBuffer || why == PeerMessages
            case Live(l1) => Inv(l1)
  {
    CreditPositive(l.outgoing);
    match act
    case Send(bytes, last) => SendKeeps(l, bytes, last);
    case SendControl => NoMessages(l.there.inb.partial, l.outgoing, Control);
    case Arrive(room) =>
      if l.incoming[0].Message? {
        MessageArrives(l, room);
      } else {
        CreditArrives(l, room);
      }
    case Take(i) =>
      TakeKeeps(l.here.inb, i, l.here.window);
      var (r, frames) := Release(l.here.inb, i, true);
      CreditOut(l, frames);
      StillSends(l, l.here.(inb := r), frames, l.incoming);
    case TimerFires =>
      FlushKeeps(l.here.inb.(timer := false), true, l.here.window);
      var (r, frames) := Timer(l.here.inb, true);
      CreditOut(l, frames);
      StillSends(l, l.here.(inb := r), frames, l.incoming);
      assert [Credit(l.here.inb.owed)][1..] == [];
  }

  lemma AdoptedOk(here: int, there: int)
    requires WindowOk(here) && WindowOk(there)
    ensures Inv(Adopted(here, there))
  {
    OpenedOk(here);
    OpenedOk(there);
  }

  lemma OpenedOk(window: int)
    requires WindowOk(window)
    ensures var (r, frames) := Opened(window);
            && ReceiverOk(r, window) && Wire(frames)
            && r.partial == [] && MessageBytes(frames) == 0 && Messages([], frames) == [] && Leftover([], frames) == []
            && r.allowance == INITIAL_CREDIT + CreditTotal(frames)
  {
    var r := Inbound([], 0, 0, window - INITIAL_CREDIT, INITIAL_CREDIT, false, []);
    assert ReceiverOk(r.(owed := 0, allowance := r.allowance + r.owed), window);
    FlushKeeps(r, false, window);
    assert [Credit(r.owed)][1..] == [];
  }

  /**
    Two-ended credit: on every run between two honest sides, whatever windows they grant, each
    receiver's allowance is the sender's credit plus the bytes and the credit still on the wires,
    and no fragment is refused for credit, emptiness or length. A session ends only because of
    what the peer left buffered over all its sessions.
   */
  lemma {:induction false} EveryRun(here: int, there: int, steps: seq<Step>)
    requires WindowOk(here) && WindowOk(there)
    ensures match Run(Adopted(here, there), steps)
            case Over(why) => why == PeerBuffer || why == PeerMessages
            case Live(l) => Inv(l)
  {
    AdoptedOk(here, there);
    RunKeeps(Adopted(here, there), steps);
  }

  lemma {:induction false} RunKeeps(l: Link, steps: seq<Step>)
    requires Inv(l)
    ensures match Run(l, steps)
            case Over(why) => why == PeerBuffer || why == PeerMessages
            case Live(l1) => Inv(l1)
    decreases |steps|
  {
    if steps == [] {
    } else if !CanStep(l, steps[0]) {
      RunKeeps(l, steps[1..]);
    } else {
      ActKeeps(if steps[0].mine then l else Flip(l), steps[0].act);
      match Next(l, steps[0])
      case Over(_) =>
      case Live(l1) => RunKeeps(l1, steps[1..]);
    }
  }

  // ---- Consequences ----

  /** The 2^53 cap on a sender's credit never bites, and a flush is one frame of all that is owed. */
  lemma CapNeverBites(l: Link)
    requires Inv(l) && l.incoming != [] && l.incoming[0].Credit?
    ensures OnCredit(l.here.out, l.incoming[0].amount).sendCredit
         == l.here.out.sendCredit + l.incoming[0].amount <= MAX_CREDIT
  {
    var rest := l.incoming[1..];
    assert l.incoming == [l.incoming[0]] + rest;
    SumsAppend([l.incoming[0]], rest);
    assert [l.incoming[0]][1..] == [];
    CreditPositive(rest);
    UncreditedBound(l.there.inb.untaken);
  }

  /** Nothing is on its way and nothing waits: neither frames, nor a timer, nor the application. */
  predicate Quiet(l: Link) {
    && l.outgoing == [] && l.incoming == []
    && !l.here.inb.timer && !l.there.inb.timer
    && l.here.inb.untaken == [] && l.there.inb.untaken == []
  }

  /** At rest the whole window is back with the sender, and every message sent was delivered. */
  lemma QuietIsWhole(l: Link)
    requires Inv(l) && Quiet(l)
    ensures l.here.out.sendCredit == l.there.window && l.here.out.inflight == 0
    ensures l.here.sent == l.there.got && l.here.sending == l.there.inb.partial
  {
    assert CreditTotal([]) == 0;
  }

  // ---- Coming to rest ----

  predicate Sends(act: Act) { act.Send? || act.SendControl? }

  function Weight(frames: seq<Frame>): nat {
    if frames == [] then 0 else (if frames[0].Message? then 4 else 1) + Weight(frames[1..])
  }

  /** What is left to do at a side: its untaken messages and its timer. */
  function Pending(r: Inbound): nat { 3 * |r.untaken| + if r.timer then 2 else 0 }

  function Load(l: Link): nat {
    Weight(l.outgoing) + Weight(l.incoming) + Pending(l.here.inb) + Pending(l.there.inb)
  }

  lemma {:induction false} WeightAppend(a: seq<Frame>, b: seq<Frame>)
    ensures Weight(a + b) == Weight(a) + Weight(b)
  {
    if a == [] {
      assert a + b == b;
    } else {
      WeightAppend(a[1..], b);
      assert (a + b)[1..] == a[1..] + b;
    }
  }

  /** A flush leaves a timer or sends one frame, never both. */
  lemma FlushLoad(r: Inbound, now: bool, window: int)
    requires r.owed >= 0 && r.allowance >= 0
    requires ReceiverOk(r.(owed := 0, timer := false, allowance := r.allowance + r.owed), window)
    requires r.timer ==> 0 < r.owed
    ensures var (r', frames) := Flush(r, now, true);
            && r'.untaken == r.untaken && Weight(frames) + (if r'.timer then 2 else 0) <= if now then 1 else 2
  {
    FlushKeeps(r, now, window);
    assert [Credit(r.owed)][1..] == [];
  }

  lemma FragmentLoad(r: Inbound, more: bool, bytes: seq<Byte>, room: PeerRoom, window: int)
    requires ReceiverOk(r, window) && r.allowance >= 0 && (more ==> bytes != [])
    ensures match Receive(r, more, bytes, room, true)
            case Ends(_) => true
            case Takes(r', frames, _) => Weight(frames) + Pending(r') <= Pending(r) + 3
  {
    if Refusals(r, more, |bytes|, room) == [] && more && r.held == 0 {
      var n := |bytes|;
      FlushLoad(r.(allowance := r.allowance - n, partial := r.partial + bytes, owed := r.owed + n,
                   partialCredited := r.partialCredited + n), false, window);
    }
  }

  lemma TakeLoad(r: Inbound, i: nat, window: int)
    requires ReceiverOk(r, window) && r.allowance >= 0 && i < |r.untaken|
    ensures var (r', frames) := Release(r, i, true); Weight(frames) + Pending(r') < Pending(r)
  {
    UncreditedWithout(r.untaken, i);
    FlushLoad(Taken(r, i), false, window);
  }

  /** Every step but a send leaves less to do. */
  lemma Lowers(l: Link, act: Act)
    requires Inv(l) && Enabled(l, act) && !Sends(act) && Perform(l, act).Live?
    ensures Load(Perform(l, act).link) < Load(l)
  {
    hide ReceiverOk, Receive, Release, Flush;
    AllowanceOk(l);
    match act
    case Arrive(room) =>
      if l.incoming[0].Message? {
        var Message(more, bytes) := l.incoming[0];
        assert FrameOk(l.incoming[0]);
        FragmentLoad(l.here.inb, more, bytes, room, l.here.window);
        WeightAppend(l.outgoing, Receive(l.here.inb, more, bytes, room, true).frames);
      }
    case Take(i) =>
      TakeLoad(l.here.inb, i, l.here.window);
      WeightAppend(l.outgoing, Release(l.here.inb, i, true).1);
    case TimerFires =>
      TimerLoad(l.here.inb, l.here.window);
      WeightAppend(l.outgoing, Timer(l.here.inb, true).1);
  }

  lemma TimerLoad(r: Inbound, window: int)
    requires ReceiverOk(r, window) && r.allowance >= 0 && r.timer
    ensures var (r', frames) := Timer(r, true); Weight(frames) + Pending(r') < Pending(r)
  {
    FlushLoad(r.(timer := false), true, window);
  }

  lemma AllowanceOk(l: Link)
    requires Inv(l)
    ensures l.here.inb.allowance >= 0 && ReceiverOk(l.here.inb, l.here.window) && Wire(l.incoming)
  {
    CreditPositive(l.outgoing);
  }

  /** What stays of the messages sent, and of the windows, when nothing is sent. */
  predicate Stays(l: Link, l1: Link) {
    && l1.here.window == l.here.window && l1.here.sending == l.here.sending && l1.here.sent == l.here.sent
    && l1.there.window == l.there.window && l1.there.sending == l.there.sending && l1.there.sent == l.there.sent
  }

  /** The room of a peer that has this session only. */
  function Alone(s: Side): PeerRoom {
    PeerRoom(|s.inb.partial| + Sizes(s.inb.untaken), 2 * MAX_MESSAGE + 4 * s.window, s.inb.held, MAX_HELD)
  }

  function Sizes(us: seq<Untaken>): int { if us == [] then 0 else us[0].size + Sizes(us[1..]) }

  /** All steps of a run are enabled, nothing ends, and the peer has this session only. */
  predicate Runs(l: Link, steps: seq<Step>)
    decreases |steps|
  {
    steps == [] ||
    var s := steps[0];
    && CanStep(l, s) && (s.act.Arrive? ==> s.act.room == Alone(if s.mine then l.here else l.there))
    && Next(l, s).Live? && Runs(Next(l, s).link, steps[1..])
  }

  lemma {:induction false} RunsLive(l: Link, steps: seq<Step>)
    requires Inv(l) && Runs(l, steps)
    ensures Run(l, steps).Live? && Inv(Run(l, steps).link)
    decreases |steps|
  {
    hide Inv, Next, CanStep, Alone, Load, Stays;
    if steps != [] {
      NextKeeps(l, steps[0]);
      RunsLive(Next(l, steps[0]).link, steps[1..]);
    }
  }

  lemma {:induction false} RunsOn(l: Link, a: seq<Step>, b: seq<Step>)
    requires Inv(l) && Runs(l, a) && Run(l, a).Live? && Runs(Run(l, a).link, b)
    ensures Runs(l, a + b) && Run(l, a + b) == Run(Run(l, a).link, b)
    decreases |a|
  {
    hide Inv, Next, CanStep, Alone, Load, Stays;
    if a == [] {
      assert a + b == b;
    } else {
      assert (a + b)[1..] == a[1..] + b && (a + b)[0] == a[0];
      NextKeeps(l, a[0]);
      RunsOn(Next(l, a[0]).link, a[1..], b);
    }
  }

  lemma NextKeeps(l: Link, s: Step)
    requires Inv(l) && CanStep(l, s) && Next(l, s).Live?
    ensures Inv(Next(l, s).link)
    ensures !Sends(s.act) ==> Load(Next(l, s).link) < Load(l) && Stays(l, Next(l, s).link)
  {
    hide Inv, Load;
    var v := if s.mine then l else Flip(l);
    Flipped(l);
    ActKeeps(v, s.act);
    Flipped(Perform(v, s.act).link);
    if !Sends(s.act) {
      Lowers(v, s.act);
    }
  }

  lemma Flipped(l: Link)
    ensures Inv(l) <==> Inv(Flip(l))
    ensures Load(l) == Load(Flip(l))
  {}

  /** Without sends there are at most as many steps as there is to do, whoever takes them in whatever order. */
  lemma {:induction false} WindsDown(l: Link, steps: seq<Step>)
    requires Inv(l) && Runs(l, steps) && forall s <- steps :: !Sends(s.act)
    ensures Run(l, steps).Live? && |steps| + Load(Run(l, steps).link) <= Load(l)
    decreases |steps|
  {
    hide Inv, Next, CanStep, Alone, Load, Stays;
    if steps != [] {
      NextKeeps(l, steps[0]);
      WindsDown(Next(l, steps[0]).link, steps[1..]);
    }
  }

  /** A fragment that arrives when nothing is untaken is taken. */
  lemma Admitted(l: Link)
    requires Inv(l) && l.incoming != [] && l.here.inb.untaken == []
    ensures Perform(l, Arrive(Alone(l.here))).Live?
  {
    if l.incoming[0].Message? {
      assert FrameOk(l.incoming[0]);
      MessageFits(l, l.incoming[0].more, l.incoming[0].bytes);
    }
  }

  /** Short of rest there is a step to take that sends nothing. */
  lemma SomeStep(l: Link) returns (s: Step)
    requires Inv(l) && !Quiet(l)
    ensures !Sends(s.act) && Runs(l, [s])
  {
    hide Inv;
    Flipped(l);
    var mine := l.here.inb.untaken != [];
    if mine || l.there.inb.untaken != [] {
      s := Step(mine, Take(0));
    } else if l.here.inb.timer || l.there.inb.timer {
      s := Step(l.here.inb.timer, TimerFires);
    } else if l.incoming != [] {
      Admitted(l);
      s := Step(true, Arrive(Alone(l.here)));
    } else {
      Admitted(Flip(l));
      s := Step(false, Arrive(Alone(l.there)));
    }
    assert Runs(Next(l, s).link, [s][1..]);
  }

  /** From every state, frames, timers and the application bring the link to rest: all credit comes back. */
  lemma {:induction false} Settles(l: Link) returns (steps: seq<Step>)
    requires Inv(l)
    ensures Runs(l, steps) && (forall s <- steps :: !Sends(s.act)) && Run(l, steps).Live?
    ensures var l1 := Run(l, steps).link; Inv(l1) && Quiet(l1) && Stays(l, l1)
    decreases Load(l)
  {
    hide Inv, Load;
    if Quiet(l) {
      steps := [];
    } else {
      var s := SomeStep(l);
      NextKeeps(l, s);
      var rest := Settles(Next(l, s).link);
      steps := [s] + rest;
      assert steps[1..] == rest;
    }
  }

  /**
    No starvation: a sender out of credit has a frame, a timer or the application to wait for, and without sending
    anything it comes to have the whole window again.
   */
  lemma BlockedHasCause(l: Link) returns (steps: seq<Step>)
    requires Inv(l) && l.here.out.sendCredit <= 0
    ensures l.outgoing != [] || l.incoming != [] || l.there.inb.timer || l.there.inb.untaken != []
    ensures l.here.out.inflight >= INITIAL_CREDIT
    ensures Runs(l, steps) && (forall s <- steps :: !Sends(s.act)) && Run(l, steps).Live?
    ensures Run(l, steps).link.here.out == Outbound(l.there.window, 0)
  {
    if l.outgoing == [] && l.incoming == [] {
      assert CreditTotal(l.incoming) == 0;
    }
    steps := Settles(l);
    QuietIsWhole(Run(l, steps).link);
  }

  /** One fragment out of a link at rest, and back to rest. */
  lemma Round(l: Link, bytes: seq<Byte>, last: bool) returns (steps: seq<Step>)
    requires Inv(l) && Quiet(l) && |bytes| <= MAX_FRAGMENT && (last || bytes != []) && |l.here.sending| + |bytes| <= MAX_MESSAGE
    ensures Runs(l, steps) && Run(l, steps).Live?
    ensures var l1 := Run(l, steps).link;
            && Inv(l1) && Quiet(l1)
            && l1.here.sending == (if last then [] else l.here.sending + bytes)
            && l1.here.sent == l.here.sent + if last then [l.here.sending + bytes] else []
  {
    var s := Step(true, Send(bytes, last));
    assert Enabled(l, s.act) by { QuietIsWhole(l); }
    NextKeeps(l, s);
    var rest := Settles(Next(l, s).link);
    steps := [s] + rest;
    assert steps[1..] == rest;
  }

  /**
    Any message up to 64 MiB crosses any window while the application keeps up: from every state there
    is a schedule of fragments, arrivals, timers and credit that delivers it whole after all sent before.
   */
  lemma LongMessageCrosses(l: Link, bytes: seq<Byte>) returns (steps: seq<Step>)
    requires Inv(l) && |l.here.sending| + |bytes| <= MAX_MESSAGE
    ensures Runs(l, steps) && Run(l, steps).Live?
    ensures Run(l, steps).link.there.got == l.here.sent + [l.here.sending + bytes]
  {
    hide Inv;
    var first := Settles(l);
    var rest := CrossesFromRest(Run(l, first).link, bytes);
    steps := first + rest;
    RunsOn(l, first, rest);
  }

  lemma Rejoined(a: seq<Byte>, b: seq<Byte>, k: nat)
    requires k <= |b|
    ensures a + b[..k] + b[k..] == a + b
  {
    assert b[..k] + b[k..] == b;
  }

  lemma {:induction false} CrossesFromRest(l: Link, bytes: seq<Byte>) returns (steps: seq<Step>)
    requires Inv(l) && Quiet(l) && |l.here.sending| + |bytes| <= MAX_MESSAGE
    ensures Runs(l, steps) && Run(l, steps).Live?
    ensures Run(l, steps).link.there.got == l.here.sent + [l.here.sending + bytes]
    decreases |bytes|
  {
    hide Inv, Quiet, Runs, Run;
    if |bytes| <= MAX_FRAGMENT {
      steps := Round(l, bytes, true);
      QuietIsWhole(Run(l, steps).link);
    } else {
      var head, tail := bytes[..MAX_FRAGMENT], bytes[MAX_FRAGMENT..];
      var first := Round(l, head, false);
      var rest := CrossesFromRest(Run(l, first).link, tail);
      steps := first + rest;
      RunsOn(l, first, rest);
      Rejoined(l.here.sending, bytes, MAX_FRAGMENT);
    }
  }
}
