/**
  The hand-off between a connection's writer goroutine and the member (client-go/transport.go,
  client-go/relay.go, and the one waiter client-go/sessions.go registers).

  The writer takes queued frames, writes them and counts them off; once little enough waits it
  tells the member, if the drain flag asks for it. The member, under its own lock, asks for that
  call. The two share `buffered` and the flag. Each step below is one atomic action: a section
  under the channel's mutex, one operation on the flag, or one step under the member's lock.
 */
module Drain {

  const LOW_WATER := 65536
  const MAX_CHANNEL := 67108864
  const FRAME_OVERHEAD := 64

  datatype Frame = Data(size: nat) | CloseFrame

  /** Where the writer goroutine is. */
  datatype Writer =
    | Idle                          // about to look at the queue, or waiting for a frame
    | Writing(frame: Frame)         // a frame taken off the queue
    | Counted(low: bool, failed: bool)  // counted off; the write failed or not
    | Aborted                       // after a failed write: the socket is dead, the flag not yet cleared
    | Calling(last: bool)           // onDrain: waiting for the member's lock
    | Inside(last: bool)            // in drained, or the tasks after it, holding the lock
    | Gone

  /** Who holds the member's lock, and how far it is. */
  datatype Lock =
    | Free
    | Ready                         // at a point where the holder may do anything next
    | Armed                         // in whenWritable: flag set, about to look at the channel
    | Looked(writable: bool)        // in whenWritable: has looked
    | Entered                       // in drained
    | Rearming                      // in drained: found the channel not writable
    | Rearmed                       // in drained: flag set again, about to look
    | Disarming                     // in drained: writable after all, about to clear the flag
    | Closing                       // the channel was closed or aborted; onClose comes next

  /** The connection the relay object points at: this channel, none, or a later one. */
  datatype Ref = This | Nil | Later

  /** The channel, guarded by its own mutex. */
  datatype Channel = Channel(queue: seq<Frame>, buffered: int, closing: bool, dead: bool, overflow: bool)

  /** The member's side, guarded by the member's lock. */
  datatype Member = Member(lock: Lock, ref: Ref, waiters: nat, task: bool, awaiting: bool)

  datatype State = State(ch: Channel, flag: bool, writer: Writer, m: Member)

  datatype Step =
    | Take | Wrote(ok: bool) | Proceed | Enter       // the writer
    | Acquire | Release                              // the member's lock
    | Send(size: nat) | Ask(guarded: bool) | Look | Settle | RunTask | CloseIt | ReadFails | Detach | Redial
    | DrainStep                                      // inside drained
    | LateAbort                                      // two seconds after close, or a reader let go

  // ---- What the code does ----

  predicate Writable(c: Channel) { c.closing || c.dead || c.buffered <= LOW_WATER }

  function Abort(c: Channel): Channel { c.(dead := true, closing := true, queue := []) }

  function Sent(c: Channel, n: nat): Channel {
    if c.closing || c.dead || c.overflow then c
    else if c.buffered + n + FRAME_OVERHEAD > MAX_CHANNEL then c.(overflow := true)
    else c.(queue := c.queue + [Data(n)], buffered := c.buffered + n + FRAME_OVERHEAD)
  }

  function Closed(c: Channel): Channel {
    if c.closing || c.dead then c else c.(closing := true, queue := c.queue + [CloseFrame])
  }

  function WriterStep(s: State, step: Step): State {
    match s.writer
    case Idle =>
      if !step.Take? then s
      else if s.ch.dead then s.(writer := Gone)
      else if s.ch.queue == [] then s
      else s.(writer := Writing(s.ch.queue[0]), ch := s.ch.(queue := s.ch.queue[1..]))
    case Writing(f) =>
      if !step.Wrote? then s
      else if f.CloseFrame? then s.(ch := Abort(s.ch), writer := Gone)
      else
        var left := s.ch.buffered - (f.size + FRAME_OVERHEAD);
        s.(ch := s.ch.(buffered := left), writer := Counted(left <= LOW_WATER, !step.ok))
    case Counted(low, failed) =>
      if !step.Proceed? then s
      else if failed then s.(ch := Abort(s.ch), writer := Aborted)
      else if low && s.flag then s.(flag := false, writer := Calling(false))
      else s.(writer := Idle)
    case Aborted => if step.Proceed? then s.(flag := false, writer := Calling(true)) else s
    case Calling(last) =>
      if step.Enter? && s.m.lock == Free then s.(writer := Inside(last), m := s.m.(lock := Entered)) else s
    case _ => s
  }

  /** relayConn.drained, called by the writer with the member's lock held. */
  function DrainedStep(s: State): State {
    match s.m.lock
    case Entered =>
      if s.m.ref == Later then s.(m := s.m.(lock := Ready))
      else if s.m.ref == This && !Writable(s.ch) then s.(m := s.m.(lock := Rearming))
      else s.(m := s.m.(lock := Ready, waiters := 0, awaiting := s.m.waiters == 0 && s.m.awaiting))
    case Rearming => s.(flag := true, m := s.m.(lock := Rearmed))
    case Rearmed => s.(m := s.m.(lock := if Writable(s.ch) then Disarming else Ready))
    case Disarming => s.(flag := false, m := s.m.(lock := Ready))
    case _ => s
  }

  /** What the holder of the lock does next, at a point where it may do anything. */
  function ReadyStep(s: State, step: Step): State {
    match step
    case Release =>
      if s.m.task then s   // the tasks queued under the lock run before it is released
      else s.(m := s.m.(lock := Free),
              writer := if s.writer.Inside? then (if s.writer.last then Gone else Idle) else s.writer)
    case Send(n) => if s.m.ref == This then s.(ch := Sent(s.ch, n)) else s
    case Ask(guarded) =>
      if (guarded && s.m.awaiting) || s.m.ref == Later then s
      else if s.m.ref == Nil then s.(m := s.m.(awaiting := true, task := true))
      else s.(flag := true, m := s.m.(awaiting := true, lock := Armed))
    case RunTask => if s.m.task then s.(m := s.m.(task := false, awaiting := false)) else s
    case CloseIt => if s.m.ref == This then s.(ch := Closed(s.ch), m := s.m.(lock := Closing)) else s
    case ReadFails => if s.m.ref == This then s.(ch := Abort(s.ch), m := s.m.(lock := Closing)) else s
    case Redial => if s.m.ref == Nil && !s.m.task then s.(m := s.m.(ref := Later)) else s
    case _ => s
  }

  function LockedStep(s: State, step: Step): State {
    match s.m.lock
    case Free => if step.Acquire? then s.(m := s.m.(lock := Ready)) else s
    case Ready => ReadyStep(s, step)
    case Armed => if step.Look? then s.(m := s.m.(lock := Looked(Writable(s.ch)))) else s
    case Looked(writable) =>
      if !step.Settle? then s
      else if writable then s.(flag := false, m := s.m.(task := true, lock := Ready))
      else s.(m := s.m.(waiters := s.m.waiters + 1, lock := Ready))
    case Closing =>
      if step.Detach? then s.(m := s.m.(ref := Nil, task := s.m.task || s.m.waiters > 0, waiters := 0, lock := Ready))
      else s
    case _ => if step.DrainStep? && s.writer.Inside? then DrainedStep(s) else s
  }

  predicate OfWriter(step: Step) { step.Take? || step.Wrote? || step.Proceed? || step.Enter? }

  function Next(s: State, step: Step): State {
    if OfWriter(step) then WriterStep(s, step)
    else if step.LateAbort? then (if s.m.ref != This || s.ch.closing then s.(ch := Abort(s.ch)) else s)
    else LockedStep(s, step)
  }

  const OPENED := State(Channel([], 0, false, false, false), false, Idle, Member(Free, This, 0, false, false))

  function Run(s: State, steps: seq<Step>): State
    decreases |steps|
  {
    if steps == [] then s else Run(Next(s, steps[0]), steps[1..])
  }

  // ---- The invariant ----

  function Cost(f: Frame): nat { if f.Data? then f.size + FRAME_OVERHEAD else 0 }

  function Queued(q: seq<Frame>): nat { if q == [] then 0 else Cost(q[0]) + Queued(q[1..]) }

  function InHand(w: Writer): nat { if w.Writing? then Cost(w.frame) else 0 }

  predicate NoClose(q: seq<Frame>) { forall i | 0 <= i < |q| :: q[i] != CloseFrame }

  /** On a live channel, `buffered` is what is queued or being written, and is bounded. */
  predicate Counts(c: Channel, w: Writer) {
    && (!c.dead ==> c.buffered == Queued(c.queue) + InHand(w) <= MAX_CHANNEL)
    && (!c.closing ==> NoClose(c.queue) && w != Writing(CloseFrame))
    && (c.dead ==> c.closing)
  }

  /** The single-waiter guard: at most one wait is under way, wherever it stands. */
  predicate OneWaiter(m: Member) {
    && m.waiters + (if m.task then 1 else 0) + (if m.lock.Armed? || m.lock.Looked? then 1 else 0)
       == (if m.awaiting then 1 else 0)
    && (m.waiters > 0 || m.lock.Armed? || m.lock.Looked? ==> m.ref == This)
  }

  /** The writer holds the lock exactly while it is inside drained or what drained called. */
  predicate LockOk(s: State) {
    && (s.m.lock.Entered? || s.m.lock.Rearming? || s.m.lock.Rearmed? ==> s.writer.Inside?)
    && (s.writer.Inside? ==> s.m.lock != Free)
    && (s.m.lock.Rearming? || s.m.lock.Rearmed? ==> s.m.ref == This && !Writable(s.ch))
    && s.m.lock != Disarming
  }

  /** A live connection is not closing; a dead one is let go at once, or its writer is on the way. */
  predicate EndOk(s: State) {
    && (s.ch.closing && s.m.ref == This && s.m.lock != Closing ==> s.ch.dead)
    && (s.writer.Gone? || s.writer.Aborted? || ((s.writer.Calling? || s.writer.Inside?) && s.writer.last) ==> s.ch.dead)
  }

  /** A drain call is on its way to the member, whatever the flag says. */
  predicate OnItsWay(w: Writer) { w.Aborted? || w.Calling? || (w.Counted? && w.failed) }

  /** The flag is set and the writer is bound to see it once little enough waits. */
  predicate WillCall(s: State) {
    && s.flag && !s.ch.closing && !s.ch.dead
    && (s.ch.buffered > LOW_WATER || (s.writer.Counted? && s.writer.low))
  }

  predicate Waits(s: State) { WillCall(s) || OnItsWay(s.writer) }

  /** No lost wake-up: a registered waiter on this connection is bound to be called. */
  predicate Awake(s: State) {
    && (s.m.waiters > 0 && !s.m.lock.Closing? && !s.m.lock.Entered? && !s.m.lock.Rearming? ==> Waits(s))
    && (s.m.lock == Armed ==> s.flag || OnItsWay(s.writer))
    && (s.m.lock == Rearmed ==> s.flag)
    && (s.m.lock == Looked(false) ==> Waits(s))
  }

  predicate Inv(s: State) { Counts(s.ch, s.writer) && OneWaiter(s.m) && LockOk(s) && EndOk(s) && Awake(s) }

  // ---- Every step keeps it ----

  lemma {:induction false} QueuedAppend(q: seq<Frame>, f: Frame)
    ensures Queued(q + [f]) == Queued(q) + Cost(f)
  {
    if q == [] {
      assert (q + [f])[1..] == [];
    } else {
      assert (q + [f])[1..] == q[1..] + [f];
      QueuedAppend(q[1..], f);
    }
  }

  lemma QueuedHead(q: seq<Frame>)
    requires q != []
    ensures Queued(q) == Cost(q[0]) + Queued(q[1..])
  {}

  lemma QueuedNone()
    ensures Queued([]) == 0
  {}

  lemma CountsKeepsWriter(s: State, step: Step)
    requires Counts(s.ch, s.writer) && OfWriter(step)
    ensures Counts(Next(s, step).ch, Next(s, step).writer)
  {
    hide Queued;
    if s.writer.Idle? && s.ch.queue != [] {
      QueuedHead(s.ch.queue);
    }
    assert Queued([]) == 0 by { QueuedNone(); }
  }

  lemma CountsKeeps(s: State, step: Step)
    requires Counts(s.ch, s.writer) && !OfWriter(step)
    ensures Counts(Next(s, step).ch, Next(s, step).writer)
  {
    hide Queued;
    if step.Send? {
      QueuedAppend(s.ch.queue, Data(step.size));
    } else if step.CloseIt? {
      QueuedAppend(s.ch.queue, CloseFrame);
    } else if step.LateAbort? || step.ReadFails? {
    } else {
      assert Next(s, step).ch == s.ch;
    }
  }

  predicate Guarded(step: Step) { step.Ask? ==> step.guarded }

  lemma WriterKeeps(s: State, step: Step)
    requires Inv(s) && OfWriter(step)
    ensures var s1 := Next(s, step); OneWaiter(s1.m) && LockOk(s1) && EndOk(s1) && Awake(s1)
  {}

  lemma LockedKeeps(s: State, step: Step)
    requires Inv(s) && Guarded(step) && !OfWriter(step)
    ensures var s1 := Next(s, step); OneWaiter(s1.m) && LockOk(s1) && EndOk(s1) && Awake(s1)
  {
    hide Queued, NoClose;
  }

  /**
    In every interleaving of the writer and the member, from the opening of a connection on:
    what is buffered is what waits and at most 64 MiB, at most one waiter is registered, and a
    registered waiter on the connection has the flag set for a writer that will look at it, or a
    drain call already on its way.
   */
  lemma {:induction false} EveryInterleaving(s: State, steps: seq<Step>)
    requires Inv(s) && forall i | 0 <= i < |steps| :: Guarded(steps[i])
    ensures Inv(Run(s, steps))
    decreases |steps|
  {
    if steps != [] {
      if OfWriter(steps[0]) {
        CountsKeepsWriter(s, steps[0]);
        WriterKeeps(s, steps[0]);
      } else {
        CountsKeeps(s, steps[0]);
        LockedKeeps(s, steps[0]);
      }
      EveryInterleaving(Next(s, steps[0]), steps[1..]);
    }
  }

  lemma OpenedOk()
    ensures Inv(OPENED)
  {}

  // ---- Progress ----

  /** The writer's next step, when the lock is free for it and its caller asks for nothing more. */
  function WriterNext(s: State, ok: bool): Step {
    match s.writer
    case Idle => Take
    case Writing(_) => Wrote(ok)
    case Counted(_, _) => Proceed
    case Aborted => Proceed
    case Calling(_) => Enter
    case Inside(_) => if s.m.lock.Ready? then Release else DrainStep
    case Gone => Take
  }

  function Drive(s: State, ok: bool): State { Next(s, WriterNext(s, ok)) }

  /** `ok` says which writes succeed: no state comes twice, so it can be any sequence of outcomes. */
  function Driven(s: State, ok: State -> bool, k: nat): State
    decreases k
  {
    if k == 0 then s else Driven(Drive(s, ok(s)), ok, k - 1)
  }

  function Frames(s: State): nat { |s.ch.queue| + (if s.writer.Writing? then 1 else 0) }

  function Rank(s: State): nat {
    match s.writer
    case Counted(_, _) => 9
    case Aborted => 8
    case Calling(_) => 7
    case Inside(_) => (match s.m.lock case Entered => 6 case Rearming => 5 case Rearmed => 4 case _ => 3)
    case Idle => 2
    case Writing(_) => 1
    case Gone => 0
  }

  /** The writer's own: no one else holds the lock. */
  predicate Alone(s: State) {
    s.m.waiters > 0 && !s.m.task && (if s.writer.Inside? then !s.m.lock.Armed? && !s.m.lock.Looked? && !s.m.lock.Closing? else s.m.lock.Free?)
  }

  lemma DriveKeeps(s: State, ok: bool)
    requires Inv(s)
    ensures Inv(Drive(s, ok))
  {
    hide Inv;
    EveryInterleaving(s, [WriterNext(s, ok)]);
    assert [WriterNext(s, ok)][1..] == [];
    assert Run(Drive(s, ok), []) == Drive(s, ok);
  }

  /** Each step the writer takes brings a registered waiter nearer to its call. */
  lemma DriveProgress(s: State, ok: bool)
    requires Inv(s) && Alone(s)
    ensures var s1 := Drive(s, ok);
            && (s1.m.waiters > 0 ==> Alone(s1))
            && (Frames(s1) < Frames(s) || (Frames(s1) == Frames(s) && Rank(s1) < Rank(s)))
  {
    if s.writer.Idle? {
      assert Queued([]) == 0;
    }
  }

  /**
    A registered waiter is called after finitely many of the writer's steps, whichever of its
    writes succeed.
   */
  lemma {:induction false} WaiterIsCalled(s: State, ok: State -> bool) returns (k: nat)
    requires Inv(s) && Alone(s)
    ensures Driven(s, ok, k).m.waiters == 0
    decreases Frames(s), Rank(s)
  {
    hide Inv, Alone, Drive, Frames, Rank;
    var s1 := Drive(s, ok(s));
    DriveKeeps(s, ok(s));
    DriveProgress(s, ok(s));
    if s1.m.waiters == 0 {
      k := 1;
      assert Driven(s1, ok, 0) == s1;
    } else {
      var j := WaiterIsCalled(s1, ok);
      k := j + 1;
    }
  }

  // ---- Whoever else runs ----

  /** What is left for the writer to do before a registered waiter is called, at most. */
  function Left(s: State): nat { 10 * Frames(s) + Rank(s) + if s.ch.closing then 0 else 10 }

  /** A step of the writer's that does something, in drained and when it leaves it too. */
  predicate Moves(s: State, step: Step) {
    Next(s, step) != s && (OfWriter(step) || (s.writer.Inside? && (step.DrainStep? || step.Release?)))
  }

  lemma WriterNearer(s: State, step: Step)
    requires Inv(s) && s.m.waiters > 0 && OfWriter(step) && Next(s, step) != s
    ensures Left(Next(s, step)) < Left(s)
  {
    hide Queued, NoClose, Counts, Awake;
  }

  lemma LockedNearer(s: State, step: Step)
    requires Inv(s) && s.m.waiters > 0 && Guarded(step) && !step.Send? && !OfWriter(step)
    ensures var s1 := Next(s, step);
            s1.m.waiters == 0 || (Left(s1) <= Left(s) && (Moves(s, step) ==> Left(s1) < Left(s)))
  {
    hide Queued, NoClose, Counts, Awake;
  }

  /** The writer's steps in a run that do something. */
  function Moved(s: State, steps: seq<Step>): nat
    decreases |steps|
  {
    if steps == [] then 0 else (if Moves(s, steps[0]) then 1 else 0) + Moved(Next(s, steps[0]), steps[1..])
  }

  /** At some point of the run no waiter is registered: it was called, or released as the connection closed. */
  predicate Served(s: State, steps: seq<Step>)
    decreases |steps|
  {
    s.m.waiters == 0 || (steps != [] && Served(Next(s, steps[0]), steps[1..]))
  }

  /**
    Whoever takes the member's lock in between, and whether or not the connection closes: once nothing more is sent,
    a registered waiter is served before the writer has taken more steps than there were left.
   */
  lemma {:induction false} BoundedWait(s: State, steps: seq<Step>)
    requires Inv(s) && forall i | 0 <= i < |steps| :: Guarded(steps[i]) && !steps[i].Send?
    ensures Served(s, steps) || Moved(s, steps) <= Left(s)
    decreases |steps|
  {
    hide Inv, Next, Left, Moves;
    if steps != [] && s.m.waiters > 0 {
      var s1 := Next(s, steps[0]);
      OneStep(s, steps[0]);
      BoundedWait(s1, steps[1..]);
      if OfWriter(steps[0]) {
        if s1 != s {
          WriterNearer(s, steps[0]);
        }
      } else {
        LockedNearer(s, steps[0]);
      }
      assert Moves(s, steps[0]) ==> s1 != s by { MovesSome(s, steps[0]); }
    }
  }

  lemma OneStep(s: State, step: Step)
    requires Inv(s) && Guarded(step)
    ensures Inv(Next(s, step))
  {
    hide Inv, Next;
    EveryInterleaving(s, [step]);
    assert [step][1..] == [];
    assert Run(Next(s, step), []) == Next(s, step);
  }

  lemma MovesSome(s: State, step: Step)
    ensures Moves(s, step) ==> Next(s, step) != s
  {}

  /** And while it waits and nobody else holds the lock, the writer has such a step to take. */
  lemma NeverStuck(s: State, ok: bool)
    requires Inv(s) && Alone(s)
    ensures Moves(s, WriterNext(s, ok))
  {
    hide Inv, Next;
    DriveProgress(s, ok);
    AloneMoves(s, ok);
  }

  lemma AloneMoves(s: State, ok: bool)
    requires Alone(s)
    ensures var step := WriterNext(s, ok); OfWriter(step) || (s.writer.Inside? && (step.DrainStep? || step.Release?))
  {}

  // ---- Frames leave in the order they were sent ----

  /** What a step puts at the end of the queue: a message the channel takes, or its close. */
  function Accepted(s: State, step: Step): seq<Frame> {
    if s.m.lock != Ready || s.m.ref != This || s.ch.closing || s.ch.dead then []
    else if step.CloseIt? then [CloseFrame]
    else if step.Send? && !s.ch.overflow && s.ch.buffered + step.size + FRAME_OVERHEAD <= MAX_CHANNEL then [Data(step.size)]
    else []
  }

  /** What a step hands to the socket. */
  function Written(s: State, step: Step): seq<Frame> { if s.writer.Writing? && step.Wrote? then [s.writer.frame] else [] }

  function AllAccepted(s: State, steps: seq<Step>): seq<Frame>
    decreases |steps|
  {
    if steps == [] then [] else Accepted(s, steps[0]) + AllAccepted(Next(s, steps[0]), steps[1..])
  }

  function AllWritten(s: State, steps: seq<Step>): seq<Frame>
    decreases |steps|
  {
    if steps == [] then [] else Written(s, steps[0]) + AllWritten(Next(s, steps[0]), steps[1..])
  }

  function Hand(w: Writer): seq<Frame> { if w.Writing? then [w.frame] else [] }

  /** With `sent` accepted and `out` written so far: those in hand are next, and on a live channel the queue is the rest. */
  predicate InLine(s: State, sent: seq<Frame>, out: seq<Frame>) {
    out + Hand(s.writer) <= sent && (!s.ch.dead ==> sent == out + Hand(s.writer) + s.ch.queue)
  }

  lemma WriterInLine(s: State, step: Step, sent: seq<Frame>, out: seq<Frame>)
    requires OfWriter(step) && InLine(s, sent, out)
    ensures InLine(WriterStep(s, step), sent, out + Written(s, step))
  {
    assert out + [] == out;
    if s.writer.Idle? && !s.ch.dead && s.ch.queue != [] {
      assert out + s.ch.queue == out + [s.ch.queue[0]] + s.ch.queue[1..];
    }
  }

  lemma LockedQueues(s: State, step: Step)
    requires !OfWriter(step)
    ensures var s1 := Next(s, step);
            && Hand(s1.writer) == Hand(s.writer)
            && (s.ch.dead ==> s1.ch.dead && Accepted(s, step) == [])
            && (!s1.ch.dead ==> s1.ch.queue == s.ch.queue + Accepted(s, step))
  {
    assert s.ch.queue + [] == s.ch.queue;
  }

  lemma StepInLine(s: State, step: Step, sent: seq<Frame>, out: seq<Frame>)
    requires InLine(s, sent, out)
    ensures InLine(Next(s, step), sent + Accepted(s, step), out + Written(s, step))
  {
    if OfWriter(step) {
      WriterInLine(s, step, sent, out);
      assert Accepted(s, step) == [] && sent + [] == sent;
    } else {
      LockedQueues(s, step);
      assert Written(s, step) == [] && out + [] == out;
      hide Next, Accepted;
      var more, hand := Accepted(s, step), out + Hand(s.writer);
      assert !s.ch.dead ==> hand + (s.ch.queue + more) == sent + more;
      assert hand <= sent + more;
    }
  }

  lemma {:induction false} RunInLine(s: State, steps: seq<Step>, sent: seq<Frame>, out: seq<Frame>)
    requires InLine(s, sent, out)
    ensures InLine(Run(s, steps), sent + AllAccepted(s, steps), out + AllWritten(s, steps))
    decreases |steps|
  {
    hide InLine, Next, Accepted, Written;
    if steps == [] {
      assert sent + [] == sent && out + [] == out;
    } else {
      var sent1, out1 := sent + Accepted(s, steps[0]), out + Written(s, steps[0]);
      StepInLine(s, steps[0], sent, out);
      RunInLine(Next(s, steps[0]), steps[1..], sent1, out1);
      assert sent1 + AllAccepted(Next(s, steps[0]), steps[1..]) == sent + AllAccepted(s, steps);
      assert out1 + AllWritten(Next(s, steps[0]), steps[1..]) == out + AllWritten(s, steps);
    }
  }

  /**
    In every interleaving frames reach the socket in the order they were accepted, none twice and none left out: what
    was written and what is in hand are the first of those accepted, and on a live channel the queue is the rest.
   */
  lemma FirstInFirstOut(steps: seq<Step>)
    ensures var s, sent, out := Run(OPENED, steps), AllAccepted(OPENED, steps), AllWritten(OPENED, steps);
            out + Hand(s.writer) <= sent && (!s.ch.dead ==> sent == out + Hand(s.writer) + s.ch.queue)
  {
    hide Run, AllAccepted, AllWritten;
    RunInLine(OPENED, steps, [], []);
    assert [] + AllAccepted(OPENED, steps) == AllAccepted(OPENED, steps) && [] + AllWritten(OPENED, steps) == AllWritten(OPENED, steps);
  }

  // ---- The guard ----

  /**
    The single-waiter guard is what this rests on: with a second wait asked for while one is
    registered, the run below leaves the first registered, the flag clear, nothing queued and the
    writer at rest, so nothing will call it.
   */
  lemma WithoutTheGuard() returns (steps: seq<Step>)
    ensures var s := Run(OPENED, steps);
            s.m.waiters == 1 && s.m.ref == This && !s.flag && s.ch.queue == [] && !s.ch.dead && s.writer == Idle && s.m.lock == Free
  {
    hide Run, Next;
    FirstWait();
    SecondWait();
    var first := [Acquire, Send(70000), Ask(true)] + [Look, Settle, Release] + [Take, Wrote(true), Acquire];
    var second := [Ask(false), Look, Settle] + [RunTask, Release, Proceed];
    steps := first + second;
    RunAppend(OPENED, first, second);
  }

  const REGISTERED := State(Channel([], 0, false, false, false), true, Counted(true, false), Member(Ready, This, 1, false, true))

  const BUSY := Channel([Data(70000)], 70064, false, false, false)

  lemma Asks()
    ensures Run(OPENED, [Acquire, Send(70000), Ask(true)]) == State(BUSY, true, Idle, Member(Armed, This, 0, false, true))
  {
    hide Run;
    var s := Three(OPENED, Acquire, Send(70000), Ask(true));
  }

  lemma Settles()
    ensures Run(State(BUSY, true, Idle, Member(Armed, This, 0, false, true)), [Look, Settle, Release])
         == State(BUSY, true, Idle, Member(Free, This, 1, false, true))
  {
    hide Run;
    var s := Three(State(BUSY, true, Idle, Member(Armed, This, 0, false, true)), Look, Settle, Release);
  }

  lemma Writes()
    ensures Run(State(BUSY, true, Idle, Member(Free, This, 1, false, true)), [Take, Wrote(true), Acquire]) == REGISTERED
  {
    hide Run;
    var s := Three(State(BUSY, true, Idle, Member(Free, This, 1, false, true)), Take, Wrote(true), Acquire);
  }

  /** A waiter registers, and the writer counts off the frame that lets it be called. */
  lemma FirstWait()
    ensures Run(OPENED, [Acquire, Send(70000), Ask(true)] + [Look, Settle, Release] + [Take, Wrote(true), Acquire]) == REGISTERED
  {
    hide Run;
    Asks();
    Settles();
    Writes();
    RunAppend(OPENED, [Acquire, Send(70000), Ask(true)], [Look, Settle, Release]);
    RunAppend(OPENED, [Acquire, Send(70000), Ask(true)] + [Look, Settle, Release], [Take, Wrote(true), Acquire]);
  }

  /** A second wait finds the channel writable and clears the flag before the writer tries it. */
  lemma SecondWait()
    ensures Run(REGISTERED, [Ask(false), Look, Settle] + [RunTask, Release, Proceed])
         == State(Channel([], 0, false, false, false), false, Idle, Member(Free, This, 1, false, false))
  {
    hide Run;
    var s1 := Three(REGISTERED, Ask(false), Look, Settle);
    assert s1 == REGISTERED.(flag := false, m := Member(Ready, This, 1, true, true));
    var s2 := Three(s1, RunTask, Release, Proceed);
    RunAppend(REGISTERED, [Ask(false), Look, Settle], [RunTask, Release, Proceed]);
  }

  lemma Three(s: State, a: Step, b: Step, c: Step) returns (s1: State)
    ensures s1 == Next(Next(Next(s, a), b), c) == Run(s, [a, b, c])
  {
    hide Next;
    s1 := Next(Next(Next(s, a), b), c);
    assert [a, b, c][1..] == [b, c] && [b, c][1..] == [c] && [c][1..] == [];
    assert Run(s1, []) == s1;
    assert Run(Next(Next(s, a), b), [c]) == s1;
  }

  lemma {:induction false} RunAppend(s: State, a: seq<Step>, b: seq<Step>)
    ensures Run(s, a + b) == Run(Run(s, a), b)
    decreases |a|
  {
    if a == [] {
      assert a + b == b;
    } else {
      assert (a + b)[1..] == a[1..] + b;
      RunAppend(Next(s, a[0]), a[1..], b);
    }
  }
}
