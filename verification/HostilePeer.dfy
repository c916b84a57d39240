/**
  One session's receive side against any peer at all: whatever fragments come, when and however the application
  takes messages and the timer fires, credit is enforced (client-go/sessions.go).

  What is promised is said of the history alone: the fragments taken so far, and the credit granted so far.
 */
module HostilePeer {

  import opened Basics
  import opened Flow
  import opened CreditLink

  /** `up` says whether the relay takes what is sent meanwhile. */
  datatype Event =
    | Fragment(more: bool, bytes: seq<Byte>, room: PeerRoom, up: bool)
    | Takes(index: nat, up: bool)
    | Fires(up: bool)

  /** A live session and its history, or how it ended. */
  datatype State =
    | Open(r: Inbound, log: seq<Frame>, sent: seq<Frame>, unsent: int, got: seq<seq<Byte>>)
    | Ended(why: Refusal)

  /** The credit a flush counts: what it sends, or would have sent. */
  function Counted(r: Inbound, now: bool): int {
    if r.owed <= 0 || (!now && r.owed < CREDIT_BATCH) then 0 else r.owed
  }

  function Flushed(st: State, r: Inbound, frames: seq<Frame>, counted: int, up: bool): State
    requires st.Open?
  {
    st.(r := r, sent := st.sent + frames, unsent := if up then st.unsent else st.unsent + counted)
  }

  function Next(st: State, e: Event): State {
    if st.Ended? then st else
    match e
    case Fragment(more, bytes, room, up) =>
      (match Receive(st.r, more, bytes, room, up)
       case Ends(why) => Ended(why)
       case Takes(r, frames, whole) =>
         var owes := if more && st.r.held == 0 then Counted(st.r.(owed := st.r.owed + |bytes|), false) else 0;
         Flushed(st, r, frames, owes, up).(log := st.log + [Message(more, bytes)], got := st.got + whole))
    case Takes(i, up) =>
      if i >= |st.r.untaken| then st else
      var (r, frames) := Release(st.r, i, up);
      Flushed(st, r, frames, Counted(Taken(st.r, i), false), up)
    case Fires(up) =>
      if !st.r.timer then st else
      var (r, frames) := Timer(st.r, up);
      Flushed(st, r, frames, Counted(st.r, true), up)
  }

  function Run(st: State, events: seq<Event>): State
    decreases |events|
  {
    if events == [] then st else Run(Next(st, events[0]), events[1..])
  }

  function Start(window: int): State {
    var (r, frames) := Opened(window);
    Open(r, [], frames, 0, [])
  }

  /** All the credit a peer was ever granted: the initial credit, and what was counted as returned. */
  function Granted(st: State): int
    requires st.Open?
  {
    INITIAL_CREDIT + CreditTotal(st.sent) + st.unsent
  }

  ghost predicate Inv(st: State, window: int) {
    st.Open? ==>
      && ReceiverOk(st.r, window) && 0 <= st.r.allowance
      && st.r.allowance + MessageBytes(st.log) == Granted(st)
      && st.r.partial == Leftover([], st.log) && |st.r.partial| <= MAX_MESSAGE
      && st.got == Messages([], st.log) && (forall m <- st.got :: |m| <= MAX_MESSAGE)
  }

  // ---- Every event keeps it ----

  /** Whether or not the relay takes the frame, a flush leaves the same receiver. */
  lemma FlushEither(r: Inbound, now: bool, up: bool, window: int)
    requires r.owed >= 0 && r.allowance >= 0 && (r.timer ==> 0 < r.owed)
    requires ReceiverOk(r.(owed := 0, timer := false, allowance := r.allowance + r.owed), window)
    ensures var (r1, frames) := Flush(r, now, up);
            && ReceiverOk(r1, window) && r1.partial == r.partial && r1.allowance == r.allowance + Counted(r, now)
            && CreditTotal(frames) == (if up then Counted(r, now) else 0)
  {
    FlushKeeps(r, now, window);
    UncreditedBound(r.untaken);
    assert [Credit(r.owed)][1..] == [] && CreditTotal([]) == 0;
  }

  lemma SentMore(sent: seq<Frame>, frames: seq<Frame>)
    ensures CreditTotal(sent + frames) == CreditTotal(sent) + CreditTotal(frames)
  {
    SumsAppend(sent, frames);
  }

  /** A fragment more at the end of the log. */
  lemma Logged(log: seq<Frame>, f: Frame)
    requires f.Message?
    ensures MessageBytes(log + [f]) == MessageBytes(log) + |f.bytes|
    ensures Leftover([], log + [f]) == if f.more then Leftover([], log) + f.bytes else []
    ensures Messages([], log + [f]) == Messages([], log) + if f.more then [] else [Leftover([], log) + f.bytes]
  {
    SumsAppend(log, [f]);
    AssembleAppend([], log, [f]);
    assert [f][1..] == [];
    var p := Leftover([], log);
    assert Messages(p, [f]) == if f.more then [] else [p + f.bytes];
  }

  /** The receiver with `bytes` more of a message, before its credit is flushed. */
  function Grown(r: Inbound, bytes: seq<Byte>): Inbound {
    var r1 := r.(allowance := r.allowance - |bytes|, partial := r.partial + bytes);
    if r.held == 0 then r1.(owed := r1.owed + |bytes|, partialCredited := r1.partialCredited + |bytes|) else r1
  }

  lemma GrownKeeps(r: Inbound, bytes: seq<Byte>, room: PeerRoom, up: bool, window: int)
    requires ReceiverOk(r, window) && Refusals(r, true, |bytes|, room) == []
    ensures var got := Receive(r, true, bytes, room, up);
            var counted := if r.held == 0 then Counted(r.(owed := r.owed + |bytes|), false) else 0;
            && got.Takes? && got.whole == [] && ReceiverOk(got.inb, window) && got.inb.partial == r.partial + bytes
            && got.inb.allowance == r.allowance - |bytes| + counted && counted >= 0
            && CreditTotal(got.frames) == if up then counted else 0
  {
    if r.held == 0 {
      FlushEither(Grown(r, bytes), false, up, window);
    }
  }

  lemma MoreKeeps(st: State, bytes: seq<Byte>, room: PeerRoom, up: bool, window: int)
    requires st.Open? && Inv(st, window) && Refusals(st.r, true, |bytes|, room) == []
    ensures Inv(Next(st, Fragment(true, bytes, room, up)), window)
  {
    hide ReceiverOk, Receive, Counted;
    Logged(st.log, Message(true, bytes));
    GrownKeeps(st.r, bytes, room, up, window);
    SentMore(st.sent, Receive(st.r, true, bytes, room, up).frames);
    assert |bytes| <= st.r.allowance && |st.r.partial + bytes| <= MAX_MESSAGE;
    assert st.got + [] == st.got;
  }

  lemma LastKeeps(st: State, bytes: seq<Byte>, room: PeerRoom, up: bool, window: int)
    requires st.Open? && Inv(st, window) && Refusals(st.r, false, |bytes|, room) == []
    ensures Inv(Next(st, Fragment(false, bytes, room, up)), window)
  {
    Logged(st.log, Message(false, bytes));
    FragmentKeeps(st.r, false, bytes, room, window);
    assert st.sent + [] == st.sent;
  }

  lemma TakesKeeps(st: State, i: nat, up: bool, window: int)
    requires st.Open? && Inv(st, window)
    ensures Inv(Next(st, Event.Takes(i, up)), window)
  {
    if i < |st.r.untaken| {
      TakenOk(st.r, i, window);
      hide Taken, ReceiverOk, Flush;
      FlushEither(Taken(st.r, i), false, up, window);
      SentMore(st.sent, Release(st.r, i, up).1);
    }
  }

  /** What is left to flush after a message is taken. */
  lemma TakenOk(r: Inbound, i: nat, window: int)
    requires ReceiverOk(r, window) && r.allowance >= 0 && i < |r.untaken|
    ensures var r1 := Taken(r, i);
            && r1.owed >= 0 && r1.allowance == r.allowance && (r1.timer ==> 0 < r1.owed) && r1.partial == r.partial
            && ReceiverOk(r1.(owed := 0, timer := false, allowance := r1.allowance + r1.owed), window)
  {
    UncreditedWithout(r.untaken, i);
  }

  lemma FiresKeeps(st: State, up: bool, window: int)
    requires st.Open? && Inv(st, window)
    ensures Inv(Next(st, Fires(up)), window)
  {
    if st.r.timer {
      FlushEither(st.r.(timer := false), true, up, window);
      SentMore(st.sent, Timer(st.r, up).1);
    }
  }

  lemma NextKeeps(st: State, e: Event, window: int)
    requires Inv(st, window)
    ensures Inv(Next(st, e), window)
  {
    hide ReceiverOk;
    if st.Open? {
      match e
      case Fragment(more, bytes, room, up) =>
        if Refusals(st.r, more, |bytes|, room) == [] {
          if more {
            MoreKeeps(st, bytes, room, up, window);
          } else {
            LastKeeps(st, bytes, room, up, window);
          }
        }
      case Takes(i, up) => TakesKeeps(st, i, up, window);
      case Fires(up) => FiresKeeps(st, up, window);
    }
  }

  lemma {:induction false} RunKeeps(st: State, events: seq<Event>, window: int)
    requires Inv(st, window)
    ensures Inv(Run(st, events), window)
    decreases |events|
  {
    hide Inv, Next;
    if events != [] {
      NextKeeps(st, events[0], window);
      RunKeeps(Next(st, events[0]), events[1..], window);
    }
  }

  lemma StartOk(window: int)
    requires WindowOk(window)
    ensures Inv(Start(window), window)
  {
    OpenedOk(window);
    UncreditedBound([]);
    assert MessageBytes([]) == 0 && CreditTotal([]) == 0;
  }

  // ---- What it comes to ----

  /**
    Credit is enforced against any peer: in every state of every run the bytes taken are within the credit granted, no
    buffer and no message is over 64 MiB, and what was handed over is what the fragments taken say.
   */
  lemma Enforced(window: int, events: seq<Event>)
    requires WindowOk(window)
    ensures var st := Run(Start(window), events);
            st.Open? ==>
              && 0 <= st.r.allowance == Granted(st) - MessageBytes(st.log)
              && st.r.partial == Leftover([], st.log) && |st.r.partial| <= MAX_MESSAGE
              && st.got == Messages([], st.log) && forall m <- st.got :: |m| <= MAX_MESSAGE
  {
    StartOk(window);
    RunKeeps(Start(window), events, window);
  }

  /**
    And exactly so: after any run, the next fragment is taken if and only if it is not empty with more to follow, the
    bytes taken with it stay within the credit granted, its message within 64 MiB, and the peer has room.
   */
  lemma TakenExactly(window: int, events: seq<Event>, more: bool, bytes: seq<Byte>, room: PeerRoom, up: bool)
    requires WindowOk(window) && Run(Start(window), events).Open?
    ensures var st := Run(Start(window), events);
            var st1, n := Next(st, Fragment(more, bytes, room, up)), |bytes|;
            && (st1.Open? <==>
                  && (more ==> n > 0)
                  && MessageBytes(st.log) + n <= Granted(st)
                  && |Leftover([], st.log)| + n <= MAX_MESSAGE
                  && room.buffered + n <= room.limit
                  && (more || room.heldCount < room.maxHeld))
            && (st1 == Ended(EmptyFragment) <==> more && n == 0)
            && (st1 == Ended(OverCredit) <==> !(more && n == 0) && MessageBytes(st.log) + n > Granted(st))
            && (st1.Open? ==> st1.log == st.log + [Message(more, bytes)])
  {
    hide Run;
    Enforced(window, events);
  }

  // ---- The credit a peer grants ----

  datatype Move = Granting(amount: nat) | Sending(n: nat)

  function Moved(o: Outbound, moves: seq<Move>): Outbound
    decreases |moves|
  {
    if moves == [] then o
    else Moved(if moves[0].Granting? then OnCredit(o, moves[0].amount) else Spend(o, moves[0].n), moves[1..])
  }

  function GrantedBy(moves: seq<Move>): nat {
    if moves == [] then 0 else (if moves[0].Granting? then moves[0].amount else 0) + GrantedBy(moves[1..])
  }

  function SentBy(moves: seq<Move>): nat {
    if moves == [] then 0 else (if moves[0].Sending? then moves[0].n else 0) + SentBy(moves[1..])
  }

  /**
    Whatever a peer grants, the credit kept is at most 2^53; it is all that was granted and not spent, unless that much
    was granted.
   */
  lemma {:induction false} CreditKept(o: Outbound, moves: seq<Move>)
    requires 0 <= o.inflight && o.sendCredit <= CREDIT_CAP
    ensures var o1 := Moved(o, moves);
            && 0 <= o1.inflight && o1.sendCredit <= CREDIT_CAP
            && o1.sendCredit <= o.sendCredit + GrantedBy(moves) - SentBy(moves)
            && (o.sendCredit + GrantedBy(moves) <= CREDIT_CAP ==> o1.sendCredit == o.sendCredit + GrantedBy(moves) - SentBy(moves))
    decreases |moves|
  {
    if moves != [] {
      CreditKept(if moves[0].Granting? then OnCredit(o, moves[0].amount) else Spend(o, moves[0].n), moves[1..]);
    }
  }
}
