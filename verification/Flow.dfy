/**
  Credit flow control and reassembly of one session (client-go/sessions.go).

  The transition functions describe what one side of a session does to its counters. The class
  `Session` is the object the client keeps: its methods update the fields in place and are proved
  against those functions. CreditLink.dfy joins two sides by FIFO wires.
 */
module Flow {

  import opened Basics

  type Byte = b: int | 0 <= b < 256

  const INITIAL_CREDIT: int := 1048576
  const CREDIT_BATCH: int := 65536
  const MAX_MESSAGE: int := 67108864
  const MAX_FRAGMENT: int := 65517
  const MAX_HELD: int := 65536
  const MAX_CREDIT: int := 0xffffffff
  const CREDIT_CAP: int := 9007199254740992

  /** A session message, decrypted. */
  datatype Frame = Message(more: bool, bytes: seq<Byte>) | Credit(amount: int) | Control

  /** A whole message the application has not taken; taking it owes `uncredited` bytes of credit. */
  datatype Untaken = Untaken(size: int, uncredited: int)

  /** The receive side of a session. `timer` says whether the credit timer is pending. */
  datatype Inbound = Inbound(
    partial: seq<Byte>, partialCredited: int, held: int, owed: int, allowance: int, timer: bool,
    untaken: seq<Untaken>)

  /** What the peer has left buffered here over all its sessions, and the limits on it. */
  datatype PeerRoom = PeerRoom(buffered: int, limit: int, heldCount: int, maxHeld: int)

  datatype Refusal = EmptyFragment | OverCredit | TooLong | PeerBuffer | PeerMessages

  datatype Received =
    | Ends(why: Refusal)
    | Takes(inb: Inbound, frames: seq<Frame>, whole: seq<seq<Byte>>)

  // ---- Credit ----

  /** The credit frames that return `owed`: each carries at most a u32. */
  function CreditFrames(owed: int): (frames: seq<Frame>)
    decreases owed
  {
    if owed <= 0 then [] else
    var n := Min(owed, MAX_CREDIT);
    [Credit(n)] + CreditFrames(owed - n)
  }

  lemma CreditStep(sent: seq<Frame>, owed: int)
    requires owed > 0
    ensures var n := Min(owed, MAX_CREDIT);
            sent + CreditFrames(owed) == (sent + [Credit(n)]) + CreditFrames(owed - n)
  {}

  /** flushCredit on a live session: batched, unless `now`, and nothing is lost while `up`. */
  function Flush(r: Inbound, now: bool, up: bool): (Inbound, seq<Frame>) {
    if r.owed <= 0 then
      (r, [])
    else if !now && r.owed < CREDIT_BATCH then
      (r.(timer := true), [])
    else if up then
      (r.(timer := false, owed := 0, allowance := r.allowance + r.owed), CreditFrames(r.owed))
    else
      var n := Min(r.owed, MAX_CREDIT);
      (r.(timer := false, owed := r.owed - n, allowance := r.allowance + n), [])
  }

  function Timer(r: Inbound, up: bool): (Inbound, seq<Frame>) {
    Flush(r.(timer := false), true, up)
  }

  // ---- Reassembly ----

  function Refusals(r: Inbound, more: bool, n: int, room: PeerRoom): (why: seq<Refusal>)
    ensures |why| <= 1
  {
    if more && n == 0 then [EmptyFragment]
    else if n > r.allowance then [OverCredit]
    else if |r.partial| + n > MAX_MESSAGE then [TooLong]
    else if room.buffered + n > room.limit then [PeerBuffer]
    else if !more && room.heldCount >= room.maxHeld then [PeerMessages]
    else []
  }

  function Receive(r: Inbound, more: bool, bytes: seq<Byte>, room: PeerRoom, up: bool): Received {
    var n := |bytes|;
    var why := Refusals(r, more, n, room);
    if why != [] then
      Ends(why[0])
    else
      var r1 := r.(allowance := r.allowance - n, partial := r.partial + bytes);
      if more then
        if r1.held == 0 then
          var (r2, frames) := Flush(r1.(owed := r1.owed + n, partialCredited := r1.partialCredited + n), false, up);
          Takes(r2, frames, [])
        else
          Takes(r1, [], [])
      else
        var u := Untaken(|r1.partial|, |r1.partial| - r1.partialCredited);
        Takes(r1.(partial := [], partialCredited := 0, held := r1.held + 1, untaken := r1.untaken + [u]), [], [r1.partial])
  }

  /** The bookkeeping of taking the i-th untaken message, before credit is flushed. */
  function Taken(r: Inbound, i: nat): Inbound
    requires i < |r.untaken|
  {
    var r1 := r.(held := r.held - 1, owed := r.owed + r.untaken[i].uncredited, untaken := Without(r.untaken, i));
    if r1.held == 0 && |r1.partial| > r1.partialCredited then
      r1.(owed := r1.owed + |r1.partial| - r1.partialCredited, partialCredited := |r1.partial|)
    else
      r1
  }

  /** The application takes the i-th message it was handed and had not taken. */
  function Release(r: Inbound, i: nat, up: bool): (Inbound, seq<Frame>)
    requires i < |r.untaken|
  {
    Flush(Taken(r, i), false, up)
  }

  // ---- The sending side ----

  datatype Outbound = Outbound(sendCredit: int, inflight: int)

  function OnCredit(o: Outbound, c: int): Outbound {
    Outbound(Min(o.sendCredit + c, CREDIT_CAP), o.inflight - Min(o.inflight, c))
  }

  function Spend(o: Outbound, n: int): Outbound {
    Outbound(o.sendCredit - n, o.inflight + n)
  }

  // ---- The session object ----

  class Session {
    var sendCredit: int
    var inflight: int
    var partial: seq<Byte>
    var partialCredited: int
    var held: int
    var owed: int
    var allowance: int
    var creditTimer: bool
    var ended: bool
    /** The messages handed to the application whose release has not run. */
    var untaken: seq<Untaken>
    /** The frames handed to the relay connection, in order. */
    var wire: seq<Frame>

    function In(): Inbound
      reads this
    {
      Inbound(partial, partialCredited, held, owed, allowance, creditTimer, untaken)
    }

    function Out(): Outbound
      reads this
    {
      Outbound(sendCredit, inflight)
    }

    /** newSession and adopt: a window beyond the initial credit is granted as extra credit. */
    constructor (window: int)
      requires INITIAL_CREDIT <= window
      ensures (In(), wire) == Opened(window)
      ensures Out() == Outbound(INITIAL_CREDIT, 0) && !ended
    {
      sendCredit, inflight := INITIAL_CREDIT, 0;
      partial, partialCredited, held := [], 0, 0;
      allowance, creditTimer, ended := INITIAL_CREDIT, false, false;
      untaken, wire := [], [];
      owed := 0;
      new;
      var extra := window - INITIAL_CREDIT;
      if extra > 0 {
        owed := owed + extra;
        ghost var r := In();
        FlushCredit(false, true);
        assert [] + Flush(r, false, true).1 == Flush(r, false, true).1;
      }
    }

    /** Hands a frame to the relay connection; fails when the session is over or the relay is down. */
    method Transmit(f: Frame, up: bool) returns (ok: bool)
      modifies `wire
      ensures ok <==> !ended && up
      ensures wire == if ok then old(wire) + [f] else old(wire)
    {
      if ended || !up {
        return false;
      }
      wire := wire + [f];
      return true;
    }

    method FlushCredit(now: bool, up: bool)
      modifies `owed, `allowance, `creditTimer, `wire
      ensures ended ==> unchanged(this)
      ensures !ended ==> var (r, frames) := Flush(old(In()), now, up); In() == r && wire == old(wire) + frames
    {
      if ended || owed <= 0 {
        return;
      }
      if !now && owed < CREDIT_BATCH {
        creditTimer := true;
        return;
      }
      creditTimer := false;
      ghost var total, sent := owed, [];
      while owed > 0
        invariant 0 <= owed <= total && (!up ==> owed == total && sent == [])
        invariant allowance == old(allowance) + total - owed
        invariant !creditTimer
        invariant wire == old(wire) + sent && sent + CreditFrames(owed) == CreditFrames(total)
      {
        var n := Min(owed, MAX_CREDIT);
        CreditStep(sent, owed);
        owed := owed - n;
        allowance := allowance + n;
        var ok := Transmit(Credit(n), up);
        if !ok {
          return;
        }
        sent := sent + [Credit(n)];
      }
    }

    method OnFragment(more: bool, bytes: seq<Byte>, room: PeerRoom, up: bool) returns (whole: seq<seq<Byte>>)
      requires !ended
      modifies this
      ensures Out() == old(Out())
      ensures match Receive(old(In()), more, bytes, room, up)
              case Ends(_) => ended && whole == [] && wire == old(wire)
                              && In() == old(In()).(partial := [], partialCredited := 0, timer := false)
              case Takes(r, frames, w) => !ended && In() == r && wire == old(wire) + frames && whole == w
    {
      whole := [];
      var n := |bytes|;
      if more && n == 0 {
        End();
        return;
      } else if n > allowance {
        End();
        return;
      } else if |partial| + n > MAX_MESSAGE {
        End();
        return;
      } else if room.buffered + n > room.limit {
        End();
        return;
      } else if !more && room.heldCount >= room.maxHeld {
        End();
        return;
      }
      allowance := allowance - n;
      partial := partial + bytes;
      if more {
        if held == 0 {
          owed := owed + n;
          partialCredited := partialCredited + n;
          FlushCredit(false, up);
        }
        return;
      }
      whole := [partial];
      untaken := untaken + [Untaken(|partial|, |partial| - partialCredited)];
      partial, partialCredited := [], 0;
      held := held + 1;
    }

    /** The application takes the i-th untaken message, on a live session or an ended one. */
    method Take(i: nat, up: bool)
      requires i < |untaken|
      modifies this
      ensures Out() == old(Out()) && ended == old(ended)
      ensures !ended ==> var (r, frames) := Release(old(In()), i, up); In() == r && wire == old(wire) + frames
      ensures ended ==> In() == Taken(old(In()), i) && wire == old(wire)
    {
      held := held - 1;
      owed := owed + untaken[i].uncredited;
      untaken := Without(untaken, i);
      if held == 0 && |partial| > partialCredited {
        owed := owed + |partial| - partialCredited;
        partialCredited := |partial|;
      }
      FlushCredit(false, up);
    }

    /** A credit frame from the peer: credit and bytes in flight together never shrink, however much it grants. */
    method Credited(c: int)
      modifies `sendCredit, `inflight
      ensures Out() == OnCredit(old(Out()), c)
      ensures 0 <= c && 0 <= old(inflight) && old(sendCredit + inflight) <= CREDIT_CAP ==>
                && 0 <= inflight <= old(inflight) && old(sendCredit) <= sendCredit
                && old(sendCredit + inflight) <= sendCredit + inflight <= CREDIT_CAP
                && (c <= old(inflight) ==> sendCredit + inflight == old(sendCredit + inflight))
    {
      sendCredit := Min(sendCredit + c, CREDIT_CAP);
      var took := Min(inflight, c);
      inflight := inflight - took;
    }

    /** endSession, as far as the session's own fields go. */
    method End()
      modifies this
      ensures ended && Out() == old(Out()) && wire == old(wire)
      ensures old(ended) ==> unchanged(this)
      ensures !old(ended) ==> In() == old(In()).(partial := [], partialCredited := 0, timer := false)
    {
      if ended {
        return;
      }
      ended := true;
      partial, partialCredited := [], 0;
      creditTimer := false;
    }
  }

  /** A fresh session's receive side under `window`, and the frames its extra grant sends. */
  function Opened(window: int): (Inbound, seq<Frame>) {
    var extra := window - INITIAL_CREDIT;
    var r := Inbound([], 0, 0, 0, INITIAL_CREDIT, false, []);
    if extra > 0 then Flush(r.(owed := extra), false, true) else (r, [])
  }
}
