/**
  What a relay that does its work delivers (client-go/sessions.go): while a session's frames pass once each and in
  order, and nobody forges or ends it, it lives, and once all have passed every message completed on it is delivered.
  Other sessions may meet with anything meanwhile.
 */
module DeliveryLive {

  import opened Basics
  import opened Flow
  import CreditLink
  import opened Delivery

  /** How many of the first `p` frames on the wire are of session `s`. */
  function Before(wire: seq<Slot>, p: nat, s: nat): nat
    requires p <= |wire|
  {
    if p == 0 then 0 else Before(wire, p - 1, s) + if wire[p - 1].session == s then 1 else 0
  }

  /** No nonce of the session was spent on a frame that was not handed over. */
  predicate NoneLost(log: Log) { forall i | 0 <= i < |log| :: log[i].Some? }

  /**
    The steps leave session `s` alone but for relaying its frames: each in its turn on the wire, `from` being past
    those that have passed.
   */
  predicate InTurn(n: Net, steps: seq<Step>, s: nat, from: nat)
    decreases |steps|
  {
    steps == [] ||
    var step := steps[0];
    if step.Relay? && step.slot < |n.tx.wire| && n.tx.wire[step.slot].session == s then
      && from <= step.slot && (forall q | from <= q < step.slot :: n.tx.wire[q].session != s)
      && InTurn(Next(n, step), steps[1..], s, step.slot + 1)
    else !(step.Forge? && step.session == s) && !(step.EndThere? && step.session == s) && InTurn(Next(n, step), steps[1..], s, from)
  }

  /** How far the frames of `s` have passed when the steps are done. */
  function PassedOf(n: Net, steps: seq<Step>, s: nat, from: nat): nat
    decreases |steps|
  {
    if steps == [] then from
    else
      var step := steps[0];
      PassedOf(Next(n, step), steps[1..], s,
               if step.Relay? && step.slot < |n.tx.wire| && n.tx.wire[step.slot].session == s then step.slot + 1 else from)
  }

  // ---- A session's frames stand on the wire in the order of their nonces ----

  lemma {:induction false} BeforePrefix(wire: seq<Slot>, wire1: seq<Slot>, p: nat, s: nat)
    requires wire <= wire1 && p <= |wire|
    ensures Before(wire1, p, s) == Before(wire, p, s)
    decreases p
  {
    if p > 0 {
      BeforePrefix(wire, wire1, p - 1, s);
    }
  }

  lemma {:induction false} BeforeSkips(wire: seq<Slot>, a: nat, b: nat, s: nat)
    requires a <= b <= |wire| && forall q | a <= q < b :: wire[q].session != s
    ensures Before(wire, b, s) == Before(wire, a, s)
    decreases b
  {
    if a < b {
      BeforeSkips(wire, a, b - 1, s);
    }
  }

  predicate Placed(t: Sender, s: nat) {
    NoneLost(LogOf(t, s)) ==>
      && Before(t.wire, |t.wire|, s) == |LogOf(t, s)|
      && forall p | 0 <= p < |t.wire| && t.wire[p].session == s :: t.wire[p].nonce == Before(t.wire, p, s)
  }

  lemma HandPlaced(t: Sender, s': nat, f: Frame, owner: Option<nat>, up: bool, s: nat)
    requires Placed(t, s) && s' in t.logs
    ensures Placed(Hand(t, s', f, owner, up), s)
  {
    var t1 := Hand(t, s', f, owner, up);
    if NoneLost(LogOf(t1, s)) {
      if s' == s {
        assert LogOf(t1, s)[|t.logs[s]|].Some?;
        assert forall i | 0 <= i < |t.logs[s]| :: t.logs[s][i] == t1.logs[s][i];
      }
      forall p | 0 <= p <= |t.wire| ensures Before(t1.wire, p, s) == Before(t.wire, p, s) {
        BeforePrefix(t.wire, t1.wire, p, s);
      }
    }
  }

  lemma SamePlaced(t: Sender, t1: Sender, s: nat)
    requires Placed(t, s) && t1.wire == t.wire && LogOf(t1, s) == LogOf(t, s)
    ensures Placed(t1, s)
  {}

  lemma SenderPlaced(t: Sender, step: Step, s: nat)
    requires Placed(t, s)
    ensures Placed(SenderStep(t, step), s)
  {
    hide Placed;
    var t1 := SenderStep(t, step);
    if step.Cut? && MayCut(t, step.n) {
      var k, m := t.bound.value, t.queue[t.next];
      var last := t.off + step.n == |m|;
      var f, owner := Message(!last, m[t.off..t.off + step.n]), if last then Some(t.next) else None;
      HandPlaced(t, k, f, owner, step.up, s);
      SamePlaced(Hand(t, k, f, owner, step.up), t1, s);
    } else if step.Other? && Usable(t, step.session) && !step.frame.Message? {
      HandPlaced(t, step.session, step.frame, None, step.up, s);
    } else {
      SamePlaced(t, t1, s);
    }
  }

  // ---- The receiver keeps up ----

  /** The receiver holds the session, and its count is how many of its frames have passed. */
  predicate Keeps(n: Net, s: nat, from: nat) {
    from <= |n.tx.wire| && s !in n.rx.dead && CountOf(n.rx, s) == Before(n.tx.wire, from, s)
  }

  lemma {:induction false} LostStays(n: Net, steps: seq<Step>, s: nat)
    requires NoneLost(LogOf(Run(n, steps).tx, s))
    ensures NoneLost(LogOf(n.tx, s))
    decreases |steps|
  {
    hide NoneLost, Next;
    if steps != [] {
      LostStays(Next(n, steps[0]), steps[1..], s);
      LostStep(n, steps[0], s);
    }
  }

  lemma LostStep(n: Net, step: Step, s: nat)
    requires NoneLost(LogOf(Next(n, step).tx, s))
    ensures NoneLost(LogOf(n.tx, s))
  {
    var was, now := LogOf(n.tx, s), LogOf(Next(n, step).tx, s);
    assert was <= now;
    forall i | 0 <= i < |was| ensures was[i].Some? {
      assert was[i] == now[i];
    }
  }

  /** A frame of the session passing in its turn. */
  lemma TurnKeeps(n: Net, p: nat, s: nat, from: nat)
    requires Keeps(n, s, from) && Placed(n.tx, s) && NoneLost(LogOf(n.tx, s)) && OnWire(n.tx, p) && n.tx.wire[p].session == s
    requires from <= p && forall q | from <= q < p :: n.tx.wire[q].session != s
    ensures Keeps(Next(n, Relay(p)), s, p + 1)
  {
    BeforeSkips(n.tx.wire, from, p, s);
  }

  /** Anything that is not of the session. */
  lemma ElseKeeps(n: Net, step: Step, s: nat, from: nat)
    requires Keeps(n, s, from) && !(step.Forge? && step.session == s) && !(step.EndThere? && step.session == s)
    requires !(step.Relay? && step.slot < |n.tx.wire| && n.tx.wire[step.slot].session == s)
    ensures Keeps(Next(n, step), s, from)
  {
    var n1 := Next(n, step);
    if !step.Relay? && !step.Forge? && !step.EndThere? {
      WireGrows(n.tx, step);
      BeforePrefix(n.tx.wire, n1.tx.wire, from, s);
    }
  }

  lemma WireGrows(t: Sender, step: Step)
    ensures t.wire <= SenderStep(t, step).wire
  {}

  lemma WireKnown(t: Sender, p: nat)
    requires SenderOk(t) && p < |t.wire|
    ensures OnWire(t, p)
  {
    hide SessionsOk, WireOrder, OneOwner, Sound, CreditLink.Messages;
    assert SlotOk(t.logs[t.wire[p].session], t.owners[t.wire[p].session], t.next, t.wire[p].nonce, t.wire[p].owner);
  }

  lemma {:induction false} RunKeepsUp(n: Net, steps: seq<Step>, s: nat, from: nat)
    requires Inv(n) && Keeps(n, s, from) && Placed(n.tx, s) && InTurn(n, steps, s, from)
    requires NoneLost(LogOf(Run(n, steps).tx, s))
    ensures var n1 := Run(n, steps);
            Inv(n1) && Placed(n1.tx, s) && Keeps(n1, s, PassedOf(n, steps, s, from))
    decreases |steps|
  {
    hide Inv, Keeps, Placed, Next, OnWire, NoneLost;
    if steps != [] {
      var step := steps[0];
      StepKeeps(n, step);
      NextPlaced(n, step, s);
      if step.Relay? && step.slot < |n.tx.wire| && n.tx.wire[step.slot].session == s {
        assert OnWire(n.tx, step.slot) by { InvSender(n); WireKnown(n.tx, step.slot); }
        LostStays(n, steps, s);
        TurnKeeps(n, step.slot, s, from);
        RunKeepsUp(Next(n, step), steps[1..], s, step.slot + 1);
      } else {
        ElseKeeps(n, step, s, from);
        RunKeepsUp(Next(n, step), steps[1..], s, from);
      }
    }
  }

  lemma InvSender(n: Net)
    requires Inv(n)
    ensures SenderOk(n.tx)
  {}

  lemma NextPlaced(n: Net, step: Step, s: nat)
    requires Placed(n.tx, s)
    ensures Placed(Next(n, step).tx, s)
  {
    hide Placed, SenderStep, OnFrame;
    SenderPlaced(n.tx, step, s);
  }

  /** With all of a session's frames taken, the messages taken on it are those completed on it. */
  lemma AllTaken(n: Net, s: nat)
    requires Inv(n) && s !in n.rx.dead && NoneLost(LogOf(n.tx, s)) && CountOf(n.rx, s) == |LogOf(n.tx, s)|
    ensures PlaceOf(n.rx, s) == if s in n.tx.owners then |n.tx.owners[s]| else 0
  {
    hide SlotsOk, WireOrder, OneOwner, Delivered, CreditLink.Messages, CreditLink.Leftover;
    var log := LogOf(n.tx, s);
    var fs := Sound(log);
    assert |fs| == |log|;
    assert StandsAt(fs, CountOf(n.rx, s), PartialOf(n.rx, s), PlaceOf(n.rx, s));
    assert fs[..|fs|] == fs;
    if s in n.tx.logs {
      assert SessionOk(n.tx.logs[s], n.tx.owners[s], n.tx.queue, n.tx.next, Begun(n.tx, s));
    } else {
      NoFrames();
    }
  }

  lemma NoFrames()
    ensures CreditLink.Messages([], []) == []
  {}

  /**
    In every run that relays a session's frames in turn, and otherwise leaves it alone, the session lives and the
    receiver has taken exactly the frames that passed. Once all have, every message completed on the session has been
    delivered, in order and whole.
   */
  lemma EveryMessage(steps: seq<Step>, s: nat)
    requires InTurn(START, steps, s, 0) && NoneLost(LogOf(Run(START, steps).tx, s))
    ensures var n, passed := Run(START, steps), PassedOf(START, steps, s, 0);
            && s !in n.rx.dead && passed <= |n.tx.wire| && CountOf(n.rx, s) == Before(n.tx.wire, passed, s)
            && (Before(n.tx.wire, passed, s) == Before(n.tx.wire, |n.tx.wire|, s) && s in n.tx.owners ==>
                  && OnSession(n.rx.got, s) == UpTo(|n.tx.owners[s]|)
                  && forall i | 0 <= i < |n.rx.got| && n.rx.got[i].session == s :: GotOk(n.tx, n.rx, n.rx.got[i]))
  {
    hide Run, PassedOf, InTurn, Placed, NoneLost, OnSession, UpTo, Standing, SenderOk;
    assert Inv(START) by { Nothing(); }
    assert Placed(START.tx, s) && Keeps(START, s, 0) by { Fresh(s); }
    RunKeepsUp(START, steps, s, 0);
    var n, passed := Run(START, steps), PassedOf(START, steps, s, 0);
    if Before(n.tx.wire, passed, s) == Before(n.tx.wire, |n.tx.wire|, s) {
      assert CountOf(n.rx, s) == |LogOf(n.tx, s)| by { PlacedAll(n.tx, s); }
      AllTaken(n, s);
    }
  }

  lemma Fresh(s: nat)
    ensures Placed(START.tx, s) && Keeps(START, s, 0)
  {}

  lemma PlacedAll(t: Sender, s: nat)
    requires Placed(t, s) && NoneLost(LogOf(t, s))
    ensures Before(t.wire, |t.wire|, s) == |LogOf(t, s)|
  {}

  // ---- And what one that does not may do ----

  lemma {:induction false} DeadStays(n: Net, steps: seq<Step>, s: nat)
    requires s in n.rx.dead
    ensures s in Run(n, steps).rx.dead && OnSession(Run(n, steps).rx.got, s) == OnSession(n.rx.got, s)
    decreases |steps|
  {
    if steps != [] {
      var n1 := Next(n, steps[0]);
      assert s in n1.rx.dead && OnSession(n1.rx.got, s) == OnSession(n.rx.got, s) by {
        if |n1.rx.got| > |n.rx.got| {
          assert n1.rx.got[..|n1.rx.got| - 1] == n.rx.got;
        }
      }
      hide Next, OnSession;
      DeadStays(n1, steps[1..], s);
    }
  }

  /** A frame out of its turn, because one before it was lost or it comes again, ends its session: nothing more of it is delivered. */
  lemma OutOfTurnEnds(steps: seq<Step>, slot: nat, more: seq<Step>)
    requires var n := Run(START, steps);
             OnWire(n.tx, slot) && n.tx.wire[slot].nonce != CountOf(n.rx, n.tx.wire[slot].session)
    ensures var n := Run(START, steps);
            var s, n1 := n.tx.wire[slot].session, Run(Next(n, Relay(slot)), more);
            s in n1.rx.dead && OnSession(n1.rx.got, s) == OnSession(n.rx.got, s)
  {
    hide Run, OnSession;
    var n := Run(START, steps);
    DeadStays(Next(n, Relay(slot)), more, n.tx.wire[slot].session);
  }

  /** Nor can a peer or a relay hold up the queue: once its session is over, the message being sent gives up its place. */
  lemma QueueGoesOn(steps: seq<Step>, s: nat)
    requires var t := Run(START, steps).tx;
             t.next < |t.queue| && (t.bound.Some? ==> t.bound.value == s)
    ensures var n := Run(START, steps);
            Run(n, [EndHere(s), GiveUp]).tx.next == n.tx.next + 1
  {
    var n := Run(START, steps);
    assert [EndHere(s), GiveUp][1..] == [GiveUp] && [GiveUp][1..] == [];
    assert Run(n, [EndHere(s), GiveUp]) == Run(Next(n, EndHere(s)), [GiveUp]);
    assert Run(Next(n, EndHere(s)), [GiveUp]) == Run(Next(Next(n, EndHere(s)), GiveUp), []);
  }
}
