/**
  Rosters spread from member to member (client-go/member.go): what a handshake shows of versions leads to requests
  and pushes, and a member takes what is acceptable. What else arrives, from the primary, the relay or anyone, may be
  any roster at all.
 */
module RosterSpread {

  import opened Basics
  import opened Rosters

  /** A handshake's two messages carry the version their sender holds as it writes them. */
  datatype Message =
    | Init(from: nat, to: nat, version: int)
    | Resp(from: nat, to: nat, version: int)
    | Request(from: nat, to: nat)
    | Push(to: nat, roster: Roster)

  /** The roster each member holds, and the messages under way. Every member pins the same key. */
  datatype State = State(held: map<nat, Roster>, flight: seq<Message>, pinned: nat)

  datatype Step =
    | Start(x: nat, y: nat)
    | Deliver(i: nat)
    | Lose(i: nat)         // a handshake message does not arrive
    | Offered(to: nat, roster: Roster)

  /** offerRoster. */
  function Offer(s: Suite, st: State, to: nat, r: Roster): State {
    if to in st.held && Acceptable(s, r, st.pinned, st.held[to].u.version) then st.(held := st.held[to := r]) else st
  }

  /** sendRoster: only to a peer on the sender's roster. */
  function Send(st: State, from: nat, to: nat): seq<Message> {
    if from in st.held && from != to && Lists(st.held[from].u.members, to) then [Push(to, st.held[from])] else []
  }

  /** onPeerVersion: ask a peer that was ahead, hand the roster to one that was behind. */
  function OnPeerVersion(st: State, self: nat, from: nat, version: int): seq<Message>
    requires self in st.held
  {
    var mine := st.held[self].u.version;
    if version > mine then [Request(self, from)]
    else if version < mine then Send(st, self, from)
    else []
  }

  /** What a message makes its receiver send. */
  function Answers(st: State, m: Message): seq<Message> {
    match m
    case Init(from, to, v) =>
      if to in st.held then [Resp(to, from, st.held[to].u.version)] + OnPeerVersion(st, to, from, v) else []
    case Resp(from, to, v) => if to in st.held then OnPeerVersion(st, to, from, v) else []
    case Request(from, to) => Send(st, to, from)
    case Push(_, _) => []
  }

  function Next(s: Suite, st: State, step: Step): State {
    match step
    case Start(x, y) => if x in st.held then st.(flight := st.flight + [Init(x, y, st.held[x].u.version)]) else st
    case Deliver(i) =>
      if i >= |st.flight| then st
      else
        var m := st.flight[i];
        var st1 := st.(flight := Without(st.flight, i) + Answers(st, m));
        if m.Push? then Offer(s, st1, m.to, m.roster) else st1
    case Lose(i) => if i < |st.flight| && (st.flight[i].Init? || st.flight[i].Resp?) then st.(flight := Without(st.flight, i)) else st
    case Offered(to, r) => Offer(s, st, to, r)
  }

  function Run(s: Suite, st: State, steps: seq<Step>): State
    decreases |steps|
  {
    if steps == [] then st else Run(s, Next(s, st, steps[0]), steps[1..])
  }

  predicate Good(s: Suite, st: State, r: Roster) { Valid(s, r) && r.u.networkKey == st.pinned }

  /** Whatever is held or handed on is valid and by the pinned key. */
  ghost predicate Sound(s: Suite, st: State) {
    && (forall x | x in st.held :: Good(s, st, st.held[x]))
    && (forall i | 0 <= i < |st.flight| :: st.flight[i].Push? ==> Good(s, st, st.flight[i].roster))
  }

  function Version(st: State, x: nat): int
    requires x in st.held
  {
    st.held[x].u.version
  }

  lemma StepSound(s: Suite, st: State, step: Step, x: nat)
    requires Sound(s, st) && x in st.held
    ensures var st1 := Next(s, st, step);
            Sound(s, st1) && x in st1.held && Version(st1, x) >= Version(st, x) && st1.pinned == st.pinned
  {
    hide Valid, Lists;
  }

  /** In every run, versions held never go back, and what is held is valid and signed by the pinned key. */
  lemma {:induction false} NeverBack(s: Suite, st: State, steps: seq<Step>, x: nat)
    requires Sound(s, st) && x in st.held
    ensures var st1 := Run(s, st, steps);
            && Sound(s, st1) && x in st1.held && Version(st1, x) >= Version(st, x)
            && Valid(s, st1.held[x]) && st1.held[x].u.networkKey == st.pinned
    decreases |steps|
  {
    hide Next, Valid;
    if steps != [] {
      StepSound(s, st, steps[0], x);
      NeverBack(s, Next(s, st, steps[0]), steps[1..], x);
    }
  }

  /** A member has a version, or a roster of it is on its way. */
  ghost predicate Owed(st: State, x: nat, v: int) {
    x in st.held && (Version(st, x) >= v || exists i | 0 <= i < |st.flight| :: st.flight[i].Push? && st.flight[i].to == x && st.flight[i].roster.u.version >= v)
  }

  /** A roster under way stays so until it is delivered. */
  lemma UnderWay(s: Suite, st: State, step: Step, i: nat)
    requires i < |st.flight| && st.flight[i].Push?
    ensures step == Deliver(i) || exists k | 0 <= k < |Next(s, st, step).flight| :: Next(s, st, step).flight[k] == st.flight[i]
  {
    hide Offer, Answers;
    var st1 := Next(s, st, step);
    OfferAside(s);
    var moved := match step
      case Deliver(j) => j < |st.flight| && j < i
      case Lose(j) => st1 != st && j < i
      case _ => false;
    if step != Deliver(i) {
      assert st1.flight[if moved then i - 1 else i] == st.flight[i];
    }
  }

  lemma OfferAside(s: Suite)
    ensures forall st, to, r :: Offer(s, st, to, r).flight == st.flight
  {}

  /** A good roster delivered is held, or one at least as new is. */
  lemma Delivered(s: Suite, st: State, i: nat)
    requires Sound(s, st) && i < |st.flight| && st.flight[i].Push? && st.flight[i].to in st.held
    ensures var x, st1 := st.flight[i].to, Next(s, st, Deliver(i));
            x in st1.held && Version(st1, x) >= st.flight[i].roster.u.version
  {
    hide Valid, Answers;
    assert Good(s, st, st.flight[i].roster);
  }

  lemma OwedStep(s: Suite, st: State, step: Step, x: nat, v: int)
    requires Sound(s, st) && Owed(st, x, v)
    ensures Owed(Next(s, st, step), x, v)
  {
    hide Next, Sound;
    StepSound(s, st, step, x);
    if Version(st, x) < v {
      var i :| 0 <= i < |st.flight| && st.flight[i].Push? && st.flight[i].to == x && st.flight[i].roster.u.version >= v;
      UnderWay(s, st, step, i);
      if step == Deliver(i) {
        Delivered(s, st, i);
      }
    }
  }

  lemma {:induction false} OwedRun(s: Suite, st: State, steps: seq<Step>, x: nat, v: int)
    requires Sound(s, st) && Owed(st, x, v)
    ensures Owed(Run(s, st, steps), x, v)
    decreases |steps|
  {
    hide Next, Owed, Sound;
    if steps != [] {
      OwedStep(s, st, steps[0], x, v);
      assert x in st.held by { OwedHeld(st, x, v); }
      StepSound(s, st, steps[0], x);
      OwedRun(s, Next(s, st, steps[0]), steps[1..], x, v);
    }
  }

  lemma OwedHeld(st: State, x: nat, v: int)
    requires Owed(st, x, v)
    ensures x in st.held
  {}

  /** Either message of a handshake leaves its sender owed what its receiver held, if it was behind and is on that roster. */
  lemma HeardOwes(s: Suite, st: State, i: nat)
    requires i < |st.flight| && (st.flight[i].Init? || st.flight[i].Resp?)
    requires var m := st.flight[i];
             m.from in st.held && m.to in st.held && m.from != m.to && m.version < Version(st, m.to) && Lists(st.held[m.to].u.members, m.from)
    ensures Owed(Next(s, st, Deliver(i)), st.flight[i].from, Version(st, st.flight[i].to))
  {
    hide Lists;
    var m, st1 := st.flight[i], Next(s, st, Deliver(i));
    var k := |st.flight| - 1 + if m.Init? then 1 else 0;
    assert st1.flight[k] == Push(m.from, st.held[m.to]);
  }

  /**
    A handshake of x with y, its init written in `st`, read in `st2`, its answer read in `st4`, with anything in
    between: the version x holds as it reads the answer and the one y held as it wrote it are both reached by both,
    once nothing is under way any more, if the one behind is on the roster of the one ahead.
   */
  lemma BothHoldGreater(s: Suite, st: State, x: nat, y: nat, first: seq<Step>, i: nat, mid: seq<Step>, j: nat, last: seq<Step>)
    requires Sound(s, st) && x in st.held && y in st.held && x != y
    requires var st2 := Run(s, Next(s, st, Start(x, y)), first);
             && i < |st2.flight| && st2.flight[i] == Init(x, y, Version(st, x)) && y in st2.held
             && (Version(st, x) < Version(st2, y) ==> Lists(st2.held[y].u.members, x))
    requires var st2 := Run(s, Next(s, st, Start(x, y)), first);
             var st4 := Run(s, Next(s, st2, Deliver(i)), mid);
             && j < |st4.flight| && st4.flight[j] == Resp(y, x, Version(st2, y)) && x in st4.held
             && (Version(st2, y) < Version(st4, x) ==> Lists(st4.held[x].u.members, y))
             && Run(s, Next(s, st4, Deliver(j)), last).flight == []
    ensures var st2 := Run(s, Next(s, st, Start(x, y)), first);
            var st4 := Run(s, Next(s, st2, Deliver(i)), mid);
            var st6 := Run(s, Next(s, st4, Deliver(j)), last);
            var v := Max(Version(st4, x), Version(st2, y));
            x in st6.held && y in st6.held && Version(st6, x) >= v && Version(st6, y) >= v
  {
    hide Next, Run, Sound, Owed;
    var st1 := Next(s, st, Start(x, y));
    var st2 := Run(s, st1, first);
    var st3 := Next(s, st2, Deliver(i));
    var st4 := Run(s, st3, mid);
    var st5 := Next(s, st4, Deliver(j));
    var st6 := Run(s, st5, last);
    Onward(s, st, Start(x, y), first, x, y);
    Onward(s, st2, Deliver(i), mid, x, y);
    Onward(s, st4, Deliver(j), last, x, y);
    if Version(st, x) < Version(st2, y) {
      HeardOwes(s, st2, i);
      StepSound(s, st2, Deliver(i), x);
      OwedRun(s, st3, mid, x, Version(st2, y));
      OwedStep(s, st4, Deliver(j), x, Version(st2, y));
      StepSound(s, st4, Deliver(j), x);
      OwedRun(s, st5, last, x, Version(st2, y));
      Arrived(st6, x, Version(st2, y));
    }
    if Version(st2, y) < Version(st4, x) {
      HeardOwes(s, st4, j);
      StepSound(s, st4, Deliver(j), x);
      OwedRun(s, st5, last, y, Version(st4, x));
      Arrived(st6, y, Version(st4, x));
    }
  }

  lemma Onward(s: Suite, st: State, step: Step, steps: seq<Step>, x: nat, y: nat)
    requires Sound(s, st) && x in st.held && y in st.held
    ensures var st1 := Run(s, Next(s, st, step), steps);
            Sound(s, st1) && x in st1.held && y in st1.held && Version(st1, x) >= Version(st, x) && Version(st1, y) >= Version(st, y)
  {
    hide Next, Run, Sound;
    StepSound(s, st, step, x);
    StepSound(s, st, step, y);
    NeverBack(s, Next(s, st, step), steps, x);
    NeverBack(s, Next(s, st, step), steps, y);
  }

  lemma Arrived(st: State, x: nat, v: int)
    requires Owed(st, x, v) && st.flight == []
    ensures Version(st, x) >= v
  {}

  // ---- Asking ----

  /** A request leaves its sender owed what its receiver holds, if it is on that roster. */
  lemma RequestOwes(s: Suite, st: State, i: nat)
    requires i < |st.flight| && st.flight[i].Request?
    requires var m := st.flight[i];
             m.from in st.held && m.to in st.held && m.from != m.to && Lists(st.held[m.to].u.members, m.from)
    ensures Owed(Next(s, st, Deliver(i)), st.flight[i].from, Version(st, st.flight[i].to))
  {
    hide Lists;
    var m, st1 := st.flight[i], Next(s, st, Deliver(i));
    assert st1.flight[|st.flight| - 1] == Push(m.from, st.held[m.to]);
  }

  /** A message of a handshake that shows a version ahead makes its receiver ask. */
  lemma AheadAsks(s: Suite, st: State, i: nat)
    requires i < |st.flight| && (st.flight[i].Init? || st.flight[i].Resp?)
    requires st.flight[i].to in st.held && st.flight[i].version > Version(st, st.flight[i].to)
    ensures var st1 := Next(s, st, Deliver(i));
            st1.flight != [] && st1.flight[|st1.flight| - 1] == Request(st.flight[i].to, st.flight[i].from)
  {}

  /**
    A member that hears of a version ahead of its own comes to hold it: it asks, and once its request has arrived, with
    anything in between, and nothing is under way any more, it holds what the one ahead held, if it is on that roster.
   */
  lemma AheadReaches(s: Suite, st: State, i: nat, mid: seq<Step>, j: nat, last: seq<Step>)
    requires Sound(s, st) && i < |st.flight| && (st.flight[i].Init? || st.flight[i].Resp?)
    requires var m := st.flight[i];
             m.from in st.held && m.to in st.held && m.from != m.to && Version(st, m.to) < m.version <= Version(st, m.from)
    requires var m, st2 := st.flight[i], Run(s, Next(s, st, Deliver(i)), mid);
             && j < |st2.flight| && st2.flight[j] == Request(m.to, m.from)
             && m.from in st2.held && Lists(st2.held[m.from].u.members, m.to)
             && Run(s, Next(s, st2, Deliver(j)), last).flight == []
    ensures var m, st2 := st.flight[i], Run(s, Next(s, st, Deliver(i)), mid);
            var st4 := Run(s, Next(s, st2, Deliver(j)), last);
            var st1 := Next(s, st, Deliver(i));
            && st1.flight[|st1.flight| - 1] == Request(m.to, m.from)
            && m.to in st4.held && Version(st4, m.to) >= Version(st2, m.from) >= m.version
  {
    hide Next, Run, Sound, Owed, Lists;
    var m, st1 := st.flight[i], Next(s, st, Deliver(i));
    AheadAsks(s, st, i);
    Onward(s, st, Deliver(i), mid, m.from, m.to);
    var st2 := Run(s, st1, mid);
    RequestOwes(s, st2, j);
    StepSound(s, st2, Deliver(j), m.to);
    var st3 := Next(s, st2, Deliver(j));
    OwedRun(s, st3, last, m.to, Version(st2, m.from));
    OwedHeld(Run(s, st3, last), m.to, Version(st2, m.from));
    Arrived(Run(s, st3, last), m.to, Version(st2, m.from));
  }

  // ---- To whom a roster goes ----

  predicate ToListed(st: State) {
    forall i | 0 <= i < |st.flight| :: st.flight[i].Push? ==> Lists(st.flight[i].roster.u.members, st.flight[i].to)
  }

  lemma StepToListed(s: Suite, st: State, step: Step)
    requires ToListed(st)
    ensures ToListed(Next(s, st, step))
  {
    hide Lists, Valid;
  }

  /** In every run members hand a roster only to ids on it. */
  lemma {:induction false} OnlyToListed(s: Suite, st: State, steps: seq<Step>)
    requires ToListed(st)
    ensures ToListed(Run(s, st, steps))
    decreases |steps|
  {
    hide Next, ToListed;
    if steps != [] {
      StepToListed(s, st, steps[0]);
      OnlyToListed(s, Next(s, st, steps[0]), steps[1..]);
    }
  }
}
