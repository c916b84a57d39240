/**
  Every step keeps every message in exactly one place until its one result is given
  (client-go/member.go, client-go/sessions.go).
 */
module SendRuns {

  import opened Basics
  import opened Sends

  // ---- Leaving the offline list ----

  /** `os` is the offline list without the message `o`, which it held once. */
  ghost predicate LeftOut(st: State, os: seq<nat>, o: nat) {
    && o in st.offline && o in st.msgs
    && (forall y :: Count(os, y) == Count(st.offline, y) - (if y == o then 1 else 0))
    && (forall i | 0 <= i < |os| :: os[i] in st.offline)
  }

  lemma LeftMoves(st: State, os: seq<nat>, o: nat, x: nat)
    requires LeftOut(st, os, o) && x in st.msgs
    ensures WhereIs(Deliver(st.(offline := os), o), x)
         == WhereIs(st, x).(offline := WhereIs(st, x).offline - (if x == o then 1 else 0))
  {
    hide CallsOf, ResumesOf, WaitsOf;
  }

  lemma DeliverKeeps(st: State, os: seq<nat>, o: nat)
    requires Core(st) && LeftOut(st, os, o)
    ensures Core(Deliver(st.(offline := os), o))
  {
    hide WhereIs, Count;
    var st1 := Deliver(st.(offline := os), o);
    NotQueued(st, o);
    OfflineOnce(st, o);
    forall x | x in st1.msgs ensures MessageOk(st1, x) {
      assert MessageOk(st, x);
      LeftMoves(st, os, o, x);
    }
    forall p ensures QueueOk(st1, p) {
      assert QueueOk(st, p);
      NotInQueue(st, o, p);
    }
  }

  lemma TakenOut(st: State, o: nat)
    requires Core(st) && o in st.offline
    ensures LeftOut(st, Less(st.offline, o), o)
  {
    hide Messages, Queues, Waiters, Count, Less;
    var os := Less(st.offline, o);
    forall y ensures Count(os, y) == Count(st.offline, y) - (if y == o then 1 else 0) {
      CountLess(st.offline, o, y);
    }
    forall i | 0 <= i < |os| ensures os[i] in st.offline {
      CountLess(st.offline, o, os[i]);
    }
  }

  lemma {:induction false} FinishAllKeeps(st: State, os: seq<nat>)
    requires st.offline == [] && Core(st.(offline := os))
    ensures Core(FinishAll(st, os))
    decreases |os|
  {
    hide Messages, Queues, Waiters;
    if os == [] {
      assert st.(offline := os) == st;
    } else {
      var was := st.(offline := os);
      assert os[0] in was.offline;
      assert LeftOut(was, os[1..], os[0]);
      DeliverKeeps(was, os[1..], os[0]);
      var st1 := Deliver(st, os[0]);
      assert st1.(offline := os[1..]) == Deliver(was.(offline := os[1..]), os[0]);
      FinishAllKeeps(st1, os[1..]);
    }
  }

  lemma {:induction false} AdmitAllKeeps(st: State, os: seq<nat>, refused: set<nat>)
    requires st.offline == [] && Core(st.(offline := os))
    ensures Core(AdmitAll(st, os, refused))
    decreases |os|
  {
    hide Messages, Queues, Waiters, Admit;
    if os == [] {
      assert st.(offline := os) == st;
    } else {
      var o := os[0];
      var was := st.(offline := os);
      assert o in was.offline;
      NotQueued(was, o);
      AdmitKeeps(was, o, o in refused);
      AdmitOffline(st, os[1..], o, o in refused);
      AdmitAllKeeps(Admit(st, o, o in refused), os[1..], refused);
    }
  }

  lemma AdmitOffline(st: State, os: seq<nat>, o: nat, refused: bool)
    requires o in st.msgs
    ensures Admit(st, o, refused).offline == st.offline
    ensures Admit(st, o, refused).(offline := os) == Admit(st.(offline := os), o, refused)
  {}

  // ---- Tasks ----

  predicate HeadRuns(st: State, p: nat) {
    var q := Queue(st, p);
    q == [] || (q[0] in st.msgs && st.msgs[q[0]].running)
  }

  lemma PoppedKeeps(st: State)
    requires Core(st) && st.tasks != []
    requires st.tasks[0].StartHead? ==> HeadRuns(st, st.tasks[0].peer)
    requires forall x | x in st.msgs && !st.msgs[x].finished :: !CallsBack(st.tasks[0], ForMessage(x)) && !GoesOn(st.tasks[0], x)
    ensures Core(Popped(st))
  {
    hide WhereIs;
    var st1, t := Popped(st), st.tasks[0];
    assert st.tasks == [t] + st1.tasks;
    forall p ensures QueueOk(st1, p) {
      assert QueueOk(st, p);
    }
    forall x | x in st.msgs ensures MessageOk(st1, x) {
      assert MessageOk(st, x);
      FirstTask(st, x);
    }
  }

  /** The head of a queue begins to run: it waits for a session, once. */
  lemma HeadKeeps(st: State, c: Choice)
    requires Core(st) && st.tasks != [] && st.tasks[0].StartHead?
    ensures Core(RunHead(Popped(st), st.tasks[0].peer, c))
  {
    hide EnsureSession, WhereIs, Messages, Waiters;
    var p, st1 := st.tasks[0].peer, Popped(st);
    assert QueueOk(st, p);
    HeadIsFresh(st1, p);
    if HeadRuns(st, p) {
      PoppedKeeps(st);
    } else {
      var o := Queue(st, p)[0];
      var st2 := st1.(msgs := st1.msgs[o := st1.msgs[o].(running := true)]);
      assert st1.queues[p := Queue(st, p)] == st1.queues;
      assert RunHead(st1, p, c) == EnsureSession(st2, p, ForMessage(o), c.current, c.attempt);
      StartMessages(st, o, c);
      StartQueues(st, o, c);
    }
  }

  predicate Starts(st: State, o: nat) {
    && st.tasks != [] && o in st.msgs && st.tasks[0] == StartHead(st.msgs[o].peer)
    && !st.msgs[o].running && !st.msgs[o].finished
    && Queue(st, st.msgs[o].peer) != [] && Queue(st, st.msgs[o].peer)[0] == o
  }

  function Started(st: State, o: nat): State
    requires Starts(st, o)
  {
    Popped(st).(msgs := st.msgs[o := st.msgs[o].(running := true)])
  }

  lemma StartMessages(st: State, o: nat, c: Choice)
    requires Core(st) && Starts(st, o)
    ensures Messages(EnsureSession(Started(st, o), st.msgs[o].peer, ForMessage(o), c.current, c.attempt))
  {
    hide EnsureSession, WhereIs;
    var p := st.msgs[o].peer;
    var st2 := Started(st, o);
    var st3 := EnsureSession(st2, p, ForMessage(o), c.current, c.attempt);
    AttachRest(st2, p, ForMessage(o), c.current, c.attempt);
    forall x | x in st3.msgs ensures MessageOk(st3, x) {
      assert MessageOk(st, x);
      FirstTask(st, x);
      SamePlaces(Popped(st), st2, x);
      AttachMoves(st2, p, ForMessage(o), c.current, c.attempt, x);
      assert x == o ==> WhereIs(st, o).atHead by { AtHead(st, o); }
    }
  }

  lemma AtHead(st: State, o: nat)
    requires o in st.msgs
    ensures WhereIs(st, o).atHead <==> Queue(st, st.msgs[o].peer) != [] && Queue(st, st.msgs[o].peer)[0] == o
  {}

  lemma StartQueues(st: State, o: nat, c: Choice)
    requires Core(st) && Starts(st, o)
    ensures var st3 := EnsureSession(Started(st, o), st.msgs[o].peer, ForMessage(o), c.current, c.attempt);
            Queues(st3) && Waiters(st3) && Known(st3)
  {
    hide EnsureSession, Messages;
    var p := st.msgs[o].peer;
    var st2 := Started(st, o);
    var st3 := EnsureSession(st2, p, ForMessage(o), c.current, c.attempt);
    assert Waiters(st2);
    AttachRest(st2, p, ForMessage(o), c.current, c.attempt);
    assert st.tasks == [st.tasks[0]] + st2.tasks;
    forall p' ensures QueueOk(st3, p') {
      assert QueueOk(st, p');
    }
  }

  // ---- A message in hand, between its places ----

  ghost predicate Held(st: State, o: nat) {
    && o in st.msgs && !st.msgs[o].finished && st.msgs[o].running && st.msgs[o].results == 0
    && WhereIs(st, o) == Where(0, 1, true, 0, 0)
    && MessagesBut(st, o) && Queues(st) && Waiters(st) && Known(st)
  }

  lemma HeadCounts(st: State, o: nat)
    requires o in st.msgs && WhereIs(st, o).atHead
    ensures WhereIs(st, o).queued > 0
  {}

  lemma TaskHolds(st: State, o: nat)
    requires Core(st) && st.tasks != [] && o in st.msgs && !st.msgs[o].finished
    requires CallsBack(st.tasks[0], ForMessage(o)) || GoesOn(st.tasks[0], o)
    ensures Held(Popped(st), o) && (CallsBack(st.tasks[0], ForMessage(o)) <==> st.msgs[o].session.None?)
  {
    hide WhereIs, Queues;
    var t, st1 := st.tasks[0], Popped(st);
    PopKeeps(st);
    forall x | x in st.msgs ensures x != o ==> MessageOk(st1, x) {}
    assert MessageOk(st, o);
    if WhereIs(st, o).atHead {
      HeadCounts(st, o);
    }
    FirstTask(st, o);
    assert Queues(st1) by { QueuesPop(st); }
  }

  lemma QueuesPop(st: State)
    requires Queues(st) && st.tasks != [] && !st.tasks[0].StartHead?
    ensures Queues(Popped(st))
  {
    var st1 := Popped(st);
    assert st.tasks == [st.tasks[0]] + st1.tasks;
    forall p ensures QueueOk(st1, p) {
      assert QueueOk(st, p);
    }
  }

  lemma GateMoves(st: State, i: nat, x: nat)
    requires i < |st.gate| && x in st.msgs
    ensures WhereIs(st, x) == WhereIs(st.(gate := Without(st.gate, i)), x).(onTheWay :=
              WhereIs(st.(gate := Without(st.gate, i)), x).onTheWay + (if st.gate[i] == x then 1 else 0))
  {
    hide CallsOf, ResumesOf, WaitsOf, Without;
    CountWithout(st.gate, i, x);
  }

  lemma GateHolds(st: State, i: nat)
    requires Core(st) && i < |st.gate| && st.gate[i] in st.msgs
    ensures var st1, o := st.(gate := Without(st.gate, i)), st.gate[i];
            if st.msgs[o].finished then Core(st1) else Held(st1, o) && st.msgs[o].session.Some?
  {
    hide WhereIs, Queues, Without;
    var st1, o := st.(gate := Without(st.gate, i)), st.gate[i];
    CoreQueuesStay(st, st1);
    forall x | x in st.msgs ensures (x != o || st.msgs[o].finished ==> MessageOk(st1, x)) {
      assert MessageOk(st, x);
      GateMoves(st, i, x);
    }
    assert MessageOk(st, o);
    if WhereIs(st, o).atHead {
      HeadCounts(st, o);
    }
    GateMoves(st, i, o);
  }

  /** Its result is given. */
  lemma HeldFinishes(st: State, o: nat)
    requires Held(st, o)
    ensures Core(FinishOut(st, o))
  {
    hide WhereIs, Queues, FinishOut, Messages;
    Spelled(st, o);
    FinishKeeps(st, o);
    FinishRest(st, o);
  }

  lemma FinishRest(st: State, o: nat)
    requires o in st.msgs && Waiters(st) && Known(st)
    ensures Waiters(FinishOut(st, o)) && Known(FinishOut(st, o))
  {}

  lemma GateAppend(st: State, o: nat, x: nat)
    requires x in st.msgs
    ensures WhereIs(st.(gate := st.gate + [o]), x)
         == WhereIs(st, x).(onTheWay := WhereIs(st, x).onTheWay + (if o == x then 1 else 0))
  {
    hide CallsOf, ResumesOf, WaitsOf;
    CountAppend(st.gate, [o], x);
    assert [o][1..] == [];
  }

  /** It goes (back) to the gate, bound to a session. */
  lemma HeldWaitsInGate(st: State, o: nat, m: Message, sessions: map<nat, Session>)
    requires Held(st, o) && m == st.msgs[o].(session := m.session) && m.session.Some?
    requires st.sessions.Keys <= sessions.Keys && m.session.value in sessions
    ensures Core(st.(msgs := st.msgs[o := m], sessions := sessions, gate := st.gate + [o]))
  {
    hide WhereIs, Queues;
    var st0 := st.(msgs := st.msgs[o := m], sessions := sessions);
    var st1 := st0.(gate := st.gate + [o]);
    forall x | x in st1.msgs ensures MessageOk(st1, x) {
      SamePlaces(st, st0, x);
      GateAppend(st0, o, x);
      if x != o {
        assert MessageOk(st, x);
      }
    }
    QueuesStay(st, st1);
  }

  /** Its next fragment, or its completion, follows as a task. */
  lemma HeldFollows(st: State, o: nat, t: Task)
    requires Held(st, o) && st.msgs[o].session.Some? && GoesOn(t, o)
    ensures Core(Later(st.(msgs := st.msgs[o := st.msgs[o].(started := true)]), t))
  {
    hide WhereIs, Queues;
    var st0 := st.(msgs := st.msgs[o := st.msgs[o].(started := true)]);
    var st1 := Later(st0, t);
    forall x | x in st1.msgs ensures MessageOk(st1, x) {
      SamePlaces(st, st0, x);
      OneTask(st0, t, x);
      if x != o {
        assert MessageOk(st, x);
      }
    }
    QueuesStay(st, st1);
  }

  lemma CallKeeps(st: State)
    requires Core(st) && st.tasks != [] && st.tasks[0].Call?
    ensures Core(RunCall(Popped(st), st.tasks[0].waiter, st.tasks[0].session))
  {
    hide Core, Held, FinishOut;
    var t, st1 := st.tasks[0], Popped(st);
    if t.waiter.ForMessage? && t.waiter.message in st.msgs && !st.msgs[t.waiter.message].finished {
      var o := t.waiter.message;
      TaskHolds(st, o);
      if t.session.None? || t.session.value !in st.sessions {
        HeldFinishes(st1, o);
      } else {
        var s := st.sessions[t.session.value];
        HeldWaitsInGate(st1, o, st1.msgs[o].(session := t.session),
                        st.sessions[t.session.value := s.(activeSends := s.activeSends + 1)]);
      }
    } else {
      PoppedKeeps(st);
      Counted(st1, RunCall(st1, t.waiter, t.session).controls);
    }
  }

  lemma Counted(st: State, controls: map<nat, Control>)
    requires Core(st) && forall c | c in st.controls :: c in controls && controls[c].peer == st.controls[c].peer
    ensures Core(st.(controls := controls))
  {
    hide WhereIs, Queues;
    var st1 := st.(controls := controls);
    forall x | x in st1.msgs ensures MessageOk(st1, x) {
      assert MessageOk(st, x);
      SamePlaces(st, st1, x);
    }
    QueuesStay(st, st1);
  }

  lemma TaskKeeps(st: State, c: Choice)
    requires Core(st)
    ensures Core(RunTask(st, c))
  {
    hide Core, Held, FinishOut, RunHead, RunCall, AdmitAll;
    if st.tasks != [] {
      var t, st1 := st.tasks[0], Popped(st);
      match t {
        case StartHead(_) => HeadKeeps(st, c);
        case Call(_, _) => CallKeeps(st);
        case Regate(o) =>
          if o in st.msgs && !st.msgs[o].finished {
            TaskHolds(st, o);
            assert st1.sessions == st.sessions && st1.msgs[o := st1.msgs[o]] == st1.msgs;
            HeldInSession(st1, o);
            HeldWaitsInGate(st1, o, st1.msgs[o], st1.sessions);
          } else {
            PoppedKeeps(st);
          }
        case Complete(o) =>
          if o in st.msgs && !st.msgs[o].finished {
            TaskHolds(st, o);
            HeldFinishes(st1, o);
          } else {
            PoppedKeeps(st);
            if o in st.msgs {
              FinishedTwice(st1, o);
            }
          }
        case AdmitWaiting =>
          PoppedKeeps(st);
          assert st1.(offline := st1.offline) == st1;
          AdmitAllKeeps(st1.(offline := []), st1.offline, c.refused);
      }
    }
  }

  lemma HeldInSession(st: State, o: nat)
    requires Held(st, o) && st.msgs[o].session.Some?
    ensures st.msgs[o].session.value in st.sessions
  {}

  lemma FinishedTwice(st: State, o: nat)
    requires o in st.msgs
    ensures st.msgs[o].finished ==> FinishOut(st, o) == st
  {}

  lemma GateKeeps(st: State, i: nat, visit: Visit)
    requires Core(st) && i < |st.gate|
    ensures Core(VisitGate(st, i, visit))
  {
    hide Core, Held, FinishOut, Without, Later;
    var o, st1 := st.gate[i], st.(gate := Without(st.gate, i));
    if o in st.msgs {
      GateHolds(st, i);
      if !st.msgs[o].finished {
        HeldFinishes(st1, o);
        if visit.Sent? {
          HeldFollows(st1, o, if visit.last then Complete(o) else Regate(o));
        }
      }
    } else {
      GateStranger(st, i);
    }
  }

  lemma GateStranger(st: State, i: nat)
    requires Core(st) && i < |st.gate| && st.gate[i] !in st.msgs
    ensures Core(st.(gate := Without(st.gate, i)))
  {
    hide WhereIs, Queues, Without;
    var st1 := st.(gate := Without(st.gate, i));
    CoreQueuesStay(st, st1);
    forall x | x in st.msgs ensures MessageOk(st1, x) {
      assert MessageOk(st, x);
      GateMoves(st, i, x);
    }
  }

  // ---- New messages ----

  /** What the tasks and the gate speak of exists. */
  predicate Named(msgs: map<nat, Message>, controls: map<nat, Control>, t: Task) {
    match t
    case Call(ForMessage(o), _) => o in msgs
    case Call(ForControl(c), _) => c in controls
    case Regate(o) => o in msgs
    case Complete(o) => o in msgs
    case _ => true
  }

  predicate Names(st: State) {
    && (forall i | 0 <= i < |st.gate| :: st.gate[i] in st.msgs)
    && (forall i | 0 <= i < |st.tasks| :: Named(st.msgs, st.controls, st.tasks[i]))
  }

  lemma {:induction false} NotCalled(ts: seq<Task>, w: Waiter, o: nat)
    requires forall i | 0 <= i < |ts| :: !CallsBack(ts[i], w) && !GoesOn(ts[i], o)
    ensures CallsOf(ts, w) == 0 && ResumesOf(ts, o) == 0
  {
    if ts != [] {
      NotCalled(ts[1..], w, o);
    }
  }

  lemma NowhereYet(st: State, o: nat, p: nat)
    requires Core(st) && Names(st) && o !in st.msgs
    ensures o !in st.offline && o !in Queue(st, p)
    ensures Count(st.offline, o) == 0 && Count(Queue(st, p), o) == 0 && Count(st.gate, o) == 0
    ensures CallsOf(st.tasks, ForMessage(o)) == 0 && ResumesOf(st.tasks, o) == 0 && WaitsOf(Pending(st, p), ForMessage(o)) == 0
  {
    hide Messages;
    CountIn(st.offline, o);
    CountIn(Queue(st, p), o);
    CountIn(st.gate, o);
    assert QueueOk(st, p);
    NotCalled(st.tasks, ForMessage(o), o);
    OthersDoNotWait(Pending(st, p), ForMessage(o));
  }

  function Entered(st: State, o: nat, p: nat): State {
    st.(msgs := st.msgs[o := Fresh(p)], offline := [o] + st.offline)
  }

  lemma EnteredMoves(st: State, o: nat, p: nat, x: nat)
    requires x in st.msgs && x != o
    ensures WhereIs(Entered(st, o, p), x) == WhereIs(st, x)
  {
    assert ([o] + st.offline)[1..] == st.offline;
  }

  lemma EnteredPlace(st: State, o: nat, p: nat)
    requires Core(st) && Names(st) && o !in st.msgs
    ensures MessageOk(Entered(st, o, p), o)
  {
    hide Core, Names;
    assert ([o] + st.offline)[1..] == st.offline;
    NowhereYet(st, o, p);
  }

  /** A new message, as if it waited for the connection before all others. */
  lemma EnteredKeeps(st: State, o: nat, p: nat)
    requires Core(st) && Names(st) && o !in st.msgs
    ensures Core(Entered(st, o, p))
  {
    hide WhereIs, Names;
    var st1 := Entered(st, o, p);
    forall x | x in st1.msgs ensures MessageOk(st1, x) {
      if x == o {
        EnteredPlace(st, o, p);
      } else {
        assert MessageOk(st, x);
        EnteredMoves(st, o, p, x);
      }
    }
    forall p' ensures QueueOk(st1, p') {
      assert QueueOk(st, p');
      NowhereYet(st, o, p');
    }
  }

  lemma ReorderKeeps(st: State, os: seq<nat>)
    requires Core(st) && forall y :: Count(os, y) == Count(st.offline, y)
    ensures Core(st.(offline := os))
  {
    hide CallsOf, ResumesOf, WaitsOf, Waiters;
    var st1 := st.(offline := os);
    forall x | x in st1.msgs ensures MessageOk(st1, x) {
      assert MessageOk(st, x);
    }
    QueuesStay(st, st1);
    assert Waiters(st1) by { WaitersStay(st, st1); }
    forall i | 0 <= i < |os| ensures os[i] in st.msgs {
      CountIn(os, os[i]);
      CountIn(st.offline, os[i]);
    }
  }

  lemma WaitersStay(st: State, st1: State)
    requires Waiters(st) && st1.pending == st.pending && st1.msgs == st.msgs && st1.controls == st.controls
    ensures Waiters(st1)
  {}

  lemma SubmitKeeps(st: State, o: nat, p: nat, refused: bool)
    requires Core(st) && Names(st)
    ensures Core(Next(st, Submit(o, p, refused)))
  {
    hide Core, Names, Admit, Deliver;
    if o !in st.msgs {
      var st1, in' := st.(msgs := st.msgs[o := Fresh(p)]), Entered(st, o, p);
      EnteredKeeps(st, o, p);
      assert in'.offline[1..] == st.offline && st1 == in'.(offline := st.offline);
      match st.conn {
        case Terminal =>
          FirstOut(in', o);
          DeliverKeeps(in', st.offline, o);
        case Up => AdmitKeeps(in', o, refused);
        case Down =>
          forall y ensures Count(st.offline + [o], y) == Count(in'.offline, y) {
            CountAppend(st.offline, [o], y);
            CountAppend([o], st.offline, y);
          }
          ReorderKeeps(in', st.offline + [o]);
      }
    }
  }

  lemma FirstOut(st: State, o: nat)
    requires st.offline != [] && st.offline[0] == o && o in st.msgs
    ensures LeftOut(st, st.offline[1..], o)
  {}

  lemma OfflineDoneKeeps(st: State, o: nat)
    requires Core(st) && o in st.offline && o in st.msgs
    ensures Core(Deliver(st.(offline := Less(st.offline, o)), o))
  {
    hide Core, LeftOut, Deliver, Less;
    TakenOut(st, o);
    DeliverKeeps(st, Less(st.offline, o), o);
  }

  lemma WithdrawKeeps(st: State, o: nat)
    requires Core(st)
    ensures Core(Next(st, Withdraw(o)))
  {
    hide WhereIs, Queues, Messages, FinishOut, Deliver, Less;
    if o in st.msgs && !st.msgs[o].started && !st.msgs[o].finished {
      if o in st.offline {
        OfflineDoneKeeps(st, o);
      } else {
        QueuedOnce(st, o);
        FinishKeeps(st, o);
        FinishRest(st, o);
      }
    }
  }

  lemma QueuedOnce(st: State, o: nat)
    requires Core(st) && o in st.msgs && !st.msgs[o].finished && o !in st.offline
    ensures Finishing(st, o) && MessagesBut(st, o)
  {
    hide WhereIs, Queues, Waiters;
    assert MessageOk(st, o);
    Spelled(st, o);
    CountIn(st.offline, o);
  }

  lemma AttachControl(st: State, c: nat, p: nat, f: Choice)
    requires Core(st) && c !in st.controls
    ensures Core(EnsureSession(st.(controls := st.controls[c := Control(p, 0)]), p, ForControl(c), f.current, f.attempt))
  {
    hide Core, EnsureSession;
    var st1 := st.(controls := st.controls[c := Control(p, 0)]);
    Counted(st, st1.controls);
    AttachKeeps(st1, p, ForControl(c), f.current, f.attempt);
  }

  lemma RekeyKeeps(st: State, p: nat, a: Attempt)
    requires Core(st)
    ensures Core(Initiate(st, p, ForNobody, a))
  {
    hide Core, Initiate;
    AttachKeeps(st, p, ForNobody, None, a);
  }

  /** Sessions may come and change; what a message is bound to stays. */
  lemma SessionsKeep(st: State, sessions: map<nat, Session>, conn: Conn, closed: bool)
    requires Core(st) && st.sessions.Keys <= sessions.Keys
    ensures Core(st.(sessions := sessions, conn := conn, closed := closed))
  {
    hide WhereIs, Queues;
    var st1 := st.(sessions := sessions, conn := conn, closed := closed);
    forall x | x in st1.msgs ensures MessageOk(st1, x) {
      assert MessageOk(st, x);
      SamePlaces(st, st1, x);
    }
    QueuesStay(st, st1);
  }

  lemma OtherTaskKeeps(st: State, t: Task)
    requires Core(st) && t == AdmitWaiting
    ensures Core(Later(st, t))
  {
    hide WhereIs, Queues;
    CoreQueuesStay(st, Later(st, t));
    forall x | x in st.msgs ensures MessageOk(Later(st, t), x) {
      assert MessageOk(st, x);
      OneTask(st, t, x);
    }
  }

  lemma CoreNext(st: State, step: Step)
    requires Core(st) && Names(st)
    ensures Core(Next(st, step))
  {
    hide Core, Names, EnsureSession, Initiate, EndPending, RunTask, VisitGate, FinishOut, Deliver, Less, FinishAll, Later;
    match step {
      case Submit(o, p, refused) => SubmitKeeps(st, o, p, refused);
      case SubmitControl(c, p, f) =>
        if c !in st.controls {
          AttachControl(st, c, p, f);
        }
      case Timeout(o) =>
        if o in st.offline && o in st.msgs {
          OfflineDoneKeeps(st, o);
        }
      case Withdraw(o) => WithdrawKeeps(st, o);
      case Task'(c) => TaskKeeps(st, c);
      case Gate(i, visit) =>
        if i < |st.gate| {
          GateKeeps(st, i, visit);
        }
      case HandshakeDone(p, s) =>
        SessionsKeep(st, st.sessions[s := Session(p, false, 0)], st.conn, st.closed);
        EndPendingKeeps(st.(sessions := st.sessions[s := Session(p, false, 0)]), p, Some(s));
      case HandshakeFails(p) => EndPendingKeeps(st, p, None);
      case Rekey(p, a) => RekeyKeeps(st, p, a);
      case Accept(s, p) => SessionsKeep(st, st.sessions[s := Session(p, false, 0)], st.conn, st.closed);
      case End(s) =>
        if s in st.sessions {
          SessionsKeep(st, st.sessions[s := st.sessions[s].(ended := true)], st.conn, st.closed);
        }
      case Connect =>
        SessionsKeep(st, st.sessions, Up, st.closed);
        OtherTaskKeeps(st.(conn := Up), AdmitWaiting);
      case Disconnect => SessionsKeep(st, st.sessions, Down, st.closed);
      case Terminate =>
        SessionsKeep(st, st.sessions, Terminal, true);
        var st1 := st.(conn := Terminal, closed := true);
        assert st1.(offline := st.offline) == st1;
        FinishAllKeeps(st1.(offline := []), st.offline);
    }
  }
}
