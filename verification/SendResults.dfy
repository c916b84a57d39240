/**
  One result for every send, one call for every waiter, and a true count of active sends, in every run
  (client-go/member.go, client-go/sessions.go).
 */
module SendResults {

  import opened Basics
  import opened Sends
  import opened SendRuns

  // ---- Who is bound to a session ----

  /** The session an unfinished message is bound to. */
  function Bond(m: Message): Option<nat> { if m.finished then None else m.session }

  function Bound(msgs: map<nat, Message>, s: nat): set<nat> { set o | o in msgs && Bond(msgs[o]) == Some(s) }

  ghost predicate ActiveSends(st: State) {
    forall s | s in st.sessions :: st.sessions[s].activeSends == |Bound(st.msgs, s)|
  }

  lemma Rebond(msgs: map<nat, Message>, o: nat, m: Message, s: nat)
    requires o in msgs
    ensures |Bound(msgs[o := m], s)|
         == |Bound(msgs, s)| - (if Bond(msgs[o]) == Some(s) then 1 else 0) + (if Bond(m) == Some(s) then 1 else 0)
  {
    assert Bound(msgs[o := m], s) == if Bond(m) == Some(s) then Bound(msgs, s) + {o} else Bound(msgs, s) - {o};
  }

  lemma FinishUnbinds(st: State, o: nat)
    requires o in st.msgs && Known(st) && ActiveSends(st)
    ensures ActiveSends(FinishOut(st, o))
  {
    hide Queue, Less;
    var st1, m := FinishOut(st, o), st.msgs[o];
    if !m.finished {
      forall s | s in st1.sessions ensures st1.sessions[s].activeSends == |Bound(st1.msgs, s)| {
        Rebond(st.msgs, o, m.(finished := true, results := m.results + 1), s);
      }
    }
  }

  lemma CallBinds(st: State, o: nat, r: nat)
    requires o in st.msgs && st.msgs[o].session.None? && !st.msgs[o].finished && r in st.sessions && ActiveSends(st)
    ensures ActiveSends(RunCall(st, ForMessage(o), Some(r)))
  {
    var st1 := RunCall(st, ForMessage(o), Some(r));
    forall s | s in st1.sessions ensures st1.sessions[s].activeSends == |Bound(st1.msgs, s)| {
      Rebond(st.msgs, o, st.msgs[o].(session := Some(r)), s);
    }
  }

  // ---- Who waits ----

  /** A control message's sender has been called, or will be by a task, or waits for a handshake: one of them, once. */
  predicate ControlOk(st: State, c: nat)
    requires c in st.controls
  {
    st.controls[c].called + CallsOf(st.tasks, ForControl(c)) + WaitsOf(Pending(st, st.controls[c].peer), ForControl(c)) == 1
  }

  ghost predicate Controls(st: State) { forall c | c in st.controls :: ControlOk(st, c) }

  ghost predicate Counts(st: State) { Names(st) && Controls(st) && ActiveSends(st) }

  /** A change that calls nobody, binds nobody and unbinds nobody. */
  ghost predicate Aside(st: State, st1: State) {
    && st1.pending == st.pending && st1.controls == st.controls
    && (forall o | o in st.msgs :: o in st1.msgs)
    && (forall i | 0 <= i < |st1.gate| :: st1.gate[i] in st1.msgs)
    && (forall o | o in st1.msgs :: Bond(st1.msgs[o]) == if o in st.msgs then Bond(st.msgs[o]) else None)
    && (forall s | s in st.sessions :: s in st1.sessions)
    && (forall s | s in st1.sessions :: st1.sessions[s].activeSends == if s in st.sessions then st.sessions[s].activeSends else 0)
    && |st.tasks| <= |st1.tasks| && st1.tasks[..|st.tasks|] == st.tasks
    && (forall i | |st.tasks| <= i < |st1.tasks| :: !st1.tasks[i].Call? && Named(st1.msgs, st1.controls, st1.tasks[i]))
  }

  lemma AsideBonds(st: State, st1: State)
    requires Aside(st, st1) && Known(st) && ActiveSends(st)
    ensures ActiveSends(st1)
  {
    forall s | s in st1.sessions ensures st1.sessions[s].activeSends == |Bound(st1.msgs, s)| {
      if s in st.sessions {
        assert Bound(st1.msgs, s) == Bound(st.msgs, s);
      } else {
        assert Bound(st1.msgs, s) == {};
      }
    }
  }

  lemma AsideKeeps(st: State, st1: State)
    requires Aside(st, st1) && Known(st) && Counts(st)
    ensures Counts(st1)
  {
    hide ActiveSends, Bond;
    AsideBonds(st, st1);
    var ts := st1.tasks[|st.tasks|..];
    assert st1.tasks == st.tasks + ts;
    forall i | 0 <= i < |st1.tasks| ensures Named(st1.msgs, st1.controls, st1.tasks[i]) {
      if i < |st.tasks| {
        assert st1.tasks[i] == st.tasks[i] && Named(st.msgs, st.controls, st.tasks[i]);
      }
    }
    forall c | c in st1.controls ensures ControlOk(st1, c) {
      assert ControlOk(st, c);
      TasksAppend(st.tasks, ts, ForControl(c), 0);
      NeverCalled(ts, ForControl(c));
    }
  }

  lemma AsideTwice(st: State, st1: State, st2: State)
    requires Aside(st, st1) && Aside(st1, st2)
    ensures Aside(st, st2)
  {
    hide Bond;
    forall i | |st.tasks| <= i < |st2.tasks| ensures !st2.tasks[i].Call? && Named(st2.msgs, st2.controls, st2.tasks[i]) {
      if i < |st1.tasks| {
        assert st2.tasks[i] == st2.tasks[..|st1.tasks|][i];
        assert Named(st1.msgs, st1.controls, st1.tasks[i]);
      }
    }
    assert st2.tasks[..|st.tasks|] == st2.tasks[..|st1.tasks|][..|st.tasks|];
  }

  lemma DeliverAside(st: State, o: nat)
    requires o in st.msgs && st.msgs[o].session.None? && Names(st)
    ensures Aside(st, Deliver(st, o))
  {
    assert st.tasks[..|st.tasks|] == st.tasks;
  }

  lemma AdmitAside(st: State, o: nat, refused: bool)
    requires o in st.msgs && st.msgs[o].session.None? && Names(st)
    ensures Aside(st, Admit(st, o, refused))
  {
    assert st.tasks[..|st.tasks|] == st.tasks;
  }

  lemma OfflineUnbound(st: State, o: nat)
    requires Core(st) && o in st.offline
    ensures o in st.msgs && !st.msgs[o].finished && st.msgs[o].session.None?
  {
    hide WhereIs, Queues, Waiters;
    NotQueued(st, o);
    assert MessageOk(st, o);
  }

  lemma {:induction false} FinishAllAside(st: State, os: seq<nat>)
    requires st.offline == [] && Core(st.(offline := os)) && Names(st)
    ensures Aside(st, FinishAll(st, os))
    decreases |os|
  {
    hide Core, Deliver, Names, LeftOut;
    if os == [] {
      NoChange(st, st);
    } else {
      var was, o := st.(offline := os), os[0];
      OfflineUnbound(was, o);
      FirstOut(was, o);
      DeliverKeeps(was, os[1..], o);
      DeliverAside(st, o);
      var st1 := Deliver(st, o);
      assert st1.offline == [] && st1.(offline := os[1..]) == Deliver(was.(offline := os[1..]), o) by { DeliverOffline(st, os[1..], o); }
      NamesAside(st, st1);
      FinishAllAside(st1, os[1..]);
      AsideTwice(st, st1, FinishAll(st1, os[1..]));
    }
  }

  lemma DeliverOffline(st: State, os: seq<nat>, o: nat)
    requires o in st.msgs
    ensures Deliver(st, o).offline == st.offline && Deliver(st, o).(offline := os) == Deliver(st.(offline := os), o)
  {}

  lemma NamesAside(st: State, st1: State)
    requires Aside(st, st1) && Names(st)
    ensures Names(st1)
  {
    forall i | 0 <= i < |st1.tasks| ensures Named(st1.msgs, st1.controls, st1.tasks[i]) {
      if i < |st.tasks| {
        assert st1.tasks[i] == st1.tasks[..|st.tasks|][i] == st.tasks[i] && Named(st.msgs, st.controls, st.tasks[i]);
      }
    }
  }

  lemma {:induction false} AdmitAllAside(st: State, os: seq<nat>, refused: set<nat>)
    requires st.offline == [] && Core(st.(offline := os)) && Names(st)
    ensures Aside(st, AdmitAll(st, os, refused))
    decreases |os|
  {
    hide Core, Admit, Names;
    if os == [] {
      NoChange(st, st);
    } else {
      var was, o := st.(offline := os), os[0];
      OfflineUnbound(was, o);
      AdmitKeeps(was, o, o in refused);
      AdmitAside(st, o, o in refused);
      var st1 := Admit(st, o, o in refused);
      AdmitOffline(st, os[1..], o, o in refused);
      NamesAside(st, st1);
      AdmitAllAside(st1, os[1..], refused);
      AsideTwice(st, st1, AdmitAll(st1, os[1..], refused));
    }
  }

  lemma NoChange(st: State, st1: State)
    requires Names(st) && st1 == st.(offline := st1.offline, conn := st1.conn, closed := st1.closed, queues := st1.queues)
    ensures Aside(st, st1)
  {
    assert st.tasks[..|st.tasks|] == st.tasks;
  }

  // ---- Steps that call, bind or unbind ----

  lemma FinishCounts(st: State, o: nat)
    requires o in st.msgs && Known(st) && Counts(st)
    ensures Counts(FinishOut(st, o))
  {
    hide ActiveSends, Less;
    FinishUnbinds(st, o);
    var st1, p := FinishOut(st, o), st.msgs[o].peer;
    forall c | c in st1.controls ensures ControlOk(st1, c) {
      assert ControlOk(st, c);
      TasksAppend(st.tasks, [StartHead(p)], ForControl(c), 0);
      NeverCalled([StartHead(p)], ForControl(c));
    }
  }

  lemma PopCounts(st: State)
    requires Counts(st) && st.tasks != []
    ensures Names(Popped(st)) && ActiveSends(Popped(st))
    ensures forall c | c in st.controls && !CallsBack(st.tasks[0], ForControl(c)) :: ControlOk(Popped(st), c)
  {
    hide ActiveSends, WaitsOf;
    var st1 := Popped(st);
    assert ActiveSends(st1) by { SameSends(st, st1); }
    forall c | c in st.controls && !CallsBack(st.tasks[0], ForControl(c)) ensures ControlOk(st1, c) {
      assert ControlOk(st, c);
    }
  }

  lemma SameSends(st: State, st1: State)
    requires ActiveSends(st) && st1.msgs == st.msgs && st1.sessions == st.sessions
    ensures ActiveSends(st1)
  {}

  lemma ControlCounts(st: State, r: Option<nat>)
    requires Counts(st) && st.tasks != [] && st.tasks[0].Call? && st.tasks[0].waiter.ForControl?
    ensures Counts(RunCall(Popped(st), st.tasks[0].waiter, r))
  {
    hide ActiveSends, WaitsOf;
    var st1 := RunCall(Popped(st), st.tasks[0].waiter, r);
    PopCounts(st);
    assert ActiveSends(st1) by { SameSends(st, st1); }
    assert Named(st.msgs, st.controls, st.tasks[0]);
    assert Names(st1) by { NamesMore(Popped(st), st1); }
    forall c | c in st1.controls ensures ControlOk(st1, c) {
      assert ControlOk(st, c);
    }
  }

  lemma NamesMore(st: State, st1: State)
    requires Names(st) && st1.tasks == st.tasks && st1.gate == st.gate
    requires st.msgs.Keys <= st1.msgs.Keys && st.controls.Keys <= st1.controls.Keys
    ensures Names(st1)
  {
    forall i | 0 <= i < |st1.tasks| ensures Named(st1.msgs, st1.controls, st1.tasks[i]) {
      assert Named(st.msgs, st.controls, st.tasks[i]);
    }
  }

  /** A waiter joins: it will be called once more. */
  lemma AttachTally(st: State, p: nat, w: Waiter, current: Option<nat>, a: Attempt, c: nat)
    requires c in st.controls && (w == ForControl(c) ==> st.controls[c].peer == p)
    ensures var st1 := EnsureSession(st, p, w, current, a);
            && st1.controls == st.controls
            && CallsOf(st1.tasks, ForControl(c)) + WaitsOf(Pending(st1, st.controls[c].peer), ForControl(c))
            == CallsOf(st.tasks, ForControl(c)) + WaitsOf(Pending(st, st.controls[c].peer), ForControl(c)) + (if w == ForControl(c) then 1 else 0)
  {
    hide EnsureSession;
    var soon, r := Attached(st, p, w, current, a);
    TasksAppend(st.tasks, [Call(w, r)], ForControl(c), 0);
    WaitsAppend(Pending(st, p), [w], ForControl(c));
    assert [w][1..] == [] && [Call(w, r)][1..] == [];
  }

  lemma AttachNames(st: State, p: nat, w: Waiter, current: Option<nat>, a: Attempt)
    requires Names(st) && ActiveSends(st) && WaiterOk(st.msgs, st.controls, p, w)
    ensures Names(EnsureSession(st, p, w, current, a)) && ActiveSends(EnsureSession(st, p, w, current, a))
  {
    hide EnsureSession, ActiveSends;
    var soon, r := Attached(st, p, w, current, a);
    SameSends(st, EnsureSession(st, p, w, current, a));
  }

  lemma AttachCounts(st: State, p: nat, w: Waiter, current: Option<nat>, a: Attempt)
    requires Names(st) && ActiveSends(st) && WaiterOk(st.msgs, st.controls, p, w)
    requires forall c | c in st.controls && w != ForControl(c) :: ControlOk(st, c)
    requires w.ForControl? ==>
               st.controls[w.control].called + CallsOf(st.tasks, w) + WaitsOf(Pending(st, p), w) == 0
    ensures Counts(EnsureSession(st, p, w, current, a))
  {
    hide EnsureSession, ActiveSends, Names;
    var st1 := EnsureSession(st, p, w, current, a);
    AttachNames(st, p, w, current, a);
    forall c | c in st1.controls ensures ControlOk(st1, c) {
      var soon, r := Attached(st, p, w, current, a);
      AttachTally(st, p, w, current, a, c);
    }
  }

  lemma NewControlCounts(st: State, c: nat, p: nat, f: Choice)
    requires Core(st) && Counts(st) && c !in st.controls
    ensures Counts(EnsureSession(st.(controls := st.controls[c := Control(p, 0)]), p, ForControl(c), f.current, f.attempt))
  {
    hide ActiveSends, EnsureSession, Messages, Queues, Known;
    var st1 := st.(controls := st.controls[c := Control(p, 0)]);
    NamesMore(st, st1);
    SameSends(st, st1);
    NeverCalled(st.tasks, ForControl(c));
    OthersDoNotWait(Pending(st, p), ForControl(c));
    forall c' | c' in st1.controls && c' != c ensures ControlOk(st1, c') {
      assert ControlOk(st, c');
    }
    AttachCounts(st1, p, ForControl(c), f.current, f.attempt);
  }

  lemma {:induction false} NeverCalled(ts: seq<Task>, w: Waiter)
    requires forall i | 0 <= i < |ts| :: !CallsBack(ts[i], w)
    ensures CallsOf(ts, w) == 0
  {
    if ts != [] {
      NeverCalled(ts[1..], w);
    }
  }

  lemma EndPendingCounts(st: State, p: nat, r: Option<nat>)
    requires Core(st) && Counts(st)
    ensures Counts(EndPending(st, p, r))
  {
    hide ActiveSends, Messages, Queues, Known, Named, ControlOk;
    var st1 := EndPending(st, p, r);
    SameSends(st, st1);
    if p in st.pending {
      forall i | 0 <= i < |st1.tasks| ensures Named(st1.msgs, st1.controls, st1.tasks[i]) {
        EndPendingNamed(st, p, r, i);
      }
      forall c | c in st1.controls ensures ControlOk(st1, c) {
        EndPendingControl(st, p, r, c);
      }
    }
  }

  lemma EndPendingNamed(st: State, p: nat, r: Option<nat>, i: nat)
    requires Core(st) && Counts(st) && p in st.pending && i < |EndPending(st, p, r).tasks|
    ensures Named(st.msgs, st.controls, EndPending(st, p, r).tasks[i])
  {
    hide ActiveSends, Messages, Queues, Known, ControlOk;
    var st1, ws := EndPending(st, p, r), st.pending[p];
    if |st.tasks| <= i {
      assert st1.tasks[i] == Call(ws[i - |st.tasks|], r) && WaiterOk(st.msgs, st.controls, p, ws[i - |st.tasks|]);
    } else {
      assert st1.tasks[i] == st.tasks[i];
    }
  }

  lemma EndPendingControl(st: State, p: nat, r: Option<nat>, c: nat)
    requires Core(st) && Counts(st) && p in st.pending && c in st.controls
    ensures ControlOk(EndPending(st, p, r), c)
  {
    hide ActiveSends, Messages, Queues, Known, Named;
    var ws := st.pending[p];
    assert ControlOk(st, c);
    TasksAppend(st.tasks, Calls(ws, r), ForControl(c), 0);
    CallsWaits(ws, r, ForControl(c), 0);
    if st.controls[c].peer != p {
      OthersDoNotWait(ws, ForControl(c));
    }
  }

  lemma StartCounts(st: State, c: Choice)
    requires Core(st) && Counts(st) && st.tasks != [] && st.tasks[0].StartHead?
    ensures Counts(RunHead(Popped(st), st.tasks[0].peer, c))
  {
    hide EnsureSession, ActiveSends, Names, Messages, Waiters;
    var p, st1 := st.tasks[0].peer, Popped(st);
    PopCounts(st);
    assert QueueOk(st, p);
    HeadIsFresh(st1, p);
    if !HeadRuns(st, p) {
      var o := Queue(st, p)[0];
      var st2 := Started(st, o);
      assert st1.queues[p := Queue(st, p)] == st1.queues;
      BeginsToRun(st1, st2, o);
      AttachCounts(st2, p, ForMessage(o), c.current, c.attempt);
    }
  }

  lemma BeginsToRun(st: State, st1: State, o: nat)
    requires o in st.msgs && Names(st) && ActiveSends(st) && st1 == st.(msgs := st.msgs[o := st.msgs[o].(running := true)])
    ensures Names(st1) && ActiveSends(st1)
  {
    NamesMore(st, st1);
    forall s | s in st1.sessions ensures st1.sessions[s].activeSends == |Bound(st1.msgs, s)| {
      Rebond(st.msgs, o, st.msgs[o].(running := true), s);
    }
  }

  lemma CallCounts(st: State)
    requires Core(st) && Counts(st) && st.tasks != [] && st.tasks[0].Call?
    ensures Counts(RunCall(Popped(st), st.tasks[0].waiter, st.tasks[0].session))
  {
    hide ActiveSends, FinishOut, Messages, Queues, Waiters, Held;
    var t, st1 := st.tasks[0], Popped(st);
    PopCounts(st);
    if t.waiter.ForControl? {
      ControlCounts(st, t.session);
    } else {
      assert Controls(st1);
      if t.waiter.ForMessage? && t.waiter.message in st.msgs && !st.msgs[t.waiter.message].finished {
        var o := t.waiter.message;
        if t.session.None? || t.session.value !in st.sessions {
          FinishCounts(st1, o);
        } else {
          TaskHolds(st, o);
          CallBinds(st1, o, t.session.value);
          BoundCounts(st1, o, t.session.value);
        }
      }
    }
  }

  lemma BoundCounts(st: State, o: nat, r: nat)
    requires Names(st) && Controls(st) && o in st.msgs && !st.msgs[o].finished && r in st.sessions
    ensures Names(RunCall(st, ForMessage(o), Some(r))) && Controls(RunCall(st, ForMessage(o), Some(r)))
  {
    hide CallsOf, WaitsOf;
    var st1 := RunCall(st, ForMessage(o), Some(r));
    forall c | c in st1.controls ensures ControlOk(st1, c) {
      assert ControlOk(st, c);
    }
    forall i | 0 <= i < |st1.tasks| ensures Named(st1.msgs, st1.controls, st1.tasks[i]) {
      assert Named(st.msgs, st.controls, st.tasks[i]);
    }
  }

  lemma TaskCounts(st: State, c: Choice)
    requires Core(st) && Counts(st)
    ensures Counts(RunTask(st, c))
  {
    hide Core, ActiveSends, FinishOut, Names, RunHead, RunCall, AdmitAll, Known;
    if st.tasks != [] {
      var st1 := Popped(st);
      PopCounts(st);
      assert Known(st1) by { KnownPop(st); }
      match st.tasks[0] {
        case StartHead(_) => StartCounts(st, c);
        case Call(_, _) => CallCounts(st);
        case Regate(o) =>
          if o in st.msgs && !st.msgs[o].finished {
            var st2 := st1.(gate := st1.gate + [o]);
            GateGrows(st1, o);
            AsideKeeps(st1, st2);
          }
        case Complete(o) =>
          if o in st.msgs {
            FinishCounts(st1, o);
          }
        case AdmitWaiting =>
          PoppedKeeps(st);
          var st2 := st1.(offline := []);
          assert st2.(offline := st1.offline) == st1;
          NoChange(st1, st2);
          NamesAside(st1, st2);
          AdmitAllAside(st2, st1.offline, c.refused);
          AsideTwice(st1, st2, AdmitAll(st2, st1.offline, c.refused));
          AsideKeeps(st1, AdmitAll(st2, st1.offline, c.refused));
      }
    }
  }

  lemma KnownPop(st: State)
    requires Core(st) && st.tasks != []
    ensures Known(Popped(st))
  {}

  lemma GateGrows(st: State, o: nat)
    requires Names(st) && o in st.msgs
    ensures Aside(st, st.(gate := st.gate + [o]))
  {
    assert st.tasks[..|st.tasks|] == st.tasks;
  }

  lemma GateCounts(st: State, i: nat, visit: Visit)
    requires Core(st) && Counts(st) && i < |st.gate|
    ensures Counts(VisitGate(st, i, visit))
  {
    hide ActiveSends, Controls, FinishOut, Messages, Queues, Waiters;
    var o, st1 := st.gate[i], st.(gate := Without(st.gate, i));
    assert Aside(st, st1) by { assert st.tasks[..|st.tasks|] == st.tasks; }
    AsideKeeps(st, st1);
    FinishCounts(st1, o);
    var st2 := VisitGate(st, i, visit);
    if visit.Sent? && st2 != FinishOut(st1, o) && st2 != st1 {
      Follows(st1, st2, o, if visit.last then Complete(o) else Regate(o));
      AsideKeeps(st1, st2);
    }
  }

  lemma Follows(st: State, st1: State, o: nat, t: Task)
    requires Names(st) && o in st.msgs && GoesOn(t, o)
    requires st1 == Later(st.(msgs := st.msgs[o := st.msgs[o].(started := true)]), t)
    ensures Aside(st, st1)
  {
    assert st1.tasks[..|st.tasks|] == st.tasks;
  }

  lemma SubmitAside(st: State, o: nat, p: nat, refused: bool)
    requires Names(st) && o !in st.msgs
    ensures Aside(st, Next(st, Submit(o, p, refused)))
  {
    hide Admit, Deliver, Names;
    var st1 := st.(msgs := st.msgs[o := Fresh(p)]);
    assert Aside(st, st1) by { MessageAside(st, o, p); }
    NamesAside(st, st1);
    match st.conn {
      case Terminal =>
        DeliverAside(st1, o);
        AsideTwice(st, st1, Deliver(st1, o));
      case Up =>
        AdmitAside(st1, o, refused);
        AsideTwice(st, st1, Admit(st1, o, refused));
      case Down =>
        NoChange(st1, st1.(offline := st1.offline + [o]));
        AsideTwice(st, st1, st1.(offline := st1.offline + [o]));
    }
  }

  lemma MessageAside(st: State, o: nat, p: nat)
    requires Names(st) && o !in st.msgs
    ensures Aside(st, st.(msgs := st.msgs[o := Fresh(p)]))
  {
    assert st.tasks[..|st.tasks|] == st.tasks;
  }

  lemma OfflineDoneAside(st: State, o: nat)
    requires Core(st) && Names(st) && o in st.offline
    ensures o in st.msgs && Aside(st, Deliver(st.(offline := Less(st.offline, o)), o))
  {
    hide Core, Names, Deliver, Less;
    OfflineUnbound(st, o);
    var st1 := st.(offline := Less(st.offline, o));
    NoChange(st, st1);
    NamesAside(st, st1);
    DeliverAside(st1, o);
    AsideTwice(st, st1, Deliver(st1, o));
  }

  lemma SessionsAside(st: State, sessions: map<nat, Session>)
    requires Names(st) && forall s | s in st.sessions :: s in sessions
    requires forall s | s in sessions :: sessions[s].activeSends == if s in st.sessions then st.sessions[s].activeSends else 0
    ensures Aside(st, st.(sessions := sessions))
  {
    hide Named, Bond;
    assert st.tasks[..|st.tasks|] == st.tasks;
  }

  lemma ConnectAside(st: State)
    requires Names(st)
    ensures Aside(st, Later(st.(conn := Up), AdmitWaiting))
  {
    assert Later(st.(conn := Up), AdmitWaiting).tasks[..|st.tasks|] == st.tasks;
  }

  lemma TerminateAside(st: State)
    requires Core(st) && Names(st)
    ensures Aside(st, Next(st, Terminate))
  {
    hide Core, Names, FinishAll;
    var st0 := st.(conn := Terminal, closed := true);
    SessionsKeep(st, st.sessions, Terminal, true);
    var st1 := st0.(offline := []);
    assert st1.(offline := st.offline) == st0;
    NoChange(st, st1);
    NamesAside(st, st1);
    FinishAllAside(st1, st.offline);
    AsideTwice(st, st1, FinishAll(st1, st.offline));
  }

  /** The steps that call, bind and unbind nobody. */
  predicate IsAside(st: State, step: Step) {
    match step
    case Submit(o, _, _) => o !in st.msgs
    case Timeout(o) => o in st.offline
    case Withdraw(o) => o in st.offline && o in st.msgs && !st.msgs[o].started && !st.msgs[o].finished
    case Accept(_, _) => true
    case End(_) => true
    case Connect => true
    case Disconnect => true
    case Terminate => true
    case _ => false
  }

  lemma PlainAside(st: State, step: Step)
    requires Names(st) && (step.Accept? || step.End? || step.Connect? || step.Disconnect?)
    ensures Aside(st, Next(st, step))
  {
    hide Names, Later, Aside;
    match step {
      case Accept(s, p) => SessionsAside(st, Next(st, step).sessions);
      case End(s) => SessionsAside(st, Next(st, step).sessions);
      case Connect =>
        ConnectAside(st);
        NoChange(st, st.(conn := Up));
        NoChange(st, st);
      case Disconnect => NoChange(st, Next(st, step));
    }
  }

  lemma StepAside(st: State, step: Step)
    requires Core(st) && Names(st) && IsAside(st, step)
    ensures Aside(st, Next(st, step))
  {
    hide Core, Names, Aside, Deliver, Less, FinishAll, Later, Admit;
    match step {
      case Submit(o, p, refused) => SubmitAside(st, o, p, refused);
      case Timeout(o) => OfflineDoneAside(st, o);
      case Withdraw(o) => OfflineDoneAside(st, o);
      case Terminate => TerminateAside(st);
      case _ => PlainAside(st, step);
    }
  }

  lemma HandshakeCounts(st: State, p: nat, s: nat)
    requires Core(st) && Counts(st) && s !in st.sessions
    ensures Counts(EndPending(st.(sessions := st.sessions[s := Session(p, false, 0)]), p, Some(s)))
  {
    hide Counts, Names, EndPending;
    var st1 := st.(sessions := st.sessions[s := Session(p, false, 0)]);
    assert Names(st) by { NamesOf(st); }
    SessionsAside(st, st1.sessions);
    AsideKeeps(st, st1);
    SessionsKeep(st, st1.sessions, st.conn, st.closed);
    EndPendingCounts(st1, p, Some(s));
  }

  lemma NamesOf(st: State)
    requires Counts(st)
    ensures Names(st)
  {}

  lemma CountsNext(st: State, step: Step)
    requires Core(st) && Counts(st)
    ensures Counts(Next(st, step))
  {
    hide Counts, Names, Messages, Queues, Waiters, EnsureSession, Initiate, EndPending, RunTask, VisitGate, FinishOut, Deliver, Less, FinishAll, Later, Admit;
    NamesOf(st);
    if IsAside(st, step) {
      StepAside(st, step);
      AsideKeeps(st, Next(st, step));
    } else {
      match step {
        case Submit(_, _, _) =>
        case Timeout(_) =>
        case SubmitControl(c, p, f) =>
          if c !in st.controls {
            NewControlCounts(st, c, p, f);
          }
        case Withdraw(o) =>
          if o in st.msgs {
            FinishCounts(st, o);
          }
        case Task'(c) => TaskCounts(st, c);
        case Gate(i, visit) =>
          if i < |st.gate| {
            GateCounts(st, i, visit);
          }
        case HandshakeDone(p, s) =>
          if s !in st.sessions {
            HandshakeCounts(st, p, s);
          }
        case HandshakeFails(p) => EndPendingCounts(st, p, None);
        case Rekey(p, a) => RekeyCounts(st, p, a);
      }
    }
  }

  lemma RekeyCounts(st: State, p: nat, a: Attempt)
    requires Counts(st)
    ensures Counts(Initiate(st, p, ForNobody, a))
  {
    hide Initiate;
    AttachCounts(st, p, ForNobody, None, a);
  }

  // ---- Every run ----

  lemma {:induction false} RunKeeps(st: State, steps: seq<Step>)
    requires Core(st) && Counts(st)
    ensures Core(Run(st, steps)) && Counts(Run(st, steps))
    decreases |steps|
  {
    hide Core, Counts, Next;
    if steps != [] {
      NamesOf(st);
      CoreNext(st, steps[0]);
      CountsNext(st, steps[0]);
      RunKeeps(Next(st, steps[0]), steps[1..]);
    }
  }

  /**
    Whatever the application, the network and the clock do: a send has one result once it is
    finished and none before, a control message's sender is called at most once, and activeSends
    counts the unfinished messages bound to a session.
   */
  lemma ExactlyOnce(steps: seq<Step>)
    ensures var st := Run(START, steps);
            && (forall o | o in st.msgs :: st.msgs[o].results == if st.msgs[o].finished then 1 else 0)
            && (forall c | c in st.controls :: st.controls[c].called <= 1)
            && (forall s | s in st.sessions ::
                  st.sessions[s].activeSends
                  == |set o | o in st.msgs && !st.msgs[o].finished && st.msgs[o].session == Some(s)|)
  {
    hide Queues, Waiters, Names, Next, WhereIs;
    var st := Run(START, steps);
    assert Core(START) && Counts(START) by { Empty(); }
    RunKeeps(START, steps);
    forall o | o in st.msgs ensures st.msgs[o].results == if st.msgs[o].finished then 1 else 0 {
      assert MessageOk(st, o);
    }
    forall c | c in st.controls ensures st.controls[c].called <= 1 {
      assert ControlOk(st, c);
    }
    forall s | s in st.sessions
      ensures st.sessions[s].activeSends == |set o | o in st.msgs && !st.msgs[o].finished && st.msgs[o].session == Some(s)|
    {
      assert Bound(st.msgs, s) == set o | o in st.msgs && !st.msgs[o].finished && st.msgs[o].session == Some(s);
    }
  }

  lemma Empty()
    ensures Core(START) && Counts(START)
  {}

  /**
    Nothing is lost: once no task is queued, no handshake is under way, nothing waits in the gate or
    for the connection, every send has its result and every control sender has been called.
   */
  lemma QuietIsDone(steps: seq<Step>)
    ensures var st := Run(START, steps);
            st.tasks == [] && st.pending == map[] && st.gate == [] && st.offline == [] ==>
              && (forall o | o in st.msgs :: st.msgs[o].finished && st.msgs[o].results == 1)
              && (forall c | c in st.controls :: st.controls[c].called == 1)
  {
    hide Next, Waiters;
    var st := Run(START, steps);
    assert Core(START) && Counts(START) by { Empty(); }
    RunKeeps(START, steps);
    if st.tasks == [] && st.pending == map[] && st.gate == [] && st.offline == [] {
      forall o | o in st.msgs ensures st.msgs[o].finished && st.msgs[o].results == 1 {
        QuietMessage(st, o);
      }
      forall c | c in st.controls ensures st.controls[c].called == 1 {
        assert ControlOk(st, c);
      }
    }
  }

  lemma QuietMessage(st: State, o: nat)
    requires Messages(st) && Queues(st) && o in st.msgs
    requires st.tasks == [] && st.pending == map[] && st.gate == [] && st.offline == []
    ensures st.msgs[o].finished && st.msgs[o].results == 1
  {
    var q := Queue(st, st.msgs[o].peer);
    assert MessageOk(st, o);
    assert QueueOk(st, st.msgs[o].peer);
    assert q != [] ==> MessageOk(st, q[0]);
  }
}
