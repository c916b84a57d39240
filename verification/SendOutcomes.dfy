/**
  What a result means (client-go/sessions.go, client-go/member.go): a send succeeds exactly when its last fragment was
  sent, and fails only for one of the causes the code knows.
 */
module SendOutcomes {

  import opened Basics
  import opened Sends
  import opened SendRuns
  import opened SendResults

  // ---- What happened to a message ----

  predicate Live(st: State, o: nat) {
    && o in st.msgs && !st.msgs[o].finished && !st.closed && st.msgs[o].session.Some?
    && st.msgs[o].session.value in st.sessions && !st.sessions[st.msgs[o].session.value].ended
  }

  /** The step sends the last fragment of `o`. */
  predicate SendsLast(st: State, step: Step, o: nat) {
    step.Gate? && step.visit == Sent(true) && step.index < |st.gate| && st.gate[step.index] == o && Live(st, o)
  }

  /** The step completes `o`: its sender gets a result without an error. */
  predicate Completes(st: State, step: Step, o: nat) {
    step.Task'? && st.tasks != [] && st.tasks[0] == Complete(o) && o in st.msgs && !st.msgs[o].finished
  }

  ghost function LastOf(st: State, step: Step): iset<nat> { iset o | SendsLast(st, step, o) }

  ghost function DoneOf(st: State, step: Step): iset<nat> { iset o | Completes(st, step, o) }

  /** What a send may fail for. */
  predicate Cause(st: State, step: Step, o: nat) {
    match step
    case Submit(m, _, refused) => m == o && o !in st.msgs && (st.conn == Terminal || (st.conn == Up && (st.closed || refused)))
    case Timeout(m) => m == o && o in st.offline
    case Withdraw(m) => m == o && (o in st.msgs ==> !st.msgs[o].started)
    case Terminate => o in st.offline
    case Gate(i, visit) => i < |st.gate| && st.gate[i] == o && (visit == Fails || !Live(st, o))
    case Task'(c) =>
      st.tasks != [] &&
      (match st.tasks[0]
       case Call(w, r) => w == ForMessage(o) && (r.None? || r.value !in st.sessions)
       case AdmitWaiting => o in st.offline && (st.closed || o in c.refused)
       case _ => false)
    case _ => false
  }

  predicate Unfinished(st: State, o: nat) { o !in st.msgs || !st.msgs[o].finished }

  predicate Finished(st: State, o: nat) { o in st.msgs && st.msgs[o].finished }

  /** The messages of a run whose last fragment was sent, on top of `sent`. */
  ghost function SentIn(st: State, steps: seq<Step>, sent: iset<nat>): iset<nat>
    decreases |steps|
  {
    if steps == [] then sent
    else SentIn(Next(st, steps[0]), steps[1..], sent + LastOf(st, steps[0]))
  }

  /** The messages of a run that were completed, on top of `done`. */
  ghost function DoneIn(st: State, steps: seq<Step>, done: iset<nat>): iset<nat>
    decreases |steps|
  {
    if steps == [] then done
    else DoneIn(Next(st, steps[0]), steps[1..], done + DoneOf(st, steps[0]))
  }

  /** Every message that finishes in the run does so as it is completed, or for a cause. */
  ghost predicate Caused(st: State, steps: seq<Step>)
    decreases |steps|
  {
    steps == [] ||
    (&& (forall o | Unfinished(st, o) && Finished(Next(st, steps[0]), o) :: Completes(st, steps[0], o) || Cause(st, steps[0], o))
     && Caused(Next(st, steps[0]), steps[1..]))
  }

  // ---- What each operation finishes ----

  /** Messages stay and only ever start; those that finish are among `fin`; tasks are added, none of them a completion. */
  ghost predicate Calm(st: State, st1: State, fin: iset<nat>) {
    && (forall o | o in st.msgs :: o in st1.msgs && (st.msgs[o].started ==> st1.msgs[o].started))
    && (forall o | Finished(st, o) :: Finished(st1, o))
    && (forall o | Unfinished(st, o) && Finished(st1, o) :: o in fin)
    && st.tasks <= st1.tasks && forall k | |st.tasks| <= k < |st1.tasks| :: !st1.tasks[k].Complete?
  }

  lemma CalmTwice(st: State, st1: State, st2: State, fin: iset<nat>)
    requires Calm(st, st1, fin) && Calm(st1, st2, fin)
    ensures Calm(st, st2, fin)
  {
    forall k | |st.tasks| <= k < |st2.tasks| ensures !st2.tasks[k].Complete? {
      assert k < |st1.tasks| ==> st2.tasks[k] == st1.tasks[k];
    }
  }

  lemma DeliverCalm(st: State, o: nat, fin: iset<nat>)
    requires o in st.msgs && o in fin
    ensures Calm(st, Deliver(st, o), fin)
  {}

  lemma FinishCalm(st: State, o: nat, fin: iset<nat>)
    requires o in st.msgs && (st.msgs[o].finished || o in fin)
    ensures Calm(st, FinishOut(st, o), fin)
  {
    hide Less;
  }

  lemma {:induction false} FinishAllCalm(st: State, os: seq<nat>, fin: iset<nat>)
    requires forall k | 0 <= k < |os| :: os[k] in fin
    ensures Calm(st, FinishAll(st, os), fin)
    decreases |os|
  {
    hide Calm, Deliver;
    if os == [] {
      NothingCalm(st, fin);
    } else {
      var st1 := if os[0] in st.msgs then Deliver(st, os[0]) else st;
      NothingCalm(st, fin);
      if os[0] in st.msgs {
        DeliverCalm(st, os[0], fin);
      }
      FinishAllCalm(st1, os[1..], fin);
      CalmTwice(st, st1, FinishAll(st, os), fin);
    }
  }

  lemma NothingCalm(st: State, fin: iset<nat>)
    ensures Calm(st, st, fin)
  {}

  lemma AdmitCalm(st: State, o: nat, refused: bool, fin: iset<nat>)
    requires o in st.msgs && (st.closed || refused ==> o in fin)
    ensures Calm(st, Admit(st, o, refused), fin) && Admit(st, o, refused).closed == st.closed
  {}

  lemma {:induction false} AdmitAllCalm(st: State, os: seq<nat>, refused: set<nat>, fin: iset<nat>)
    requires forall k | 0 <= k < |os| :: st.closed || os[k] in refused ==> os[k] in fin
    ensures Calm(st, AdmitAll(st, os, refused), fin)
    decreases |os|
  {
    hide Calm, Admit;
    NothingCalm(st, fin);
    if os != [] {
      assert forall k | 0 <= k < |os[1..]| :: os[1..][k] == os[k + 1];
      if os[0] !in st.msgs || st.msgs[os[0]].finished {
        AdmitAllCalm(st, os[1..], refused, fin);
      } else {
        var st1 := Admit(st, os[0], os[0] in refused);
        AdmitCalm(st, os[0], os[0] in refused, fin);
        AdmitAllCalm(st1, os[1..], refused, fin);
        CalmTwice(st, st1, AdmitAll(st, os, refused), fin);
      }
    }
  }

  lemma EnsureCalm(st: State, p: nat, w: Waiter, current: Option<nat>, a: Attempt, fin: iset<nat>)
    ensures Calm(st, EnsureSession(st, p, w, current, a), fin) && Calm(st, Initiate(st, p, w, a), fin)
  {
    hide Calm, Initiate;
    InitiateCalm(st, p, w, a, fin);
    if current.Some? && current.value in st.sessions && !st.sessions[current.value].ended {
      SameCalm(st, Later(st, Call(w, current)), fin);
    }
  }

  lemma InitiateCalm(st: State, p: nat, w: Waiter, a: Attempt, fin: iset<nat>)
    ensures Calm(st, Initiate(st, p, w, a), fin)
  {
    hide Calm;
    SameCalm(st, Initiate(st, p, w, a), fin);
  }

  /** Messages as they were, and no completion added. */
  lemma SameCalm(st: State, st1: State, fin: iset<nat>)
    requires st1.msgs == st.msgs && st.tasks <= st1.tasks && forall k | |st.tasks| <= k < |st1.tasks| :: !st1.tasks[k].Complete?
    ensures Calm(st, st1, fin)
  {}

  lemma PendingCalm(st: State, p: nat, r: Option<nat>, fin: iset<nat>)
    ensures Calm(st, EndPending(st, p, r), fin)
  {
    hide Calm;
    SameCalm(st, EndPending(st, p, r), fin);
  }

  lemma HeadCalm(st: State, p: nat, c: Choice, fin: iset<nat>)
    ensures Calm(st, RunHead(st, p, c), fin)
  {
    hide Calm, DropFinished, EnsureSession;
    var q := DropFinished(st, Queue(st, p));
    var st1 := if p in st.queues then st.(queues := st.queues[p := q]) else st;
    SameCalm(st, st1, fin);
    if q != [] && q[0] in st.msgs && !st.msgs[q[0]].running {
      var st2 := st1.(msgs := st1.msgs[q[0] := st1.msgs[q[0]].(running := true)]);
      RunningCalm(st1, q[0], fin);
      EnsureCalm(st2, p, ForMessage(q[0]), c.current, c.attempt, fin);
      CalmTwice(st, st1, st2, fin);
      CalmTwice(st, st2, EnsureSession(st2, p, ForMessage(q[0]), c.current, c.attempt), fin);
    }
  }

  lemma RunningCalm(st: State, o: nat, fin: iset<nat>)
    requires o in st.msgs
    ensures Calm(st, st.(msgs := st.msgs[o := st.msgs[o].(running := true)]), fin)
  {}

  lemma CallCalm(st: State, w: Waiter, r: Option<nat>, fin: iset<nat>)
    requires w.ForMessage? && (r.None? || r.value !in st.sessions) ==> w.message in fin
    ensures Calm(st, RunCall(st, w, r), fin)
  {
    hide FinishOut;
    if w.ForMessage? && w.message in st.msgs && !st.msgs[w.message].finished && (r.None? || r.value !in st.sessions) {
      FinishCalm(st, w.message, fin);
    }
  }

  /** A task but for completions, on the state it was taken from. */
  lemma TaskCalm(st: State, c: Choice, fin: iset<nat>)
    requires st.tasks != [] && !st.tasks[0].Complete?
    requires forall o | Cause(st, Task'(c), o) :: o in fin
    ensures Calm(st.(tasks := st.tasks[1..]), RunTask(st, c), fin)
  {
    hide Calm, RunHead, RunCall, AdmitAll;
    var st1 := st.(tasks := st.tasks[1..]);
    match st.tasks[0]
    case StartHead(p) => HeadCalm(st1, p, c, fin);
    case Call(w, r) =>
      assert w.ForMessage? && (r.None? || r.value !in st.sessions) ==> Cause(st, Task'(c), w.message);
      CallCalm(st1, w, r, fin);
    case Regate(o) => RegateCalm(st1, o, fin);
    case AdmitWaiting =>
      forall k | 0 <= k < |st1.offline| && (st1.closed || st1.offline[k] in c.refused) ensures st1.offline[k] in fin {
        assert Cause(st, Task'(c), st1.offline[k]);
      }
      AdmitAllCalm(st1.(offline := []), st1.offline, c.refused, fin);
      OfflineCalm(st1, AdmitAll(st1.(offline := []), st1.offline, c.refused), fin);
  }

  lemma RegateCalm(st: State, o: nat, fin: iset<nat>)
    ensures Calm(st, st.(gate := st.gate + [o]), fin) && Calm(st, st, fin)
  {}

  lemma OfflineCalm(st: State, st1: State, fin: iset<nat>)
    requires Calm(st.(offline := []), st1, fin)
    ensures Calm(st, st1, fin)
  {}

  lemma SubmitCalm(st: State, o: nat, p: nat, refused: bool, fin: iset<nat>)
    requires Cause(st, Submit(o, p, refused), o) ==> o in fin
    ensures Calm(st, Next(st, Submit(o, p, refused)), fin)
  {
    hide Calm, Admit, Deliver;
    NothingCalm(st, fin);
    if o !in st.msgs {
      var st1 := st.(msgs := st.msgs[o := Fresh(p)]);
      FreshCalm(st, o, p, fin);
      match st.conn {
        case Terminal =>
          DeliverCalm(st1, o, fin);
          CalmTwice(st, st1, Deliver(st1, o), fin);
        case Up =>
          AdmitCalm(st1, o, refused, fin);
          CalmTwice(st, st1, Admit(st1, o, refused), fin);
        case Down =>
          SameCalm(st1, st1.(offline := st1.offline + [o]), fin);
          CalmTwice(st, st1, st1.(offline := st1.offline + [o]), fin);
      }
    }
  }

  lemma FreshCalm(st: State, o: nat, p: nat, fin: iset<nat>)
    requires o !in st.msgs
    ensures Calm(st, st.(msgs := st.msgs[o := Fresh(p)]), fin)
  {}

  /** The pump's visit that is not a last fragment. */
  lemma GateCalm(st: State, i: nat, visit: Visit, fin: iset<nat>)
    requires i < |st.gate| && !SendsLast(st, Gate(i, visit), st.gate[i])
    requires Cause(st, Gate(i, visit), st.gate[i]) ==> st.gate[i] in fin
    ensures Calm(st, Next(st, Gate(i, visit)), fin)
  {
    hide FinishOut;
    var o, st1 := st.gate[i], st.(gate := Without(st.gate, i));
    if o in st.msgs && (st.msgs[o].finished || o in fin) {
      FinishCalm(st1, o, fin);
    }
  }

  lemma TerminateCalm(st: State, fin: iset<nat>)
    requires forall k | 0 <= k < |st.offline| :: st.offline[k] in fin
    ensures Calm(st, Next(st, Terminate), fin)
  {
    hide FinishAll;
    var st1 := st.(conn := Terminal, closed := true, offline := []);
    FinishAllCalm(st1, st.offline, fin);
  }

  lemma OtherCalm(st: State, step: Step, fin: iset<nat>)
    requires !step.Task'? && !step.Gate? && !step.Submit? && !step.Terminate?
    requires forall o | Cause(st, step, o) :: o in fin
    ensures Calm(st, Next(st, step), fin)
  {
    hide Calm, FinishOut, Deliver, EnsureSession, Initiate, EndPending, Less;
    NothingCalm(st, fin);
    match step
    case SubmitControl(c, p, f) =>
      var st1 := st.(controls := st.controls[c := Control(p, 0)]);
      EnsureCalm(st1, p, ForControl(c), f.current, f.attempt, fin);
      SameCalm(st, st1, fin);
      CalmTwice(st, st1, EnsureSession(st1, p, ForControl(c), f.current, f.attempt), fin);
    case Withdraw(o) =>
      if o in st.msgs && !st.msgs[o].started && !st.msgs[o].finished {
        assert Cause(st, step, o);
        FinishCalm(st, o, fin);
        OfflineOut(st, o, fin);
      }
    case Timeout(o) =>
      if o in st.offline && o in st.msgs {
        assert Cause(st, step, o);
        OfflineOut(st, o, fin);
      }
    case HandshakeDone(p, s) =>
      var st1 := st.(sessions := st.sessions[s := Session(p, false, 0)]);
      PendingCalm(st1, p, Some(s), fin);
      SameCalm(st, st1, fin);
      CalmTwice(st, st1, EndPending(st1, p, Some(s)), fin);
    case HandshakeFails(p) => PendingCalm(st, p, None, fin);
    case Rekey(p, a) => EnsureCalm(st, p, ForNobody, None, a, fin);
    case _ => SameCalm(st, Next(st, step), fin);
  }

  lemma OfflineOut(st: State, o: nat, fin: iset<nat>)
    requires o in st.msgs && o in fin
    ensures Calm(st, Deliver(st.(offline := Less(st.offline, o)), o), fin)
  {
    hide Calm, Less, Deliver;
    var st1 := st.(offline := Less(st.offline, o));
    SameCalm(st, st1, fin);
    DeliverCalm(st1, o, fin);
    CalmTwice(st, st1, Deliver(st1, o), fin);
  }

  // ---- A last fragment sent, and its completion ----

  /** An unfinished message's completion is queued exactly when its last fragment was sent; a finished one was
      completed exactly then. */
  ghost predicate Tally(st: State, sent: iset<nat>, done: iset<nat>) {
    && (forall o | o in sent :: o in st.msgs && st.msgs[o].started)
    && (forall k | 0 <= k < |st.tasks| && st.tasks[k].Complete? :: st.tasks[k].message in st.msgs)
    && (forall o | o in st.msgs && !st.msgs[o].finished :: (Complete(o) in st.tasks <==> o in sent) && o !in done)
    && (forall o | o in done :: o in sent)
    && (forall o | o in st.msgs && st.msgs[o].finished :: o in sent <==> o in done)
  }

  lemma CalmTally(st: State, st1: State, fin: iset<nat>, sent: iset<nat>, done: iset<nat>)
    requires Tally(st, sent, done) && Calm(st, st1, fin) && forall o | o in fin && Unfinished(st, o) :: o !in sent
    ensures Tally(st1, sent, done)
  {
    forall o ensures Complete(o) in st1.tasks <==> Complete(o) in st.tasks {
      if Complete(o) in st1.tasks {
        var k :| 0 <= k < |st1.tasks| && st1.tasks[k] == Complete(o);
        assert k < |st.tasks|;
        assert st.tasks[k] == Complete(o);
      }
    }
    forall o | o in st1.msgs && !st1.msgs[o].finished ensures (Complete(o) in st1.tasks <==> o in sent) && o !in done {
      if o in st.msgs {
        assert Finished(st, o) ==> Finished(st1, o);
      } else {
        assert Complete(o) !in st.tasks && o !in sent;
      }
    }
    forall k | 0 <= k < |st1.tasks| && st1.tasks[k].Complete? ensures st1.tasks[k].message in st1.msgs {
      assert k < |st.tasks| && st1.tasks[k] == st.tasks[k];
    }
    forall o | Finished(st1, o) ensures o in sent <==> o in done {
      if Unfinished(st, o) {
        assert o in fin;
      } else {
        assert Finished(st, o);
      }
    }
  }

  lemma {:induction false} Resumes(ts: seq<Task>, o: nat)
    ensures Complete(o) in ts ==> ResumesOf(ts, o) > 0
  {
    if ts != [] {
      Resumes(ts[1..], o);
    }
  }

  lemma {:induction false} Awaited(ts: seq<Task>, w: Waiter)
    ensures ts != [] && CallsBack(ts[0], w) ==> CallsOf(ts, w) > 0
  {}

  /** Where a cause finds a message, its last fragment was not sent. */
  lemma CauseBefore(st: State, step: Step, o: nat)
    requires Core(st) && o in st.msgs && !st.msgs[o].finished && Cause(st, step, o) && !step.Withdraw? && !step.Submit?
    ensures Complete(o) !in st.tasks
  {
    hide Queues, Waiters, Known;
    assert MessageOk(st, o);
    Resumes(st.tasks, o);
    CountIn(st.offline, o);
    CountIn(st.gate, o);
    Awaited(st.tasks, ForMessage(o));
    var q := Queue(st, st.msgs[o].peer);
    CountIn(q, o);
    match step
    case Gate(i, _) => assert o in st.gate;
    case _ =>
  }

  /** The message the step completes, if it is a completion. */
  lemma CompleteTally(st: State, c: Choice, sent: iset<nat>, done: iset<nat>)
    requires Core(st) && Tally(st, sent, done) && st.tasks != [] && st.tasks[0].Complete?
    ensures Tally(Next(st, Task'(c)), sent, done + DoneOf(st, Task'(c)))
  {
    hide Core, Less, Tally;
    var o, st1, st2 := st.tasks[0].message, st.(tasks := st.tasks[1..]), Next(st, Task'(c));
    assert st.tasks == [st.tasks[0]] + st1.tasks;
    var done1 := done + DoneOf(st, Task'(c));
    if o in st.msgs && !st.msgs[o].finished {
      assert done1 == done + iset{o};
      FinishedTally(st, st1, o, sent, done);
    } else {
      assert done1 == done;
      PoppedTally(st, st1, sent, done);
    }
  }

  lemma FinishedTally(st: State, st1: State, o: nat, sent: iset<nat>, done: iset<nat>)
    requires Tally(st, sent, done) && st.tasks == [Complete(o)] + st1.tasks && st1 == st.(tasks := st1.tasks)
    requires o in st.msgs && !st.msgs[o].finished
    ensures Tally(FinishOut(st1, o), sent, done + iset{o})
  {
    hide Less;
    var st2 := FinishOut(st1, o);
    assert Complete(o) in st.tasks && o in sent;
    forall o' | o' in st2.msgs && !st2.msgs[o'].finished
      ensures (Complete(o') in st2.tasks <==> o' in sent) && o' !in done + iset{o}
    {
      assert o' != o && st2.msgs[o'] == st.msgs[o'];
      assert Complete(o') in st2.tasks <==> Complete(o') in st.tasks;
    }
    forall k | 0 <= k < |st2.tasks| && st2.tasks[k].Complete? ensures st2.tasks[k].message in st2.msgs {
      assert st2.tasks[k] == st.tasks[k + 1];
    }
  }

  lemma PoppedTally(st: State, st1: State, sent: iset<nat>, done: iset<nat>)
    requires Tally(st, sent, done) && st.tasks != [] && st1 == st.(tasks := st.tasks[1..])
    requires st.tasks[0].Complete? ==> Finished(st, st.tasks[0].message) || st.tasks[0].message !in st.msgs
    ensures Tally(st1, sent, done)
  {
    assert st.tasks == [st.tasks[0]] + st1.tasks;
    forall o | o in st1.msgs && !st1.msgs[o].finished ensures Complete(o) in st1.tasks <==> Complete(o) in st.tasks {
      assert st.tasks[0] != Complete(o);
    }
  }

  /** The visit that sends a last fragment queues the completion. */
  lemma LastTally(st: State, i: nat, sent: iset<nat>, done: iset<nat>)
    requires Tally(st, sent, done) && i < |st.gate| && SendsLast(st, Gate(i, Sent(true)), st.gate[i])
    ensures Tally(Next(st, Gate(i, Sent(true))), sent + iset{st.gate[i]}, done)
  {
    var o, st1 := st.gate[i], Next(st, Gate(i, Sent(true)));
    assert st1.tasks == st.tasks + [Complete(o)];
  }

  lemma CausesBefore(st: State, step: Step, sent: iset<nat>, done: iset<nat>)
    requires Core(st) && Tally(st, sent, done)
    ensures forall o | Cause(st, step, o) && Unfinished(st, o) :: o !in sent
  {
    hide Core;
    forall o | Cause(st, step, o) && Unfinished(st, o) ensures o !in sent {
      if o in st.msgs && !step.Withdraw? && !step.Submit? {
        CauseBefore(st, step, o);
      }
    }
  }

  lemma StepTally(st: State, step: Step, sent: iset<nat>, done: iset<nat>)
    requires Core(st) && Tally(st, sent, done)
    ensures var st1 := Next(st, step);
            && Tally(st1, sent + LastOf(st, step), done + DoneOf(st, step))
            && forall o | Unfinished(st, o) && Finished(st1, o) :: Completes(st, step, o) || Cause(st, step, o)
  {
    hide Core, Tally, Next, Calm, Live;
    var st1 := Next(st, step);
    var last, complete := LastOf(st, step), DoneOf(st, step);
    var fin := iset o | Cause(st, step, o);
    if step.Task'? && st.tasks != [] && st.tasks[0].Complete? {
      assert sent + last == sent;
      CompleteTally(st, step.choice, sent, done);
      CompleteFinishes(st, step.choice);
    } else if step.Gate? && step.index < |st.gate| && SendsLast(st, step, st.gate[step.index]) {
      assert last == iset{st.gate[step.index]} && done + complete == done;
      LastTally(st, step.index, sent, done);
      LastFinishes(st, step.index);
    } else {
      assert sent + last == sent && done + complete == done;
      Unchanging(st, step, fin, sent, done);
    }
  }

  lemma CompleteFinishes(st: State, c: Choice)
    requires st.tasks != [] && st.tasks[0].Complete?
    ensures forall o | Unfinished(st, o) && Finished(Next(st, Task'(c)), o) :: Completes(st, Task'(c), o)
  {
    hide Less;
  }

  lemma LastFinishes(st: State, i: nat)
    requires i < |st.gate| && SendsLast(st, Gate(i, Sent(true)), st.gate[i])
    ensures forall o | Unfinished(st, o) :: Unfinished(Next(st, Gate(i, Sent(true))), o)
  {}

  /** A step that neither completes nor sends a last fragment. */
  lemma Unchanging(st: State, step: Step, fin: iset<nat>, sent: iset<nat>, done: iset<nat>)
    requires Core(st) && Tally(st, sent, done) && fin == iset o | Cause(st, step, o)
    requires step.Task'? && st.tasks != [] ==> !st.tasks[0].Complete?
    requires step.Gate? && step.index < |st.gate| ==> !SendsLast(st, step, st.gate[step.index])
    ensures Tally(Next(st, step), sent, done)
    ensures forall o | Unfinished(st, o) && Finished(Next(st, step), o) :: Cause(st, step, o)
  {
    hide Core, Tally, RunTask, VisitGate, FinishAll, FinishOut, Admit, EnsureSession, Initiate, EndPending;
    CausesBefore(st, step, sent, done);
    var from := if step.Task'? && st.tasks != [] then st.(tasks := st.tasks[1..]) else st;
    if step.Task'? && st.tasks != [] {
      PoppedTally(st, from, sent, done);
      TaskCalm(st, step.choice, fin);
    } else {
      StepCalm(st, step, fin);
    }
    CalmTally(from, Next(st, step), fin, sent, done);
  }

  lemma StepCalm(st: State, step: Step, fin: iset<nat>)
    requires fin == iset o | Cause(st, step, o)
    requires step.Task'? ==> st.tasks == []
    requires step.Gate? && step.index < |st.gate| ==> !SendsLast(st, step, st.gate[step.index])
    ensures Calm(st, Next(st, step), fin)
  {
    hide Calm, VisitGate, FinishAll, FinishOut, Admit, EnsureSession, Initiate, EndPending;
    NothingCalm(st, fin);
    match step
    case Submit(o, p, refused) => SubmitCalm(st, o, p, refused, fin);
    case Gate(i, visit) =>
      if i < |st.gate| {
        GateCalm(st, i, visit, fin);
      }
    case Terminate =>
      forall k | 0 <= k < |st.offline| ensures st.offline[k] in fin {
        assert Cause(st, step, st.offline[k]);
      }
      TerminateCalm(st, fin);
    case Task'(_) =>
    case _ => OtherCalm(st, step, fin);
  }

  // ---- Every run ----

  lemma {:induction false} RunTally(st: State, steps: seq<Step>, sent: iset<nat>, done: iset<nat>)
    requires Core(st) && Counts(st) && Tally(st, sent, done)
    ensures Caused(st, steps) && Tally(Run(st, steps), SentIn(st, steps, sent), DoneIn(st, steps, done))
    decreases |steps|
  {
    hide Core, Counts, Tally, Next, LastOf, DoneOf, Completes, Cause;
    if steps != [] {
      StepTally(st, steps[0], sent, done);
      RunKeeps(st, [steps[0]]);
      assert [steps[0]][1..] == [];
      assert Run(Next(st, steps[0]), []) == Next(st, steps[0]);
      RunTally(Next(st, steps[0]), steps[1..], sent + LastOf(st, steps[0]), done + DoneOf(st, steps[0]));
    }
  }

  /**
    In every run: a message that has its result was completed if and only if its last fragment was sent, and each one
    that finished did so as it was completed or for a cause. One whose fragments have begun to go and whose last has
    not gone waits in the gate, or is about to be put there again; once its last has gone, its completion is queued.
   */
  lemma SucceedsExactly(steps: seq<Step>)
    ensures var st, sent, done := Run(START, steps), SentIn(START, steps, iset{}), DoneIn(START, steps, iset{});
            && Caused(START, steps)
            && (forall o | o in st.msgs && st.msgs[o].finished :: o in done <==> o in sent)
            && (forall o | o in st.msgs && !st.msgs[o].finished :: (o in sent <==> Complete(o) in st.tasks) && o !in done)
            && (forall o | o in st.msgs && !st.msgs[o].finished && st.msgs[o].session.Some? && o !in sent ::
                  o in st.gate || Regate(o) in st.tasks)
  {
    hide Queues, Waiters, Known, Counts, Run, SentIn, DoneIn, Caused, WhereIs;
    assert Core(START) && Counts(START) by { Empty(); }
    RunTally(START, steps, iset{}, iset{});
    RunKeeps(START, steps);
    var st, sent := Run(START, steps), SentIn(START, steps, iset{});
    forall o | o in st.msgs && !st.msgs[o].finished && st.msgs[o].session.Some? && o !in sent
      ensures o in st.gate || Regate(o) in st.tasks
    {
      assert MessageOk(st, o);
      GoesSomewhere(st, o);
    }
  }

  lemma GoesSomewhere(st: State, o: nat)
    requires o in st.msgs && !st.msgs[o].finished && st.msgs[o].session.Some? && MessageOk(st, o) && Complete(o) !in st.tasks
    ensures o in st.gate || Regate(o) in st.tasks
  {
    CountIn(st.gate, o);
    Resumed(st.tasks, o);
  }

  lemma {:induction false} Resumed(ts: seq<Task>, o: nat)
    ensures ResumesOf(ts, o) > 0 ==> Regate(o) in ts || Complete(o) in ts
  {
    if ts != [] {
      Resumed(ts[1..], o);
    }
  }

  // ---- Sends that wait for the relay ----

  /** Tasks are added, and the sends that wait and the connection are as they were. */
  predicate Adds(st: State, st1: State) { st.tasks <= st1.tasks && st1.offline == st.offline && st1.conn == st.conn }

  lemma AddsFinish(st: State, o: nat)
    requires o in st.msgs
    ensures Adds(st, FinishOut(st, o))
  {
    hide Less;
  }

  lemma AddsFind(st: State, p: nat, w: Waiter, current: Option<nat>, a: Attempt)
    ensures Adds(st, EnsureSession(st, p, w, current, a)) && Adds(st, Initiate(st, p, w, a))
  {}

  lemma {:induction false} AddsAdmit(st: State, os: seq<nat>, refused: set<nat>)
    ensures Adds(st, AdmitAll(st, os, refused))
    decreases |os|
  {
    if os != [] {
      if os[0] in st.msgs && !st.msgs[os[0]].finished {
        var st1 := Admit(st, os[0], os[0] in refused);
        assert Adds(st, st1);
        hide Admit;
        AddsAdmit(st1, os[1..], refused);
      } else {
        AddsAdmit(st, os[1..], refused);
      }
    }
  }

  lemma {:induction false} AddsFinishAll(st: State, os: seq<nat>)
    ensures Adds(st, FinishAll(st, os))
    decreases |os|
  {
    if os != [] {
      AddsFinishAll(if os[0] in st.msgs then Deliver(st, os[0]) else st, os[1..]);
    }
  }

  /** On the relay, whoever waits for it is about to be admitted; nobody waits for one that is gone for good. */
  predicate WaitersServed(st: State) {
    (st.conn == Up && st.offline != [] ==> AdmitWaiting in st.tasks) && (st.conn == Terminal ==> st.offline == [])
  }

  lemma AddsServed(st: State, st1: State)
    requires WaitersServed(st) && Adds(st, st1)
    ensures WaitersServed(st1)
  {
    if st1.conn == Up && st1.offline != [] {
      var i :| 0 <= i < |st.tasks| && st.tasks[i] == AdmitWaiting;
      assert st1.tasks[i] == AdmitWaiting;
    }
  }

  lemma TaskServed(st: State, c: Choice)
    requires WaitersServed(st)
    ensures WaitersServed(RunTask(st, c))
  {
    if st.tasks != [] {
      var t, st1 := st.tasks[0], st.(tasks := st.tasks[1..]);
      assert t != AdmitWaiting ==> WaitersServed(st1);
      match t {
        case StartHead(p) => HeadAdds(st1, p, c);
        case Call(w, r) => if w.ForMessage? && w.message in st1.msgs { AddsFinish(st1, w.message); }
        case Regate(o) =>
        case Complete(o) => if o in st1.msgs { AddsFinish(st1, o); }
        case AdmitWaiting => AddsAdmit(st1.(offline := []), st1.offline, c.refused);
      }
      hide RunHead, FinishOut, AdmitAll;
      if t != AdmitWaiting {
        assert Adds(st1, RunTask(st, c));
        AddsServed(st1, RunTask(st, c));
      }
    }
  }

  lemma HeadAdds(st: State, p: nat, c: Choice)
    ensures Adds(st, RunHead(st, p, c))
  {
    hide EnsureSession, DropFinished;
    var q := DropFinished(st, Queue(st, p));
    var st1 := if p in st.queues then st.(queues := st.queues[p := q]) else st;
    if q != [] && q[0] in st.msgs {
      AddsFind(st1.(msgs := st1.msgs[q[0] := st1.msgs[q[0]].(running := true)]), p, ForMessage(q[0]), c.current, c.attempt);
    }
  }

  lemma StepServed(st: State, step: Step)
    requires WaitersServed(st)
    ensures WaitersServed(Next(st, step))
  {
    match step {
      case Task'(c) => TaskServed(st, c);
      case Gate(i, v) => if i < |st.gate| { GateAdds(st, i, v); AddsServed(st, VisitGate(st, i, v)); }
      case Terminate => AddsFinishAll(st.(conn := Terminal, closed := true, offline := []), st.offline);
      case Withdraw(o) => WithdrawServed(st, o);
      case SubmitControl(c, p, f) =>
        AddsFind(st.(controls := st.controls[c := Control(p, 0)]), p, ForControl(c), f.current, f.attempt);
        hide EnsureSession;
        AddsServed(st, Next(st, step));
      case Rekey(p, a) => AddsFind(st, p, ForNobody, None, a); AddsServed(st, Next(st, step));
      case Connect => if st.offline != [] { assert (st.tasks + [AdmitWaiting])[|st.tasks|] == AdmitWaiting; }
      case Timeout(o) => TimeoutServed(st, o);
      case Submit(o, p, refused) => SubmitServed(st, o, p, refused);
      case Disconnect =>
      case _ => AddsServed(st, Next(st, step));
    }
  }

  lemma GateAdds(st: State, i: nat, v: Visit)
    requires i < |st.gate|
    ensures Adds(st, VisitGate(st, i, v))
  {
    hide FinishOut;
    var st1 := st.(gate := Without(st.gate, i));
    if st.gate[i] in st1.msgs {
      AddsFinish(st1, st.gate[i]);
    }
  }

  lemma WithdrawServed(st: State, o: nat)
    requires WaitersServed(st)
    ensures WaitersServed(Next(st, Withdraw(o)))
  {
    hide FinishOut;
    if o in st.msgs {
      AddsFinish(st, o);
      AddsServed(st, FinishOut(st, o));
    }
  }

  lemma TimeoutServed(st: State, o: nat)
    requires WaitersServed(st)
    ensures WaitersServed(Next(st, Timeout(o)))
  {}

  lemma SubmitServed(st: State, o: nat, p: nat, refused: bool)
    requires WaitersServed(st)
    ensures WaitersServed(Next(st, Submit(o, p, refused)))
  {
    if st.conn != Down {
      AddsServed(st, Next(st, Submit(o, p, refused)));
    }
  }

  lemma {:induction false} RunServed(st: State, steps: seq<Step>)
    requires WaitersServed(st)
    ensures WaitersServed(Run(st, steps))
    decreases |steps|
  {
    hide WaitersServed, Next;
    if steps != [] {
      StepServed(st, steps[0]);
      RunServed(Next(st, steps[0]), steps[1..]);
    }
  }

  /** In every run, while the relay is there those who wait for it are about to be admitted, and once it is gone for good nobody waits. */
  lemma NobodyLeftWaiting(steps: seq<Step>)
    ensures var st := Run(START, steps);
            (st.conn == Up && st.offline != [] ==> AdmitWaiting in st.tasks) && (st.conn == Terminal ==> st.offline == [])
  {
    hide Next;
    RunServed(START, steps);
  }
}
