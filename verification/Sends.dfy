/**
  Every send gets exactly one result, and every handshake waiter is called exactly once
  (client-go/member.go, client-go/sessions.go).

  The member's task queue is explicit: `later` appends to it and `unlock` runs it in order. What
  the network, the clock and the application do is arbitrary, and may come between any two tasks.
 */
module Sends {

  import opened Basics

  /** Who waits for a session: a message, a control message's sender, or nobody (a rekey). */
  datatype Waiter = ForMessage(message: nat) | ForControl(control: nat) | ForNobody

  datatype Task =
    | StartHead(peer: nat)
    | Call(waiter: Waiter, session: Option<nat>)   // None is a failure
    | Regate(message: nat)
    | Complete(message: nat)
    | AdmitWaiting

  datatype Message = Message(
    peer: nat, running: bool, started: bool, finished: bool, session: Option<nat>, results: nat)

  datatype Session = Session(peer: nat, ended: bool, activeSends: int)

  /** A control message: its peer, and how often its sender was called. */
  datatype Control = Control(peer: nat, called: nat)

  datatype Conn = Up | Down | Terminal

  datatype State = State(
    msgs: map<nat, Message>,
    offline: seq<nat>,                 // sends waiting for the relay connection
    queues: map<nat, seq<nat>>,        // per peer, the messages admitted, in order
    pending: map<nat, seq<Waiter>>,    // per peer, the waiters of the handshake under way
    gate: seq<nat>,
    tasks: seq<Task>,
    sessions: map<nat, Session>,
    controls: map<nat, Control>,
    conn: Conn, closed: bool)

  function Queue(st: State, p: nat): seq<nat> { if p in st.queues then st.queues[p] else [] }

  function Later(st: State, t: Task): State { st.(tasks := st.tasks + [t]) }

  // ---- Completion ----

  /** The result goes to the sender. */
  function Deliver(st: State, o: nat): State
    requires o in st.msgs
  {
    st.(msgs := st.msgs[o := st.msgs[o].(finished := true, results := st.msgs[o].results + 1)])
  }

  function Unbound(sessions: map<nat, Session>, s: Option<nat>): map<nat, Session> {
    if s.Some? && s.value in sessions
    then sessions[s.value := sessions[s.value].(activeSends := sessions[s.value].activeSends - 1)] else sessions
  }

  function FinishOut(st: State, o: nat): State
    requires o in st.msgs
  {
    var m := st.msgs[o];
    if m.finished then st else
    var q := Queue(st, m.peer);
    st.(msgs := st.msgs[o := m.(finished := true, results := m.results + 1)],
        sessions := Unbound(st.sessions, m.session),
        queues := if o in q then st.queues[m.peer := Less(q, o)] else st.queues,
        tasks := if q != [] && q[0] == o then st.tasks + [StartHead(m.peer)] else st.tasks)
  }

  // ---- Finding a session ----

  function Calls(ws: seq<Waiter>, r: Option<nat>): seq<Task> {
    seq(|ws|, i requires 0 <= i < |ws| => Call(ws[i], r))
  }

  /** failPending, and the end of a handshake that made session `r`. */
  function EndPending(st: State, p: nat, r: Option<nat>): State {
    if p !in st.pending then st
    else st.(pending := st.pending - {p}, tasks := st.tasks + Calls(st.pending[p], r))
  }

  /** What initiate finds: it cannot begin, or it begins and its first frame goes out or not. */
  datatype Attempt = CannotBegin | Begins | NotSent

  function Initiate(st: State, p: nat, w: Waiter, a: Attempt): State {
    if st.closed || a == CannotBegin then Later(st, Call(w, None))
    else if p in st.pending then st.(pending := st.pending[p := st.pending[p] + [w]])
    else if a == NotSent then Later(st, Call(w, None))   // the handshake fails as it begins
    else st.(pending := st.pending[p := [w]])
  }

  /** ensureSession: the current session if there is one that lives, or a handshake. */
  function EnsureSession(st: State, p: nat, w: Waiter, current: Option<nat>, a: Attempt): State {
    if current.Some? && current.value in st.sessions && !st.sessions[current.value].ended
    then Later(st, Call(w, current))
    else Initiate(st, p, w, a)
  }

  // ---- Tasks ----

  function Admit(st: State, o: nat, refused: bool): State
    requires o in st.msgs
  {
    var p := st.msgs[o].peer;
    if st.closed || refused then Deliver(st, o)
    else st.(queues := st.queues[p := Queue(st, p) + [o]],
             tasks := if Queue(st, p) == [] then st.tasks + [StartHead(p)] else st.tasks)
  }

  function AdmitAll(st: State, os: seq<nat>, refused: set<nat>): State
    decreases |os|
  {
    if os == [] then st
    else if os[0] !in st.msgs || st.msgs[os[0]].finished then AdmitAll(st, os[1..], refused)
    else AdmitAll(Admit(st, os[0], os[0] in refused), os[1..], refused)
  }

  /** What the environment settles while a task runs. */
  datatype Choice = Choice(current: Option<nat>, attempt: Attempt, refused: set<nat>)

  function DropFinished(st: State, q: seq<nat>): seq<nat> {
    if q != [] && q[0] in st.msgs && st.msgs[q[0]].finished then DropFinished(st, q[1..]) else q
  }

  function RunHead(st: State, p: nat, c: Choice): State {
    var q := DropFinished(st, Queue(st, p));
    var st1 := if p in st.queues then st.(queues := st.queues[p := q]) else st;
    if q == [] || q[0] !in st.msgs || st.msgs[q[0]].running then st1
    else
      var o := q[0];
      EnsureSession(st1.(msgs := st1.msgs[o := st1.msgs[o].(running := true)]), p, ForMessage(o), c.current, c.attempt)
  }

  function RunCall(st: State, w: Waiter, r: Option<nat>): State {
    match w
    case ForNobody => st
    case ForControl(c) =>
      if c !in st.controls then st
      else st.(controls := st.controls[c := st.controls[c].(called := st.controls[c].called + 1)])
    case ForMessage(o) =>
      if o !in st.msgs || st.msgs[o].finished then st
      else if r.None? || r.value !in st.sessions then FinishOut(st, o)
      else
        var s := st.sessions[r.value];
        st.(msgs := st.msgs[o := st.msgs[o].(session := r)],
            sessions := st.sessions[r.value := s.(activeSends := s.activeSends + 1)],
            gate := st.gate + [o])
  }

  function RunTask(st: State, c: Choice): State {
    if st.tasks == [] then st else
    var st1 := st.(tasks := st.tasks[1..]);
    match st.tasks[0]
    case StartHead(p) => RunHead(st1, p, c)
    case Call(w, r) => RunCall(st1, w, r)
    case Regate(o) => if o in st1.msgs && !st1.msgs[o].finished then st1.(gate := st1.gate + [o]) else st1
    case Complete(o) => if o in st1.msgs then FinishOut(st1, o) else st1
    case AdmitWaiting => AdmitAll(st1.(offline := []), st1.offline, c.refused)
  }

  // ---- Steps ----

  /** What the pump does with a message it takes out of the gate. */
  datatype Visit = Sent(last: bool) | Fails

  datatype Step =
    | Submit(message: nat, peer: nat, refused: bool)
    | SubmitControl(control: nat, to: nat, find: Choice)
    | Timeout(message: nat)
    | Withdraw(message: nat)
    | Task'(choice: Choice)
    | Gate(index: nat, visit: Visit)
    | HandshakeDone(who: nat, session: nat)
    | HandshakeFails(who: nat)
    | Rekey(who: nat, attempt: Attempt)
    | Accept(session: nat, who: nat)
    | End(session: nat)
    | Connect
    | Disconnect
    | Terminate

  function Fresh(peer: nat): Message { Message(peer, false, false, false, None, 0) }

  function FinishAll(st: State, os: seq<nat>): State
    decreases |os|
  {
    if os == [] then st
    else FinishAll(if os[0] in st.msgs then Deliver(st, os[0]) else st, os[1..])
  }

  function Next(st: State, step: Step): State {
    match step
    case Submit(o, p, refused) =>
      if o in st.msgs then st else
      var st1 := st.(msgs := st.msgs[o := Fresh(p)]);
      (match st.conn
       case Terminal => Deliver(st1, o)
       case Up => Admit(st1, o, refused)
       case Down => st1.(offline := st1.offline + [o]))
    case SubmitControl(c, p, f) =>
      if c in st.controls then st else
      EnsureSession(st.(controls := st.controls[c := Control(p, 0)]), p, ForControl(c), f.current, f.attempt)
    case Timeout(o) =>
      if o in st.offline && o in st.msgs then Deliver(st.(offline := Less(st.offline, o)), o) else st
    case Withdraw(o) =>
      if o !in st.msgs || st.msgs[o].started || st.msgs[o].finished then st
      else if o in st.offline then Deliver(st.(offline := Less(st.offline, o)), o)
      else FinishOut(st, o)
    case Task'(c) => RunTask(st, c)
    case Gate(i, visit) => if i < |st.gate| then VisitGate(st, i, visit) else st
    case HandshakeDone(p, s) =>
      if p in st.pending && s !in st.sessions
      then EndPending(st.(sessions := st.sessions[s := Session(p, false, 0)]), p, Some(s)) else st
    case HandshakeFails(p) => EndPending(st, p, None)
    case Rekey(p, a) => if p in st.pending then st else Initiate(st, p, ForNobody, a)
    case Accept(s, p) => if s in st.sessions then st else st.(sessions := st.sessions[s := Session(p, false, 0)])
    case End(s) => if s in st.sessions then st.(sessions := st.sessions[s := st.sessions[s].(ended := true)]) else st
    case Connect =>
      if st.conn == Terminal then st
      else if st.offline == [] then st.(conn := Up) else Later(st.(conn := Up), AdmitWaiting)
    case Disconnect => if st.conn == Terminal then st else st.(conn := Down)
    case Terminate => FinishAll(st.(conn := Terminal, closed := true, offline := []), st.offline)
  }

  /** pumpOnce's treatment of the i-th message of the gate. */
  function VisitGate(st: State, i: nat, visit: Visit): State
    requires i < |st.gate|
  {
    var o := st.gate[i];
    var st1 := st.(gate := Without(st.gate, i));
    if o !in st.msgs || st.msgs[o].finished then st1
    else if visit == Fails then FinishOut(st1, o)
    else if st.msgs[o].session.None? || st.msgs[o].session.value !in st.sessions
            || st.sessions[st.msgs[o].session.value].ended || st.closed then FinishOut(st1, o)
    else Later(st1.(msgs := st1.msgs[o := st1.msgs[o].(started := true)]), if visit.last then Complete(o) else Regate(o))
  }

  const START := State(map[], [], map[], map[], [], [], map[], map[], Down, false)

  function Run(st: State, steps: seq<Step>): State
    decreases |steps|
  {
    if steps == [] then st else Run(Next(st, steps[0]), steps[1..])
  }

  // ---- Where a message stands ----

  predicate CallsBack(t: Task, w: Waiter) { t.Call? && t.waiter == w }

  predicate GoesOn(t: Task, o: nat) { t == Regate(o) || t == Complete(o) }

  /** How many tasks will call a waiter back, and how many will go on with a message. */
  function CallsOf(ts: seq<Task>, w: Waiter): nat {
    if ts == [] then 0 else (if CallsBack(ts[0], w) then 1 else 0) + CallsOf(ts[1..], w)
  }

  function ResumesOf(ts: seq<Task>, o: nat): nat {
    if ts == [] then 0 else (if GoesOn(ts[0], o) then 1 else 0) + ResumesOf(ts[1..], o)
  }

  function WaitsOf(ws: seq<Waiter>, w: Waiter): nat {
    if ws == [] then 0 else (if ws[0] == w then 1 else 0) + WaitsOf(ws[1..], w)
  }

  function Pending(st: State, p: nat): seq<Waiter> { if p in st.pending then st.pending[p] else [] }

  /** How often a message waits for the connection, is queued, is waited for and is on its way out. */
  datatype Where = Where(offline: nat, queued: nat, atHead: bool, awaited: nat, onTheWay: nat)

  function WhereIs(st: State, o: nat): Where
    requires o in st.msgs
  {
    var q := Queue(st, st.msgs[o].peer);
    Where(Count(st.offline, o), Count(q, o), q != [] && q[0] == o,
          CallsOf(st.tasks, ForMessage(o)) + WaitsOf(Pending(st, st.msgs[o].peer), ForMessage(o)),
          Count(st.gate, o) + ResumesOf(st.tasks, o))
  }

  /** A message has one result exactly when finished, and until then exactly one place to be finished from. */
  predicate PlaceOk(m: Message, w: Where) {
    && m.results == (if m.finished then 1 else 0)
    && w.offline + w.queued == (if m.finished then 0 else 1)
    && (!m.finished ==>
          && w.awaited == (if m.running && m.session.None? then 1 else 0)
          && w.onTheWay == (if m.running && m.session.Some? then 1 else 0)
          && (m.running ==> w.atHead)
          && (!m.running ==> m.session.None?))
  }

  predicate MessageOk(st: State, o: nat)
    requires o in st.msgs
  {
    PlaceOk(st.msgs[o], WhereIs(st, o))
  }

  ghost predicate MessagesBut(st: State, x: nat) { forall o | o in st.msgs && o != x :: MessageOk(st, o) }

  ghost predicate Messages(st: State) { forall o | o in st.msgs :: MessageOk(st, o) }

  /** A queue holds its peer's unfinished messages, and its head runs or is about to be started. */
  predicate QueueOk(st: State, p: nat) {
    var q := Queue(st, p);
    && (forall i | 0 <= i < |q| :: q[i] in st.msgs && !st.msgs[q[i]].finished && st.msgs[q[i]].peer == p)
    && (q != [] ==> q[0] in st.msgs && (st.msgs[q[0]].running || StartHead(p) in st.tasks))
  }

  ghost predicate Queues(st: State) { forall p :: QueueOk(st, p) }

  /** Handshakes are waited for by their own peer's messages and control messages. */
  predicate WaiterOk(msgs: map<nat, Message>, controls: map<nat, Control>, p: nat, w: Waiter) {
    match w
    case ForMessage(o) => o in msgs && msgs[o].peer == p
    case ForControl(c) => c in controls && controls[c].peer == p
    case ForNobody => true
  }

  ghost predicate Waiters(st: State) {
    forall p, i | p in st.pending && 0 <= i < |st.pending[p]| :: WaiterOk(st.msgs, st.controls, p, st.pending[p][i])
  }

  // ---- Lemmas about the counts ----

  lemma {:induction false} CountAppend(a: seq<nat>, b: seq<nat>, x: nat)
    ensures Count(a + b, x) == Count(a, x) + Count(b, x)
  {
    if a == [] {
      assert a + b == b;
    } else {
      assert (a + b)[1..] == a[1..] + b;
      CountAppend(a[1..], b, x);
    }
  }

  lemma {:induction false} CountIn(s: seq<nat>, x: nat)
    ensures x in s <==> Count(s, x) > 0
  {
    if s != [] {
      CountIn(s[1..], x);
    }
  }

  lemma {:induction false} CountLess(s: seq<nat>, x: nat, y: nat)
    ensures Count(Less(s, x), y) == if y == x && x in s then Count(s, y) - 1 else Count(s, y)
    ensures s != [] && s[0] != x ==> Less(s, x) != [] && Less(s, x)[0] == s[0]
    ensures y in Less(s, x) ==> y in s
  {
    if s != [] && s[0] != x {
      CountLess(s[1..], x, y);
      assert Less(s, x)[1..] == Less(s[1..], x);
    }
    CountIn(s, x);
  }

  lemma {:induction false} CountWithout(s: seq<nat>, i: nat, y: nat)
    requires i < |s|
    ensures Count(Without(s, i), y) == Count(s, y) - (if s[i] == y then 1 else 0)
  {
    if i == 0 {
      assert Without(s, i) == s[1..];
    } else {
      CountWithout(s[1..], i - 1, y);
      assert Without(s, i)[1..] == Without(s[1..], i - 1);
    }
  }

  lemma {:induction false} TasksAppend(a: seq<Task>, b: seq<Task>, w: Waiter, o: nat)
    ensures CallsOf(a + b, w) == CallsOf(a, w) + CallsOf(b, w) && ResumesOf(a + b, o) == ResumesOf(a, o) + ResumesOf(b, o)
  {
    if a == [] {
      assert a + b == b;
    } else {
      assert (a + b)[1..] == a[1..] + b;
      TasksAppend(a[1..], b, w, o);
    }
  }

  lemma {:induction false} WaitsAppend(a: seq<Waiter>, b: seq<Waiter>, w: Waiter)
    ensures WaitsOf(a + b, w) == WaitsOf(a, w) + WaitsOf(b, w)
  {
    if a == [] {
      assert a + b == b;
    } else {
      assert (a + b)[1..] == a[1..] + b;
      WaitsAppend(a[1..], b, w);
    }
  }

  lemma {:induction false} CallsWaits(ws: seq<Waiter>, r: Option<nat>, w: Waiter, o: nat)
    ensures CallsOf(Calls(ws, r), w) == WaitsOf(ws, w) && ResumesOf(Calls(ws, r), o) == 0
  {
    if ws != [] {
      assert Calls(ws, r)[1..] == Calls(ws[1..], r);
      CallsWaits(ws[1..], r, w, o);
    }
  }

  // ---- How the parts move ----

  lemma MoreTasks(st: State, ts: seq<Task>, o: nat)
    requires o in st.msgs
    ensures WhereIs(st.(tasks := st.tasks + ts), o)
         == WhereIs(st, o).(awaited := WhereIs(st, o).awaited + CallsOf(ts, ForMessage(o)),
                            onTheWay := WhereIs(st, o).onTheWay + ResumesOf(ts, o))
  {
    TasksAppend(st.tasks, ts, ForMessage(o), o);
  }

  lemma OneTask(st: State, t: Task, o: nat)
    requires o in st.msgs
    ensures WhereIs(Later(st, t), o)
         == WhereIs(st, o).(awaited := WhereIs(st, o).awaited + (if CallsBack(t, ForMessage(o)) then 1 else 0),
                            onTheWay := WhereIs(st, o).onTheWay + (if GoesOn(t, o) then 1 else 0))
  {
    hide WhereIs;
    MoreTasks(st, [t], o);
    assert [t][1..] == [];
  }

  lemma FirstTask(st: State, o: nat)
    requires o in st.msgs && st.tasks != []
    ensures WhereIs(st, o)
         == WhereIs(Popped(st), o).(awaited := WhereIs(Popped(st), o).awaited + (if CallsBack(st.tasks[0], ForMessage(o)) then 1 else 0),
                                    onTheWay := WhereIs(Popped(st), o).onTheWay + (if GoesOn(st.tasks[0], o) then 1 else 0))
  {}

  function Popped(st: State): State
    requires st.tasks != []
  {
    st.(tasks := st.tasks[1..])
  }

  /** Where things stand depends on the message's peer, not on the rest of the message. */
  lemma SamePlaces(st: State, st1: State, o: nat)
    requires o in st.msgs && o in st1.msgs && st1.msgs[o].peer == st.msgs[o].peer
    requires st1.offline == st.offline && st1.queues == st.queues && st1.gate == st.gate && st1.tasks == st.tasks && st1.pending == st.pending
    ensures WhereIs(st1, o) == WhereIs(st, o)
  {}

  /** Queues stay in order while starts are only added and messages only begin to run. */
  lemma QueuesStay(st: State, st1: State)
    requires Queues(st) && st1.queues == st.queues
    requires forall o | o in st.msgs :: o in st1.msgs && st1.msgs[o].peer == st.msgs[o].peer
                                        && st1.msgs[o].finished == st.msgs[o].finished && (st.msgs[o].running ==> st1.msgs[o].running)
    requires forall p | StartHead(p) in st.tasks :: StartHead(p) in st1.tasks
    ensures Queues(st1)
  {
    forall p ensures QueueOk(st1, p) {
      assert QueueOk(st, p);
    }
  }

  // ---- Completion keeps them ----

  /** A message being finished: still queued, whatever has become of its other places. */
  predicate Finishing(st: State, o: nat) {
    && o in st.msgs && !st.msgs[o].finished && st.msgs[o].results == 0
    && Count(st.offline, o) == 0 && Count(Queue(st, st.msgs[o].peer), o) == 1
  }

  /** What finishOut leaves of where messages stand. */
  lemma FinishMoves(st: State, o: nat, x: nat)
    requires Finishing(st, o) && x in st.msgs
    ensures x in FinishOut(st, o).msgs
    ensures var w, w1 := WhereIs(st, x), WhereIs(FinishOut(st, o), x);
            && w1.offline == w.offline && w1.queued == w.queued - (if x == o then 1 else 0)
            && (x != o && w.atHead ==> w1.atHead) && w1.awaited == w.awaited && w1.onTheWay == w.onTheWay
  {
    hide Less, CallsOf, ResumesOf, Count;
    var p := st.msgs[o].peer;
    var q := Queue(st, p);
    CountIn(q, o);
    CountLess(q, o, x);
    NoWaiters(st.tasks, p, x);
  }

  lemma NoWaiters(ts: seq<Task>, p: nat, x: nat)
    ensures CallsOf(ts + [StartHead(p)], ForMessage(x)) == CallsOf(ts, ForMessage(x))
    ensures ResumesOf(ts + [StartHead(p)], x) == ResumesOf(ts, x)
  {
    TasksAppend(ts, [StartHead(p)], ForMessage(x), x);
    assert [StartHead(p)][1..] == [];
  }

  lemma FinishQueues(st: State, o: nat)
    requires Finishing(st, o) && Queues(st)
    ensures Queues(FinishOut(st, o))
  {
    hide Less, Count;
    var p, st1 := st.msgs[o].peer, FinishOut(st, o);
    var q := Queue(st, p);
    CountIn(q, o);
    forall p' ensures QueueOk(st1, p') {
      assert QueueOk(st, p');
      if p' == p {
        FinishedQueue(st, st1, o);
      }
    }
  }

  lemma FinishedQueue(st: State, st1: State, o: nat)
    requires Finishing(st, o) && QueueOk(st, st.msgs[o].peer) && Queue(st, st.msgs[o].peer) != []
    requires st1.msgs == st.msgs[o := st.msgs[o].(finished := true, results := 1)]
    requires st1.queues == st.queues[st.msgs[o].peer := Less(Queue(st, st.msgs[o].peer), o)]
    requires st1.tasks == if Queue(st, st.msgs[o].peer)[0] == o then st.tasks + [StartHead(st.msgs[o].peer)] else st.tasks
    ensures QueueOk(st1, st.msgs[o].peer)
  {
    hide Less, Count;
    var p := st.msgs[o].peer;
    var q, q1 := Queue(st, p), Queue(st1, p);
    CountLess(q, o, o);
    CountIn(q, o);
    CountIn(q1, o);
    forall i | 0 <= i < |q1| ensures q1[i] in st1.msgs && !st1.msgs[q1[i]].finished && st1.msgs[q1[i]].peer == p {
      CountLess(q, o, q1[i]);
    }
    if q1 != [] && q[0] == o {
      assert st1.tasks[|st.tasks|] == StartHead(p);
    }
  }

  lemma FinishKeeps(st: State, o: nat)
    requires Finishing(st, o) && MessagesBut(st, o) && Queues(st)
    ensures Messages(FinishOut(st, o)) && Queues(FinishOut(st, o))
  {
    hide WhereIs, Queues;
    FinishQueues(st, o);
    forall x | x in FinishOut(st, o).msgs ensures MessageOk(FinishOut(st, o), x) {
      FinishMoves(st, o, x);
      if x != o {
        assert MessageOk(st, x);
      } else {
        assert WhereIs(st, o).offline == 0 && WhereIs(st, o).queued == 1 by { Spelled(st, o); }
      }
    }
  }

  lemma Spelled(st: State, o: nat)
    requires o in st.msgs
    ensures WhereIs(st, o).offline == Count(st.offline, o) && WhereIs(st, o).queued == Count(Queue(st, st.msgs[o].peer), o)
  {}

  // ---- Everything together, as far as messages go ----

  predicate Known(st: State) {
    && (forall i | 0 <= i < |st.offline| :: st.offline[i] in st.msgs)
    && (forall o | o in st.msgs :: st.msgs[o].session.Some? ==> st.msgs[o].session.value in st.sessions)
  }

  ghost predicate Core(st: State) { Messages(st) && Queues(st) && Waiters(st) && Known(st) }

  /** A message in hand: it left the front of the offline list, and has no other place yet. */
  lemma OfflineFirst(st: State, x: nat)
    requires st.offline != [] && x in st.msgs
    ensures WhereIs(st.(offline := st.offline[1..]), x)
         == WhereIs(st, x).(offline := WhereIs(st, x).offline - (if x == st.offline[0] then 1 else 0))
  {}

  lemma AdmitMoves(st: State, o: nat, x: nat)
    requires o in st.msgs && x in st.msgs && !st.closed
    ensures x in Admit(st, o, false).msgs
    ensures var w, w1 := WhereIs(st, x), WhereIs(Admit(st, o, false), x);
            && w1.queued == w.queued + (if x == o then 1 else 0) && (w.atHead ==> w1.atHead)
            && w1 == w.(queued := w1.queued, atHead := w1.atHead)
  {
    hide CallsOf, ResumesOf;
    var p := st.msgs[o].peer;
    CountAppend(Queue(st, p), [o], x);
    assert [o][1..] == [];
    NoWaiters(st.tasks, p, x);
  }

  lemma AdmitMessages(st: State, o: nat, refused: bool)
    requires Core(st) && st.offline != [] && st.offline[0] == o
    ensures Messages(Admit(st.(offline := st.offline[1..]), o, refused))
  {
    hide WhereIs, Count, Admit, Queues, Waiters;
    var st0 := st.(offline := st.offline[1..]);
    NotQueued(st, o);
    if st.closed || refused {
      assert Admit(st0, o, refused) == Deliver(st0, o) by { Refused(st0, o, refused); }
      forall x | x in st.msgs ensures MessageOk(Deliver(st0, o), x) {
        assert MessageOk(st, x);
        OfflineFirst(st, x);
        SamePlaces(st0, Deliver(st0, o), x);
        OfflineOnce(st, o);
      }
    } else {
      assert Admit(st0, o, refused).msgs == st.msgs by { Refused(st0, o, refused); }
      forall x | x in st.msgs ensures MessageOk(Admit(st0, o, refused), x) {
        assert MessageOk(st, x);
        OfflineFirst(st, x);
        AdmitMoves(st0, o, x);
        OfflineOnce(st, o);
      }
    }
  }

  lemma Refused(st: State, o: nat, refused: bool)
    requires o in st.msgs
    ensures st.closed || refused ==> Admit(st, o, refused) == Deliver(st, o)
    ensures !(st.closed || refused) ==> Admit(st, o, refused).msgs == st.msgs
  {}

  lemma OfflineOnce(st: State, o: nat)
    requires o in st.msgs
    ensures WhereIs(st, o).offline == Count(st.offline, o) && WhereIs(st, o).queued == Count(Queue(st, st.msgs[o].peer), o)
  {}

  lemma AdmitQueues(st: State, o: nat, refused: bool)
    requires Core(st) && st.offline != [] && st.offline[0] == o
    ensures Queues(Admit(st.(offline := st.offline[1..]), o, refused))
  {
    hide Messages, Waiters, Count;
    var st1 := Admit(st.(offline := st.offline[1..]), o, refused);
    NotQueued(st, o);
    forall p ensures QueueOk(st1, p) {
      assert QueueOk(st, p);
      NotInQueue(st, o, p);
    }
  }

  lemma AdmitKeeps(st: State, o: nat, refused: bool)
    requires Core(st) && st.offline != [] && st.offline[0] == o
    ensures Core(Admit(st.(offline := st.offline[1..]), o, refused))
  {
    hide Messages, Queues;
    AdmitMessages(st, o, refused);
    AdmitQueues(st, o, refused);
  }

  /** A message that waits for the connection is in no queue, unfinished and not running. */
  lemma NotQueued(st: State, o: nat)
    requires Core(st) && o in st.offline && o in st.msgs
    ensures !st.msgs[o].finished && !st.msgs[o].running && st.msgs[o].results == 0 && Count(Queue(st, st.msgs[o].peer), o) == 0
    ensures Count(st.offline, o) == 1
  {
    hide CallsOf, ResumesOf, WaitsOf;
    assert MessageOk(st, o);
    CountIn(st.offline, o);
    CountIn(Queue(st, st.msgs[o].peer), o);
  }

  lemma NotInQueue(st: State, o: nat, p: nat)
    requires Core(st) && o in st.offline && o in st.msgs
    ensures o !in Queue(st, p)
  {
    hide Messages, Waiters, Known;
    if o in Queue(st, p) {
      assert QueueOk(st, p);
      NotQueued(st, o) by { assert Core(st); }
      CountIn(Queue(st, p), o);
    }
  }

  // ---- Waiting for a session keeps them ----

  lemma CoreQueuesStay(st: State, st1: State)
    requires Core(st) && st1.msgs == st.msgs && st1.queues == st.queues && st1.offline == st.offline
    requires st.sessions.Keys <= st1.sessions.Keys
    requires forall p | StartHead(p) in st.tasks :: StartHead(p) in st1.tasks
    ensures Queues(st1) && Known(st1)
  {
    hide Messages, Waiters;
    QueuesStay(st, st1);
  }

  /** A waiter is either called back soon, or joins the handshake. */
  lemma Attached(st: State, p: nat, w: Waiter, current: Option<nat>, a: Attempt) returns (soon: bool, r: Option<nat>)
    ensures EnsureSession(st, p, w, current, a) == if soon then Later(st, Call(w, r)) else Joined(st, p, w)
  {
    soon := (current.Some? && current.value in st.sessions && !st.sessions[current.value].ended)
            || st.closed || a == CannotBegin || (p !in st.pending && a == NotSent);
    r := if current.Some? && current.value in st.sessions && !st.sessions[current.value].ended then current else None;
    assert [] + [w] == [w];
  }

  function Joined(st: State, p: nat, w: Waiter): State { st.(pending := st.pending[p := Pending(st, p) + [w]]) }

  lemma JoinMoves(st: State, p: nat, w: Waiter, x: nat)
    requires x in st.msgs && (w == ForMessage(x) ==> st.msgs[x].peer == p)
    ensures WhereIs(Joined(st, p, w), x)
         == WhereIs(st, x).(awaited := WhereIs(st, x).awaited + (if w == ForMessage(x) then 1 else 0))
  {
    hide Count, CallsOf, ResumesOf;
    WaitsAppend(Pending(st, p), [w], ForMessage(x));
    assert [w][1..] == [];
  }

  lemma AttachMoves(st: State, p: nat, w: Waiter, current: Option<nat>, a: Attempt, x: nat)
    requires x in st.msgs && (w == ForMessage(x) ==> st.msgs[x].peer == p)
    ensures x in EnsureSession(st, p, w, current, a).msgs
    ensures WhereIs(EnsureSession(st, p, w, current, a), x)
         == WhereIs(st, x).(awaited := WhereIs(st, x).awaited + (if w == ForMessage(x) then 1 else 0))
  {
    hide WhereIs, EnsureSession;
    var soon, r := Attached(st, p, w, current, a);
    if soon {
      OneTask(st, Call(w, r), x);
    } else {
      JoinMoves(st, p, w, x);
    }
  }

  lemma AttachRest(st: State, p: nat, w: Waiter, current: Option<nat>, a: Attempt)
    requires Waiters(st) && WaiterOk(st.msgs, st.controls, p, w)
    ensures var st1 := EnsureSession(st, p, w, current, a);
            && st1 == st.(tasks := st1.tasks, pending := st1.pending)
            && Waiters(st1) && (forall t | t in st.tasks :: t in st1.tasks)
  {
    hide EnsureSession;
    var soon, r := Attached(st, p, w, current, a);
  }

  /** A waiter that is not a message's changes nothing for messages. */
  lemma AttachKeeps(st: State, p: nat, w: Waiter, current: Option<nat>, a: Attempt)
    requires Core(st) && !w.ForMessage? && WaiterOk(st.msgs, st.controls, p, w)
    ensures Core(EnsureSession(st, p, w, current, a))
  {
    hide WhereIs, EnsureSession, Queues;
    var st1 := EnsureSession(st, p, w, current, a);
    AttachRest(st, p, w, current, a);
    CoreQueuesStay(st, st1);
    forall x | x in st1.msgs ensures MessageOk(st1, x) {
      assert MessageOk(st, x);
      AttachMoves(st, p, w, current, a, x);
    }
  }

  lemma {:induction false} OthersDoNotWait(ws: seq<Waiter>, w: Waiter)
    requires forall i | 0 <= i < |ws| :: ws[i] != w
    ensures WaitsOf(ws, w) == 0
  {
    if ws != [] {
      OthersDoNotWait(ws[1..], w);
    }
  }

  lemma EndPendingMoves(st: State, p: nat, r: Option<nat>, x: nat)
    requires Waiters(st) && x in st.msgs
    ensures WhereIs(EndPending(st, p, r), x) == WhereIs(st, x)
  {
    hide Count;
    if p in st.pending {
      var ws := st.pending[p];
      TasksAppend(st.tasks, Calls(ws, r), ForMessage(x), x);
      CallsWaits(ws, r, ForMessage(x), x);
      if st.msgs[x].peer != p {
        OthersDoNotWait(ws, ForMessage(x));
      }
    }
  }

  lemma EndPendingKeeps(st: State, p: nat, r: Option<nat>)
    requires Core(st)
    ensures Core(EndPending(st, p, r))
  {
    hide WhereIs, Queues;
    var st1 := EndPending(st, p, r);
    CoreQueuesStay(st, st1);
    forall x | x in st1.msgs ensures MessageOk(st1, x) {
      assert MessageOk(st, x);
      EndPendingMoves(st, p, r, x);
    }
  }

  // ---- Tasks keep them ----

  /** A task that neither starts a queue nor speaks of a message is simply dropped. */
  lemma PopKeeps(st: State)
    requires Core(st) && st.tasks != []
    ensures var st1, t := Popped(st), st.tasks[0];
            && Waiters(st1) && Known(st1)
            && (forall p | t != StartHead(p) :: QueueOk(st1, p))
            && (forall x | x in st.msgs && !CallsBack(t, ForMessage(x)) && !GoesOn(t, x) :: MessageOk(st1, x))
  {
    hide WhereIs;
    var st1, t := Popped(st), st.tasks[0];
    assert st.tasks == [t] + st1.tasks;
    forall p | t != StartHead(p) ensures QueueOk(st1, p) {
      assert QueueOk(st, p);
    }
    forall x | x in st.msgs && !CallsBack(t, ForMessage(x)) && !GoesOn(t, x) ensures MessageOk(st1, x) {
      assert MessageOk(st, x);
      FirstTask(st, x);
    }
  }

  lemma HeadIsFresh(st: State, p: nat)
    requires forall i | 0 <= i < |Queue(st, p)| :: Queue(st, p)[i] in st.msgs && !st.msgs[Queue(st, p)[i]].finished
    ensures DropFinished(st, Queue(st, p)) == Queue(st, p)
    ensures p in st.queues ==> st.queues[p := Queue(st, p)] == st.queues
  {}
}
