/**
  Every run of the session table (client-go/sessions.go): each event that changes it is a step, and so is each
  change the pump makes at the end of endSession.
 */
module SessionRuns {

  import opened Basics
  import opened SessionTable

  datatype Step =
    | Init(from: nat, index: nat, session: nat)
    | Resp(from: nat, index: nat, answer: Answer)
    | Begin(peer: nat, index: nat, sent: bool)
    | Fail(peer: nat)                  // a handshake times out, or its peer's sessions are all ended
    | End(session: nat)                // expired, idle, replaced, reset, lost a frame, out of nonces, ...
    | Fragment(session: nat, more: bool, n: nat, within: bool)
    | Take(index: nat)
    | Know(peer: nat)                  // a message is queued for a peer not known yet
    | Roster(next: set<nat>)           // the roster is replaced; who is off it is purged by the steps that follow
    | Gone(peer: nat)                  // such a peer has been purged
    | Forget(peer: nat)

  function Next(t: Table, step: Step): Table {
    match step
    case Init(from, i, s) => OnInit(t, from, i, s)
    case Resp(from, i, answer) => OnResp(t, from, i, answer)
    case Begin(p, i, sent) => if Unused(t, i) then Initiate(t, p, i, sent) else t
    case Fail(p) => FailPending(t, p)
    case End(s) => EndSession(t, s)
    case Fragment(s, more, n, within) => if IsLive(t, s) then OnFragment(t, s, more, n, within) else t
    case Take(k) => if k < |t.untaken| && UntakenOk(t, t.untaken[k]) then Release(t, k) else t
    case Know(p) => t.(peers := t.peers[p := PeerOf(t, p)])
    case Roster(next) => t.(roster := next, leaving := set p | p in t.peers && p !in next)
    case Gone(p) => if Engaged(t, p) then t else t.(leaving := t.leaving - {p})
    case Forget(p) =>
      if p in t.peers && !Engaged(t, p) && t.peers[p].heldCount == 0 && p !in t.roster then t.(peers := t.peers - {p}) else t
  }

  function Run(t: Table, steps: seq<Step>): Table
    decreases |steps|
  {
    if steps == [] then t else Run(Next(t, steps[0]), steps[1..])
  }

  function Empty(roster: set<nat>, window: nat): Table { Table(map[], map[], map[], [], roster, window, {}) }

  ghost predicate Inv(t: Table) { Agrees(t) && Few(t) && Rostered(t) }

  lemma {:induction false} RunMore(t: Table, a: seq<Step>, b: seq<Step>)
    ensures Run(t, a + b) == Run(Run(t, a), b)
    decreases |a|
  {
    hide Next;
    if a == [] {
      assert a + b == b;
    } else {
      assert (a + b)[1..] == a[1..] + b;
      RunMore(Next(t, a[0]), a[1..], b);
    }
  }

  lemma RunOne(t: Table, step: Step)
    ensures Run(t, [step]) == Next(t, step)
  {
    assert Run(Next(t, step), [step][1..]) == Next(t, step);
  }

  /** Whose roster it is, and who is leaving it, is nothing the rest of the table looks at. */
  lemma NewRoster(t: Table, next: set<nat>, leaving: set<nat>)
    requires Agrees(t) && Few(t)
    ensures Agrees(t.(roster := next, leaving := leaving)) && Few(t.(roster := next, leaving := leaving))
  {
    hide Partials, SizeFrom, CountFrom, HeldOn;
    var t1 := t.(roster := next, leaving := leaving);
    forall p | p in t1.peers ensures ListOk(t1, p) && AccountOk(t1, p) {
      assert ListOk(t, p) && AccountOk(t, p);
    }
    forall i | i in t1.byIndex ensures EntryOk(t1, i) {
      assert EntryOk(t, i);
    }
    forall s | s in t1.sessions ensures SessionOk(t1, s) {
      assert SessionOk(t, s);
    }
    forall k | 0 <= k < |t1.untaken| ensures UntakenOk(t1, t1.untaken[k]) {
      assert UntakenOk(t, t.untaken[k]);
    }
  }

  lemma KnowKeeps(t: Table, p: nat)
    requires Inv(t)
    ensures Inv(Next(t, Know(p)))
  {
    hide Agrees, Pendings;
    PendingsOf(t);
    assert OnlyPending(t, Next(t, Know(p))) by { KnowOnlyPending(t, p); }
    PendingKeeps(t, Next(t, Know(p)));
  }

  lemma KnowOnlyPending(t: Table, p: nat)
    requires Pendings(t)
    ensures OnlyPending(t, t.(peers := t.peers[p := PeerOf(t, p)]))
  {}

  lemma NextKeeps(t: Table, step: Step)
    requires Inv(t)
    ensures Inv(Next(t, step))
  {
    hide Agrees, Few, OnInit, OnResp, Initiate, FailPending, EndSession, OnFragment, Release;
    match step
    case Init(from, i, s) => OnInitKeeps(t, from, i, s);
    case Resp(from, i, answer) => OnRespKeeps(t, from, i, answer);
    case Begin(p, i, sent) =>
      if Unused(t, i) {
        InitiateKeeps(t, p, i, sent);
      }
    case Fail(p) => FailKeeps(t, p);
    case End(s) => EndKeeps(t, s);
    case Fragment(s, more, n, within) =>
      if IsLive(t, s) {
        FragmentKeeps(t, s, more, n, within);
      }
    case Take(k) =>
      if k < |t.untaken| {
        ReleaseKeeps(t, k);
      }
    case Know(p) => KnowKeeps(t, p);
    case Roster(next) => NewRoster(t, next, set p | p in t.peers && p !in next);
    case Gone(p) => NewRoster(t, t.roster, t.leaving - {p});
    case Forget(p) =>
      if Next(t, step) != t {
        ForgetKeeps(t, p);
        FewerPeers(t, p);
      }
  }

  lemma FewerPeers(t: Table, p: nat)
    requires Few(t)
    ensures Few(t.(peers := t.peers - {p}))
  {}

  lemma {:induction false} RunKeeps(t: Table, steps: seq<Step>)
    requires Inv(t)
    ensures Inv(Run(t, steps))
    decreases |steps|
  {
    hide Inv, Next;
    if steps != [] {
      NextKeeps(t, steps[0]);
      RunKeeps(Next(t, steps[0]), steps[1..]);
    }
  }

  /**
    In every run: an index names a live session exactly when it is that session's, and a handshake exactly when it is
    that peer's pending one; a session is live exactly when its peer lists it; the current one is live; a peer has at
    most eight; sessions and handshakes are with the roster, or with an id a new roster is just ending; and what a
    peer has left buffered is exactly its partial and untaken bytes, within its limits.
   */
  lemma Exactly(roster: set<nat>, window: nat, steps: seq<Step>, i: nat, s: nat, p: nat)
    ensures var t := Run(Empty(roster, window), steps);
            && (i in t.byIndex && t.byIndex[i] == Live(s) <==> IsLive(t, s) && t.sessions[s].local == i)
            && (i in t.byIndex && t.byIndex[i] == Awaiting(p) <==> PeerOf(t, p).pending == Some(i))
            && (s in PeerOf(t, p).sessions <==> IsLive(t, s) && t.sessions[s].peer == p)
            && (PeerOf(t, p).current.Some? ==> IsLive(t, PeerOf(t, p).current.value) && t.sessions[PeerOf(t, p).current.value].peer == p)
            && |PeerOf(t, p).sessions| <= MAX_SESSIONS
            && ((IsLive(t, s) && t.sessions[s].peer == p) || PeerOf(t, p).pending.Some? ==> p in t.roster || p in t.leaving)
            && PeerOf(t, p).buffered == Partials(t.sessions, PeerOf(t, p).sessions) + SizeFrom(t.untaken, p) <= BufferLimit(t.window)
            && PeerOf(t, p).heldCount == CountFrom(t.untaken, p) <= MAX_HELD
  {
    hide Inv, Next;
    Nothing(roster, window);
    RunKeeps(Empty(roster, window), steps);
    SaysExactly(Run(Empty(roster, window), steps), i, s, p);
  }

  lemma Nothing(roster: set<nat>, window: nat)
    ensures Inv(Empty(roster, window))
  {}

  lemma SaysExactly(t: Table, i: nat, s: nat, p: nat)
    requires Inv(t)
    ensures i in t.byIndex && t.byIndex[i] == Live(s) <==> IsLive(t, s) && t.sessions[s].local == i
    ensures i in t.byIndex && t.byIndex[i] == Awaiting(p) <==> PeerOf(t, p).pending == Some(i)
    ensures s in PeerOf(t, p).sessions <==> IsLive(t, s) && t.sessions[s].peer == p
    ensures PeerOf(t, p).current.Some? ==> IsLive(t, PeerOf(t, p).current.value) && t.sessions[PeerOf(t, p).current.value].peer == p
    ensures |PeerOf(t, p).sessions| <= MAX_SESSIONS
    ensures (IsLive(t, s) && t.sessions[s].peer == p) || PeerOf(t, p).pending.Some? ==> p in t.roster || p in t.leaving
    ensures PeerOf(t, p).buffered == Partials(t.sessions, PeerOf(t, p).sessions) + SizeFrom(t.untaken, p) <= BufferLimit(t.window)
    ensures PeerOf(t, p).heldCount == CountFrom(t.untaken, p) <= MAX_HELD
  {
    hide Partials, SizeFrom, CountFrom, HeldOn;
    Unknown(t, p);
    NoPartials(t.sessions);
    if p in t.peers {
      assert ListOk(t, p) && AccountOk(t, p);
    }
    if i in t.byIndex {
      assert EntryOk(t, i);
    }
    if s in t.sessions {
      assert SessionOk(t, s);
    }
  }

  /**
    A handshake that is begun and answered, with nothing else of it in between: its index becomes that of a live session
    with the peer, which is current, and no handshake is pending.
   */
  lemma HandshakeCompletes(t: Table, p: nat, i: nat, s: nat)
    requires Inv(t) && p in t.roster && PeerOf(t, p).pending.None? && Unused(t, i) && s !in t.sessions
    ensures var t1 := Run(t, [Begin(p, i, true), Resp(p, i, Readable(s))]);
            && IsLive(t1, s) && t1.sessions[s].peer == p && i in t1.byIndex && t1.byIndex[i] == Live(s)
            && PeerOf(t1, p).current == Some(s) && PeerOf(t1, p).pending.None?
  {
    var b, r := Begin(p, i, true), Resp(p, i, Readable(s));
    RunMore(t, [b], [r]);
    RunOne(t, b);
    RunOne(Next(t, b), r);
    assert [b] + [r] == [b, r];
    NextKeeps(t, b);
    Answered(Next(t, b), p, i, s);
  }

  lemma Answered(t: Table, p: nat, i: nat, s: nat)
    requires Inv(t) && p in t.roster && i in t.byIndex && t.byIndex[i] == Awaiting(p) && s !in t.sessions
    ensures var t1 := OnResp(t, p, i, Readable(s));
            && IsLive(t1, s) && t1.sessions[s].peer == p && i in t1.byIndex && t1.byIndex[i] == Live(s)
            && PeerOf(t1, p).current == Some(s) && PeerOf(t1, p).pending.None?
  {
    hide Agrees, Few, Rostered, Adopt, SessionOk;
    PendingsOf(t);
    FailKeeps(t, p);
    Passes(t, p, i, s);
    var t0 := FailPending(t, p);
    AdoptKeeps(t0, s, p, i);
    AdoptIs(t0, s, p, i);
    Indexed(Adopt(t0, s, p, i), s);
  }

  lemma AdoptIs(t: Table, s: nat, p: nat, i: nat)
    ensures var t1 := Adopt(t, s, p, i);
            s in t1.sessions && t1.sessions[s].peer == p && t1.sessions[s].local == i && PeerOf(t1, p).pending == PeerOf(t, p).pending
  {}

  lemma Indexed(t: Table, s: nat)
    requires Agrees(t) && IsLive(t, s)
    ensures t.sessions[s].local in t.byIndex && t.byIndex[t.sessions[s].local] == Live(s)
  {
    assert SessionOk(t, s);
  }
}
