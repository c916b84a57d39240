/**
  The session table (client-go/sessions.go): the index, each peer's list of sessions, the pending
  handshakes, and what each peer has left buffered.

  Sessions are named by the order they were made in; a session that ended stays known, since
  messages received on it may still be untaken.
 */
module SessionTable {

  import opened Basics

  const MAX_SESSIONS := 8
  const MAX_HELD := 65536
  const MAX_MESSAGE := 64 * 1024 * 1024

  datatype Session = Session(peer: nat, local: nat, ended: bool, partial: nat, held: int)

  datatype Entry = Live(session: nat) | Awaiting(peer: nat)

  datatype Peer = Peer(current: Option<nat>, sessions: seq<nat>, pending: Option<nat>, buffered: int, heldCount: int)

  /** A whole message handed to the application and not yet taken. */
  datatype Untaken = Untaken(session: nat, peer: nat, size: nat)

  datatype Table = Table(
    sessions: map<nat, Session>, peers: map<nat, Peer>, byIndex: map<nat, Entry>,
    untaken: seq<Untaken>, roster: set<nat>, window: nat,
    leaving: set<nat>)   // ids off a new roster whose sessions are still to be ended

  function BufferLimit(window: nat): nat { 2 * MAX_MESSAGE + 4 * window }

  // ---- Operations ----

  const NOBODY := Peer(None, [], None, 0, 0)

  function PeerOf(t: Table, p: nat): Peer { if p in t.peers then t.peers[p] else NOBODY }

  function Dropped(ps: Peer, s: nat, partial: nat): Peer {
    ps.(sessions := Less(ps.sessions, s), current := if ps.current == Some(s) then None else ps.current,
        buffered := ps.buffered - partial)
  }

  predicate IsLive(t: Table, s: nat) { s in t.sessions && !t.sessions[s].ended }

  function EndSession(t: Table, s: nat): Table {
    if !IsLive(t, s) then t else
    var x := t.sessions[s];
    t.(sessions := t.sessions[s := x.(ended := true, partial := 0)],
       byIndex := if x.local in t.byIndex && t.byIndex[x.local] == Live(s) then t.byIndex - {x.local} else t.byIndex,
       peers := if x.peer in t.peers then t.peers[x.peer := Dropped(t.peers[x.peer], s, x.partial)] else t.peers)
  }

  function FailPending(t: Table, p: nat): Table {
    if p !in t.peers || t.peers[p].pending.None? then t else
    var i := t.peers[p].pending.value;
    t.(peers := t.peers[p := t.peers[p].(pending := None)],
       byIndex := if i in t.byIndex && t.byIndex[i] == Awaiting(p) then t.byIndex - {i} else t.byIndex)
  }

  /** A local index nobody holds: what newIndex draws. */
  predicate Unused(t: Table, i: nat) { i != 0 && i !in t.byIndex }

  /** initiate, with the index it draws and whether its frame goes out. */
  function Initiate(t: Table, p: nat, i: nat, sent: bool): Table
    requires Unused(t, i)
  {
    if p !in t.roster then t
    else if PeerOf(t, p).pending.Some? || !sent then t.(peers := t.peers[p := PeerOf(t, p)])
    else t.(peers := t.peers[p := PeerOf(t, p).(pending := Some(i))], byIndex := t.byIndex[i := Awaiting(p)])
  }

  /** adopt, before it trims: the new session is indexed, listed and current. */
  function Enlist(t: Table, s: nat, p: nat, i: nat): Table {
    t.(sessions := t.sessions[s := Session(p, i, false, 0, 0)],
       byIndex := t.byIndex[i := Live(s)],
       peers := t.peers[p := PeerOf(t, p).(sessions := PeerOf(t, p).sessions + [s], current := Some(s))])
  }

  /** The session adopt ends when there are too many: the oldest that is not current. */
  function Oldest(ps: Peer): nat
    requires |ps.sessions| > 1
  {
    if ps.current == Some(ps.sessions[0]) then ps.sessions[1] else ps.sessions[0]
  }

  function Adopt(t: Table, s: nat, p: nat, i: nat): Table {
    var t1 := Enlist(t, s, p, i);
    if |t1.peers[p].sessions| > MAX_SESSIONS then EndSession(t1, Oldest(t1.peers[p])) else t1
  }

  datatype Answer = Unreadable | Readable(session: nat)

  function OnInit(t: Table, from: nat, i: nat, s: nat): Table {
    if from in t.roster && Unused(t, i) && s !in t.sessions then Adopt(t, s, from, i) else t
  }

  function OnResp(t: Table, from: nat, i: nat, answer: Answer): Table {
    if i !in t.byIndex || t.byIndex[i] != Awaiting(from) then t
    else if answer.Unreadable? || from !in t.roster then FailPending(t, from)
    else if answer.session in t.sessions then t
    else Adopt(t.(peers := t.peers[from := PeerOf(t, from).(pending := None)]), answer.session, from, i)
  }

  /** onFragment on a live session; `within` says the fragment is within the credit granted. */
  function OnFragment(t: Table, s: nat, more: bool, n: nat, within: bool): Table
    requires IsLive(t, s)
  {
    var x := t.sessions[s];
    var ps := PeerOf(t, x.peer);
    if (more && n == 0) || !within || x.partial + n > MAX_MESSAGE || ps.buffered + n > BufferLimit(t.window)
       || (!more && ps.heldCount >= MAX_HELD) then EndSession(t, s)
    else if more then
      t.(sessions := t.sessions[s := x.(partial := x.partial + n)],
         peers := t.peers[x.peer := ps.(buffered := ps.buffered + n)])
    else
      t.(sessions := t.sessions[s := x.(partial := 0, held := x.held + 1)],
         peers := t.peers[x.peer := ps.(buffered := ps.buffered + n, heldCount := ps.heldCount + 1)],
         untaken := t.untaken + [Untaken(s, x.peer, x.partial + n)])
  }

  /** The application takes the k-th untaken message. */
  function Release(t: Table, k: nat): Table
    requires k < |t.untaken| && t.untaken[k].session in t.sessions && t.untaken[k].peer in t.peers
  {
    var u := t.untaken[k];
    t.(sessions := t.sessions[u.session := t.sessions[u.session].(held := t.sessions[u.session].held - 1)],
       peers := t.peers[u.peer := t.peers[u.peer].(buffered := t.peers[u.peer].buffered - u.size, heldCount := t.peers[u.peer].heldCount - 1)],
       untaken := Without(t.untaken, k))
  }

  // ---- What holds in every reachable state ----

  function Partials(sessions: map<nat, Session>, list: seq<nat>): nat {
    if list == [] then 0
    else (if list[0] in sessions then sessions[list[0]].partial else 0) + Partials(sessions, list[1..])
  }

  function SizeFrom(us: seq<Untaken>, p: nat): nat {
    if us == [] then 0 else (if us[0].peer == p then us[0].size else 0) + SizeFrom(us[1..], p)
  }

  function CountFrom(us: seq<Untaken>, p: nat): nat {
    if us == [] then 0 else (if us[0].peer == p then 1 else 0) + CountFrom(us[1..], p)
  }

  function HeldOn(us: seq<Untaken>, s: nat): nat {
    if us == [] then 0 else (if us[0].session == s then 1 else 0) + HeldOn(us[1..], s)
  }

  predicate EntryOk(t: Table, i: nat)
    requires i in t.byIndex
  {
    i != 0 &&
    match t.byIndex[i]
    case Live(s) => IsLive(t, s) && t.sessions[s].local == i
    case Awaiting(p) => p in t.peers && t.peers[p].pending == Some(i)
  }

  predicate SessionOk(t: Table, s: nat)
    requires s in t.sessions
  {
    var x := t.sessions[s];
    && x.held == HeldOn(t.untaken, s)
    && (if x.ended then x.partial == 0
        else x.local in t.byIndex && t.byIndex[x.local] == Live(s) && x.peer in t.peers && s in t.peers[x.peer].sessions)
  }

  /** A peer's list, its current session and its pending handshake. */
  predicate ListOk(t: Table, p: nat)
    requires p in t.peers
  {
    var ps := t.peers[p];
    && Distinct(ps.sessions)
    && (forall k | 0 <= k < |ps.sessions| :: IsLive(t, ps.sessions[k]) && t.sessions[ps.sessions[k]].peer == p)
    && (ps.current.Some? ==> ps.current.value in ps.sessions)
    && (ps.pending.Some? ==> ps.pending.value in t.byIndex && t.byIndex[ps.pending.value] == Awaiting(p))
  }

  /** What a peer has left here is what its live partial messages and its untaken messages come to. */
  predicate AccountOk(t: Table, p: nat)
    requires p in t.peers
  {
    var ps := t.peers[p];
    && ps.buffered == Partials(t.sessions, ps.sessions) + SizeFrom(t.untaken, p) <= BufferLimit(t.window)
    && ps.heldCount == CountFrom(t.untaken, p) <= MAX_HELD
  }

  predicate UntakenOk(t: Table, u: Untaken) { u.session in t.sessions && t.sessions[u.session].peer == u.peer && u.peer in t.peers }

  ghost predicate Lists(t: Table) { forall p | p in t.peers :: ListOk(t, p) }
  ghost predicate Accounts(t: Table) { forall p | p in t.peers :: AccountOk(t, p) }
  ghost predicate Index(t: Table) { forall i | i in t.byIndex :: EntryOk(t, i) }
  ghost predicate Sessions(t: Table) { forall s | s in t.sessions :: SessionOk(t, s) }
  ghost predicate AllUntaken(t: Table) { forall k | 0 <= k < |t.untaken| :: UntakenOk(t, t.untaken[k]) }

  ghost predicate Agrees(t: Table) { Lists(t) && Accounts(t) && Index(t) && Sessions(t) && AllUntaken(t) }

  ghost predicate Few(t: Table) { forall p | p in t.peers :: |t.peers[p].sessions| <= MAX_SESSIONS }

  predicate Engaged(t: Table, p: nat) { PeerOf(t, p).sessions != [] || PeerOf(t, p).pending.Some? }

  /** Sessions and handshakes are with members of the roster held, but for those a new roster is ending. */
  predicate Rostered(t: Table) {
    forall p | p in t.peers :: (t.peers[p].sessions != [] || t.peers[p].pending.Some?) ==> p in t.roster || p in t.leaving
  }

  // ---- Lemmas about lists and sums ----

  lemma {:induction false} PartialsSame(sessions: map<nat, Session>, sessions1: map<nat, Session>, list: seq<nat>)
    requires forall k | 0 <= k < |list| ::
               (list[k] in sessions1 <==> list[k] in sessions)
               && (list[k] in sessions ==> sessions1[list[k]].partial == sessions[list[k]].partial)
    ensures Partials(sessions1, list) == Partials(sessions, list)
  {
    if list != [] {
      assert forall k | 0 <= k < |list[1..]| :: list[1..][k] == list[k + 1];
      PartialsSame(sessions, sessions1, list[1..]);
    }
  }

  /** One session of the list changes what is partial. */
  lemma {:induction false} PartialsChange(sessions: map<nat, Session>, s: nat, x: Session, list: seq<nat>)
    requires Distinct(list) && s in sessions
    ensures Partials(sessions[s := x], list)
         == Partials(sessions, list) + (if s in list then x.partial - sessions[s].partial else 0)
  {
    if list != [] {
      PartialsChange(sessions, s, x, list[1..]);
    }
  }

  lemma {:induction false} PartialsLess(sessions: map<nat, Session>, s: nat, list: seq<nat>)
    requires Distinct(list) && s in list && s in sessions
    ensures Partials(sessions, Less(list, s)) == Partials(sessions, list) - sessions[s].partial
  {
    if list[0] != s {
      PartialsLess(sessions, s, list[1..]);
      assert Less(list, s)[1..] == Less(list[1..], s);
    }
  }

  lemma {:induction false} PartialsAppend(sessions: map<nat, Session>, list: seq<nat>, s: nat)
    ensures Partials(sessions, list + [s]) == Partials(sessions, list) + (if s in sessions then sessions[s].partial else 0)
  {
    if list == [] {
      assert list + [s] == [s] && [s][1..] == [];
    } else {
      assert (list + [s])[1..] == list[1..] + [s];
      PartialsAppend(sessions, list[1..], s);
    }
  }

  lemma {:induction false} UntakenAppend(us: seq<Untaken>, u: Untaken, p: nat, s: nat)
    ensures SizeFrom(us + [u], p) == SizeFrom(us, p) + (if u.peer == p then u.size else 0)
    ensures CountFrom(us + [u], p) == CountFrom(us, p) + (if u.peer == p then 1 else 0)
    ensures HeldOn(us + [u], s) == HeldOn(us, s) + (if u.session == s then 1 else 0)
  {
    if us == [] {
      assert us + [u] == [u] && [u][1..] == [];
    } else {
      assert (us + [u])[1..] == us[1..] + [u];
      UntakenAppend(us[1..], u, p, s);
    }
  }

  lemma {:induction false} UntakenWithout(us: seq<Untaken>, k: nat, p: nat, s: nat)
    requires k < |us|
    ensures SizeFrom(Without(us, k), p) == SizeFrom(us, p) - (if us[k].peer == p then us[k].size else 0)
    ensures CountFrom(Without(us, k), p) == CountFrom(us, p) - (if us[k].peer == p then 1 else 0)
    ensures HeldOn(Without(us, k), s) == HeldOn(us, s) - (if us[k].session == s then 1 else 0)
  {
    if k == 0 {
      assert Without(us, k) == us[1..];
    } else {
      UntakenWithout(us[1..], k - 1, p, s);
      assert Without(us, k)[1..] == Without(us[1..], k - 1);
    }
  }

  // ---- Ending a session ----

  lemma EndLists(t: Table, s: nat)
    requires Agrees(t) && IsLive(t, s)
    ensures Lists(EndSession(t, s))
  {
    hide Less, Accounts, AllUntaken, Partials;
    var t1, x := EndSession(t, s), t.sessions[s];
    assert SessionOk(t, s);
    forall p | p in t1.peers ensures ListOk(t1, p) {
      assert ListOk(t, p);
      LessOf(t.peers[p].sessions, s);
      if p == x.peer {
        EndedList(t, t1, s);
      }
    }
  }

  lemma EndedList(t: Table, t1: Table, s: nat)
    requires IsLive(t, s) && t1 == EndSession(t, s) && t.sessions[s].peer in t.peers && ListOk(t, t.sessions[s].peer)
    requires Index(t)
    ensures t.sessions[s].peer in t1.peers && ListOk(t1, t.sessions[s].peer)
  {
    hide Less;
    var p := t.sessions[s].peer;
    var list := t1.peers[p].sessions;
    LessOf(t.peers[p].sessions, s);
    forall k | 0 <= k < |list| ensures IsLive(t1, list[k]) && t1.sessions[list[k]].peer == p {
      assert list[k] in list;
    }
  }

  lemma EndAccounts(t: Table, s: nat)
    requires Agrees(t) && IsLive(t, s)
    ensures Accounts(EndSession(t, s))
  {
    hide Less, Index, AllUntaken, Partials, SizeFrom, CountFrom, HeldOn;
    var t1, x := EndSession(t, s), t.sessions[s];
    assert SessionOk(t, s);
    forall p | p in t1.peers ensures AccountOk(t1, p) {
      assert AccountOk(t, p) && ListOk(t, p);
      var list := t.peers[p].sessions;
      LessOf(list, s);
      if p == x.peer {
        PartialsLess(t.sessions, s, list);
        PartialsChange(t.sessions, s, t1.sessions[s], Less(list, s));
      } else {
        PartialsChange(t.sessions, s, t1.sessions[s], list);
      }
    }
  }

  lemma EndIndex(t: Table, s: nat)
    requires Agrees(t) && IsLive(t, s)
    ensures Index(EndSession(t, s)) && AllUntaken(EndSession(t, s))
  {
    hide Less, Accounts, HeldOn, Lists;
    var t1 := EndSession(t, s);
    assert SessionOk(t, s);
    forall i | i in t1.byIndex ensures EntryOk(t1, i) {
      assert EntryOk(t, i);
    }
    forall k | 0 <= k < |t1.untaken| ensures UntakenOk(t1, t1.untaken[k]) {
      assert UntakenOk(t, t.untaken[k]);
    }
  }

  lemma EndSessions(t: Table, s: nat)
    requires Agrees(t) && IsLive(t, s)
    ensures Sessions(EndSession(t, s))
  {
    hide Less, Accounts, HeldOn, AllUntaken, Index;
    var t1, x := EndSession(t, s), t.sessions[s];
    assert SessionOk(t, s);
    assert ListOk(t, x.peer);
    LessOf(t.peers[x.peer].sessions, s);
    forall s' | s' in t1.sessions ensures SessionOk(t1, s') {
      assert SessionOk(t, s');
    }
  }

  lemma EndKeeps(t: Table, s: nat)
    requires Agrees(t)
    ensures Agrees(EndSession(t, s)) && (Rostered(t) ==> Rostered(EndSession(t, s))) && (Few(t) ==> Few(EndSession(t, s)))
  {
    hide Lists, Accounts, Index, Sessions, AllUntaken, Few, Rostered, EndSession;
    if IsLive(t, s) {
      EndLists(t, s);
      EndAccounts(t, s);
      EndIndex(t, s);
      EndSessions(t, s);
    } else {
      assert EndSession(t, s) == t by { EndedTwice(t, s); }
    }
    EndRostered(t, s);
  }

  lemma EndedTwice(t: Table, s: nat)
    ensures !IsLive(t, s) ==> EndSession(t, s) == t
  {}

  lemma EndRostered(t: Table, s: nat)
    requires Agrees(t)
    ensures (Rostered(t) ==> Rostered(EndSession(t, s))) && (Few(t) ==> Few(EndSession(t, s)))
    ensures IsLive(t, s) ==>
              && t.sessions[s].peer in t.peers
              && |PeerOf(EndSession(t, s), t.sessions[s].peer).sessions| == |t.peers[t.sessions[s].peer].sessions| - 1
  {
    hide Accounts, Index, AllUntaken, Less;
    if IsLive(t, s) {
      assert SessionOk(t, s);
      assert ListOk(t, t.sessions[s].peer);
      LessOf(t.peers[t.sessions[s].peer].sessions, s);
    }
  }

  // ---- Handshakes ----

  /** A change to pending handshakes and their index entries, and to nothing else. */
  ghost predicate OnlyPending(t: Table, t1: Table) {
    && t1 == t.(peers := t1.peers, byIndex := t1.byIndex)
    && (forall p | p in t.peers :: p in t1.peers && t1.peers[p] == t.peers[p].(pending := t1.peers[p].pending))
    && (forall p | p in t1.peers :: p in t.peers || t1.peers[p] == NOBODY.(pending := t1.peers[p].pending))
    && (forall p | p in t1.peers :: t1.peers[p].pending.Some? ==>
          t1.peers[p].pending.value in t1.byIndex && t1.byIndex[t1.peers[p].pending.value] == Awaiting(p))
    && (forall i | i in t.byIndex :: t.byIndex[i].Live? ==> i in t1.byIndex && t1.byIndex[i] == t.byIndex[i])
    && (forall i | i in t1.byIndex :: i != 0 &&
          match t1.byIndex[i]
          case Live(s) => i in t.byIndex && t.byIndex[i] == Live(s)
          case Awaiting(p) => p in t1.peers && t1.peers[p].pending == Some(i))
  }

  lemma PendingIndex(t: Table, t1: Table)
    requires Agrees(t) && OnlyPending(t, t1)
    ensures Index(t1) && Sessions(t1) && AllUntaken(t1)
  {
    hide Accounts, Lists, HeldOn;
    forall i | i in t1.byIndex ensures EntryOk(t1, i) {
      if t1.byIndex[i].Live? {
        assert EntryOk(t, i);
      }
    }
    forall s | s in t1.sessions ensures SessionOk(t1, s) {
      assert SessionOk(t, s);
    }
    forall k | 0 <= k < |t1.untaken| ensures UntakenOk(t1, t1.untaken[k]) {
      assert UntakenOk(t, t.untaken[k]);
    }
  }

  lemma PendingKeeps(t: Table, t1: Table)
    requires Agrees(t) && OnlyPending(t, t1)
    ensures Agrees(t1) && (Few(t) ==> Few(t1))
  {
    hide Index, Sessions, AllUntaken, Partials, SizeFrom, CountFrom;
    PendingIndex(t, t1);
    forall p | p in t1.peers ensures ListOk(t1, p) && AccountOk(t1, p) {
      if p in t.peers {
        assert ListOk(t, p) && AccountOk(t, p);
      } else {
        Unknown(t, p);
        NoPartials(t.sessions);
      }
    }
  }

  ghost predicate Pendings(t: Table) {
    && (forall p | p in t.peers && t.peers[p].pending.Some? ::
          t.peers[p].pending.value in t.byIndex && t.byIndex[t.peers[p].pending.value] == Awaiting(p))
    && (forall i | i in t.byIndex :: i != 0)
    && (forall i | i in t.byIndex && t.byIndex[i].Awaiting? ::
          t.byIndex[i].peer in t.peers && t.peers[t.byIndex[i].peer].pending == Some(i))
  }

  lemma PendingsOf(t: Table)
    requires Agrees(t)
    ensures Pendings(t)
  {
    hide Accounts, Sessions, AllUntaken;
    forall p | p in t.peers ensures ListOk(t, p) {}
    forall i | i in t.byIndex ensures EntryOk(t, i) {}
  }

  lemma FailOnlyPending(t: Table, p: nat)
    requires Pendings(t)
    ensures OnlyPending(t, FailPending(t, p))
  {}

  lemma FailKeeps(t: Table, p: nat)
    requires Agrees(t)
    ensures Agrees(FailPending(t, p)) && (Rostered(t) ==> Rostered(FailPending(t, p))) && (Few(t) ==> Few(FailPending(t, p)))
  {
    hide Agrees, Few, OnlyPending, Pendings;
    PendingsOf(t);
    FailOnlyPending(t, p);
    PendingKeeps(t, FailPending(t, p));
  }

  lemma {:induction false} NothingFrom(us: seq<Untaken>, p: nat, s: nat)
    ensures (forall k | 0 <= k < |us| :: us[k].peer != p) ==> SizeFrom(us, p) == 0 && CountFrom(us, p) == 0
    ensures (forall k | 0 <= k < |us| :: us[k].session != s) ==> HeldOn(us, s) == 0
  {
    if us != [] {
      assert forall k | 0 <= k < |us[1..]| :: us[1..][k] == us[k + 1];
      NothingFrom(us[1..], p, s);
    }
  }

  /** A peer not known yet has left nothing here. */
  lemma Unknown(t: Table, p: nat)
    requires Agrees(t)
    ensures p !in t.peers ==> SizeFrom(t.untaken, p) == 0 && CountFrom(t.untaken, p) == 0
  {
    hide Lists, Accounts, Index, Sessions;
    if p !in t.peers {
      forall k | 0 <= k < |t.untaken| ensures t.untaken[k].peer != p {
        assert UntakenOk(t, t.untaken[k]);
      }
      NothingFrom(t.untaken, p, 0);
    }
  }

  lemma InitiateOnlyPending(t: Table, p: nat, i: nat, sent: bool)
    requires Pendings(t) && Unused(t, i)
    ensures OnlyPending(t, Initiate(t, p, i, sent))
  {}

  lemma InitiateKeeps(t: Table, p: nat, i: nat, sent: bool)
    requires Agrees(t) && Unused(t, i)
    ensures var t1 := Initiate(t, p, i, sent);
            Agrees(t1) && (Rostered(t) ==> Rostered(t1)) && (Few(t) ==> Few(t1))
  {
    hide Agrees, Few, OnlyPending, Pendings;
    PendingsOf(t);
    InitiateOnlyPending(t, p, i, sent);
    PendingKeeps(t, Initiate(t, p, i, sent));
  }

  lemma NoPartials(sessions: map<nat, Session>)
    ensures Partials(sessions, []) == 0
  {}

  // ---- A new session ----

  lemma EnlistLists(t: Table, s: nat, p: nat, i: nat)
    requires Agrees(t) && s !in t.sessions && Unused(t, i)
    ensures Lists(Enlist(t, s, p, i))
  {
    hide Accounts, Index, Sessions, AllUntaken, Distinct;
    var t1 := Enlist(t, s, p, i);
    forall p' | p' in t1.peers ensures ListOk(t1, p') {
      if p' in t.peers {
        assert ListOk(t, p');
      }
      if p' == p {
        Enlists(t, t1, s, p, i);
      }
    }
  }

  lemma Enlists(t: Table, t1: Table, s: nat, p: nat, i: nat)
    requires s !in t.sessions && Unused(t, i) && t1 == Enlist(t, s, p, i) && (p in t.peers ==> ListOk(t, p))
    ensures p in t1.peers && ListOk(t1, p)
  {
    var list := PeerOf(t, p).sessions;
    assert s !in list;
    assert Distinct(list + [s]);
  }

  lemma EnlistAccounts(t: Table, s: nat, p: nat, i: nat)
    requires Agrees(t) && s !in t.sessions
    ensures Accounts(Enlist(t, s, p, i))
  {
    hide Index, Sessions, AllUntaken, Partials, SizeFrom, CountFrom;
    var t1 := Enlist(t, s, p, i);
    Unknown(t, p);
    NoPartials(t.sessions);
    PartialsAppend(t1.sessions, PeerOf(t, p).sessions, s);
    forall p' | p' in t1.peers ensures AccountOk(t1, p') {
      if p' in t.peers {
        assert AccountOk(t, p') && ListOk(t, p');
        PartialsSame(t.sessions, t1.sessions, t.peers[p'].sessions);
      } else {
        PartialsSame(t.sessions, t1.sessions, []);
      }
    }
  }

  lemma EnlistIndex(t: Table, s: nat, p: nat, i: nat)
    requires Agrees(t) && s !in t.sessions && Unused(t, i)
    ensures Index(Enlist(t, s, p, i)) && AllUntaken(Enlist(t, s, p, i))
  {
    hide Accounts, Lists, Sessions, HeldOn;
    var t1 := Enlist(t, s, p, i);
    forall i' | i' in t1.byIndex ensures EntryOk(t1, i') {
      if i' != i {
        assert EntryOk(t, i');
      }
    }
    forall k | 0 <= k < |t1.untaken| ensures UntakenOk(t1, t1.untaken[k]) {
      assert UntakenOk(t, t.untaken[k]);
    }
  }

  lemma EnlistSessions(t: Table, s: nat, p: nat, i: nat)
    requires Agrees(t) && s !in t.sessions && Unused(t, i)
    ensures Sessions(Enlist(t, s, p, i))
  {
    hide Accounts, Lists, Index, HeldOn;
    var t1 := Enlist(t, s, p, i);
    forall k | 0 <= k < |t.untaken| ensures t.untaken[k].session != s {
      assert UntakenOk(t, t.untaken[k]);
    }
    NothingFrom(t.untaken, p, s);
    forall s' | s' in t1.sessions ensures SessionOk(t1, s') {
      if s' != s {
        assert SessionOk(t, s');
      }
    }
  }

  lemma AdoptKeeps(t: Table, s: nat, p: nat, i: nat)
    requires Agrees(t) && Rostered(t) && Few(t) && s !in t.sessions && Unused(t, i) && p in t.roster
    ensures var t1 := Adopt(t, s, p, i);
            && Agrees(t1) && Rostered(t1) && Few(t1)
            && IsLive(t1, s) && PeerOf(t1, p).current == Some(s)
  {
    hide Lists, Accounts, Index, Sessions, AllUntaken;
    var t1 := Enlist(t, s, p, i);
    EnlistLists(t, s, p, i);
    EnlistAccounts(t, s, p, i);
    EnlistIndex(t, s, p, i);
    EnlistSessions(t, s, p, i);
    if |t1.peers[p].sessions| > MAX_SESSIONS {
      Trimmed(t1, p, s);
    }
  }

  /**
    The list adopting leaves: the new session comes last and is current, the first of eight others makes room, and
    no other session starts or ends.
   */
  lemma AdoptList(t: Table, s: nat, p: nat, i: nat)
    requires Agrees(t) && Few(t) && s !in t.sessions
    ensures var list, t1 := PeerOf(t, p).sessions, Adopt(t, s, p, i);
            && PeerOf(t1, p).sessions == (if |list| < MAX_SESSIONS then list else list[1..]) + [s]
            && PeerOf(t1, p).current == Some(s)
            && (forall k | k in t.sessions :: IsLive(t1, k) <==> IsLive(t, k) && !(|list| == MAX_SESSIONS && k == list[0]))
            && (forall q | q != p :: PeerOf(t1, q) == PeerOf(t, q))
  {
    hide Accounts, Index, Sessions, AllUntaken;
    var list := PeerOf(t, p).sessions;
    if |list| == MAX_SESSIONS {
      assert ListOk(t, p) && IsLive(t, list[0]);
      assert Less(list + [s], list[0]) == list[1..] + [s];
    }
  }

  /** The trim ends one session, and not the one just adopted. */
  lemma Trimmed(t: Table, p: nat, s: nat)
    requires Agrees(t) && Rostered(t) && p in t.peers && |t.peers[p].sessions| == MAX_SESSIONS + 1
    requires t.peers[p].current == Some(s) && forall p' | p' in t.peers && p' != p :: |t.peers[p'].sessions| <= MAX_SESSIONS
    ensures var t1 := EndSession(t, Oldest(t.peers[p]));
            Agrees(t1) && Rostered(t1) && Few(t1) && IsLive(t1, s) && PeerOf(t1, p).current == Some(s)
  {
    hide Accounts, Index, Sessions, AllUntaken;
    var ps := t.peers[p];
    var o := Oldest(ps);
    assert ListOk(t, p);
    assert o in ps.sessions && o != s && IsLive(t, o) && t.sessions[o].peer == p;
    EndKeeps(t, o);
    EndRostered(t, o);
    assert s in ps.sessions;
  }

  lemma OnInitKeeps(t: Table, from: nat, i: nat, s: nat)
    requires Agrees(t) && Rostered(t) && Few(t)
    ensures var t1 := OnInit(t, from, i, s);
            Agrees(t1) && Rostered(t1) && Few(t1)
  {
    hide Agrees, Rostered, Few, Adopt;
    if from in t.roster && Unused(t, i) && s !in t.sessions {
      AdoptKeeps(t, s, from, i);
    }
  }

  /** The answered handshake's index passes to the session it made. */
  lemma Passes(t: Table, from: nat, i: nat, s: nat)
    requires i in t.byIndex && t.byIndex[i] == Awaiting(from) && from in t.peers && t.peers[from].pending == Some(i)
    ensures Adopt(t.(peers := t.peers[from := PeerOf(t, from).(pending := None)]), s, from, i) == Adopt(FailPending(t, from), s, from, i)
  {
    hide EndSession;
    var t0, t1 := t.(peers := t.peers[from := PeerOf(t, from).(pending := None)]), FailPending(t, from);
    assert t0.byIndex[i := Live(s)] == t1.byIndex[i := Live(s)];
    assert Enlist(t0, s, from, i) == Enlist(t1, s, from, i);
  }

  lemma OnRespKeeps(t: Table, from: nat, i: nat, answer: Answer)
    requires Agrees(t) && Rostered(t) && Few(t)
    ensures var t1 := OnResp(t, from, i, answer);
            Agrees(t1) && Rostered(t1) && Few(t1)
  {
    hide Agrees, Rostered, Few, Adopt;
    if i in t.byIndex && t.byIndex[i] == Awaiting(from) {
      PendingsOf(t);
      FailKeeps(t, from);
      if answer.Readable? && from in t.roster && answer.session !in t.sessions {
        Passes(t, from, i, answer.session);
        AdoptKeeps(FailPending(t, from), answer.session, from, i);
      }
    }
  }

  // ---- Fragments and releases ----

  lemma MoreAccounts(t: Table, s: nat, n: nat)
    requires Agrees(t) && IsLive(t, s) && PeerOf(t, t.sessions[s].peer).buffered + n <= BufferLimit(t.window)
    ensures var t1 := t.(sessions := t.sessions[s := t.sessions[s].(partial := t.sessions[s].partial + n)],
                         peers := t.peers[t.sessions[s].peer := PeerOf(t, t.sessions[s].peer).(buffered := PeerOf(t, t.sessions[s].peer).buffered + n)]);
            Accounts(t1)
  {
    hide Index, AllUntaken, Partials, SizeFrom, CountFrom, HeldOn;
    var x := t.sessions[s];
    assert SessionOk(t, s);
    var sessions := t.sessions[s := x.(partial := x.partial + n)];
    var t1 := t.(sessions := sessions, peers := t.peers[x.peer := PeerOf(t, x.peer).(buffered := PeerOf(t, x.peer).buffered + n)]);
    forall p | p in t1.peers ensures AccountOk(t1, p) {
      assert AccountOk(t, p) && ListOk(t, p);
      PartialsChange(t.sessions, s, sessions[s], t.peers[p].sessions);
    }
  }

  lemma WholeAccounts(t: Table, s: nat, n: nat)
    requires Agrees(t) && IsLive(t, s) && PeerOf(t, t.sessions[s].peer).buffered + n <= BufferLimit(t.window)
    requires PeerOf(t, t.sessions[s].peer).heldCount < MAX_HELD && t.sessions[s].partial + n <= MAX_MESSAGE
    ensures Accounts(OnFragment(t, s, false, n, true))
  {
    hide Index, AllUntaken, Partials, SizeFrom, CountFrom, HeldOn;
    var x := t.sessions[s];
    assert SessionOk(t, s);
    var t1 := OnFragment(t, s, false, n, true);
    forall p | p in t1.peers ensures AccountOk(t1, p) {
      assert AccountOk(t, p) && ListOk(t, p);
      PartialsChange(t.sessions, s, t1.sessions[s], t.peers[p].sessions);
      UntakenAppend(t.untaken, Untaken(s, x.peer, x.partial + n), p, s);
    }
  }

  /** A change to what sessions and peers hold, and not to who they are. */
  ghost predicate SameShape(t: Table, t1: Table) {
    && t1.byIndex == t.byIndex && t1.roster == t.roster && t1.window == t.window && t1.leaving == t.leaving
    && t1.peers.Keys == t.peers.Keys && t1.sessions.Keys == t.sessions.Keys
    && (forall p | p in t.peers :: t1.peers[p] == t.peers[p].(buffered := t1.peers[p].buffered, heldCount := t1.peers[p].heldCount))
    && (forall s | s in t.sessions :: t1.sessions[s] == t.sessions[s].(partial := t1.sessions[s].partial, held := t1.sessions[s].held))
  }

  lemma SameShapeKeeps(t: Table, t1: Table)
    requires Agrees(t) && SameShape(t, t1)
    ensures Lists(t1) && Index(t1) && (Rostered(t) ==> Rostered(t1)) && (Few(t) ==> Few(t1))
    ensures forall u | UntakenOk(t, u) :: UntakenOk(t1, u)
  {
    hide Accounts, Sessions, AllUntaken;
    forall p | p in t1.peers ensures ListOk(t1, p) {
      assert ListOk(t, p);
    }
    forall i | i in t1.byIndex ensures EntryOk(t1, i) {
      assert EntryOk(t, i);
    }
  }

  lemma FragmentSessions(t: Table, s: nat, more: bool, n: nat, within: bool)
    requires Agrees(t) && IsLive(t, s)
    ensures var t1 := OnFragment(t, s, more, n, within);
            t1 == EndSession(t, s) || (SameShape(t, t1) && Sessions(t1))
  {
    hide Accounts, Lists, Index, AllUntaken, HeldOn, EndSession;
    var t1, x := OnFragment(t, s, more, n, within), t.sessions[s];
    assert SessionOk(t, s);
    if t1 != EndSession(t, s) {
      forall s' | s' in t1.sessions ensures SessionOk(t1, s') {
        assert SessionOk(t, s');
        UntakenAppend(t.untaken, Untaken(s, x.peer, x.partial + n), x.peer, s');
      }
    }
  }

  lemma FragmentUntaken(t: Table, s: nat, more: bool, n: nat, within: bool)
    requires Agrees(t) && IsLive(t, s)
    ensures var t1 := OnFragment(t, s, more, n, within);
            t1 == EndSession(t, s) || AllUntaken(t1)
  {
    hide Accounts, Lists, Index, HeldOn, EndSession;
    var t1 := OnFragment(t, s, more, n, within);
    assert SessionOk(t, s);
    if t1 != EndSession(t, s) {
      forall k | 0 <= k < |t1.untaken| ensures UntakenOk(t1, t1.untaken[k]) {
        if k < |t.untaken| {
          assert UntakenOk(t, t.untaken[k]);
        }
      }
    }
  }

  lemma FragmentKeeps(t: Table, s: nat, more: bool, n: nat, within: bool)
    requires Agrees(t) && Rostered(t) && Few(t) && IsLive(t, s)
    ensures var t1 := OnFragment(t, s, more, n, within);
            Agrees(t1) && Rostered(t1) && Few(t1)
  {
    hide Accounts, Lists, Index, Sessions, AllUntaken, Rostered, Few, EndSession, SameShape;
    var t1 := OnFragment(t, s, more, n, within);
    EndKeeps(t, s);
    if t1 != EndSession(t, s) {
      FragmentSessions(t, s, more, n, within);
      FragmentUntaken(t, s, more, n, within);
      SameShapeKeeps(t, t1);
      if more {
        MoreAccounts(t, s, n);
      } else {
        WholeAccounts(t, s, n);
      }
    }
  }

  lemma ReleaseSessions(t: Table, k: nat)
    requires Agrees(t) && k < |t.untaken| && UntakenOk(t, t.untaken[k])
    ensures var t1 := Release(t, k);
            SameShape(t, t1) && Sessions(t1) && AllUntaken(t1)
  {
    hide Accounts, Lists, Index, HeldOn, Without;
    var t1 := Release(t, k);
    forall s | s in t1.sessions ensures SessionOk(t1, s) {
      assert SessionOk(t, s);
      UntakenWithout(t.untaken, k, 0, s);
    }
    assert AllUntaken(t1) by { OthersUntaken(t, t1, k); }
  }

  lemma OthersUntaken(t: Table, t1: Table, k: nat)
    requires AllUntaken(t) && k < |t.untaken| && t1.untaken == Without(t.untaken, k)
    requires forall u | UntakenOk(t, u) :: UntakenOk(t1, u)
    ensures AllUntaken(t1)
  {
    forall j | 0 <= j < |t1.untaken| ensures UntakenOk(t1, t1.untaken[j]) {
      assert t1.untaken[j] == t.untaken[if j < k then j else j + 1];
    }
  }

  lemma ReleaseAccounts(t: Table, k: nat)
    requires Agrees(t) && k < |t.untaken| && UntakenOk(t, t.untaken[k])
    ensures Accounts(Release(t, k))
  {
    hide Index, AllUntaken, Partials, SizeFrom, CountFrom, HeldOn, Without;
    var t1 := Release(t, k);
    forall p | p in t1.peers ensures AccountOk(t1, p) {
      assert AccountOk(t, p) && ListOk(t, p);
      PartialsChange(t.sessions, t.untaken[k].session, t1.sessions[t.untaken[k].session], t.peers[p].sessions);
      UntakenWithout(t.untaken, k, p, 0);
    }
  }

  /** A release is safe whenever it comes, also after its session ended. */
  lemma ReleaseKeeps(t: Table, k: nat)
    requires Agrees(t) && k < |t.untaken|
    ensures UntakenOk(t, t.untaken[k])
    ensures Agrees(Release(t, k)) && (Rostered(t) ==> Rostered(Release(t, k))) && (Few(t) ==> Few(Release(t, k)))
  {
    hide Accounts, Lists, Index, Sessions, Rostered, Few, SameShape, Release;
    assert UntakenOk(t, t.untaken[k]);
    ReleaseSessions(t, k);
    ReleaseAccounts(t, k);
    SameShapeKeeps(t, Release(t, k));
  }

  // ---- Forgetting a peer ----

  lemma {:induction false} SomethingFrom(us: seq<Untaken>, k: nat)
    requires k < |us|
    ensures CountFrom(us, us[k].peer) > 0
  {
    if k > 0 {
      SomethingFrom(us[1..], k - 1);
    }
  }

  /** A peer with no session, no handshake and nothing untaken can be forgotten without stranding anything. */
  lemma ForgetKeeps(t: Table, p: nat)
    requires Agrees(t) && p in t.peers && t.peers[p].sessions == [] && t.peers[p].pending.None? && t.peers[p].heldCount == 0
    ensures Agrees(t.(peers := t.peers - {p}))
  {
    hide Partials, SizeFrom, CountFrom, HeldOn;
    var t1 := t.(peers := t.peers - {p});
    assert AccountOk(t, p);
    forall p' | p' in t1.peers ensures ListOk(t1, p') && AccountOk(t1, p') {
      assert ListOk(t, p') && AccountOk(t, p');
    }
    forall i | i in t1.byIndex ensures EntryOk(t1, i) {
      assert EntryOk(t, i);
    }
    forall s | s in t1.sessions ensures SessionOk(t1, s) {
      assert SessionOk(t, s);
    }
    forall k | 0 <= k < |t1.untaken| ensures UntakenOk(t1, t1.untaken[k]) {
      assert UntakenOk(t, t.untaken[k]);
      SomethingFrom(t.untaken, k);
    }
  }
}
