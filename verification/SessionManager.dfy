/**
  The session manager's table methods as they run (client-go/sessions.go): loops over lists and maps, with the
  pump that endSession ends in, which may begin rekeys and end further sessions before they go on.
 */
module SessionManager {

  import opened Basics
  import opened SessionTable
  import opened SessionRuns

  /** Later states as endings and rekeys make them; `starts` says that handshakes may begin. */
  ghost predicate Shrinks(t: Table, t1: Table, starts: bool) {
    && t1.roster == t.roster && t1.untaken == t.untaken && t1.window == t.window
    && (forall p | p in t.peers :: p in t1.peers)
    && (forall p | p in t1.peers :: |t1.peers[p].sessions| <= |PeerOf(t, p).sessions|)
    && (forall s | s in t.sessions :: s in t1.sessions)
    && (forall s | s in t1.sessions ::
          s in t.sessions && t1.sessions[s].peer == t.sessions[s].peer && t1.sessions[s].local == t.sessions[s].local
          && (t.sessions[s].ended ==> t1.sessions[s].ended))
    && (forall p | p in t1.peers ::
          t1.peers[p].pending.None? || (starts && p in t.roster) || (p in t.peers && t.peers[p].pending == t1.peers[p].pending))
  }

  lemma ShrinksTwice(t: Table, t1: Table, t2: Table, starts: bool)
    requires Shrinks(t, t1, starts) && Shrinks(t1, t2, starts)
    ensures Shrinks(t, t2, starts)
  {}

  lemma EndShrinks(t: Table, s: nat)
    ensures Shrinks(t, EndSession(t, s), false) && !IsLive(EndSession(t, s), s)
  {
    if IsLive(t, s) {
      Shorter(PeerOf(t, t.sessions[s].peer).sessions, s);
    }
  }

  lemma {:induction false} Shorter(list: seq<nat>, s: nat)
    ensures |Less(list, s)| <= |list|
  {
    if list != [] {
      Shorter(list[1..], s);
    }
  }

  lemma PeersStay(t: Table, t1: Table, starts: bool)
    requires Shrinks(t, t1, starts)
    ensures forall p | p in t.peers :: p in t1.peers
    ensures t1.roster == t.roster && t1.untaken == t.untaken
  {}

  lemma FailShrinks(t: Table, p: nat)
    ensures Shrinks(t, FailPending(t, p), false) && PeerOf(FailPending(t, p), p).pending.None?
  {}

  lemma InitiateShrinks(t: Table, p: nat, i: nat, sent: bool)
    requires Unused(t, i)
    ensures Shrinks(t, Initiate(t, p, i, sent), sent)
  {}

  lemma Unchanged(t: Table, starts: bool)
    ensures Shrinks(t, t, starts)
  {}

  lemma NoOldPending(t: Table, t1: Table, p: nat, starts: bool)
    requires Shrinks(t, t1, starts) && PeerOf(t, p).pending.None?
    ensures PeerOf(t1, p).pending.Some? ==> starts && p in t.roster
  {}

  lemma Weaker(t: Table, t1: Table)
    requires Shrinks(t, t1, false)
    ensures Shrinks(t, t1, true)
  {}

  /** Once all sessions a peer had are ended, it has none. */
  lemma NoneLeft(t: Table, t1: Table, p: nat, starts: bool)
    requires Inv(t) && Inv(t1) && Shrinks(t, t1, starts) && p in t1.peers
    requires forall k | 0 <= k < |PeerOf(t, p).sessions| :: !IsLive(t1, PeerOf(t, p).sessions[k])
    ensures t1.peers[p].sessions == []
  {
    hide Inv, Shrinks;
    if t1.peers[p].sessions != [] {
      WasListed(t, t1, p, starts);
    }
  }

  /** A session still listed was listed before. */
  lemma WasListed(t: Table, t1: Table, p: nat, starts: bool)
    requires Inv(t) && Inv(t1) && Shrinks(t, t1, starts) && p in t1.peers && t1.peers[p].sessions != []
    ensures IsLive(t1, t1.peers[p].sessions[0]) && t1.peers[p].sessions[0] in PeerOf(t, p).sessions
  {
    hide Accounts, Index, AllUntaken;
    assert ListOk(t1, p);
    assert SessionOk(t, t1.peers[p].sessions[0]);
  }

  /** Sessions outside `busy` are as live as they were, and as current. */
  ghost predicate Spares(t: Table, t1: Table, busy: set<nat>) {
    && (forall s | s in t.sessions && s !in busy :: s in t1.sessions && t1.sessions[s].ended == t.sessions[s].ended)
    && (forall p | p in t.peers && t.peers[p].current.Some? && t.peers[p].current.value !in busy ::
          p in t1.peers && t1.peers[p].current == t.peers[p].current)
  }

  /** No session changes, and none is listed or current that was not: at most a handshake begins. */
  ghost predicate Lasting(t: Table, t1: Table) {
    t1.sessions == t.sessions
    && forall p {:trigger PeerOf(t1, p)} :: PeerOf(t1, p).sessions == PeerOf(t, p).sessions && PeerOf(t1, p).current == PeerOf(t, p).current
  }

  lemma SameLasting(t: Table)
    ensures Lasting(t, t)
  {}

  lemma BeginLasting(t: Table, p: nat, i: nat, sent: bool)
    requires Unused(t, i)
    ensures Lasting(t, SessionTable.Initiate(t, p, i, sent))
  {}

  lemma SparesTwice(t: Table, t1: Table, t2: Table, busy: set<nat>)
    requires Spares(t, t1, busy) && Spares(t1, t2, busy)
    ensures Spares(t, t2, busy)
  {}

  lemma SparesMore(t: Table, t1: Table, busy: set<nat>, more: set<nat>)
    requires Spares(t, t1, busy) && busy <= more
    ensures Spares(t, t1, more)
  {}

  lemma EndSpares(t: Table, s: nat, busy: set<nat>)
    requires s in busy
    ensures Spares(t, SessionTable.EndSession(t, s), busy)
  {}

  lemma BeginSpares(t: Table, p: nat, i: nat, sent: bool, busy: set<nat>)
    requires Unused(t, i)
    ensures Spares(t, SessionTable.Initiate(t, p, i, sent), busy)
  {}

  lemma SparesNone(t: Table, busy: set<nat>)
    ensures Spares(t, t, busy)
  {}

  /** One more step of a run. */
  lemma Then(t: Table, steps: seq<Step>, step: Step)
    ensures Run(t, steps + [step]) == Next(Run(t, steps), step)
  {
    hide Next;
    RunMore(t, steps, [step]);
    RunOne(Run(t, steps), step);
  }

  class Manager {
    var sessions: map<nat, Session>
    var peers: map<nat, Peer>
    var byIndex: map<nat, Entry>
    var untaken: seq<Untaken>
    var roster: set<nat>
    var connected: bool
    /** The sessions with messages in the gate: those the pump may end. */
    var gated: set<nat>
    /** While a new roster is taken up, the ids off it still to be purged. */
    ghost var leaving: set<nat>
    const window: nat

    ghost function T(): Table
      reads this
    {
      Table(sessions, peers, byIndex, untaken, roster, window, leaving)
    }

    ghost predicate Valid()
      reads this
    {
      Inv(T()) && leaving == {} && gated <= sessions.Keys
    }

    constructor (window: nat, roster: set<nat>)
      ensures Valid() && T() == Empty(roster, window)
    {
      this.window, this.roster, this.connected, this.gated, this.leaving := window, roster, false, {}, {};
      sessions, peers, byIndex, untaken := map[], map[], map[], [];
    }

    /** newIndex: a local index not in use. */
    method NewIndex() returns (i: nat)
      ensures Unused(T(), i)
    {
      i := 1;
      ghost var left := byIndex.Keys;
      while i in byIndex
        invariant i > 0
        invariant forall j | j in byIndex.Keys && j >= i :: j in left
        decreases left
      {
        left := left - {i};
        i := i + 1;
      }
    }

    method FailPending(p: nat)
      modifies this`peers, this`byIndex
      ensures T() == SessionTable.FailPending(old(T()), p)
    {
      if p in peers && peers[p].pending.Some? {
        var i := peers[p].pending.value;
        peers := peers[p := peers[p].(pending := None)];
        if i in byIndex && byIndex[i] == Awaiting(p) {
          byIndex := byIndex - {i};
        }
      }
    }

    /** initiate, with the index drawn and whether its frame goes out. */
    method Begin(p: nat, i: nat, sent: bool)
      requires Unused(T(), i)
      modifies this`peers, this`byIndex
      ensures T() == SessionTable.Initiate(old(T()), p, i, sent)
    {
      if p !in roster {
        return;
      }
      if p !in peers {
        peers := peers[p := NOBODY];
      }
      if peers[p].pending.Some? {
        return;
      }
      peers, byIndex := peers[p := peers[p].(pending := Some(i))], byIndex[i := Awaiting(p)];
      if !sent {
        FailPending(p);
        assert byIndex == old(byIndex);
      }
    }

    method Initiate(p: nat) returns (ghost steps: seq<Step>)
      requires Inv(T())
      modifies this`peers, this`byIndex
      ensures T() == Run(old(T()), steps) && Inv(T())
      ensures Shrinks(old(T()), T(), connected) && Spares(old(T()), T(), gated)
      ensures Lasting(old(T()), T()) && |steps| == 1 && steps[0].Begin? && steps[0].peer == p
    {
      hide Inv, Shrinks, Spares, Lasting, SessionTable.Initiate;
      var i := NewIndex();
      var sends: bool := *;
      ghost var t := T();
      InitiateShrinks(t, p, i, sends && connected);
      BeginSpares(t, p, i, sends && connected, gated);
      BeginLasting(t, p, i, sends && connected);
      Begin(p, i, sends && connected);
      if !sends && connected {
        Weaker(t, T());
      }
      steps := [Step.Begin(p, i, sends && connected)];
      RunOne(t, steps[0]);
      RunKeeps(t, steps);
    }

    /** endSession up to its pump: the session leaves the index, its peer's list and its accounts. */
    method Unlist(s: nat)
      modifies this`sessions, this`peers, this`byIndex
      ensures T() == SessionTable.EndSession(old(T()), s)
    {
      if s !in sessions || sessions[s].ended {
        return;
      }
      var x := sessions[s];
      sessions := sessions[s := x.(ended := true)];
      if x.local in byIndex && byIndex[x.local] == Live(s) {
        byIndex := byIndex - {x.local};
      }
      if x.peer in peers {
        var ps := peers[x.peer];
        var list := Removed(ps.sessions, s);
        ps := ps.(sessions := list);
        if ps.current == Some(s) {
          ps := ps.(current := None);
        }
        peers := peers[x.peer := ps.(buffered := ps.buffered - x.partial)];
      }
      sessions := sessions[s := sessions[s].(partial := 0)];
    }

    method Removed(list: seq<nat>, s: nat) returns (r: seq<nat>)
      ensures r == Less(list, s)
    {
      var i := 0;
      while i < |list|
        invariant i <= |list|
        invariant Less(list, s) == list[..i] + Less(list[i..], s)
      {
        if list[i] == s {
          assert Less(list[i..], s) == list[i..][1..] == list[i + 1..];
          return list[..i] + list[i + 1..];
        }
        assert list[i..][1..] == list[i + 1..];
        assert list[..i + 1] == list[..i] + [list[i]];
        i := i + 1;
      }
      assert list[..i] == list && list[i..] == [];
      return list;
    }

    /** The pump, as far as the table is concerned: a message of the gate may start a rekey or end its session. */
    method Pump() returns (ghost steps: seq<Step>)
      requires Inv(T())
      modifies this`sessions, this`peers, this`byIndex
      ensures T() == Run(old(T()), steps) && Inv(T())
      ensures Shrinks(old(T()), T(), connected) && Spares(old(T()), T(), gated)
    {
      hide Inv, Shrinks, Spares, Next;
      ghost var t := T();
      Unchanged(t, connected);
      SparesNone(t, gated);
      steps := [];
      var n: int :| n >= 0;
      while n > 0
        invariant T() == Run(t, steps) && Inv(T())
        invariant Shrinks(t, T(), connected) && Spares(t, T(), gated)
      {
        ghost var t1 := T();
        var more := PumpOnce();
        ShrinksTwice(t, t1, T(), connected);
        SparesTwice(t, t1, T(), gated);
        RunMore(t, steps, more);
        steps := steps + more;
        n := n - 1;
      }
    }

    method PumpOnce() returns (ghost steps: seq<Step>)
      requires Inv(T())
      modifies this`sessions, this`peers, this`byIndex
      ensures T() == Run(old(T()), steps) && Inv(T())
      ensures Shrinks(old(T()), T(), connected) && Spares(old(T()), T(), gated)
    {
      hide Inv, Shrinks, Spares, SessionTable.EndSession;
      var begins: bool := *;
      if begins || gated == {} {
        var p: int :| p >= 0;
        steps := Initiate(p);
        return;
      }
      var k :| k in gated;
      ghost var t := T();
      EndShrinks(t, k);
      EndSpares(t, k, gated);
      Unlist(k);
      if connected {
        Weaker(t, T());
      }
      steps := [End(k)];
      RunOne(t, End(k));
      RunKeeps(t, steps);
    }

    method EndSession(s: nat) returns (ghost steps: seq<Step>)
      requires Inv(SessionTable.EndSession(T(), s))
      modifies this`sessions, this`peers, this`byIndex
      ensures T() == Run(SessionTable.EndSession(old(T()), s), steps) && Inv(T())
      ensures Shrinks(SessionTable.EndSession(old(T()), s), T(), connected)
      ensures Shrinks(old(T()), T(), connected) && Spares(old(T()), T(), gated + {s}) && !IsLive(T(), s)
    {
      hide Inv, Shrinks, Spares, SessionTable.EndSession;
      ghost var t := T();
      EndShrinks(t, s);
      EndSpares(t, s, gated + {s});
      Unlist(s);
      ghost var t1 := T();
      if connected {
        Weaker(t, t1);
      }
      steps := Pump();
      SparesMore(t1, T(), gated, gated + {s});
      SparesTwice(t, t1, T(), gated + {s});
      ShrinksTwice(t, t1, T(), connected);
      StaysEnded(t1, T(), s, connected);
    }

    /** A session ended between two others, as the loops below do. */
    method EndOne(s: nat) returns (ghost steps: seq<Step>)
      requires Inv(T())
      modifies this`sessions, this`peers, this`byIndex
      ensures T() == Run(old(T()), steps) && Inv(T())
      ensures Shrinks(old(T()), T(), connected) && !IsLive(T(), s)
    {
      hide Inv, Shrinks, Spares, SessionTable.EndSession;
      ghost var t := T();
      NextKeeps(t, End(s));
      steps := EndSession(s);
      RunOne(t, End(s));
      RunMore(t, [End(s)], steps);
      steps := [End(s)] + steps;
    }

    /** onReset: of a copy of the peer's list, the sessions whose remote index was reset end. */
    method OnReset(p: nat, hit: set<nat>) returns (ghost steps: seq<Step>)
      requires Valid()
      modifies this`sessions, this`peers, this`byIndex
      ensures Valid() && T() == Run(old(T()), steps)
      ensures Shrinks(old(T()), T(), connected)
      ensures forall s | s in hit && IsLive(old(T()), s) && sessions[s].peer == p :: s in sessions && sessions[s].ended
    {
      hide Inv, Shrinks, Next;
      ghost var t := T();
      Unchanged(t, connected);
      OnList(t, p);
      steps := [];
      if p !in peers {
        return;
      }
      var list, k := peers[p].sessions, 0;
      while k < |list|
        invariant k <= |list| && Inv(T()) && T() == Run(t, steps) && Shrinks(t, T(), connected)
        invariant forall j | 0 <= j < k && list[j] in hit :: !IsLive(T(), list[j])
      {
        if list[k] in hit {
          ghost var t1 := T();
          var more := EndOne(list[k]);
          StayEnded(t1, T(), connected);
          ShrinksTwice(t, t1, T(), connected);
          RunMore(t, steps, more);
          steps := steps + more;
        }
        k := k + 1;
      }
      SessionsStay(t, T(), connected);
    }

    /**
      ensureSession, as far as the table goes: a session that has not expired is used, and a rekey may begin beside it;
      an expired one ends unless a message crosses it; without one to use, a handshake begins.
     */
    method EnsureSession(p: nat, expired: bool, crossing: bool, rekey: bool) returns (ghost steps: seq<Step>)
      requires Valid()
      modifies this`sessions, this`peers, this`byIndex
      ensures Valid() && T() == Run(old(T()), steps) && Shrinks(old(T()), T(), connected)
      ensures var cur := PeerOf(old(T()), p).current;
              && (cur.Some? && expired && !crossing ==> !IsLive(T(), cur.value))
              && (cur.None? || !expired || crossing ==> Lasting(old(T()), T()))
              && (cur.Some? && !expired && !rekey ==> T() == old(T()))
              && (cur.None? || expired || rekey ==> steps != [] && steps[|steps| - 1].Begin? && steps[|steps| - 1].peer == p)
    {
      hide Inv, Shrinks, Spares, Next, Lasting;
      ghost var t := T();
      Unchanged(t, connected);
      SessionsStay(t, t, connected);
      SameLasting(t);
      steps := [];
      if p in peers && peers[p].current.Some? && !expired && !rekey {
        return;
      }
      if p in peers && peers[p].current.Some? && expired && !crossing {
        steps := EndOne(peers[p].current.value);
      }
      ghost var t1 := T();
      var more := Initiate(p);
      StayEnded(t1, T(), connected);
      ShrinksTwice(t, t1, T(), connected);
      RunMore(t, steps, more);
      steps := steps + more;
      SessionsStay(t, T(), connected);
    }

    /** Every session a peer has, and its handshake, end: onUnreachable, onRefused, and the loops below. */
    method Purge(p: nat) returns (ghost steps: seq<Step>)
      requires Inv(T())
      modifies this`sessions, this`peers, this`byIndex
      ensures T() == Run(old(T()), steps) && Inv(T())
      ensures Shrinks(old(T()), T(), connected)
      ensures PeerOf(T(), p).sessions == [] && (PeerOf(T(), p).pending.Some? ==> connected && p in roster)
    {
      hide Inv, Shrinks, SessionTable.FailPending, SessionTable.EndSession;
      ghost var t := T();
      Unchanged(t, connected);
      steps := [];
      if p !in peers {
        return;
      }
      NextKeeps(t, Fail(p));
      FailShrinks(t, p);
      FailPending(p);
      steps := [Fail(p)];
      RunOne(t, Fail(p));
      ghost var t1 := T();
      if connected {
        Weaker(t, t1);
      }
      PeersStay(t, t1, connected);
      Unchanged(t1, connected);
      var list, k := peers[p].sessions, 0;
      while k < |list|
        invariant k <= |list| && Inv(T()) && T() == Run(t, steps)
        invariant Shrinks(t1, T(), connected)
        invariant forall j | 0 <= j < k :: !IsLive(T(), list[j])
      {
        ghost var t2 := T();
        var more := EndOne(list[k]);
        StayEnded(t2, T(), connected);
        ShrinksTwice(t1, t2, T(), connected);
        RunMore(t, steps, more);
        steps := steps + more;
        k := k + 1;
      }
      PeersStay(t1, T(), connected);
      NoneLeft(t1, T(), p, connected);
      NoOldPending(t1, T(), p, connected);
      ShrinksTwice(t, t1, T(), connected);
    }

    /** dropAll: the peers are visited in any order. Off the relay, no session and no handshake is left. */
    method DropAll() returns (ghost steps: seq<Step>)
      requires Valid()
      modifies this`sessions, this`peers, this`byIndex
      ensures Valid() && T() == Run(old(T()), steps)
      ensures forall p | p in old(peers) :: PeerOf(T(), p).sessions == []
      ensures !connected ==> forall p | p in peers :: peers[p].sessions == [] && peers[p].pending.None?
      ensures !connected ==> forall s | s in sessions :: sessions[s].ended
    {
      hide Inv, Shrinks, Next;
      ghost var t := T();
      Unchanged(t, connected);
      steps := [];
      var todo := peers.Keys;
      while todo != {}
        invariant Inv(T()) && todo <= t.peers.Keys && T() == Run(t, steps)
        invariant Shrinks(t, T(), connected)
        invariant forall p | p in t.peers && p !in todo ::
                    PeerOf(T(), p).sessions == [] && (!connected ==> PeerOf(T(), p).pending.None?)
        decreases todo
      {
        var p :| p in todo;
        ghost var t1 := T();
        var more := Purge(p);
        RunMore(t, steps, more);
        steps := steps + more;
        ShrinksTwice(t, t1, T(), connected);
        Stays(t, t1, T(), connected);
        todo := todo - {p};
      }
      PeersStay(t, T(), connected);
      SessionsStay(t, T(), connected);
      if !connected {
        AllGone(t, T());
      }
    }

    /** A peer off the new roster loses all it has, and leaves. */
    method PurgeOff(p: nat) returns (ghost steps: seq<Step>)
      requires Inv(T()) && p !in roster
      modifies this`sessions, this`peers, this`byIndex, this`leaving
      ensures T() == Run(old(T()), steps) && Inv(T()) && leaving == old(leaving) - {p}
      ensures Shrinks(old(T()), T(), connected) && !Engaged(T(), p)
    {
      hide Inv, Shrinks, Run;
      ghost var t := T();
      steps := Purge(p);
      ghost var t1 := T();
      NextKeeps(t1, Gone(p));
      Then(t, steps, Gone(p));
      ShrinksAside(t, t1, leaving - {p}, connected);
      steps, leaving := steps + [Gone(p)], leaving - {p};
    }

    /** rosterChanged, once the roster is replaced: nothing is left with an id off it. */
    method RosterChanged(next: set<nat>) returns (ghost steps: seq<Step>)
      requires Valid()
      modifies this`sessions, this`peers, this`byIndex, this`roster, this`leaving
      ensures Valid() && roster == next && T() == Run(old(T()), steps)
      ensures forall p | p in old(peers) && p !in next :: !Engaged(T(), p)
      ensures forall s | s in sessions && !sessions[s].ended :: s in old(sessions) && sessions[s].peer in next
    {
      hide Inv, Shrinks, Engaged, Run;
      ghost var t0 := T();
      steps := [Roster(next)];
      NextKeeps(t0, Roster(next));
      RunOne(t0, Roster(next));
      roster := next;
      leaving := set p | p in peers && p !in next;
      ghost var t := T();
      Unchanged(t, connected);
      var todo := peers.Keys;
      while todo != {}
        invariant Inv(T()) && todo <= t.peers.Keys && T() == Run(t0, steps)
        invariant Shrinks(t, T(), connected) && roster == next && forall p | p in leaving :: p in todo && p !in next
        invariant forall p | p in t.peers && p !in todo && p !in next :: !Engaged(T(), p)
        decreases todo
      {
        var p :| p in todo;
        ghost var t1 := T();
        if p !in roster {
          var more := PurgeOff(p);
          RunMore(t0, steps, more);
          steps := steps + more;
          ShrinksTwice(t, t1, T(), connected);
          StaysOff(t, t1, T(), connected);
        }
        todo := todo - {p};
      }
      SessionsStay(t, T(), connected);
      OnRoster(t, T(), connected);
    }

    /** sweep: sessions end or rekey as their times say; a peer off the roster that holds nothing is forgotten. */
    method Sweep() returns (ghost steps: seq<Step>)
      requires Valid()
      modifies this`sessions, this`peers, this`byIndex
      ensures Valid() && roster == old(roster) && untaken == old(untaken) && T() == Run(old(T()), steps)
      ensures forall p | p in old(peers) && p !in peers :: p !in roster
    {
      hide Inv, Shrinks;
      ghost var t := T();
      steps := [];
      var todo := peers.Keys;
      while todo != {}
        invariant Valid() && todo <= t.peers.Keys && T() == Run(t, steps)
        invariant forall p | p in todo :: p in peers
        invariant forall p | p in t.peers && p !in peers :: p !in roster
        decreases todo
      {
        var p :| p in todo;
        ghost var t1 := T();
        var more := SweepPeer(p);
        PeersStay(t1, T(), connected);
        SessionsStay(t1, T(), connected);
        RunMore(t, steps, more);
        steps := steps + more;
        var queued: bool := *;
        var ps := peers[p];
        if ps.sessions == [] && ps.pending.None? && !queued && ps.heldCount == 0 && p !in roster {
          NextKeeps(T(), Forget(p));
          Then(t, steps, Forget(p));
          steps := steps + [Forget(p)];
          peers := peers - {p};
        }
        todo := todo - {p};
      }
    }

    method SweepPeer(p: nat) returns (ghost steps: seq<Step>)
      requires Inv(T()) && p in peers
      modifies this`sessions, this`peers, this`byIndex
      ensures T() == Run(old(T()), steps) && Inv(T()) && Shrinks(old(T()), T(), connected)
    {
      hide Inv, Shrinks, Spares, Next;
      ghost var t := T();
      Unchanged(t, connected);
      steps := [];
      var list, k := peers[p].sessions, 0;
      while k < |list|
        invariant k <= |list| && Inv(T()) && T() == Run(t, steps) && Shrinks(t, T(), connected)
      {
        ghost var t1 := T();
        ghost var more: seq<Step> := [];
        var ends: bool, rekeys: bool := *, *;
        if ends {
          more := EndOne(list[k]);
        } else if rekeys {
          more := Initiate(p);
        } else {
          Unchanged(t1, connected);
        }
        ShrinksTwice(t, t1, T(), connected);
        RunMore(t, steps, more);
        steps := steps + more;
        k := k + 1;
      }
    }

    /** adopt: the new session is current and live, and the oldest other makes room for it. */
    method Adopt(s: nat, p: nat, i: nat) returns (ghost steps: seq<Step>)
      requires Inv(T()) && gated <= sessions.Keys && s !in sessions && Unused(T(), i) && p in roster
      modifies this`sessions, this`peers, this`byIndex
      ensures T() == Run(SessionTable.Adopt(old(T()), s, p, i), steps) && Inv(T())
      ensures Shrinks(Enlist(old(T()), s, p, i), T(), connected)
      ensures IsLive(T(), s) && p in peers && peers[p].current == Some(s)
    {
      hide Agrees, Few, Rostered, Shrinks, Spares, Enlist, SessionTable.EndSession;
      ghost var t0, t := T(), Enlist(T(), s, p, i);
      AdoptKeeps(t0, s, p, i);
      EnlistIs(t0, s, p, i);
      EnlistFew(t0, s, p, i);
      sessions, byIndex := sessions[s := Session(p, i, false, 0, 0)], byIndex[i := Live(s)];
      if p !in peers {
        peers := peers[p := NOBODY];
      }
      peers := peers[p := peers[p].(sessions := peers[p].sessions + [s], current := Some(s))];
      assert T() == t;
      steps := [];
      Unchanged(t, connected);
      while |peers[p].sessions| > MAX_SESSIONS
        invariant p in peers && Shrinks(t, T(), connected) && IsLive(T(), s) && peers[p].current == Some(s)
        invariant if |peers[p].sessions| > MAX_SESSIONS then T() == t && steps == []
                  else T() == Run(SessionTable.Adopt(t0, s, p, i), steps) && Inv(T())
        decreases |peers[p].sessions|
      {
        var oldest := peers[p].sessions[0];
        if peers[p].current == Some(oldest) {
          oldest := peers[p].sessions[1];
        }
        assert oldest == Oldest(peers[p]) && oldest != s by { NewIsLast(t0, s, p, i); }
        steps := EndSession(oldest);
        PeersStay(t, T(), connected);
        StillCurrent(t, T(), gated + {oldest}, s, p);
        FewLeft(T(), p);
      }
    }

    /** onInit, once the init is found good: its sender is on the roster. */
    method OnInit(from: nat, s: nat) returns (ghost steps: seq<Step>)
      requires Valid() && s !in sessions
      modifies this`sessions, this`peers, this`byIndex
      ensures Valid() && T() == Run(old(T()), steps)
      ensures from in roster ==> IsLive(T(), s) && sessions[s].peer == from && peers[from].current == Some(s)
      ensures from !in roster ==> T() == old(T())
    {
      hide Inv, Shrinks, SessionTable.Adopt;
      steps := [];
      if from !in roster {
        return;
      }
      ghost var t := T();
      var i := NewIndex();
      steps := Adopt(s, from, i);
      AfterAdopt(t, T(), s, from, i, connected);
      RunOne(t, Init(from, i, s));
      RunMore(t, [Init(from, i, s)], steps);
      steps := [Init(from, i, s)] + steps;
    }

    /** onResp: the handshake's index passes to the session it made, or the handshake fails. */
    method OnResp(from: nat, i: nat, answer: Answer) returns (ghost steps: seq<Step>)
      requires Valid() && (answer.Readable? ==> answer.session !in sessions)
      modifies this`sessions, this`peers, this`byIndex
      ensures Valid() && T() == Run(old(T()), steps)
      ensures i !in old(byIndex) || old(byIndex)[i] != Awaiting(from) ==> T() == old(T())
      ensures i in old(byIndex) && old(byIndex)[i] == Awaiting(from) ==>
                if answer.Readable? && from in roster
                then IsLive(T(), answer.session) && sessions[answer.session].peer == from && sessions[answer.session].local == i
                     && peers[from].current == Some(answer.session)
                else T() == SessionTable.FailPending(old(T()), from) && i !in byIndex && PeerOf(T(), from).pending.None?
    {
      hide Inv, Shrinks, SessionTable.FailPending, SessionTable.Adopt;
      steps := [];
      if i !in byIndex || byIndex[i] != Awaiting(from) {
        return;
      }
      ghost var t := T();
      NextKeeps(t, Fail(from));
      AnswersOwn(t, from, i);
      FailPending(from);
      RunOne(t, Resp(from, i, answer));
      if answer.Unreadable? || from !in roster {
        steps := [Resp(from, i, answer)];
        return;
      }
      Passes(t, from, i, answer.session);
      ghost var t1 := T();
      steps := Adopt(answer.session, from, i);
      AfterAdopt(t1, T(), answer.session, from, i, connected);
      RunMore(t, [Resp(from, i, answer)], steps);
      steps := [Resp(from, i, answer)] + steps;
    }

    method OnFragment(s: nat, more: bool, n: nat, within: bool) returns (ghost steps: seq<Step>)
      requires Valid() && IsLive(T(), s)
      modifies this`sessions, this`peers, this`byIndex, this`untaken
      ensures Valid() && T() == Run(SessionTable.OnFragment(old(T()), s, more, n, within), steps)
      ensures Shrinks(SessionTable.OnFragment(old(T()), s, more, n, within), T(), connected)
    {
      hide Inv, Shrinks, Spares, SessionTable.EndSession;
      ghost var t := T();
      NextKeeps(t, Fragment(s, more, n, within));
      var x := sessions[s];
      assert x.peer in peers by { HasPeer(t, s); }
      var ps := peers[x.peer];
      steps := [];
      if (more && n == 0) || !within || x.partial + n > MAX_MESSAGE || ps.buffered + n > BufferLimit(window)
         || (!more && ps.heldCount >= MAX_HELD) {
        steps := EndSession(s);
        SessionsStay(t, T(), connected);
        return;
      }
      x, ps := x.(partial := x.partial + n), ps.(buffered := ps.buffered + n);
      if !more {
        untaken := untaken + [Untaken(s, x.peer, x.partial)];
        x, ps := x.(partial := 0, held := x.held + 1), ps.(heldCount := ps.heldCount + 1);
      }
      sessions, peers := sessions[s := x], peers[x.peer := ps];
      assert T() == SessionTable.OnFragment(t, s, more, n, within);
      Unchanged(T(), connected);
    }

    /** The application takes a message: its bytes leave the accounts, whether or not its session still lives. */
    method Release(k: nat)
      requires Valid() && k < |untaken|
      modifies this`sessions, this`peers, this`untaken
      ensures Valid() && UntakenOk(old(T()), old(untaken)[k]) && T() == SessionTable.Release(old(T()), k)
    {
      hide Agrees, Few, Rostered;
      ReleaseKeeps(T(), k);
      var u := untaken[k];
      sessions := sessions[u.session := sessions[u.session].(held := sessions[u.session].held - 1)];
      peers := peers[u.peer := peers[u.peer].(buffered := peers[u.peer].buffered - u.size, heldCount := peers[u.peer].heldCount - 1)];
      untaken := Without(untaken, k);
    }
  }

  lemma HasPeer(t: Table, s: nat)
    requires Inv(t) && IsLive(t, s)
    ensures t.sessions[s].peer in t.peers
  {
    assert SessionOk(t, s);
  }

  lemma StaysEnded(t: Table, t1: Table, s: nat, starts: bool)
    requires Shrinks(t, t1, starts) && !IsLive(t, s)
    ensures !IsLive(t1, s)
  {}

  lemma StayEnded(t: Table, t1: Table, starts: bool)
    requires Shrinks(t, t1, starts)
    ensures forall s | !IsLive(t, s) :: !IsLive(t1, s)
  {}

  lemma SessionsStay(t: Table, t1: Table, starts: bool)
    requires Shrinks(t, t1, starts)
    ensures t1.sessions.Keys == t.sessions.Keys
    ensures forall s | s in t.sessions :: t1.sessions[s].peer == t.sessions[s].peer && (t.sessions[s].ended ==> t1.sessions[s].ended)
  {}

  /** A peer's live sessions are those on its list. */
  lemma OnList(t: Table, p: nat)
    requires Inv(t)
    ensures forall s | IsLive(t, s) && t.sessions[s].peer == p :: p in t.peers && s in t.peers[p].sessions
  {
    hide Lists, Accounts, Index, AllUntaken, Few, Rostered;
    forall s | IsLive(t, s) && t.sessions[s].peer == p ensures p in t.peers && s in t.peers[p].sessions {
      assert SessionOk(t, s);
    }
  }

  lemma ShrinksAside(t: Table, t1: Table, leaving: set<nat>, starts: bool)
    requires Shrinks(t, t1, starts)
    ensures Shrinks(t, t1.(leaving := leaving), starts)
  {}

  lemma EnlistFew(t: Table, s: nat, p: nat, i: nat)
    requires Inv(t)
    ensures var t1 := Enlist(t, s, p, i);
            && p in t1.peers && IsLive(t1, s) && t1.peers[p].current == Some(s)
            && |t1.peers[p].sessions| <= MAX_SESSIONS + 1
  {
    hide Agrees, Rostered;
  }

  lemma NewIsLast(t: Table, s: nat, p: nat, i: nat)
    requires Inv(t) && s !in t.sessions
    ensures var ps := Enlist(t, s, p, i).peers[p];
            |ps.sessions| > MAX_SESSIONS ==> Oldest(ps) != s
  {
    hide Accounts, Index, Sessions, AllUntaken, Rostered;
    if p in t.peers {
      assert ListOk(t, p);
    }
  }

  lemma StillCurrent(t: Table, t1: Table, busy: set<nat>, s: nat, p: nat)
    requires Spares(t, t1, busy) && s !in busy && IsLive(t, s) && p in t.peers && t.peers[p].current == Some(s)
    ensures IsLive(t1, s) && p in t1.peers && t1.peers[p].current == Some(s)
  {}

  lemma FewLeft(t: Table, p: nat)
    requires Inv(t) && p in t.peers
    ensures |t.peers[p].sessions| <= MAX_SESSIONS
  {
    hide Agrees, Rostered;
  }

  /** Whose the session is that adopt made. */
  lemma AfterAdopt(t: Table, t1: Table, s: nat, p: nat, i: nat, starts: bool)
    requires Shrinks(Enlist(t, s, p, i), t1, starts) && IsLive(t1, s)
    ensures t1.sessions[s].peer == p && t1.sessions[s].local == i && t1.sessions.Keys == t.sessions.Keys + {s}
  {}

  /** An answer that is to a handshake's peer is to its pending one; failing it frees its index. */
  lemma AnswersOwn(t: Table, from: nat, i: nat)
    requires Inv(t) && i in t.byIndex && t.byIndex[i] == Awaiting(from)
    ensures from in t.peers && t.peers[from].pending == Some(i)
    ensures var t1 := SessionTable.FailPending(t, from);
            Unused(t1, i) && PeerOf(t1, from).pending.None? && t1.sessions == t.sessions && t1.roster == t.roster && t1.leaving == t.leaving
  {
    hide Agrees, Few, Rostered;
    PendingsOf(t);
  }

  lemma StaysOff(t: Table, t1: Table, t2: Table, starts: bool)
    requires Inv(t1) && Inv(t2) && Shrinks(t, t1, starts) && Shrinks(t1, t2, starts)
    ensures forall p | p in t.peers && p !in t.roster && !Engaged(t1, p) :: !Engaged(t2, p)
  {
    Stays(t, t1, t2, starts);
  }

  lemma OnRoster(t: Table, t1: Table, starts: bool)
    requires Inv(t) && Inv(t1) && Shrinks(t, t1, starts)
    requires forall p | p in t.peers && p !in t.roster :: !Engaged(t1, p)
    ensures forall s | IsLive(t1, s) :: s in t.sessions && t1.sessions[s].peer in t.roster
  {
    hide Accounts, Index, AllUntaken;
    forall s | IsLive(t1, s) ensures s in t.sessions && t1.sessions[s].peer in t.roster {
      assert SessionOk(t1, s) && SessionOk(t, s);
    }
  }

  lemma EnlistIs(t: Table, s: nat, p: nat, i: nat)
    ensures Enlist(t, s, p, i) == t.(sessions := t.sessions[s := Session(p, i, false, 0, 0)], byIndex := t.byIndex[i := Live(s)],
              peers := t.peers[p := PeerOf(t, p).(sessions := PeerOf(t, p).sessions + [s], current := Some(s))])
  {}

  /** What has been emptied stays so. */
  lemma Stays(t: Table, t1: Table, t2: Table, starts: bool)
    requires Inv(t1) && Inv(t2) && Shrinks(t, t1, starts) && Shrinks(t1, t2, starts)
    ensures forall p | p in t.peers && PeerOf(t1, p).sessions == [] :: PeerOf(t2, p).sessions == []
    ensures !starts ==> forall p | p in t.peers && PeerOf(t1, p).pending.None? :: PeerOf(t2, p).pending.None?
  {
    forall p | p in t.peers && PeerOf(t1, p).sessions == [] ensures PeerOf(t2, p).sessions == [] {
      NoneLeft(t1, t2, p, starts);
    }
  }

  lemma AllGone(t: Table, t1: Table)
    requires Inv(t1) && Shrinks(t, t1, false)
    requires forall p | p in t.peers :: PeerOf(t1, p).sessions == [] && PeerOf(t1, p).pending.None?
    requires Inv(t)
    ensures forall p | p in t1.peers :: t1.peers[p].sessions == [] && t1.peers[p].pending.None?
    ensures forall s | s in t1.sessions :: t1.sessions[s].ended
  {
    hide Accounts, Index, AllUntaken;
    forall p | p in t1.peers ensures t1.peers[p].sessions == [] && t1.peers[p].pending.None? {
      if p !in t.peers {
        NoneLeft(t, t1, p, false);
      }
    }
    forall s | s in t1.sessions ensures t1.sessions[s].ended {
      assert SessionOk(t1, s);
    }
  }
}
