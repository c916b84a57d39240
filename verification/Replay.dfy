/**
  Replay protection of handshake inits (client-go/sessions.go, client-go/member.go): the stamps accepted from listed
  members, the stamps retained of ids that left, and the time floor for a member with none.
 */
module Replay {

  import opened Basics

  const RETAINED_CAP := 1024
  const WINDOW_MS := 10 * 60 * 1000

  // ---- The retained stamps ----

  /** The last stamps of ids that left, in the order they left. */
  datatype Retained = Retained(order: seq<nat>, stamp: map<nat, nat>)

  function Drop(r: Retained, id: nat): Retained { Retained(Less(r.order, id), r.stamp - {id}) }

  function Trim(r: Retained): Retained
    decreases |r.order|
  {
    if |r.order| <= RETAINED_CAP then r else Trim(Retained(r.order[1..], r.stamp - {r.order[0]}))
  }

  function Put(r: Retained, id: nat, s: nat): Retained {
    var r1 := if id in r.stamp then Drop(r, id) else r;
    Trim(Retained(r1.order + [id], r1.stamp[id := s]))
  }

  ghost predicate RetainedOk(r: Retained) {
    Distinct(r.order) && |r.order| <= RETAINED_CAP && forall id :: id in r.order <==> id in r.stamp
  }

  // ---- What the responder keeps ----

  datatype Keeper = Keeper(
    roster: set<nat>, stamps: map<nat, nat>, added: map<nat, int>, retained: Retained, started: int)

  function Stored(k: Keeper, id: nat): nat { if id in k.stamps then k.stamps[id] else 0 }

  function Joined(k: Keeper, id: nat): int { Max(k.started, if id in k.added then k.added[id] else 0) }

  /** The time floor, in wall time now. */
  function Floor(k: Keeper, id: nat, wall: int, mono: int): nat { Max(wall - (mono - Joined(k, id)) - WINDOW_MS, 0) }

  function LastStamp(k: Keeper, id: nat, wall: int, mono: int): nat { Max(Stored(k, id), Floor(k, id, wall, mono)) }

  predicate Accepts(k: Keeper, id: nat, stamp: nat, wall: int, mono: int) {
    stamp <= Max(wall, 0) + WINDOW_MS && stamp > LastStamp(k, id, wall, mono)
  }

  /** rosterAdded for one id the new roster lists and the old did not. */
  function AddOne(k: Keeper, id: nat, mono: int): Keeper {
    k.(added := k.added[id := mono],
       stamps := if id in k.retained.stamp then k.stamps[id := k.retained.stamp[id]] else k.stamps - {id},
       retained := if id in k.retained.stamp then Drop(k.retained, id) else k.retained)
  }

  function AddAll(k: Keeper, next: seq<nat>, mono: int): Keeper
    decreases |next|
  {
    if next == [] then k
    else AddAll(if next[0] in k.roster then k else AddOne(k, next[0], mono), next[1..], mono)
  }

  /** rosterChanged for one id that left and has a stamp. */
  function LeaveOne(k: Keeper, id: nat): Keeper
    requires id in k.stamps
  {
    k.(stamps := k.stamps - {id}, retained := Put(k.retained, id, k.stamps[id]))
  }

  // ---- What happened ----

  /** An init accepted, an id leaving with a stamp, and a retained stamp pushed out. */
  datatype Event = Accepted(id: nat, stamp: nat) | Left(id: nat) | Lost(id: nat)

  datatype History = History(k: Keeper, log: seq<Event>)

  /** The ids that left after `id` last did, since an init of it was last accepted. */
  function Crowd(log: seq<Event>, id: nat): set<nat> {
    if log == [] then {}
    else
      var e := log[|log| - 1];
      if (e.Left? || e.Accepted?) && e.id == id then {}
      else Crowd(log[..|log| - 1], id) + if e.Left? then {e.id} else {}
  }

  /** The last stamp accepted from `id`, unless it has been pushed out since. */
  function Latest(log: seq<Event>, id: nat): Option<nat> {
    if log == [] then None
    else
      var e := log[|log| - 1];
      if e.Accepted? && e.id == id then Some(e.stamp)
      else if e == Lost(id) then None
      else Latest(log[..|log| - 1], id)
  }

  /** The id Put pushes out, if any. */
  function PushedOut(r: Retained, id: nat): Option<nat> {
    if id !in r.stamp && |r.order| >= RETAINED_CAP then Some(r.order[0]) else None
  }

  function Leave(h: History, id: nat): History
    requires id in h.k.stamps
  {
    var out := PushedOut(h.k.retained, id);
    History(LeaveOne(h.k, id), h.log + [Left(id)] + if out.Some? then [Lost(out.value)] else [])
  }

  function LeaveAll(h: History, order: seq<nat>): History
    decreases |order|
  {
    if order == [] then h
    else LeaveAll(if order[0] in h.k.stamps && order[0] !in h.k.roster then Leave(h, order[0]) else h, order[1..])
  }

  datatype Step =
    | Init(id: nat, stamp: nat, wall: int, mono: int)
    | Roster(next: seq<nat>, mono: int, order: seq<nat>)   // `order` is how the stamps of those who left are met

  /** adoptRoster: those added, then the new roster, then those who left. */
  function Adopted(h: History, next: seq<nat>, mono: int, order: seq<nat>): History {
    var k := AddAll(h.k, next, mono).(roster := set id | id in next);
    LeaveAll(h.(k := k.(added := map id | id in k.added && id in next :: k.added[id])), order)
  }

  function Next(h: History, step: Step): History {
    match step
    case Init(id, stamp, wall, mono) =>
      if id in h.k.roster && Accepts(h.k, id, stamp, wall, mono)
      then History(h.k.(stamps := h.k.stamps[id := stamp]), h.log + [Accepted(id, stamp)]) else h
    case Roster(next, mono, order) =>
      if Distinct(next) && forall id | id in h.k.stamps && id !in next :: id in order then Adopted(h, next, mono, order) else h
  }

  function Run(h: History, steps: seq<Step>): History
    decreases |steps|
  {
    if steps == [] then h else Run(Next(h, steps[0]), steps[1..])
  }

  function Begin(roster: set<nat>, started: int): History {
    History(Keeper(roster, map[], map[], Retained([], map[]), started), [])
  }

  // ---- What every step keeps ----

  /** Every stamp that counts is kept, live or retained. */
  ghost predicate Remembers(h: History) {
    forall id | Latest(h.log, id).Some? ::
      || (id in h.k.stamps && h.k.stamps[id] == Latest(h.log, id).value)
      || (id in h.k.retained.stamp && h.k.retained.stamp[id] == Latest(h.log, id).value)
  }

  /** Those behind an id in the retained order left after it. */
  ghost predicate Ordered(h: History) {
    var order := h.k.retained.order;
    forall i, j | 0 <= i < j < |order| :: order[j] in Crowd(h.log, order[i])
  }

  ghost predicate LogOk(log: seq<Event>) {
    forall m | 0 <= m < |log| :: EventOk(log[..m], log[m])
  }

  /** An accepted stamp exceeds the last that counts; a stamp is pushed out only by 1024 others that left after it. */
  predicate EventOk(before: seq<Event>, e: Event) {
    match e
    case Accepted(id, stamp) => Latest(before, id).Some? ==> stamp > Latest(before, id).value
    case Left(_) => true
    case Lost(id) => |Crowd(before, id)| >= RETAINED_CAP
  }

  ghost predicate KeeperOk(k: Keeper) {
    && RetainedOk(k.retained)
    && (forall id | id in k.stamps :: id !in k.retained.stamp)
  }

  /** Stamps are of listed members, and retained stamps of others. */
  ghost predicate Listed(k: Keeper) {
    && (forall id | id in k.stamps :: id in k.roster)
    && (forall id | id in k.retained.stamp :: id !in k.roster)
    && (forall id | id in k.added :: id in k.roster)
  }

  ghost predicate Kept(h: History) { KeeperOk(h.k) && Remembers(h) && Ordered(h) && LogOk(h.log) }

  ghost predicate Inv(h: History) { Kept(h) && Listed(h.k) }

  // ---- Lists and logs ----

  /** Where Less takes its element out. */
  lemma {:induction false} LessAt(s: seq<nat>, x: nat) returns (p: nat)
    requires x in s
    ensures p < |s| && s[p] == x && Less(s, x) == s[..p] + s[p + 1..]
  {
    hide Less;
    LessHead(s, x);
    if s[0] == x {
      p := 0;
      assert s[..0] + s[1..] == s[1..];
    } else {
      var q := LessAt(s[1..], x);
      p := q + 1;
      Splice(s, q);
    }
  }

  lemma LessHead(s: seq<nat>, x: nat)
    requires s != []
    ensures Less(s, x) == if s[0] == x then s[1..] else [s[0]] + Less(s[1..], x)
  {}

  lemma Splice(s: seq<nat>, q: nat)
    requires q + 1 < |s|
    ensures [s[0]] + (s[1..][..q] + s[1..][q + 1..]) == s[..q + 1] + s[q + 2..]
  {}

  lemma {:induction false} ManyDistinct(s: seq<nat>, t: set<nat>)
    requires Distinct(s) && forall i | 0 <= i < |s| :: s[i] in t
    ensures |t| >= |s|
  {
    if s != [] {
      assert forall i | 0 <= i < |s[1..]| :: s[1..][i] == s[i + 1];
      ManyDistinct(s[1..], t - {s[0]});
    }
  }

  lemma LogAppend(log: seq<Event>, e: Event, id: nat)
    ensures Crowd(log + [e], id) == if (e.Left? || e.Accepted?) && e.id == id then {} else Crowd(log, id) + if e.Left? then {e.id} else {}
    ensures Latest(log + [e], id) == if e.Accepted? && e.id == id then Some(e.stamp) else if e == Lost(id) then None else Latest(log, id)
  {
    assert (log + [e])[..|log|] == log;
  }

  lemma LogGrows(log: seq<Event>, e: Event)
    requires LogOk(log) && EventOk(log, e)
    ensures LogOk(log + [e])
  {
    var log1 := log + [e];
    forall m | 0 <= m < |log1| ensures EventOk(log1[..m], log1[m]) {
      if m < |log| {
        assert log1[..m] == log[..m];
      } else {
        assert log1[..m] == log;
      }
    }
  }

  // ---- An id leaves ----

  lemma PutShape(r: Retained, id: nat, s: nat)
    requires RetainedOk(r) && id !in r.stamp
    ensures Put(r, id, s)
         == if |r.order| < RETAINED_CAP then Retained(r.order + [id], r.stamp[id := s])
            else Retained(r.order[1..] + [id], r.stamp[id := s] - {r.order[0]})
  {
    if |r.order| == RETAINED_CAP {
      var r1 := Retained(r.order + [id], r.stamp[id := s]);
      var r2 := Retained(r.order[1..] + [id], r.stamp[id := s] - {r.order[0]});
      assert r1.order[1..] == r2.order && r1.order[0] == r.order[0];
      assert Trim(r1) == Trim(r2) == r2;
    }
  }

  lemma PutKeeps(r: Retained, id: nat, s: nat)
    requires RetainedOk(r) && id !in r.stamp
    ensures RetainedOk(Put(r, id, s)) && id in Put(r, id, s).stamp && Put(r, id, s).stamp[id] == s
    ensures forall x | x in Put(r, id, s).stamp && x != id :: x in r.stamp && Put(r, id, s).stamp[x] == r.stamp[x]
    ensures forall x | x in r.stamp && PushedOut(r, id) != Some(x) :: x in Put(r, id, s).stamp
  {
    hide Put;
    PutShape(r, id, s);
    assert id !in r.order;
  }

  lemma LeaveRemembers(h: History, id: nat)
    requires KeeperOk(h.k) && Remembers(h) && id in h.k.stamps
    ensures Remembers(Leave(h, id))
  {
    hide Put;
    var h1 := Leave(h, id);
    var out := PushedOut(h.k.retained, id);
    PutKeeps(h.k.retained, id, h.k.stamps[id]);
    forall x | Latest(h1.log, x).Some?
      ensures (x in h1.k.stamps && h1.k.stamps[x] == Latest(h1.log, x).value)
           || (x in h1.k.retained.stamp && h1.k.retained.stamp[x] == Latest(h1.log, x).value)
    {
      LogAppend(h.log, Left(id), x);
      if out.Some? {
        LogAppend(h.log + [Left(id)], Lost(out.value), x);
      } else {
        assert h1.log == h.log + [Left(id)];
      }
    }
  }

  /** Who is behind whom once `id` has left. */
  lemma LeaveOrdered(h: History, id: nat)
    requires KeeperOk(h.k) && Ordered(h) && id in h.k.stamps
    ensures var log := h.log + [Left(id)];
            var order := h.k.retained.order + [id];
            forall i, j | 0 <= i < j < |order| :: order[j] in Crowd(log, order[i])
  {
    hide Crowd;
    var order := h.k.retained.order + [id];
    forall i, j | 0 <= i < j < |order| ensures order[j] in Crowd(h.log + [Left(id)], order[i]) {
      assert order[i] in h.k.retained.order;
      LogAppend(h.log, Left(id), order[i]);
    }
  }

  /** The first is pushed out only when 1024 others have left after it. */
  lemma LeavePushes(h: History, id: nat)
    requires KeeperOk(h.k) && Ordered(h) && LogOk(h.log) && id in h.k.stamps && |h.k.retained.order| == RETAINED_CAP
    ensures var order, log1 := h.k.retained.order, h.log + [Left(id)] + [Lost(h.k.retained.order[0])];
            var rest := order[1..] + [id];
            && LogOk(log1) && forall i, j | 0 <= i < j < |rest| :: rest[j] in Crowd(log1, rest[i])
  {
    hide Crowd, Latest;
    var log, order := h.log + [Left(id)], h.k.retained.order;
    var all, rest := order + [id], order[1..] + [id];
    LeaveOrdered(h, id);
    LogGrows(h.log, Left(id));
    forall j | 0 <= j < |rest| ensures rest[j] == all[j + 1] && rest[j] in Crowd(log, all[0]) {}
    assert Distinct(rest);
    ManyDistinct(rest, Crowd(log, all[0]));
    LogGrows(log, Lost(order[0]));
    forall i, j | 0 <= i < j < |rest| ensures rest[j] in Crowd(log + [Lost(order[0])], rest[i]) {
      assert all[j + 1] in Crowd(log, all[i + 1]);
      LogAppend(log, Lost(order[0]), rest[i]);
    }
  }

  lemma LeaveKeeps(h: History, id: nat)
    requires Kept(h) && id in h.k.stamps
    ensures Kept(Leave(h, id))
  {
    hide Put, Remembers, Crowd, Latest, LogOk;
    var h1, order := Leave(h, id), h.k.retained.order;
    LeaveRemembers(h, id);
    PutKeeps(h.k.retained, id, h.k.stamps[id]);
    PutShape(h.k.retained, id, h.k.stamps[id]);
    if |order| == RETAINED_CAP {
      LeavePushes(h, id);
    } else {
      LeaveOrdered(h, id);
      LogGrows(h.log, Left(id));
      assert h1.log == h.log + [Left(id)];
    }
  }

  // ---- An id comes back ----

  lemma AddOrdered(h: History, id: nat, mono: int)
    requires RetainedOk(h.k.retained) && Ordered(h) && id in h.k.retained.stamp
    ensures Ordered(h.(k := AddOne(h.k, id, mono)))
  {
    hide Crowd, Less;
    var order := h.k.retained.order;
    var p := LessAt(order, id);
    var order1 := Less(order, id);
    forall i, j | 0 <= i < j < |order1| ensures order1[j] in Crowd(h.log, order1[i]) {
      assert order1[i] == order[if i < p then i else i + 1] && order1[j] == order[if j < p then j else j + 1];
    }
  }

  lemma AddKeeps(h: History, id: nat, mono: int)
    requires Kept(h) && id !in h.k.stamps
    ensures Kept(h.(k := AddOne(h.k, id, mono)))
    ensures id !in AddOne(h.k, id, mono).retained.stamp
  {
    hide Crowd, Latest, LogOk, Less, Ordered, RetainedOk;
    var h1 := h.(k := AddOne(h.k, id, mono));
    if id in h.k.retained.stamp {
      AddOrdered(h, id, mono);
      DropKeeps(h.k.retained, id);
    } else {
      assert h1.k.stamps == h.k.stamps;
      assert Ordered(h1) by { SameOrder(h, h1); }
    }
  }

  lemma SameOrder(h: History, h1: History)
    requires Ordered(h) && h1.log == h.log && h1.k.retained == h.k.retained
    ensures Ordered(h1)
  {}

  lemma DropKeeps(r: Retained, id: nat)
    requires RetainedOk(r) && id in r.stamp
    ensures RetainedOk(Drop(r, id))
  {
    hide Less;
    var p := LessAt(r.order, id);
    var order1 := Less(r.order, id);
    forall i, j | 0 <= i < j < |order1| ensures order1[i] != order1[j] {
      assert order1[i] == r.order[if i < p then i else i + 1] && order1[j] == r.order[if j < p then j else j + 1];
    }
    forall x ensures x in order1 <==> x in r.order && x != id {
      InLess(r.order, p, x);
    }
  }

  /** A duplicate-free list without the element at `p`. */
  lemma InLess(s: seq<nat>, p: nat, x: nat)
    requires Distinct(s) && p < |s|
    ensures x in s[..p] + s[p + 1..] <==> x in s && x != s[p]
  {
    if x in s && x != s[p] {
      var i :| 0 <= i < |s| && s[i] == x;
      assert i < p ==> s[..p][i] == x;
      assert i > p ==> s[p + 1..][i - p - 1] == x;
    }
  }

  // ---- Whole steps ----

  lemma {:induction false} AddAllKeeps(h: History, next: seq<nat>, mono: int)
    requires Kept(h) && Distinct(next) && forall i | 0 <= i < |next| :: next[i] !in h.k.roster ==> next[i] !in h.k.stamps
    ensures var k := AddAll(h.k, next, mono);
            && Kept(h.(k := k)) && k.roster == h.k.roster
            && (forall id | id in k.stamps :: id in h.k.stamps || id in next)
            && (forall id | id in k.retained.stamp :: id in h.k.retained.stamp && (id in h.k.roster || id !in next))
            && (forall id | id in k.added :: id in h.k.added || id in next)
    decreases |next|
  {
    hide Kept, KeeperOk;
    if next != [] {
      var id := next[0];
      var h1 := if id in h.k.roster then h else h.(k := AddOne(h.k, id, mono));
      if id !in h.k.roster {
        AddKeeps(h, id, mono);
      }
      forall i | 0 <= i < |next[1..]| ensures next[1..][i] !in h1.k.roster ==> next[1..][i] !in h1.k.stamps {
        assert next[1..][i] == next[i + 1] && next[i + 1] != id;
      }
      AddAllKeeps(h1, next[1..], mono);
    }
  }

  lemma {:induction false} LeaveAllKeeps(h: History, order: seq<nat>)
    requires Kept(h) && (forall id | id in h.k.retained.stamp :: id !in h.k.roster)
    requires forall id | id in h.k.stamps && id !in h.k.roster :: id in order
    ensures var h1 := LeaveAll(h, order);
            && Kept(h1) && h1.k.roster == h.k.roster && h1.k.added == h.k.added
            && (forall id | id in h1.k.stamps :: id in h.k.roster)
            && (forall id | id in h1.k.retained.stamp :: id !in h.k.roster)
    decreases |order|
  {
    hide KeeperOk, Remembers, Ordered, LogOk, Put;
    if order != [] {
      var id := order[0];
      if id in h.k.stamps && id !in h.k.roster {
        LeaveKeeps(h, id);
        assert forall x | x in Leave(h, id).k.retained.stamp :: x !in h.k.roster by {
          assert KeeperOk(h.k);
          NotRetained(h, id);
          PutKeeps(h.k.retained, id, h.k.stamps[id]);
        }
        LeaveAllKeeps(Leave(h, id), order[1..]);
      } else {
        LeaveAllKeeps(h, order[1..]);
      }
    }
  }

  lemma NotRetained(h: History, id: nat)
    requires Kept(h) && id in h.k.stamps
    ensures RetainedOk(h.k.retained) && id !in h.k.retained.stamp
  {}

  lemma RosterKeeps(h: History, next: seq<nat>, mono: int, order: seq<nat>)
    requires Inv(h) && Distinct(next) && forall id | id in h.k.stamps && id !in next :: id in order
    ensures Inv(Adopted(h, next, mono, order))
  {
    hide AddAll, LeaveAll;
    AddAllKeeps(h, next, mono);
    var k := AddAll(h.k, next, mono).(roster := set id | id in next);
    var h1 := h.(k := k.(added := map id | id in k.added && id in next :: k.added[id]));
    assert Kept(h1) by { SameKept(h.(k := AddAll(h.k, next, mono)), h1); }
    LeaveAllKeeps(h1, order);
  }

  /** Only the stamps matter to what is kept. */
  lemma SameKept(h: History, h1: History)
    requires Kept(h) && h1.log == h.log && h1.k.retained == h.k.retained && h1.k.stamps == h.k.stamps
    ensures Kept(h1)
  {
    hide Crowd, Latest, LogOk, RetainedOk;
  }

  lemma InitKeeps(h: History, id: nat, stamp: nat, wall: int, mono: int)
    requires Inv(h) && id in h.k.roster && Accepts(h.k, id, stamp, wall, mono)
    ensures Inv(Next(h, Init(id, stamp, wall, mono)))
  {
    hide Crowd, Latest, RetainedOk, LogOk, Floor;
    var h1, e := Next(h, Init(id, stamp, wall, mono)), Accepted(id, stamp);
    assert EventOk(h.log, e);
    LogGrows(h.log, e);
    var order := h.k.retained.order;
    forall x | Latest(h1.log, x).Some?
      ensures (x in h1.k.stamps && h1.k.stamps[x] == Latest(h1.log, x).value)
           || (x in h1.k.retained.stamp && h1.k.retained.stamp[x] == Latest(h1.log, x).value)
    {
      LogAppend(h.log, e, x);
    }
    forall i, j | 0 <= i < j < |order| ensures order[j] in Crowd(h1.log, order[i]) {
      LogAppend(h.log, e, order[i]);
      assert order[i] in h.k.retained.stamp by { assert RetainedOk(h.k.retained); Names(h.k.retained, i); }
    }
  }

  lemma Names(r: Retained, i: nat)
    requires RetainedOk(r) && i < |r.order|
    ensures r.order[i] in r.stamp
  {}

  lemma {:induction false} RunKeeps(h: History, steps: seq<Step>)
    requires Inv(h)
    ensures Inv(Run(h, steps))
    decreases |steps|
  {
    hide Inv, Accepts, Adopted;
    if steps != [] {
      match steps[0] {
        case Init(id, stamp, wall, mono) =>
          if id in h.k.roster && Accepts(h.k, id, stamp, wall, mono) {
            InitKeeps(h, id, stamp, wall, mono);
          }
        case Roster(next, mono, order) =>
          if Distinct(next) && forall id | id in h.k.stamps && id !in next :: id in order {
            RosterKeeps(h, next, mono, order);
          }
      }
      RunKeeps(Next(h, steps[0]), steps[1..]);
    }
  }

  // ---- No replay ----

  /** The ids other than `id` that left during a part of the log. */
  function Leavers(log: seq<Event>, id: nat): set<nat> {
    set m | 0 <= m < |log| && log[m].Left? && log[m].id != id :: log[m].id
  }

  /** Since `id` was accepted at `i`, only leavers since then crowd its stamp. */
  lemma {:induction false} CrowdAfter(log: seq<Event>, i: nat, id: nat)
    requires i < |log| && log[i].Accepted? && log[i].id == id
    ensures Crowd(log, id) <= Leavers(log[i + 1..], id)
    decreases |log|
  {
    var e, init := log[|log| - 1], log[..|log| - 1];
    if i < |log| - 1 && !((e.Left? || e.Accepted?) && e.id == id) {
      assert init[i] == log[i];
      CrowdAfter(init, i, id);
      var here, before := log[i + 1..], init[i + 1..];
      assert here == before + [e];
      forall x | x in Crowd(log, id) ensures x in Leavers(here, id) {
        if x in Leavers(before, id) {
          var m :| 0 <= m < |before| && before[m].Left? && before[m].id != id && before[m].id == x;
          assert here[m] == before[m];
        } else {
          assert here[|before|] == e;
        }
      }
    }
  }

  lemma LeaversGrow(log: seq<Event>, i: nat, m: nat, j: nat, id: nat)
    requires i < m <= j <= |log|
    ensures Leavers(log[i + 1..m], id) <= Leavers(log[i + 1..j], id)
  {
    var short, long := log[i + 1..m], log[i + 1..j];
    forall n | 0 <= n < |short| ensures long[n] == short[n] {}
  }

  /** While fewer than 1024 others leave, what was accepted at `i` goes on counting. */
  lemma {:induction false} StillCounts(log: seq<Event>, i: nat, j: nat, id: nat)
    requires LogOk(log) && i < j <= |log| && log[i].Accepted? && log[i].id == id
    requires |Leavers(log[i + 1..j], id)| < RETAINED_CAP
    ensures Latest(log[..j], id).Some? && Latest(log[..j], id).value >= log[i].stamp
    decreases j
  {
    hide Crowd, Leavers;
    var e, m := log[j - 1], j - 1;
    assert log[..j][..m] == log[..m] && log[..j][m] == e;
    assert EventOk(log[..m], log[m]);
    if i < m {
      LeaversGrow(log, i, m, j, id);
      Smaller(Leavers(log[i + 1..m], id), Leavers(log[i + 1..j], id));
      StillCounts(log, i, m, id);
      if e == Lost(id) {
        assert log[..m][i] == log[i] && log[..m][i + 1..] == log[i + 1..m];
        CrowdAfter(log[..m], i, id);
        Smaller(Crowd(log[..m], id), Leavers(log[i + 1..m], id));
      }
    }
  }

  lemma Smaller(a: set<nat>, b: set<nat>)
    requires a <= b
    ensures |a| <= |b|
  {
    assert b == a + (b - a) && a !! (b - a);
  }

  /**
    Over any run, the stamps accepted from a member strictly increase, also across its leaving and coming back, as
    long as fewer than 1024 other ids leave in between.
   */
  lemma NoReplay(roster: set<nat>, started: int, steps: seq<Step>, i: nat, j: nat)
    requires var log := Run(Begin(roster, started), steps).log;
             && i < j < |log| && log[i].Accepted? && log[j].Accepted? && log[i].id == log[j].id
             && |Leavers(log[i + 1..j], log[i].id)| < RETAINED_CAP
    ensures var log := Run(Begin(roster, started), steps).log;
            log[i].stamp < log[j].stamp
  {
    hide Next;
    var log := Run(Begin(roster, started), steps).log;
    RunKeeps(Begin(roster, started), steps);
    StillCounts(log, i, j, log[i].id);
    assert EventOk(log[..j], log[j]);
  }

  /** In every run the retained stamps are a duplicate-free queue of at most 1024, of ids not listed. */
  lemma RetainedApart(roster: set<nat>, started: int, steps: seq<Step>)
    ensures var k := Run(Begin(roster, started), steps).k;
            && |k.retained.order| <= RETAINED_CAP && Distinct(k.retained.order)
            && (forall id :: id in k.retained.order <==> id in k.retained.stamp)
            && (forall id | id in k.retained.stamp :: id !in k.roster && id !in k.stamps)
            && (forall id | id in k.stamps :: id in k.roster)
  {
    hide Next;
    RunKeeps(Begin(roster, started), steps);
  }

  // ---- The floor ----

  /** While a member stays listed, it is known when it was added. */
  lemma {:induction false} AddedStays(h: History, steps: seq<Step>, id: nat)
    requires Inv(h) && id in h.k.roster && id in h.k.added
    requires forall m | 0 <= m < |steps| :: steps[m].Roster? ==> id in steps[m].next
    ensures var k := Run(h, steps).k;
            id in k.roster && id in k.added && k.added[id] == h.k.added[id] && k.started == h.k.started
    decreases |steps|
  {
    hide Inv, Accepts, Adopted;
    if steps != [] {
      RunKeeps(h, [steps[0]]);
      assert [steps[0]][1..] == [] && Run(h, [steps[0]]) == Next(h, steps[0]);
      if steps[0].Roster? {
        RosterStays(h, steps[0].next, steps[0].mono, steps[0].order, id);
      }
      AddedStays(Next(h, steps[0]), steps[1..], id);
    }
  }

  lemma RosterStays(h: History, next: seq<nat>, mono: int, order: seq<nat>, id: nat)
    requires id in h.k.roster && id in h.k.added && id in next
    ensures var k := Adopted(h, next, mono, order).k;
            id in k.roster && id in k.added && k.added[id] == h.k.added[id] && k.started == h.k.started
  {
    hide AddAll, LeaveAll;
    AddAllAdded(h.k, next, mono, id);
    var k := AddAll(h.k, next, mono).(roster := set id | id in next);
    LeaveAllAdded(h.(k := k.(added := map id | id in k.added && id in next :: k.added[id])), order);
  }

  lemma {:induction false} AddAllAdded(k: Keeper, next: seq<nat>, mono: int, id: nat)
    requires id in k.roster && id in k.added
    ensures var k1 := AddAll(k, next, mono);
            id in k1.added && k1.added[id] == k.added[id] && k1.started == k.started && k1.roster == k.roster
    decreases |next|
  {
    if next != [] {
      AddAllAdded(if next[0] in k.roster then k else AddOne(k, next[0], mono), next[1..], mono, id);
    }
  }

  lemma {:induction false} LeaveAllAdded(h: History, order: seq<nat>)
    ensures var k1 := LeaveAll(h, order).k;
            k1.added == h.k.added && k1.started == h.k.started && k1.roster == h.k.roster
    decreases |order|
  {
    if order != [] {
      LeaveAllAdded(if order[0] in h.k.stamps && order[0] !in h.k.roster then Leave(h, order[0]) else h, order[1..]);
    }
  }

  /**
    Whether or not its stamp was kept: nothing stamped more than W before a member was (re-)admitted is accepted
    from it, for as long as it stays listed and the wall clock keeps step with the monotonic one.
   */
  lemma FloorRefuses(h: History, steps: seq<Step>, id: nat, stamp: nat, admittedWall: int, wall: int, mono: int)
    requires Inv(h) && id in h.k.roster && id in h.k.added
    requires forall m | 0 <= m < |steps| :: steps[m].Roster? ==> id in steps[m].next
    requires wall - mono == admittedWall - h.k.added[id] && stamp <= admittedWall - WINDOW_MS
    ensures !Accepts(Run(h, steps).k, id, stamp, wall, mono)
  {
    hide Inv, Run;
    AddedStays(h, steps, id);
  }

  /** An id the roster did not list is known by the time it was added. */
  lemma {:induction false} AddAllAdds(k: Keeper, next: seq<nat>, mono: int, id: nat)
    requires id !in k.roster && id in next
    ensures var k1 := AddAll(k, next, mono);
            id in k1.added && k1.added[id] == mono && k1.roster == k.roster
    decreases |next|
  {
    if id in next[1..] {
      AddAllAdds(if next[0] in k.roster then k else AddOne(k, next[0], mono), next[1..], mono, id);
    } else {
      assert next[0] == id;
      AddAllOthers(AddOne(k, id, mono), next[1..], mono, id);
    }
  }

  lemma {:induction false} AddAllOthers(k: Keeper, next: seq<nat>, mono: int, id: nat)
    requires id in k.added && k.added[id] == mono
    ensures var k1 := AddAll(k, next, mono);
            id in k1.added && k1.added[id] == mono && k1.roster == k.roster
    decreases |next|
  {
    if next != [] {
      AddAllOthers(if next[0] in k.roster then k else AddOne(k, next[0], mono), next[1..], mono, id);
    }
  }

  lemma RosterAdds(h: History, next: seq<nat>, mono: int, order: seq<nat>, id: nat)
    requires id !in h.k.roster && id in next
    ensures var k := Adopted(h, next, mono, order).k;
            id in k.roster && id in k.added && k.added[id] == mono && k.started == h.k.started
  {
    hide AddAll, LeaveAll;
    AddAllAdds(h.k, next, mono, id);
    AddAllStarted(h.k, next, mono);
    var k := AddAll(h.k, next, mono).(roster := set id | id in next);
    LeaveAllAdded(h.(k := k.(added := map id | id in k.added && id in next :: k.added[id])), order);
  }

  lemma BeginOk(roster: set<nat>, started: int)
    ensures Inv(Begin(roster, started))
  {}

  /**
    The same over whole runs: a member admitted by a roster, at wall time `admittedWall`, is heard no more for anything
    stamped more than W before that, whatever came before and comes after, for as long as it stays listed.
   */
  lemma AdmittedFloor(roster: set<nat>, started: int, before: seq<Step>, admission: Step, after: seq<Step>, id: nat, stamp: nat, admittedWall: int, wall: int, mono: int)
    requires var h := Run(Begin(roster, started), before);
             && admission.Roster? && id !in h.k.roster && id in admission.next && Distinct(admission.next)
             && forall x | x in h.k.stamps && x !in admission.next :: x in admission.order
    requires forall m | 0 <= m < |after| :: after[m].Roster? ==> id in after[m].next
    requires wall - mono == admittedWall - admission.mono && stamp <= admittedWall - WINDOW_MS
    ensures var h := Run(Begin(roster, started), before);
            !Accepts(Run(Next(h, admission), after).k, id, stamp, wall, mono)
  {
    hide Inv, Run, Accepts, Adopted;
    var h := Run(Begin(roster, started), before);
    assert Inv(Begin(roster, started)) by { BeginOk(roster, started); }
    RunKeeps(Begin(roster, started), before);
    RosterAdds(h, admission.next, admission.mono, admission.order, id);
    RosterKeeps(h, admission.next, admission.mono, admission.order);
    FloorRefuses(Next(h, admission), after, id, stamp, admittedWall, wall, mono);
  }

  // ---- What is accepted, exactly ----

  /** What a run accepted at step `m`, if anything. */
  predicate AcceptsAt(h: History, steps: seq<Step>, m: nat) {
    m < |steps| && steps[m].Init? && Run(h, steps[..m + 1]).log != Run(h, steps[..m]).log
  }

  lemma {:induction false} RunSnoc(h: History, steps: seq<Step>, m: nat)
    requires m < |steps|
    ensures Run(h, steps[..m + 1]) == Next(Run(h, steps[..m]), steps[m])
    decreases m
  {
    hide Next;
    if m == 0 {
      assert steps[..1][1..] == [] && steps[..0] == [];
    } else {
      assert steps[..m + 1][1..] == steps[1..][..m] && steps[..m][1..] == steps[1..][..m - 1];
      RunSnoc(Next(h, steps[0]), steps[1..], m - 1);
    }
  }

  /**
    In every run an init is accepted exactly if its sender is listed, its stamp is at most W ahead of the wall clock, and
    it is above the last stamp kept and above the floor. One refused changes nothing.
   */
  lemma AcceptedExactly(roster: set<nat>, started: int, steps: seq<Step>, m: nat)
    requires m < |steps| && steps[m].Init?
    ensures var h, h1, i := Run(Begin(roster, started), steps[..m]), Run(Begin(roster, started), steps[..m + 1]), steps[m];
            var at := Max(started, if i.id in h.k.added then h.k.added[i.id] else 0);
            && (AcceptsAt(Begin(roster, started), steps, m) <==>
                i.id in h.k.roster && i.stamp <= Max(i.wall, 0) + WINDOW_MS
                && i.stamp > 0 && i.stamp > i.wall - (i.mono - at) - WINDOW_MS
                && (i.id in h.k.stamps ==> i.stamp > h.k.stamps[i.id]))
            && (if AcceptsAt(Begin(roster, started), steps, m) then h1.log == h.log + [Accepted(i.id, i.stamp)] && i.id in h1.k.stamps && h1.k.stamps[i.id] == i.stamp
                else h1 == h)
  {
    var b := Begin(roster, started);
    RunSnoc(b, steps, m);
    StartedStays(b, steps[..m]);
    hide Run;
    var h := Run(b, steps[..m]);
    assert |h.log + [Accepted(steps[m].id, steps[m].stamp)]| > |h.log|;
  }

  lemma {:induction false} StartedStays(h: History, steps: seq<Step>)
    ensures Run(h, steps).k.started == h.k.started
    decreases |steps|
  {
    hide Accepts, AddAll, LeaveAll;
    if steps != [] {
      if steps[0].Roster? {
        var k := AddAll(h.k, steps[0].next, steps[0].mono).(roster := set id | id in steps[0].next);
        AddAllStarted(h.k, steps[0].next, steps[0].mono);
        LeaveAllAdded(h.(k := k.(added := map id | id in k.added && id in steps[0].next :: k.added[id])), steps[0].order);
      }
      StartedStays(Next(h, steps[0]), steps[1..]);
    }
  }

  lemma {:induction false} AddAllStarted(k: Keeper, next: seq<nat>, mono: int)
    ensures AddAll(k, next, mono).started == k.started
    decreases |next|
  {
    if next != [] {
      AddAllStarted(if next[0] in k.roster then k else AddOne(k, next[0], mono), next[1..], mono);
    }
  }

  // ---- The sender's stamps ----

  const U64 := 0x1_0000_0000_0000_0000

  /** nextStampAfter, on unsigned 64-bit stamps and a signed wall clock. */
  function NextStampAfter(wall: int, last: nat): nat {
    if wall > 0 && wall > (last + 1) % U64 then wall else (last + 1) % U64
  }

  /** A stamp exceeds the last one sent exactly when that one was not the greatest of all. */
  lemma StampsIncrease(wall: int, last: nat)
    requires last < U64 && wall < U64 / 2
    ensures NextStampAfter(wall, last) > last <==> last < U64 - 1
    ensures last < U64 - 1 ==> NextStampAfter(wall, last) >= wall && NextStampAfter(wall, last) < U64
  {}

  /** An honest sender's next init is accepted, if its clock is less than W behind the floor's and its stamp at most W ahead. */
  lemma HonestAccepted(k: Keeper, id: nat, last: nat, senderWall: int, wall: int, mono: int)
    requires last < U64 - 1 && senderWall < U64 / 2 && Stored(k, id) <= last
    ensures var stamp := NextStampAfter(senderWall, last);
            senderWall > Floor(k, id, wall, mono) && stamp <= Max(wall, 0) + WINDOW_MS ==> Accepts(k, id, stamp, wall, mono)
  {
    StampsIncrease(senderWall, last);
  }

  // ---- As the code keeps them ----

  class Stamps {
    var roster: set<nat>
    var stamps: map<nat, nat>
    var added: map<nat, int>
    var order: seq<nat>
    var retained: map<nat, nat>
    const started: int

    function K(): Keeper
      reads this
    {
      Keeper(roster, stamps, added, Retained(order, retained), started)
    }

    constructor (roster: set<nat>, started: int)
      ensures K() == Begin(roster, started).k && Inv(History(K(), []))
    {
      this.roster, this.started := roster, started;
      stamps, added, order, retained := map[], map[], [], map[];
    }

    method DropRetained(id: nat)
      modifies this`order, this`retained
      ensures Retained(order, retained) == Drop(old(Retained(order, retained)), id)
    {
      retained := retained - {id};
      var i := 0;
      while i < |order|
        invariant i <= |order| && order == old(order) && retained == old(retained) - {id}
        invariant Less(order, id) == order[..i] + Less(order[i..], id)
      {
        if order[i] == id {
          assert Less(order[i..], id) == order[i..][1..] == order[i + 1..];
          order := order[..i] + order[i + 1..];
          return;
        }
        assert order[i..][1..] == order[i + 1..];
        assert order[..i + 1] == order[..i] + [order[i]];
        i := i + 1;
      }
      assert order[..i] == order && order[i..] == [];
    }

    method PutRetained(id: nat, s: nat)
      modifies this`order, this`retained
      ensures Retained(order, retained) == Put(old(Retained(order, retained)), id, s)
    {
      if id in retained {
        DropRetained(id);
      }
      order, retained := order + [id], retained[id := s];
      ghost var r := Retained(order, retained);
      while |order| > RETAINED_CAP
        invariant Trim(Retained(order, retained)) == Trim(r)
        decreases |order|
      {
        retained := retained - {order[0]};
        order := order[1..];
      }
    }

    /** onInit's test of a stamp: accepted only when it exceeds what is kept of the member. */
    method OnInit(id: nat, stamp: nat, wall: int, mono: int) returns (accepted: bool)
      modifies this`stamps
      ensures accepted <==> id in roster && Accepts(old(K()), id, stamp, wall, mono)
      ensures K() == if accepted then old(K()).(stamps := old(stamps)[id := stamp]) else old(K())
    {
      if id !in roster {
        return false;
      }
      var joined := Max(started, if id in added then added[id] else 0);
      var floor := Max(wall - (mono - joined) - WINDOW_MS, 0);
      var last := Max(if id in stamps then stamps[id] else 0, floor);
      if stamp > Max(wall, 0) + WINDOW_MS || stamp <= last {
        return false;
      }
      stamps := stamps[id := stamp];
      return true;
    }

    method RosterAdded(next: seq<nat>, mono: int)
      modifies this`stamps, this`added, this`order, this`retained
      ensures K() == AddAll(old(K()), next, mono)
    {
      var i := 0;
      while i < |next|
        invariant i <= |next| && AddAll(K(), next[i..], mono) == AddAll(old(K()), next, mono)
      {
        var id := next[i];
        ghost var k := K();
        if id !in roster {
          added := added[id := mono];
          if id in retained {
            var s := retained[id];
            DropRetained(id);
            stamps := stamps[id := s];
          } else {
            stamps := stamps - {id};
          }
          assert K() == AddOne(k, id, mono);
        }
        assert next[i..][0] == id && next[i..][1..] == next[i + 1..];
        i := i + 1;
      }
    }

    /** rosterChanged's loop over the stamps, in whatever order the map gives. */
    method RosterLeft(ghost log: seq<Event>) returns (ghost met: seq<nat>)
      modifies this`stamps, this`order, this`retained
      ensures forall id | id in old(stamps) && id !in roster :: id in met
      ensures K() == LeaveAll(old(History(K(), log)), met).k
    {
      hide Put, LeaveAll;
      ghost var h := History(K(), log);
      met := [];
      assert LeaveAll(h, []) == h by { LeaveNone(h); }
      var todo := stamps.Keys;
      while todo != {}
        invariant LeaveAll(h, met).k == K() && todo <= stamps.Keys
        invariant forall id | id in h.k.stamps && id !in roster && id !in todo :: id in met
        decreases todo
      {
        var id :| id in todo;
        todo := todo - {id};
        if id !in roster {
          LeaveAppend(h, met, id);
          PutRetained(id, stamps[id]);
          stamps := stamps - {id};
          met := met + [id];
        }
      }
    }

    /** adoptRoster: whatever order the stamps of those who left are met in, it is one of the steps above. */
    method AdoptRoster(next: seq<nat>, mono: int, ghost log: seq<Event>) returns (ghost met: seq<nat>)
      requires Inv(History(K(), log)) && Distinct(next)
      modifies this`roster, this`stamps, this`added, this`order, this`retained
      ensures forall id | id in old(stamps) && id !in next :: id in met
      ensures K() == Adopted(old(History(K(), log)), next, mono, met).k
      ensures Inv(Adopted(old(History(K(), log)), next, mono, met))
    {
      hide Inv, AddAll, LeaveAll;
      ghost var h := History(K(), log);
      StampsStay(h, next, mono);
      RosterAdded(next, mono);
      roster := set id | id in next;
      added := map id | id in added && id in next :: added[id];
      met := RosterLeft(log);
      RosterKeeps(h, next, mono, met);
    }
  }

  lemma LeaveNone(h: History)
    ensures LeaveAll(h, []) == h
  {}

  lemma {:induction false} LeaveAppend(h: History, met: seq<nat>, id: nat)
    ensures var h1 := LeaveAll(h, met);
            LeaveAll(h, met + [id]) == if id in h1.k.stamps && id !in h1.k.roster then Leave(h1, id) else h1
    decreases |met|
  {
    hide Leave;
    if met == [] {
      assert met + [id] == [id] && [id][1..] == [];
    } else {
      assert (met + [id])[1..] == met[1..] + [id];
      LeaveAppend(if met[0] in h.k.stamps && met[0] !in h.k.roster then Leave(h, met[0]) else h, met[1..], id);
    }
  }

  /** Those who leave keep their stamps until they are met. */
  lemma StampsStay(h: History, next: seq<nat>, mono: int)
    requires Inv(h)
    ensures forall id | id in h.k.stamps && id !in next :: id in AddAll(h.k, next, mono).stamps
  {
    forall id | id in h.k.stamps && id !in next ensures id in AddAll(h.k, next, mono).stamps {
      StampStays(h.k, next, mono, id);
    }
  }

  lemma {:induction false} StampStays(k: Keeper, next: seq<nat>, mono: int, id: nat)
    requires id in k.stamps && id !in next
    ensures id in AddAll(k, next, mono).stamps
    decreases |next|
  {
    if next != [] {
      StampStays(if next[0] in k.roster then k else AddOne(k, next[0], mono), next[1..], mono, id);
    }
  }
}
