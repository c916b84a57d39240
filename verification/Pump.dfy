/**
  The gate and the pump: which waiting fragments are handed to the socket, and what wakes those
  that are not (client-go/sessions.go).

  The relay connection, the other members and the clock are the environment: whether the socket is
  writable, whether a frame is taken, whether a cipher is exhausted and how much time passes
  between two readings of the clock are arbitrary at every point where the code looks.
 */
module Pump {
  import opened Basics
  import opened Flow

  const PACE_FLOOR: int := 65536
  const PACE_MIN_FRAGMENT: int := 16384
  const PACED_MIN_FRAGMENT: int := 1024
  const FRAME_OVERHEAD: int := 40
  const SECOND: int := 1_000_000_000

  datatype Session = Session(
    sendCredit: int, inflight: int, ended: bool, rateAt: int, rateCur: int, ratePrev: int)

  /** An outbound message in the gate, or on its way through it. */
  datatype Msg = Msg(session: nat, size: nat, off: nat, started: bool, finished: bool)

  /** What runFragment leaves to be done after the step: the message waits again, or is complete. */
  datatype Task = Regate(message: nat) | Complete(message: nat)

  // ---- Pace ----

  function PacedFragment(rateBps: int): (n: int)
    ensures PACED_MIN_FRAGMENT <= n <= MAX_FRAGMENT
  {
    if rateBps <= 0 then MAX_FRAGMENT
    else Max(PACED_MIN_FRAGMENT, Min(MAX_FRAGMENT, 7 * rateBps / 32))
  }

  function RollRate(s: Session, now: int): Session {
    var d := now - s.rateAt;
    if d >= 2 * SECOND || d < 0 then s.(ratePrev := 0, rateCur := 0, rateAt := now)
    else if d >= SECOND then s.(ratePrev := s.rateCur, rateCur := 0, rateAt := s.rateAt + SECOND)
    else s
  }

  /** About a second's worth of credit: the larger of the last second's and this one's. */
  function Credited(s: Session): int { Max(s.ratePrev, s.rateCur) }

  /** The message bytes a session may have un-credited, from its rates as last rolled. */
  function Pace(s: Session, rateBps: int): int {
    var credited := Credited(s);
    if rateBps > 0 then Max(PacedFragment(rateBps), Min(credited, rateBps / 2))
    else Max(PACE_FLOOR, 3 * credited / 2)
  }

  function FragmentSize(s: Session, m: Msg, rateBps: int): int {
    var largest := PacedFragment(rateBps);
    var room := Max(Min(PACE_MIN_FRAGMENT, largest), Pace(s, rateBps) - s.inflight);
    Min(Min(m.size - m.off, largest), Min(Max(s.sendCredit, 0), room))
  }

  /** A session's books: un-credited bytes and credit together never fall below the initial credit. */
  predicate Balanced(s: Session) {
    s.inflight >= 0 && s.rateCur >= 0 && s.ratePrev >= 0 && s.sendCredit + s.inflight >= INITIAL_CREDIT
  }

  predicate MsgOk(m: Msg) { m.off <= m.size && (m.off < m.size || m.size == 0 || m.finished) }

  /** The pump passes a message over: its session is out of credit, or over its window. */
  predicate Blocked(m: Msg, s: Session, rateBps: int) {
    (m.size > 0 && s.sendCredit <= 0) || s.inflight >= Pace(s, rateBps)
  }

  // ---- What the arithmetic guarantees ----

  /** Whatever the rates, a message passed over has un-credited bytes, whose credit will pump again. */
  lemma BlockedAwaitsCredit(m: Msg, s: Session, rateBps: int)
    requires Balanced(s) && Blocked(m, s, rateBps)
    ensures s.inflight > 0
  {}

  /**
    A fragment handed over carries at least a byte of a message that has any, stays within credit,
    and leaves the session less than one smallest fragment over the window it was checked against.
   */
  lemma FragmentBounds(m: Msg, s: Session, rateBps: int, window: int)
    requires Balanced(s) && MsgOk(m) && !m.finished
    requires (m.size > 0 ==> s.sendCredit > 0) && s.inflight < window && Pace(s, rateBps) <= window
    ensures var n := FragmentSize(s, m, rateBps);
            && 0 <= n <= m.size - m.off && (m.size > 0 ==> 1 <= n <= s.sendCredit)
            && n <= PacedFragment(rateBps)
            && s.inflight + n < window + Min(PACE_MIN_FRAGMENT, PacedFragment(rateBps))
  {}

  /** What a fragment may carry: what is left, one largest fragment, the credit, and the room under the window or one smallest fragment. */
  predicate Allowed(s: Session, m: Msg, rateBps: int, k: int) {
    && k <= m.size - m.off && k <= PacedFragment(rateBps) && (k <= 0 || k <= s.sendCredit)
    && (k <= PACE_MIN_FRAGMENT || s.inflight + k <= Pace(s, rateBps))
  }

  /** The fragment cut is the greatest allowed. */
  lemma FragmentGreatest(m: Msg, s: Session, rateBps: int, k: int)
    requires MsgOk(m)
    ensures Allowed(s, m, rateBps, k) <==> k <= FragmentSize(s, m, rateBps)
  {
    hide Pace;
  }

  /** The largest fragment: all a frame holds, or while shaped what an eighth less than the rate carries in a quarter of a second, but 1 KiB. */
  lemma PacedMeans(rateBps: int, n: int)
    ensures n <= PacedFragment(rateBps)
       <==> n <= MAX_FRAGMENT && (rateBps <= 0 || n <= PACED_MIN_FRAGMENT || 32 * n <= 7 * rateBps)
  {}

  /** The window: while shaped one fragment, or what was credited in a second up to half the rate; else 64 KiB, or one and a half times that. */
  lemma PaceMeans(s: Session, rateBps: int, w: int)
    ensures w <= Pace(s, rateBps)
       <==> if rateBps > 0 then w <= PacedFragment(rateBps) || (2 * w <= rateBps && (w <= s.ratePrev || w <= s.rateCur))
            else w <= PACE_FLOOR || 2 * w <= 3 * s.ratePrev || 2 * w <= 3 * s.rateCur
  {
    hide PacedFragment;
  }

  // ---- What was credited in the last second ----

  /** A credit: when it came, and the bytes in flight it took. */
  datatype Credit = Credit(at: int, took: nat)

  /** The bytes credited from `a` on and before `b`. */
  function Between(log: seq<Credit>, a: int, b: int): nat {
    if log == [] then 0
    else Between(log[..|log| - 1], a, b) + (var c := log[|log| - 1]; if a <= c.at < b then c.took else 0)
  }

  function OnCreditAt(s: Session, c: Credit): Session {
    var s1 := RollRate(s, c.at);
    s1.(rateCur := s1.rateCur + c.took)
  }

  /** The two counters hold what was credited in the second that began at `rateAt`, and in the one before it. */
  ghost predicate RatesOk(s: Session, log: seq<Credit>) {
    && (forall i | 0 <= i < |log| :: log[i].at < s.rateAt + SECOND)
    && s.rateCur == Between(log, s.rateAt, s.rateAt + SECOND)
    && s.ratePrev == Between(log, s.rateAt - SECOND, s.rateAt)
  }

  lemma {:induction false} NoneBetween(log: seq<Credit>, a: int, b: int)
    requires forall i | 0 <= i < |log| :: log[i].at < a
    ensures Between(log, a, b) == 0
  {
    if log != [] {
      NoneBetween(log[..|log| - 1], a, b);
    }
  }

  /** Rolling keeps the counters exact, however long the last credit is ago. */
  lemma RollExact(s: Session, log: seq<Credit>, now: int)
    requires RatesOk(s, log) && s.rateAt <= now
    ensures var s1 := RollRate(s, now);
            RatesOk(s1, log) && s1.rateAt <= now < s1.rateAt + SECOND
  {
    hide Between;
    var s1 := RollRate(s, now);
    if now - s.rateAt >= SECOND {
      NoneBetween(log, s1.rateAt, s1.rateAt + SECOND);
    }
    if now - s.rateAt >= 2 * SECOND {
      NoneBetween(log, s1.rateAt - SECOND, s1.rateAt);
    }
  }

  lemma CreditExact(s: Session, log: seq<Credit>, c: Credit)
    requires RatesOk(s, log) && s.rateAt <= c.at
    ensures RatesOk(OnCreditAt(s, c), log + [c]) && OnCreditAt(s, c).rateAt <= c.at
  {
    hide Between;
    RollExact(s, log, c.at);
    var s1 := RollRate(s, c.at);
    BetweenMore(log, c, s1.rateAt, s1.rateAt + SECOND);
    BetweenMore(log, c, s1.rateAt - SECOND, s1.rateAt);
  }

  lemma BetweenMore(log: seq<Credit>, c: Credit, a: int, b: int)
    ensures Between(log + [c], a, b) == Between(log, a, b) + if a <= c.at < b then c.took else 0
  {
    assert (log + [c])[..|log|] == log;
  }

  function Credits(s: Session, log: seq<Credit>): Session {
    if log == [] then s else OnCreditAt(Credits(s, log[..|log| - 1]), log[|log| - 1])
  }

  predicate InTime(log: seq<Credit>, from: int) {
    (log != [] ==> from <= log[0].at) && forall i, j | 0 <= i < j < |log| :: log[i].at <= log[j].at
  }

  /** Whatever credits came and when, the counters are exact: what the window goes by is one whole second's credit. */
  lemma {:induction false} RatesAreExact(s: Session, log: seq<Credit>)
    requires s.rateCur == 0 && s.ratePrev == 0 && InTime(log, s.rateAt)
    ensures RatesOk(Credits(s, log), log)
    ensures Credits(s, log).rateAt <= if log == [] then s.rateAt else log[|log| - 1].at
  {
    hide OnCreditAt;
    if log != [] {
      var init := log[..|log| - 1];
      RatesAreExact(s, init);
      CreditExact(Credits(s, init), init, log[|log| - 1]);
      assert init + [log[|log| - 1]] == log;
    }
  }

  /** Credit keeps the balance, capped or not, and so does handing a fragment over. */
  lemma BalanceKept(s: Session, c: int, n: int)
    requires Balanced(s) && c >= 0 && n >= 0
    ensures var o := OnCredit(Outbound(s.sendCredit, s.inflight), c);
            Balanced(s.(sendCredit := o.sendCredit, inflight := o.inflight, rateCur := s.rateCur + Min(s.inflight, c)))
    ensures Balanced(s.(sendCredit := s.sendCredit - n, inflight := s.inflight + n))
  {}

  /** As time passes the window only shrinks: a message passed over stays so until credit comes. */
  lemma RollShrinks(s: Session, now: int)
    requires Balanced(s)
    ensures var s' := RollRate(s, now);
            Balanced(s') && Credited(s') <= Credited(s)
            && s'.sendCredit == s.sendCredit && s'.inflight == s.inflight && s'.ended == s.ended
  {}

  lemma StaysBlocked(m: Msg, s: Session, s': Session, rateBps: int)
    requires Credited(s') <= Credited(s) && s'.sendCredit <= s.sendCredit && s'.inflight >= s.inflight
    ensures Pace(s', rateBps) <= Pace(s, rateBps) && (Blocked(m, s, rateBps) ==> Blocked(m, s', rateBps))
  {}

  // ---- The gate ----

  lemma RemovedOk(s: seq<nat>, i: nat)
    requires i < |s| && Distinct(s)
    ensures Distinct(Without(s, i)) && s[i] !in Without(s, i)
    ensures forall o | o in Without(s, i) :: o in s
  {}

  /** `t` is what is left of `s` after some of its elements were taken out. */
  predicate Within(t: seq<nat>, s: seq<nat>)
    decreases |s|
  {
    t == [] || (s != [] && (if t[0] == s[0] then Within(t[1..], s[1..]) else Within(t, s[1..])))
  }

  lemma {:induction false} RemovedWithin(t: seq<nat>, s: seq<nat>, i: nat)
    requires Within(t, s) && i < |t|
    ensures Within(Without(t, i), s)
    decreases |s|
  {
    if t[0] == s[0] {
      if i == 0 {
        assert Without(t, i) == t[1..];
        SkipWithin(t[1..], s);
      } else {
        assert Without(t, i)[1..] == Without(t[1..], i - 1);
        RemovedWithin(t[1..], s[1..], i - 1);
      }
    } else {
      RemovedWithin(t, s[1..], i);
      SkipWithin(Without(t, i), s);
    }
  }

  lemma {:induction false} SkipWithin(t: seq<nat>, s: seq<nat>)
    requires s != [] && Within(t, s[1..])
    ensures Within(t, s)
    decreases |s|, 0
  {
    if t != [] && t[0] == s[0] {
      TailWithin(t, s[1..]);
    }
  }

  lemma {:induction false} TailWithin(t: seq<nat>, s: seq<nat>)
    requires t != [] && Within(t, s)
    ensures Within(t[1..], s)
    decreases |s|, 1
  {
    if t[0] == s[0] {
      SkipWithin(t[1..], s);
    } else {
      TailWithin(t, s[1..]);
      SkipWithin(t[1..], s);
    }
  }

  lemma {:induction false} WithinSelf(s: seq<nat>)
    ensures Within(s, s)
  {
    if s != [] {
      WithinSelf(s[1..]);
    }
  }

  lemma {:induction false} WithinTrans(a: seq<nat>, b: seq<nat>, d: seq<nat>)
    requires Within(a, b) && Within(b, d)
    ensures Within(a, d)
    decreases |d|
  {
    if a != [] {
      if b[0] == d[0] {
        if a[0] == b[0] {
          WithinTrans(a[1..], b[1..], d[1..]);
        } else {
          WithinTrans(a, b[1..], d[1..]);
          SkipWithin(a, d);
        }
      } else {
        WithinTrans(a, b, d[1..]);
        SkipWithin(a, d);
      }
    }
  }

  /** What one pass of the pump may do to a message it takes out of the gate. */
  predicate Settled(m: Msg, m': Msg) {
    || m' == m.(finished := true)
    || (!m.finished && m'.off <= m.size && (m'.off > m.off || m.size == 0) && m' == m.(off := m'.off, started := true))
  }

  /** A message leaves the gate finished only if it was, its session is over, or its fragment was not taken. */
  predicate Fate(m: Msg, m': Msg, over: bool, handed: seq<bool>, handed': seq<bool>) {
    if m.finished || over then m'.finished && handed' == handed else handed' == handed + [!m'.finished]
  }

  /** A message of the gate that the pump has looked at and passed over, its session live. */
  predicate Passed(o: nat, msgs: map<nat, Msg>, sessions: map<nat, Session>, rateBps: int) {
    && o in msgs && msgs[o].session in sessions && !msgs[o].finished
    && !sessions[msgs[o].session].ended && Blocked(msgs[o], sessions[msgs[o].session], rateBps)
  }

  predicate AllPassed(os: seq<nat>, msgs: map<nat, Msg>, sessions: map<nat, Session>, rateBps: int) {
    forall k | 0 <= k < |os| :: Passed(os[k], msgs, sessions, rateBps)
  }

  /** A session that only rolled its rates and spent, and is still live if it was. */
  predicate Eased(s: Session, s': Session) {
    && Credited(s') <= Credited(s) && s'.sendCredit <= s.sendCredit && s'.inflight >= s.inflight
    && (s'.ended ==> s.ended)
  }

  /** What was passed over stays so while sessions only spend and roll. */
  lemma PassedStays(os: seq<nat>, msgs: map<nat, Msg>, sessions: map<nat, Session>,
                    msgs': map<nat, Msg>, sessions': map<nat, Session>, id: nat, rateBps: int)
    requires AllPassed(os, msgs, sessions, rateBps)
    requires forall k | 0 <= k < |os| :: os[k] in msgs' && (os[k] in msgs ==> msgs'[os[k]] == msgs[os[k]])
    requires id in sessions && id in sessions' && sessions' == sessions[id := sessions'[id]]
    requires Eased(sessions[id], sessions'[id])
    ensures AllPassed(os, msgs', sessions', rateBps)
  {
    hide Blocked, Pace, Credited;
    forall k | 0 <= k < |os| ensures Passed(os[k], msgs', sessions', rateBps) {
      assert Passed(os[k], msgs, sessions, rateBps);
      if msgs[os[k]].session == id {
        StaysBlocked(msgs[os[k]], sessions[id], sessions'[id], rateBps);
      }
    }
  }

  // ---- What passes of the pump do ----

  /** What the pump works on. */
  datatype View = View(gate: seq<nat>, msgs: map<nat, Msg>, sessions: map<nat, Session>, tasks: seq<Task>, handed: seq<bool>)

  predicate EndsOnly(sessions: map<nat, Session>, sessions': map<nat, Session>) {
    sessions'.Keys == sessions.Keys && forall id | id in sessions :: sessions[id].ended ==> sessions'[id].ended
  }

  /** What follows a fragment: the message is gated again, or completed after its last; nothing if it is finished. */
  function FollowUp(o: nat, m: Msg): seq<Task> {
    if m.finished then [] else [if m.off < m.size then Regate(o) else Complete(o)]
  }

  /** The i-th message of the gate is taken out: a fragment of it sent, or finished for a cause. */
  predicate TakesOut(v: View, v': View, i: nat, closed: bool) {
    && i < |v.gate| && v.gate[i] in v.msgs && v.gate[i] in v'.msgs && v.msgs[v.gate[i]].session in v.sessions
    && var o := v.gate[i];
       && v'.gate == Without(v.gate, i) && v'.msgs == v.msgs[o := v'.msgs[o]] && Settled(v.msgs[o], v'.msgs[o])
       && Fate(v.msgs[o], v'.msgs[o], v.sessions[v.msgs[o].session].ended || closed, v.handed, v'.handed)
       && v'.tasks == v.tasks + FollowUp(o, v'.msgs[o]) && EndsOnly(v.sessions, v'.sessions)
  }

  /** Rolling a session's rates before does not matter to what is taken out. */
  lemma RolledOut(v: View, v1: View, v': View, i: nat, closed: bool)
    requires v1 == v.(sessions := v1.sessions) && TakesOut(v1, v', i, closed) && EndsOnly(v.sessions, v1.sessions)
    requires forall id | id in v.sessions :: v1.sessions[id].ended == v.sessions[id].ended
    ensures TakesOut(v, v', i, closed)
  {
    hide Settled, FollowUp;
  }

  /** The messages taken out have had a fragment or are finished; all others are as they were. */
  predicate Progress(v: View, v': View) {
    && v'.msgs.Keys == v.msgs.Keys
    && forall o | o in v.msgs :: if o in v.gate && o !in v'.gate then Settled(v.msgs[o], v'.msgs[o]) else v'.msgs[o] == v.msgs[o]
  }

  /** A message is finished only with its session or the manager over, or with a fragment not taken. */
  predicate Cause(v: View, v': View, closed: bool) {
    && v.handed <= v'.handed
    && forall o | o in v.msgs && o in v'.msgs && !v.msgs[o].finished && v'.msgs[o].finished ::
         closed || false in v'.handed[|v.handed|..] || (v'.msgs[o].session in v'.sessions && v'.sessions[v'.msgs[o].session].ended)
  }

  /** Each message taken out and not finished has its one follow-up task, and there are no others. */
  predicate Follows(v: View, v': View) {
    && v.tasks <= v'.tasks
    && (forall k | |v.tasks| <= k < |v'.tasks| ::
          var o := v'.tasks[k].message;
          o in v.gate && o !in v'.gate && o in v'.msgs && [v'.tasks[k]] == FollowUp(o, v'.msgs[o]))
    && (forall o | o in v.gate && o !in v'.gate && o in v'.msgs && !v'.msgs[o].finished ::
          exists k | |v.tasks| <= k < |v'.tasks| :: v'.tasks[k].message == o)
    && (forall j, k | |v.tasks| <= j < k < |v'.tasks| :: v'.tasks[j].message != v'.tasks[k].message)
  }

  /** What any number of visits come to. */
  predicate Pass(v: View, v': View, closed: bool) {
    Within(v'.gate, v.gate) && EndsOnly(v.sessions, v'.sessions) && Progress(v, v') && Cause(v, v', closed) && Follows(v, v')
  }

  lemma PassSelf(v: View, closed: bool)
    ensures Pass(v, v, closed)
  {
    WithinSelf(v.gate);
  }

  /** Which messages are in the gate after one is taken out. */
  lemma TakenOut(gate: seq<nat>, i: nat)
    requires i < |gate| && Distinct(gate)
    ensures Distinct(Without(gate, i)) && Without(gate, i)[..i] == gate[..i]
    ensures forall o :: o in Without(gate, i) <==> o in gate && o != gate[i]
  {
    forall o | o in gate && o != gate[i] ensures o in Without(gate, i) {
      var k :| 0 <= k < |gate| && gate[k] == o;
      assert o == Without(gate, i)[if k < i then k else k - 1];
    }
  }

  lemma OutOf(v: View, v': View, i: nat, closed: bool)
    requires TakesOut(v, v', i, closed) && Distinct(v.gate)
    ensures i < |v.gate| && |v'.gate| == |v.gate| - 1 && v'.gate[..i] == v.gate[..i]
    ensures forall o | o in v.msgs && o != v.gate[i] :: o in v'.msgs && v'.msgs[o] == v.msgs[o]
    ensures v'.msgs.Keys == v.msgs.Keys && forall k | 0 <= k < i :: v.gate[k] != v.gate[i]
  {
    TakenOut(v.gate, i);
  }

  lemma ProgressThen(v: View, mid: View, v': View, i: nat, closed: bool)
    requires Progress(v, mid) && Distinct(mid.gate) && Within(mid.gate, v.gate) && TakesOut(mid, v', i, closed)
    ensures Progress(v, v') && Within(v'.gate, v.gate)
  {
    hide Settled, Fate, FollowUp, EndsOnly, Within;
    TakenOut(mid.gate, i);
    RemovedWithin(mid.gate, v.gate, i);
    WithinMembers(mid.gate, v.gate);
  }

  lemma CauseThen(v: View, mid: View, v': View, i: nat, closed: bool)
    requires Cause(v, mid, closed) && TakesOut(mid, v', i, closed)
    ensures Cause(v, v', closed)
  {
    hide FollowUp;
    var a, b := mid.handed[|v.handed|..], v'.handed[|v.handed|..];
    assert a <= b;
    assert false in a ==> false in b;
    var o := mid.gate[i];
    if !mid.msgs[o].finished && v'.msgs[o].finished && !(mid.sessions[mid.msgs[o].session].ended || closed) {
      assert b[|b| - 1] == false;
    }
  }

  lemma FollowsThen(v: View, mid: View, v': View, i: nat, closed: bool)
    requires Follows(v, mid) && Distinct(mid.gate) && Within(mid.gate, v.gate) && TakesOut(mid, v', i, closed)
    ensures Follows(v, v')
  {
    hide Settled, Fate, EndsOnly, Within;
    TakenOut(mid.gate, i);
    WithinMembers(mid.gate, v.gate);
    var o := mid.gate[i];
    forall k | |v.tasks| <= k < |mid.tasks| ensures v'.tasks[k] == mid.tasks[k] && mid.tasks[k].message != o {}
    forall o' | o' in v.gate && o' !in v'.gate && o' in v'.msgs && !v'.msgs[o'].finished
      ensures exists k | |v.tasks| <= k < |v'.tasks| :: v'.tasks[k].message == o'
    {
      if o' == o {
        assert v'.tasks[|mid.tasks|].message == o;
      } else {
        var k :| |v.tasks| <= k < |mid.tasks| && mid.tasks[k].message == o';
        assert v'.tasks[k].message == o';
      }
    }
  }

  /** One message more taken out. */
  lemma PassThen(v: View, mid: View, v': View, i: nat, closed: bool)
    requires Pass(v, mid, closed) && Distinct(mid.gate) && TakesOut(mid, v', i, closed)
    ensures Pass(v, v', closed)
  {
    hide Progress, Cause, Follows;
    ProgressThen(v, mid, v', i, closed);
    CauseThen(v, mid, v', i, closed);
    FollowsThen(v, mid, v', i, closed);
  }

  /** A message passed over: at most sessions end. */
  lemma PassQuiet(v: View, mid: View, v': View, closed: bool)
    requires Pass(v, mid, closed) && v' == mid.(sessions := v'.sessions) && EndsOnly(mid.sessions, v'.sessions)
    ensures Pass(v, v', closed)
  {
    hide Settled, FollowUp, Within;
  }

  lemma PassTwice(v: View, mid: View, v': View, closed: bool)
    requires Pass(v, mid, closed) && Pass(mid, v', closed)
    ensures Pass(v, v', closed)
  {
    hide Progress, Cause, Follows;
    WithinTrans(v'.gate, mid.gate, v.gate);
    WithinMembers(v'.gate, mid.gate);
    WithinMembers(mid.gate, v.gate);
    ProgressTwice(v, mid, v');
    CauseTwice(v, mid, v', closed);
    FollowsTwice(v, mid, v');
  }

  lemma ProgressTwice(v: View, mid: View, v': View)
    requires Progress(v, mid) && Progress(mid, v')
    requires (forall o | o in v'.gate :: o in mid.gate) && forall o | o in mid.gate :: o in v.gate
    ensures Progress(v, v')
  {
    hide Settled;
  }

  lemma CauseTwice(v: View, mid: View, v': View, closed: bool)
    requires Cause(v, mid, closed) && Cause(mid, v', closed) && Progress(v, mid) && Progress(mid, v') && EndsOnly(mid.sessions, v'.sessions)
    requires (forall o | o in v'.gate :: o in mid.gate) && forall o | o in mid.gate :: o in v.gate
    ensures Cause(v, v', closed)
  {
    var a, b, d := mid.handed[|v.handed|..], v'.handed[|mid.handed|..], v'.handed[|v.handed|..];
    assert a <= d && d == a + b;
    forall o | o in v.msgs && o in v'.msgs && !v.msgs[o].finished && v'.msgs[o].finished
      ensures closed || false in d || (v'.msgs[o].session in v'.sessions && v'.sessions[v'.msgs[o].session].ended)
    {
      assert o in mid.msgs;
    }
  }

  lemma FollowsTwice(v: View, mid: View, v': View)
    requires Follows(v, mid) && Follows(mid, v') && Progress(v, mid) && Progress(mid, v')
    requires (forall o | o in v'.gate :: o in mid.gate) && forall o | o in mid.gate :: o in v.gate
    ensures Follows(v, v')
  {
    hide Settled;
    forall k | |v.tasks| <= k < |mid.tasks| ensures v'.tasks[k] == mid.tasks[k] {}
    forall o | o in v.gate && o !in v'.gate && o in v'.msgs && !v'.msgs[o].finished
      ensures exists k | |v.tasks| <= k < |v'.tasks| :: v'.tasks[k].message == o
    {
      assert o in mid.msgs;
      if o in mid.gate {
        var k :| |mid.tasks| <= k < |v'.tasks| && v'.tasks[k].message == o;
      } else {
        assert v'.msgs[o] == mid.msgs[o];
        var k :| |v.tasks| <= k < |mid.tasks| && mid.tasks[k].message == o;
        assert v'.tasks[k].message == o;
      }
    }
  }

  lemma {:induction false} WithinMembers(t: seq<nat>, s: seq<nat>)
    requires Within(t, s)
    ensures forall o | o in t :: o in s
    decreases |s|
  {
    if t != [] {
      if t[0] == s[0] {
        WithinMembers(t[1..], s[1..]);
      } else {
        WithinMembers(t, s[1..]);
      }
      assert s == [s[0]] + s[1..];
    }
  }

  /** A session after a fragment of one of its messages: nothing, its end, or `n` bytes more on their way. */
  predicate HandedOver(s: Session, s': Session, n: int, repump: bool) {
    || s' == s || (s' == s.(ended := true) && repump)
    || s' == HandedAll(s, n)
  }

  function HandedAll(s: Session, n: int): Session { s.(sendCredit := s.sendCredit - n, inflight := s.inflight + n) }

  /** How a session's books may change as one of its messages sends a fragment. */
  predicate Spent(s: Session, s': Session, window: int, rateBps: int, repump: bool) {
    && s'.inflight < window + Min(PACE_MIN_FRAGMENT, PacedFragment(rateBps))
    && s'.sendCredit + s'.inflight == s.sendCredit + s.inflight
    && s'.sendCredit <= s.sendCredit && Credited(s') <= Credited(s)
    && (s'.ended ==> repump)
  }

  lemma SpentBy(s: Session, s1: Session, s2: Session, n: int, window: int, rateBps: int, repump: bool)
    requires Credited(s1) <= Credited(s) && s1 == s.(rateAt := s1.rateAt, rateCur := s1.rateCur, ratePrev := s1.ratePrev)
    requires !s.ended && s.inflight < window && HandedOver(s1, s2, n, repump)
    requires n >= 0 && s1.inflight + n < window + Min(PACE_MIN_FRAGMENT, PacedFragment(rateBps))
    ensures Spent(s, s2, window, rateBps, repump)
  {}

  datatype Visited = Taken | Over | Stop

  class Lane {
    var gate: seq<nat>
    var msgs: map<nat, Msg>
    var sessions: map<nat, Session>
    var tasks: seq<Task>
    var pumping: bool
    var repump: bool
    var awaitingSocket: bool
    /** What the socket last answered. */
    var writable: bool
    var rateBps: int
    var paceDue: int
    var paceTimer: bool
    var closed: bool
    var clock: int
    /** Whether each fragment handed to the relay connection was taken, in order. */
    var handed: seq<bool>

    ghost function V(): View
      reads this
    {
      View(gate, msgs, sessions, tasks, handed)
    }

    ghost predicate Valid()
      reads this
    {
      && Distinct(gate)
      && (forall o | o in gate :: o in msgs && MsgOk(msgs[o]))
      && (forall o | o in msgs :: msgs[o].session in sessions)
      && (forall s | s in sessions :: Balanced(sessions[s]))
    }

    /** The socket took no more and its waiter is set, or the last fragment's time is not over and the timer is set. */
    ghost predicate Held()
      reads this
    {
      (awaitingSocket && !writable) || (paceTimer && rateBps > 0 && paceDue > clock)
    }

    /** No silent stall: whatever waits in the gate has something that will pump again. */
    ghost predicate StallFree()
      reads this
    {
      (AllPassed(gate, msgs, sessions, rateBps) && (gate != [] ==> !closed)) || Held()
    }

    method Now() returns (t: int)
      modifies `clock
      ensures t == clock >= old(clock)
    {
      var d: int :| d >= 0;
      clock := clock + d;
      return clock;
    }

    /** endSession, as the pump meets it: called within the pump, its own pump only notes itself. */
    method EndSession(s: nat)
      requires Valid() && s in sessions
      modifies `sessions, `repump
      ensures Valid()
      ensures sessions == old(sessions)[s := old(sessions)[s].(ended := true)]
      ensures repump == (old(repump) || !old(sessions)[s].ended)
    {
      if !sessions[s].ended {
        sessions := sessions[s := sessions[s].(ended := true)];
        repump := true;
      }
    }

    /** Encrypts and hands a frame over; an exhausted cipher ends the session. */
    method Transmit(s: nat) returns (ok: bool)
      requires Valid() && s in sessions
      modifies `sessions, `repump, `handed
      ensures Valid() && handed == old(handed) + [ok]
      ensures ok ==> sessions == old(sessions) && repump == old(repump) && !sessions[s].ended
      ensures !ok ==> (sessions == old(sessions) && repump == old(repump))
                      || (sessions == old(sessions)[s := old(sessions)[s].(ended := true)] && repump)
    {
      ok := false;
      if !sessions[s].ended {
        var exhausted: bool := *;
        if exhausted {
          EndSession(s);
        } else {
          ok := *;
        }
      }
      handed := handed + [ok];
    }
  
    /** finishOut, as the pump meets it. */
    method FinishOut(o: nat)
      requires Valid() && o in msgs
      modifies `msgs
      ensures Valid() && msgs == old(msgs)[o := old(msgs)[o].(finished := true)]
    {
      msgs := msgs[o := msgs[o].(finished := true)];
    }

    /** pace: rolls the session's rates to now and returns its window. */
    method PaceOf(id: nat) returns (w: int)
      requires Valid() && id in sessions
      modifies `sessions, `clock
      ensures Valid() && id in sessions && sessions == old(sessions)[id := sessions[id]]
      ensures w == Pace(sessions[id], rateBps) <= Pace(old(sessions)[id], rateBps)
      ensures var s, s' := old(sessions)[id], sessions[id];
              Credited(s') <= Credited(s) && s' == s.(rateAt := s'.rateAt, rateCur := s'.rateCur, ratePrev := s'.ratePrev)
    {
      var now := Now();
      var s := sessions[id];
      RollShrinks(s, now);
      sessions := sessions[id := RollRate(s, now)];
      StaysBlocked(Msg(id, 0, 0, false, false), s, sessions[id], rateBps);
      w := Pace(sessions[id], rateBps);
    }

    /** A fragment of `n` bytes of message `o` is on its way: its books, and what comes next. */
    method Account(o: nat, n: nat)
      requires Valid() && o in msgs && o !in gate && msgs[o].off + n <= msgs[o].size
      modifies `sessions, `msgs, `tasks
      ensures Valid() && o in msgs && msgs == old(msgs)[o := old(msgs)[o].(off := old(msgs)[o].off + n, started := true)]
      ensures tasks == old(tasks) + [if msgs[o].off < msgs[o].size then Regate(o) else Complete(o)]
      ensures var id := old(msgs)[o].session;
              var s := old(sessions)[id];
              sessions == old(sessions)[id := s.(sendCredit := s.sendCredit - n, inflight := s.inflight + n)]
    {
      var m := msgs[o];
      var s := sessions[m.session];
      sessions := sessions[m.session := s.(sendCredit := s.sendCredit - n, inflight := s.inflight + n)];
      msgs := msgs[o := m.(off := m.off + n, started := true)];
      tasks := tasks + [if m.off + n < m.size then Regate(o) else Complete(o)];
    }

    /** Hands a fragment of `n` bytes over, with its books and its follow-up task, or finishes the message. */
    method HandOver(o: nat, n: nat)
      requires Valid() && o in msgs && o !in gate && !msgs[o].finished && !sessions[msgs[o].session].ended
      requires msgs[o].off + n <= msgs[o].size && (n > 0 || msgs[o].size == 0)
      modifies `sessions, `msgs, `tasks, `repump, `paceDue, `clock, `handed
      ensures Valid() && (old(repump) ==> repump) && o in msgs && old(msgs[o]).session in sessions
      ensures |handed| == |old(handed)| + 1 && handed == old(handed) + [!msgs[o].finished]
      ensures var m := old(msgs[o]); msgs == old(msgs)[o := if msgs[o].finished then m.(finished := true) else m.(off := m.off + n, started := true)]
      ensures tasks == old(tasks) + (if msgs[o].finished then [] else [if msgs[o].off < msgs[o].size then Regate(o) else Complete(o)])
      ensures var id := old(msgs[o]).session;
              && sessions == old(sessions)[id := sessions[id]] && HandedOver(old(sessions[msgs[o].session]), sessions[id], n, repump)
              && (!msgs[o].finished ==> sessions[id] == HandedAll(old(sessions[msgs[o].session]), n))
    {
      hide Balanced, Distinct, MsgOk;
      var ok := Transmit(msgs[o].session);
      if !ok {
        FinishOut(o);
        return;
      }
      if rateBps > 0 {
        Charge(n);
      }
      Account(o, n);
    }

    /** Sends the next fragment of a message just taken out of the gate. */
    method RunFragment(o: nat, ghost window: int)
      requires Valid() && o in msgs && o !in gate && MsgOk(msgs[o]) && !msgs[o].finished
      requires var s := sessions[msgs[o].session];
               !s.ended && (msgs[o].size > 0 ==> s.sendCredit > 0) && s.inflight < window && Pace(s, rateBps) <= window
      modifies `sessions, `msgs, `tasks, `repump, `paceDue, `clock, `handed
      ensures Valid() && (old(repump) ==> repump) && o in msgs && old(msgs[o]).session in sessions
      ensures handed == old(handed) + [!msgs[o].finished]
      ensures msgs == old(msgs)[o := msgs[o]] && Settled(old(msgs[o]), msgs[o])
      ensures !msgs[o].finished ==>
                var n := msgs[o].off - old(msgs[o]).off;
                n == FragmentSize(HandedAll(sessions[old(msgs[o]).session], -n), old(msgs[o]), rateBps)
      ensures tasks == old(tasks) + (if msgs[o].finished then [] else [if msgs[o].off < msgs[o].size then Regate(o) else Complete(o)])
      ensures var id := old(msgs[o]).session;
              sessions == old(sessions)[id := sessions[id]] && Spent(old(sessions[msgs[o].session]), sessions[id], window, rateBps, repump)
    {
      hide Pace, FragmentSize, Distinct, MsgOk, HandedOver, Spent;
      var id := msgs[o].session;
      ghost var s0 := sessions[id];
      var w := PaceOf(id);
      var s := sessions[id];
      FragmentBounds(msgs[o], s, rateBps, window);
      var n := FragmentSize(s, msgs[o], rateBps);
      HandOver(o, n);
      SpentBy(s0, s, sessions[id], n, window, rateBps, repump);
    }

    /** While shaped, the next fragment waits for this one's time at seven eighths of the rate. */
    method Charge(n: int)
      requires rateBps > 0
      modifies `paceDue, `clock
      ensures paceDue == Max(old(paceDue), clock) + (n + FRAME_OVERHEAD) * SECOND / Max(rateBps * 7 / 8, 1)
    {
      var cost := (n + FRAME_OVERHEAD) * SECOND / Max(rateBps * 7 / 8, 1);
      var now := Now();
      paceDue := Max(paceDue, now) + cost;
    }
  
    /** The socket takes data and, while shaped, the last fragment's time is over; else what will pump again is set. */
    method MayGo() returns (go: bool)
      modifies `clock, `awaitingSocket, `paceTimer, `writable
      ensures (old(awaitingSocket) ==> awaitingSocket) && (old(paceTimer) ==> paceTimer)
      ensures go <==> writable && (rateBps > 0 ==> paceDue <= clock)
      ensures !go ==> Held()
    {
      writable := *;
      if !writable {
        awaitingSocket := true;   // whenWritable's callback clears it and pumps
        return false;
      }
      if rateBps > 0 {
        var now := Now();
        if paceDue > now {
          paceTimer := true;      // one timer at a time; it clears itself and pumps
          return false;
        }
      }
      return true;
    }

    /** A message that is finished, or whose session or manager is over, leaves the gate finished. */
    method Discard(i: nat)
      requires Valid() && i < |gate| && (msgs[gate[i]].finished || sessions[msgs[gate[i]].session].ended || closed)
      modifies `gate, `msgs
      ensures Valid() && TakesOut(old(V()), V(), i, closed)
    {
      hide Balanced, MsgOk, Distinct, Without;
      var o := gate[i];
      RemovedOk(gate, i);
      gate := Without(gate, i);
      if !msgs[o].finished {
        FinishOut(o);
      }
      assert tasks == old(tasks) + FollowUp(o, msgs[o]);
    }

    /** A message that may go leaves the gate with its next fragment. */
    method SendNext(i: nat, ghost window: int)
      requires Valid() && i < |gate| && !msgs[gate[i]].finished && !closed
      requires var s, m := sessions[msgs[gate[i]].session], msgs[gate[i]];
               !s.ended && (m.size > 0 ==> s.sendCredit > 0) && s.inflight < window && Pace(s, rateBps) <= window
      modifies `gate, `sessions, `msgs, `tasks, `repump, `paceDue, `clock, `handed
      ensures Valid() && (old(repump) ==> repump) && TakesOut(old(V()), V(), i, closed)
      ensures var id := old(msgs[gate[i]].session);
              && id in sessions && sessions == old(sessions)[id := sessions[id]]
              && (repump || Eased(old(sessions[msgs[gate[i]].session]), sessions[id]))
    {
      hide PacedFragment, Pace, FragmentSize, Balanced, Distinct, Without, Credited, Settled;
      var o := gate[i];
      RemovedOk(gate, i);
      gate := Without(gate, i);
      RunFragment(o, window);
    }

    /** The pump's visit to the i-th message of the gate: taken out, passed over, or a stop. */
    method Visit(i: nat) returns (visit: Visited)
      requires Valid() && i < |gate|
      modifies `gate, `sessions, `msgs, `tasks, `repump, `paceDue, `clock, `awaitingSocket, `paceTimer, `writable, `handed
      ensures Valid() && (old(repump) ==> repump)
      ensures var o, id := old(gate)[i], old(msgs[gate[i]].session);
              && id in sessions && sessions == old(sessions)[id := sessions[id]] && EndsOnly(old(sessions), sessions)
              && (repump || Eased(old(sessions[msgs[gate[i]].session]), sessions[id]))
              && (repump && !old(repump) ==> visit.Taken?)
              && match visit
                 case Taken => TakesOut(old(V()), V(), i, closed)
                 case Over => V() == old(V()).(sessions := sessions) && !closed && Passed(o, msgs, sessions, rateBps)
                 case Stop => V() == old(V()).(sessions := sessions) && Held()
    {
      hide PacedFragment, Balanced, MsgOk, Distinct, Credited, TakesOut;
      var o := gate[i];
      var id := msgs[o].session;
      if msgs[o].finished || sessions[id].ended || closed {
        Discard(i);
        return Taken;
      }
      ghost var v := V();
      var w := PaceOf(id);
      if (msgs[o].size > 0 && sessions[id].sendCredit <= 0) || sessions[id].inflight >= w {
        return Over;
      }
      var go := MayGo();
      if !go {
        return Stop;
      }
      ghost var v1 := V();
      SendNext(i, w);
      RolledOut(v, v1, V(), i, closed);
      return Taken;
    }

    /** One pass over the gate, oldest first. */
    method PumpOnce()
      requires Valid() && !repump
      modifies this
      ensures Valid() && rateBps == old(rateBps) && closed == old(closed) && pumping == old(pumping)
      ensures Pass(old(V()), V(), closed)
      ensures repump || StallFree()
      ensures |gate| <= |old(gate)| && (repump ==> |gate| < |old(gate)|)
    {
      hide Pace, PacedFragment, Credited, Blocked, MsgOk, Balanced, Passed, Pass, TakesOut, Distinct, Eased;
      PassSelf(V(), closed);
      var i := 0;
      while i < |gate|
        invariant Valid() && 0 <= i <= |gate| <= |old(gate)|
        invariant rateBps == old(rateBps) && closed == old(closed) && pumping == old(pumping)
        invariant Pass(old(V()), V(), closed)
        invariant repump || (AllPassed(gate[..i], msgs, sessions, rateBps) && (i > 0 ==> !closed))
        invariant repump ==> |gate| < |old(gate)|
        decreases |gate| - i
      {
        ghost var v := V();
        var visit := Visit(i);
        if visit.Taken? {
          OutOf(v, V(), i, closed);
          PassThen(old(V()), v, V(), i, closed);
        } else {
          PassQuiet(old(V()), v, V(), closed);
        }
        if !repump {
          PassedStays(v.gate[..i], v.msgs, v.sessions, msgs, sessions, v.msgs[v.gate[i]].session, rateBps);
        }
        match visit {
          case Taken =>
          case Over =>
            assert gate[..i + 1] == gate[..i] + [gate[i]];
            i := i + 1;
          case Stop =>
            return;
        }
      }
      assert gate[..i] == gate;
    }

    /**
      pump: passes over the gate until one leaves nothing to do again. It ends, however often
      sessions end under it, and then nothing waits in the gate without a cause to be pumped.
     */
    method Pump()
      requires Valid()
      modifies this
      ensures Valid() && rateBps == old(rateBps) && closed == old(closed) && pumping == old(pumping)
      ensures old(pumping) ==> repump && V() == old(V())
      ensures !old(pumping) ==> StallFree()
      ensures Pass(old(V()), V(), closed)
    {
      hide Pass, AllPassed, Balanced, MsgOk;
      PassSelf(V(), closed);
      if pumping {
        repump := true;
        return;
      }
      pumping := true;
      repump := true;
      while repump
        invariant Valid() && rateBps == old(rateBps) && closed == old(closed) && pumping
        invariant Pass(old(V()), V(), closed) && (repump || StallFree())
        decreases |gate|, repump
      {
        repump := false;
        ghost var v := V();
        PumpOnce();
        PassTwice(old(V()), v, V(), closed);
      }
      pumping := false;
    }
  }

  /** After a pump, a message left waiting with no socket or pace timer to wait for awaits credit. */
  lemma WaitsForCredit(lane: Lane, o: nat)
    requires lane.Valid() && lane.StallFree() && o in lane.gate && !lane.awaitingSocket && !lane.paceTimer
    ensures o in lane.msgs && lane.msgs[o].session in lane.sessions
    ensures var s := lane.sessions[lane.msgs[o].session];
            !s.ended && s.inflight > 0 && !lane.closed && !lane.msgs[o].finished
  {
    var k :| 0 <= k < |lane.gate| && lane.gate[k] == o;
    assert Passed(lane.gate[k], lane.msgs, lane.sessions, lane.rateBps);
    BlockedAwaitsCredit(lane.msgs[o], lane.sessions[lane.msgs[o].session], lane.rateBps);
  }
}
