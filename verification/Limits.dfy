/**
  The budgets of what others can make a member do (client-go/limits.go, client-go/sessions.go): token buckets per id,
  a ceiling for all ids off the roster together, and a list of the 256 such ids most recently seen. Times and tokens
  are real numbers.
 */
module Limits {

  import opened Basics

  function MinReal(a: real, b: real): real { if a <= b then a else b }

  /** What a time is worth at a rate. */
  function Gain(time: real, perSecond: real): real { time * perSecond }

  // ---- Buckets ----

  datatype Rate = Rate(perSecond: real, burst: real)

  const MEMBER_INITS := Rate(16.0, 32.0)
  const STRANGER_INITS := Rate(4.0, 8.0)
  const STRANGERS_INITS := Rate(128.0, 256.0)
  const FAILS := Rate(2.0, 4.0)
  const STRANGER_IDS := 256

  /** `at` is None until the bucket is first used. */
  datatype Bucket = Bucket(tokens: real, at: Option<real>)

  const FULL := Bucket(0.0, None)

  function Refilled(b: Bucket, now: real, r: Rate): Bucket {
    Bucket(
      if b.at.None? then r.burst
      else if now > b.at.value then MinReal(r.burst, b.tokens + Gain(now - b.at.value, r.perSecond))
      else b.tokens,
      Some(now))
  }

  predicate HasToken(b: Bucket, now: real, r: Rate) { Refilled(b, now, r).tokens >= 1.0 }

  /** take, whether or not it gets a token. */
  function Take(b: Bucket, now: real, r: Rate): Bucket {
    var b1 := Refilled(b, now, r);
    if b1.tokens >= 1.0 then b1.(tokens := b1.tokens - 1.0) else b1
  }

  predicate RateOk(r: Rate) { r.perSecond >= 0.0 && r.burst >= 1.0 }

  /** Never over the burst, never in debt, and last used no later than `now`. */
  predicate BucketOk(b: Bucket, now: real, r: Rate) {
    b.at.Some? ==> 0.0 <= b.tokens <= r.burst && b.at.value <= now
  }

  /** The tokens there would be at a time. */
  function Level(b: Bucket, now: real, r: Rate): real { Refilled(b, now, r).tokens }

  lemma RefillOk(b: Bucket, now: real, r: Rate)
    requires RateOk(r) && BucketOk(b, now, r)
    ensures BucketOk(Refilled(b, now, r), now, r) && BucketOk(Take(b, now, r), now, r)
    ensures 0.0 <= Level(b, now, r) <= r.burst
  {
    hide Gain;
    if b.at.Some? {
      GainGrows(now - b.at.value, r.perSecond);
    }
  }

  lemma GainGrows(time: real, perSecond: real)
    requires time >= 0.0 && perSecond >= 0.0
    ensures Gain(time, perSecond) >= 0.0
  {}

  lemma GainAdds(a: real, b: real, perSecond: real)
    ensures Gain(a + b, perSecond) == Gain(a, perSecond) + Gain(b, perSecond)
  {}

  /** Waiting gains at most the rate. */
  lemma LevelGrows(b: Bucket, now: real, later: real, r: Rate)
    requires RateOk(r) && BucketOk(b, now, r) && now <= later
    ensures Level(b, later, r) <= Level(b, now, r) + Gain(later - now, r.perSecond)
    ensures Level(b, now, r) <= Level(b, later, r)
  {
    hide Gain;
    GainGrows(later - now, r.perSecond);
    if b.at.Some? {
      GainGrows(now - b.at.value, r.perSecond);
      GainAdds(later - now, now - b.at.value, r.perSecond);
      assert later - now + (now - b.at.value) == later - b.at.value;
    }
  }

  /** Using a bucket at `now`, for a token or only to look, leaves what it had then less what was taken. */
  lemma LevelAfter(b: Bucket, now: real, r: Rate)
    requires RateOk(r)
    ensures Level(Take(b, now, r), now, r) == Level(b, now, r) - if HasToken(b, now, r) then 1.0 else 0.0
    ensures Level(Refilled(b, now, r), now, r) == Level(b, now, r)
  {}

  // ---- One id's budgets, and everyone's ----

  datatype Limit = Limit(inits: Bucket, fails: Bucket)

  const FRESH := Limit(FULL, FULL)

  datatype State = State(
    members: map<nat, Limit>,
    order: seq<nat>,               // ids off the roster, most recently seen first
    strangers: map<nat, Limit>,
    ceiling: Bucket)

  function MemberLimit(st: State, id: nat): Limit { if id in st.members then st.members[id] else FRESH }

  function StrangerLimit(st: State, id: nat): Limit { if id in st.strangers then st.strangers[id] else FRESH }

  /** get, for an id off the roster: it comes to the front, and the last makes room for a new one. */
  function Seen(st: State, id: nat): State {
    if id in st.strangers then st.(order := [id] + Less(st.order, id))
    else if |st.order| >= STRANGER_IDS then
      var last := st.order[|st.order| - 1];
      st.(order := [id] + st.order[..|st.order| - 1], strangers := (st.strangers - {last})[id := FRESH])
    else st.(order := [id] + st.order, strangers := st.strangers[id := FRESH])
  }

  datatype Asked = Asked(st: State, allowed: bool)

  function AllowMember(st: State, id: nat, now: real): Asked {
    var l := MemberLimit(st, id);
    var l1 := l.(fails := Refilled(l.fails, now, FAILS));
    if !HasToken(l.fails, now, FAILS) then Asked(st.(members := st.members[id := l1]), false)
    else Asked(st.(members := st.members[id := l1.(inits := Take(l.inits, now, MEMBER_INITS))]), HasToken(l.inits, now, MEMBER_INITS))
  }

  function AllowStranger(st: State, id: nat, now: real): Asked {
    var st1 := Seen(st, id);
    var l := StrangerLimit(st1, id);
    var st2 := st1.(strangers := st1.strangers[id := l.(inits := Take(l.inits, now, STRANGER_INITS))]);
    if !HasToken(l.inits, now, STRANGER_INITS) then Asked(st2, false)
    else Asked(st2.(ceiling := Take(st.ceiling, now, STRANGERS_INITS)), HasToken(st.ceiling, now, STRANGERS_INITS))
  }

  function FailedInit(st: State, id: nat, now: real): State {
    var l := MemberLimit(st, id);
    st.(members := st.members[id := l.(fails := Take(l.fails, now, FAILS))])
  }

  /** One init, or a new roster. `bad` inits are those found bad once read, at `later`. */
  datatype Step =
    | Init(id: nat, member: bool, now: real, bad: bool, later: real)
    | Forget(roster: set<nat>, now: real)

  function Next(st: State, step: Step): State {
    match step
    case Init(id, member, now, bad, later) =>
      if member then
        var a := AllowMember(st, id, now);
        if a.allowed && bad then FailedInit(a.st, id, later) else a.st
      else AllowStranger(st, id, now).st
    case Forget(roster, _) => st.(members := map id | id in st.members && id in roster :: st.members[id])
  }

  predicate Reads(st: State, step: Step) {
    step.Init? && if step.member then AllowMember(st, step.id, step.now).allowed else AllowStranger(st, step.id, step.now).allowed
  }

  /** An init of a listed member is read. */
  predicate ReadsFrom(st: State, step: Step, id: nat) { step.Init? && step.member && step.id == id && Reads(st, step) }

  function Begins(step: Step): real { step.now }
  function Finishes(step: Step): real { if step.Init? then step.later else step.now }

  /** Time does not go back. */
  predicate InTime(steps: seq<Step>, now: real)
    decreases |steps|
  {
    steps == [] || (now <= Begins(steps[0]) <= Finishes(steps[0]) && InTime(steps[1..], Finishes(steps[0])))
  }

  function EndOf(steps: seq<Step>, now: real): real
    decreases |steps|
  {
    if steps == [] then now else EndOf(steps[1..], Finishes(steps[0]))
  }

  /** Inits of a listed member read, and of those the bad ones; and inits of ids off the roster read. */
  function ReadsOf(st: State, steps: seq<Step>, id: nat): nat
    decreases |steps|
  {
    if steps == [] then 0
    else (if ReadsFrom(st, steps[0], id) then 1 else 0) + ReadsOf(Next(st, steps[0]), steps[1..], id)
  }

  function FailsOf(st: State, steps: seq<Step>, id: nat): nat
    decreases |steps|
  {
    if steps == [] then 0
    else (if ReadsFrom(st, steps[0], id) && steps[0].bad then 1 else 0) + FailsOf(Next(st, steps[0]), steps[1..], id)
  }

  function StrangerReads(st: State, steps: seq<Step>): nat
    decreases |steps|
  {
    if steps == [] then 0
    else (if Reads(st, steps[0]) && !steps[0].member then 1 else 0) + StrangerReads(Next(st, steps[0]), steps[1..])
  }

  /** The member is never taken off the roster in these steps. */
  predicate Stays(steps: seq<Step>, id: nat) { forall i | 0 <= i < |steps| :: steps[i].Forget? ==> id in steps[i].roster }

  predicate MemberOk(st: State, id: nat, now: real) {
    BucketOk(MemberLimit(st, id).inits, now, MEMBER_INITS) && BucketOk(MemberLimit(st, id).fails, now, FAILS)
  }

  // ---- The bounds ----

  lemma OkLater(b: Bucket, now: real, later: real, r: Rate)
    requires BucketOk(b, now, r) && now <= later
    ensures BucketOk(b, later, r)
  {}

  /** A step of another id, or of an id off the roster, changes nothing of a listed member's. */
  lemma OthersUntouched(st: State, step: Step, id: nat)
    requires if step.Init? then !step.member || step.id != id else id in step.roster
    ensures MemberLimit(Next(st, step), id) == MemberLimit(st, id)
  {
    hide Refilled, Take, HasToken;
  }

  /** What a member's own init does to its buckets. */
  lemma OwnInit(st: State, step: Step)
    requires step.Init? && step.member
    ensures var l, l1 := MemberLimit(st, step.id), MemberLimit(Next(st, step), step.id);
            && (Reads(st, step) <==> HasToken(l.fails, step.now, FAILS) && HasToken(l.inits, step.now, MEMBER_INITS))
            && l1.inits == (if HasToken(l.fails, step.now, FAILS) then Take(l.inits, step.now, MEMBER_INITS) else l.inits)
            && l1.fails == (if Reads(st, step) && step.bad then Take(Refilled(l.fails, step.now, FAILS), step.later, FAILS)
                            else Refilled(l.fails, step.now, FAILS))
  {
    hide Refilled, Take, HasToken;
  }

  /** Using a bucket at `t`, and waiting until `e`. */
  lemma UsedAndKept(b: Bucket, now: real, t: real, e: real, r: Rate)
    requires RateOk(r) && BucketOk(b, now, r) && now <= t <= e
    ensures BucketOk(b, e, r) && BucketOk(Take(b, t, r), e, r) && BucketOk(Refilled(b, t, r), t, r)
    ensures Level(b, e, r) <= Level(b, now, r) + Gain(e - now, r.perSecond)
    ensures HasToken(b, t, r) ==> Level(Take(b, t, r), e, r) <= Level(b, now, r) + Gain(e - now, r.perSecond) - 1.0
    ensures Level(Take(b, t, r), e, r) <= Level(b, now, r) + Gain(e - now, r.perSecond)
    ensures Level(Refilled(b, t, r), e, r) <= Level(b, now, r) + Gain(e - now, r.perSecond)
  {
    hide Refilled, Take, HasToken, Level;
    LevelGrows(b, now, t, r);
    LevelGrows(b, now, e, r);
    OkLater(b, now, t, r);
    RefillOk(b, t, r);
    LevelAfter(b, t, r);
    LevelGrows(Take(b, t, r), t, e, r);
    LevelGrows(Refilled(b, t, r), t, e, r);
    GainAdds(t - now, e - t, r.perSecond);
  }

  /** What one step does to a member's bucket of inits: a read costs a token. */
  lemma InitsStep(st: State, step: Step, id: nat, now: real)
    requires MemberOk(st, id, now) && now <= Begins(step) <= Finishes(step) && (step.Forget? ==> id in step.roster)
    ensures var b, b1 := MemberLimit(st, id).inits, MemberLimit(Next(st, step), id).inits;
            && BucketOk(b1, Finishes(step), MEMBER_INITS)
            && Level(b1, Finishes(step), MEMBER_INITS)
               <= Level(b, now, MEMBER_INITS) + Gain(Finishes(step) - now, MEMBER_INITS.perSecond)
                  - (if ReadsFrom(st, step, id) then 1.0 else 0.0)
  {
    hide Refilled, Take, HasToken, Level, Next, Reads, MemberLimit, BucketOk;
    UsedAndKept(MemberLimit(st, id).inits, now, Begins(step), Finishes(step), MEMBER_INITS);
    if step.Init? && step.member && step.id == id {
      OwnInit(st, step);
    } else {
      OthersUntouched(st, step, id);
    }
  }

  /** A bad init that was read spends the token that was there when it was allowed. */
  lemma FailsStep(st: State, step: Step, id: nat, now: real)
    requires MemberOk(st, id, now) && now <= Begins(step) <= Finishes(step) && (step.Forget? ==> id in step.roster)
    ensures var b, b1 := MemberLimit(st, id).fails, MemberLimit(Next(st, step), id).fails;
            && BucketOk(b1, Finishes(step), FAILS)
            && Level(b1, Finishes(step), FAILS)
               <= Level(b, now, FAILS) + Gain(Finishes(step) - now, FAILS.perSecond)
                  - (if ReadsFrom(st, step, id) && step.bad then 1.0 else 0.0)
  {
    hide Refilled, Take, HasToken, Level, Next, Reads, MemberLimit, BucketOk;
    var b, t, e := MemberLimit(st, id).fails, Begins(step), Finishes(step);
    UsedAndKept(b, now, t, e, FAILS);
    UsedAndKept(b, now, t, t, FAILS);
    if step.Init? && step.member && step.id == id {
      OwnInit(st, step);
      var f := Refilled(b, t, FAILS);
      UsedAndKept(f, t, e, e, FAILS);
      UsedAndKept(f, t, t, e, FAILS);
      if Reads(st, step) {
        StillThere(b, t, e, FAILS);
      }
      GainAdds(t - now, e - t, FAILS.perSecond);
    } else {
      OthersUntouched(st, step, id);
    }
  }

  /** A token shown is still there when it comes to be spent. */
  lemma StillThere(b: Bucket, t: real, e: real, r: Rate)
    requires RateOk(r) && HasToken(b, t, r) && BucketOk(b, t, r) && t <= e
    ensures HasToken(Refilled(b, t, r), e, r)
  {
    GainGrows(e - t, r.perSecond);
  }

  lemma {:induction false} ReadsWithin(st: State, steps: seq<Step>, id: nat, now: real)
    requires MemberOk(st, id, now) && InTime(steps, now) && Stays(steps, id)
    ensures ReadsOf(st, steps, id) as real
            <= Level(MemberLimit(st, id).inits, now, MEMBER_INITS) + Gain(EndOf(steps, now) - now, MEMBER_INITS.perSecond)
    decreases |steps|
  {
    hide Level, Next, Reads, MemberLimit, BucketOk;
    if steps == [] {
      assert MemberLimit(st, id).inits == MemberLimit(st, id).inits;
      NotNegative(MemberLimit(st, id).inits, now, MEMBER_INITS);
    } else {
      var e := Finishes(steps[0]);
      InitsStep(st, steps[0], id, now);
      FailsStep(st, steps[0], id, now);
      assert forall i | 0 <= i < |steps[1..]| :: steps[1..][i] == steps[i + 1];
      ReadsWithin(Next(st, steps[0]), steps[1..], id, e);
      var end := EndOf(steps, now);
      GainAdds(e - now, end - e, MEMBER_INITS.perSecond);
    }
  }

  lemma NotNegative(b: Bucket, now: real, r: Rate)
    requires RateOk(r) && BucketOk(b, now, r)
    ensures 0.0 <= Level(b, now, r) <= r.burst
  {
    RefillOk(b, now, r);
  }

  lemma {:induction false} FailsWithin(st: State, steps: seq<Step>, id: nat, now: real)
    requires MemberOk(st, id, now) && InTime(steps, now) && Stays(steps, id)
    ensures FailsOf(st, steps, id) as real
            <= Level(MemberLimit(st, id).fails, now, FAILS) + Gain(EndOf(steps, now) - now, FAILS.perSecond)
    decreases |steps|
  {
    hide Level, Next, Reads, MemberLimit, BucketOk;
    if steps == [] {
      NotNegative(MemberLimit(st, id).fails, now, FAILS);
    } else {
      var e := Finishes(steps[0]);
      InitsStep(st, steps[0], id, now);
      FailsStep(st, steps[0], id, now);
      assert forall i | 0 <= i < |steps[1..]| :: steps[1..][i] == steps[i + 1];
      FailsWithin(Next(st, steps[0]), steps[1..], id, e);
      var end := EndOf(steps, now);
      GainAdds(e - now, end - e, FAILS.perSecond);
    }
  }

  // ---- All strangers together ----

  lemma CeilingStep(st: State, step: Step, now: real)
    requires BucketOk(st.ceiling, now, STRANGERS_INITS) && now <= Begins(step) <= Finishes(step)
    ensures BucketOk(Next(st, step).ceiling, Finishes(step), STRANGERS_INITS)
    ensures Level(Next(st, step).ceiling, Finishes(step), STRANGERS_INITS)
            <= Level(st.ceiling, now, STRANGERS_INITS) + Gain(Finishes(step) - now, STRANGERS_INITS.perSecond)
               - (if Reads(st, step) && !step.member then 1.0 else 0.0)
  {
    hide Refilled, Take, HasToken, Level, BucketOk;
    UsedAndKept(st.ceiling, now, Begins(step), Finishes(step), STRANGERS_INITS);
  }

  lemma {:induction false} StrangersWithin(st: State, steps: seq<Step>, now: real)
    requires BucketOk(st.ceiling, now, STRANGERS_INITS) && InTime(steps, now)
    ensures StrangerReads(st, steps) as real
            <= Level(st.ceiling, now, STRANGERS_INITS) + Gain(EndOf(steps, now) - now, STRANGERS_INITS.perSecond)
    decreases |steps|
  {
    hide Level, Next, Reads, BucketOk;
    if steps == [] {
      NotNegative(st.ceiling, now, STRANGERS_INITS);
    } else {
      var e := Finishes(steps[0]);
      CeilingStep(st, steps[0], now);
      StrangersWithin(Next(st, steps[0]), steps[1..], e);
      var end := EndOf(steps, now);
      GainAdds(e - now, end - e, STRANGERS_INITS.perSecond);
    }
  }

  // ---- Every run ----

  const START := State(map[], [], map[], FULL)

  function Run(st: State, steps: seq<Step>): State
    decreases |steps|
  {
    if steps == [] then st else Run(Next(st, steps[0]), steps[1..])
  }

  /** Buckets stay within their bounds, those of ids that come and go too. */
  lemma {:induction false} RunOk(st: State, steps: seq<Step>, id: nat, now: real)
    requires MemberOk(st, id, now) && BucketOk(st.ceiling, now, STRANGERS_INITS) && InTime(steps, now)
    ensures var end, st1 := EndOf(steps, now), Run(st, steps);
            MemberOk(st1, id, end) && BucketOk(st1.ceiling, end, STRANGERS_INITS)
    decreases |steps|
  {
    hide Next, BucketOk, MemberLimit;
    if steps != [] {
      CeilingStep(st, steps[0], now);
      if steps[0].Forget? && id !in steps[0].roster {
        assert MemberOk(Next(st, steps[0]), id, Finishes(steps[0])) by { Forgotten(st, steps[0], id); }
      } else {
        InitsStep(st, steps[0], id, now);
        FailsStep(st, steps[0], id, now);
      }
      RunOk(Next(st, steps[0]), steps[1..], id, Finishes(steps[0]));
    }
  }

  lemma Forgotten(st: State, step: Step, id: nat)
    requires step.Forget? && id !in step.roster
    ensures MemberOk(Next(st, step), id, Finishes(step))
  {}

  /**
    In any stretch of any run: of one member that stays listed at most 32 + 16 d inits are read, of which at most
    4 + 2 d are bad, and of all ids off the roster together at most 256 + 128 d, where d is how long the stretch takes.
   */
  lemma Bounds(before: seq<Step>, steps: seq<Step>, id: nat, begin: real)
    requires InTime(before, begin) && InTime(steps, EndOf(before, begin)) && Stays(steps, id)
    ensures var st, now := Run(START, before), EndOf(before, begin);
            var d := EndOf(steps, now) - now;
            && ReadsOf(st, steps, id) as real <= 32.0 + 16.0 * d
            && FailsOf(st, steps, id) as real <= 4.0 + 2.0 * d
            && StrangerReads(st, steps) as real <= 256.0 + 128.0 * d
  {
    hide Next, Level, ReadsOf, FailsOf, StrangerReads;
    var st, now := Run(START, before), EndOf(before, begin);
    RunOk(START, before, id, begin);
    ReadsWithin(st, steps, id, now);
    FailsWithin(st, steps, id, now);
    StrangersWithin(st, steps, now);
    NotNegative(MemberLimit(st, id).inits, now, MEMBER_INITS);
    NotNegative(MemberLimit(st, id).fails, now, FAILS);
    NotNegative(st.ceiling, now, STRANGERS_INITS);
  }

  // ---- No less than the budgets ----

  /** What a bucket holds later: all it gained since, up to the burst. */
  lemma LevelLater(b: Bucket, now: real, later: real, r: Rate)
    requires RateOk(r) && BucketOk(b, now, r) && now <= later
    ensures Level(b, later, r) == MinReal(r.burst, Level(b, now, r) + Gain(later - now, r.perSecond))
  {
    hide Gain;
    GainGrows(later - now, r.perSecond);
    if b.at.Some? {
      GainGrows(now - b.at.value, r.perSecond);
      GainGrows(later - b.at.value, r.perSecond);
      GainAdds(later - now, now - b.at.value, r.perSecond);
      assert later - now + (now - b.at.value) == later - b.at.value;
      assert now == b.at.value ==> Gain(now - b.at.value, r.perSecond) == 0.0 by { NoGain(r.perSecond); }
      assert later == now ==> Gain(later - now, r.perSecond) == 0.0 by { NoGain(r.perSecond); }
    }
  }

  lemma NoGain(perSecond: real)
    ensures Gain(0.0, perSecond) == 0.0
  {}

  function Budget(fails: bool): Rate { if fails then FAILS else MEMBER_INITS }

  function BucketOf(st: State, id: nat, fails: bool): Bucket {
    if fails then MemberLimit(st, id).fails else MemberLimit(st, id).inits
  }

  /** What a step spends of a member's budget. */
  function Cost(st: State, step: Step, id: nat, fails: bool): real {
    if ReadsFrom(st, step, id) && (fails ==> step.bad) then 1.0 else 0.0
  }

  function Spent(st: State, steps: seq<Step>, id: nat, fails: bool): nat {
    if fails then FailsOf(st, steps, id) else ReadsOf(st, steps, id)
  }

  /** A level that is all of `from`, or the burst since `at`, with what was gained and not spent since. */
  predicate Backed(level: real, from: real, now: real, end: real, cost: real, r: Rate, full: bool, at: real) {
    if full then now <= at <= end && level >= r.burst + Gain(end - at, r.perSecond) - cost
    else level >= from + Gain(end - now, r.perSecond) - cost
  }

  lemma UsedBacked(b: Bucket, now: real, t: real, e: real, r: Rate, used: bool) returns (full: bool, at: real)
    requires RateOk(r) && BucketOk(b, now, r) && now <= t <= e && used == HasToken(b, t, r)
    ensures Backed(Level(Take(b, t, r), e, r), Level(b, now, r), now, e, if used then 1.0 else 0.0, r, full, at)
  {
    LevelLater(b, now, t, r);
    LevelAfter(b, t, r);
    assert BucketOk(b, t, r);
    RefillOk(b, t, r);
    LevelLater(Take(b, t, r), t, e, r);
    GainAdds(t - now, e - t, r.perSecond);
    assert t - now + (e - t) == e - now;
    NoGain(r.perSecond);
    hide Gain, Level, Take, Refilled, BucketOk, HasToken;
    var l := Level(b, t, r);
    if Level(Take(b, t, r), e, r) == r.burst {
      full, at := true, e;
    } else {
      full, at := l == r.burst, t;
    }
  }

  lemma KeptBacked(b: Bucket, now: real, e: real, r: Rate) returns (full: bool, at: real)
    requires RateOk(r) && BucketOk(b, now, r) && now <= e
    ensures Backed(Level(b, e, r), Level(b, now, r), now, e, 0.0, r, full, at)
  {
    LevelLater(b, now, e, r);
    NoGain(r.perSecond);
    hide Gain, Level;
    full, at := Level(b, e, r) == r.burst, e;
  }

  lemma InitsBacked(st: State, step: Step, id: nat, now: real) returns (full: bool, at: real)
    requires MemberOk(st, id, now) && now <= Begins(step) <= Finishes(step) && step.Init? && step.member && step.id == id
    ensures Backed(Level(BucketOf(Next(st, step), id, false), Finishes(step), MEMBER_INITS), Level(BucketOf(st, id, false), now, MEMBER_INITS),
                   now, Finishes(step), Cost(st, step, id, false), MEMBER_INITS, full, at)
  {
    hide Refilled, Take, HasToken, Level, Next, Reads, MemberLimit, BucketOk, Backed, Gain;
    var l := MemberLimit(st, id);
    OwnInit(st, step);
    if HasToken(l.fails, step.now, FAILS) {
      full, at := UsedBacked(l.inits, now, step.now, step.later, MEMBER_INITS, Reads(st, step));
    } else {
      full, at := KeptBacked(l.inits, now, step.later, MEMBER_INITS);
    }
  }

  /** Looking at a bucket at `t` makes no difference to what it holds later. */
  lemma Looked(b: Bucket, now: real, t: real, e: real, r: Rate)
    requires RateOk(r) && BucketOk(b, now, r) && now <= t <= e
    ensures BucketOk(Refilled(b, t, r), t, r) && Level(Refilled(b, t, r), e, r) == Level(b, e, r)
    ensures Level(Take(Refilled(b, t, r), e, r), e, r) == Level(Take(b, e, r), e, r)
  {
    assert BucketOk(b, t, r) && BucketOk(b, e, r);
    RefillOk(b, t, r);
    LevelAfter(b, t, r);
    LevelLater(b, t, e, r);
    LevelLater(Refilled(b, t, r), t, e, r);
    LevelAfter(b, e, r);
    LevelAfter(Refilled(b, t, r), e, r);
    hide Refilled, Take, BucketOk, Gain;
  }

  lemma FailsBacked(st: State, step: Step, id: nat, now: real) returns (full: bool, at: real)
    requires MemberOk(st, id, now) && now <= Begins(step) <= Finishes(step) && step.Init? && step.member && step.id == id
    ensures Backed(Level(BucketOf(Next(st, step), id, true), Finishes(step), FAILS), Level(BucketOf(st, id, true), now, FAILS),
                   now, Finishes(step), Cost(st, step, id, true), FAILS, full, at)
  {
    var l := MemberLimit(st, id);
    assert Reads(st, step) ==> HasToken(l.fails, step.later, FAILS) by {
      LevelLater(l.fails, step.now, step.later, FAILS);
      GainGrows(step.later - step.now, 2.0);
      OwnInit(st, step);
      hide Next, Reads, MemberLimit, Gain;
    }
    hide Refilled, Take, HasToken, Level, Next, Reads, MemberLimit, BucketOk, Backed, Gain;
    OwnInit(st, step);
    Looked(l.fails, now, step.now, step.later, FAILS);
    if Reads(st, step) && step.bad {
      full, at := UsedBacked(l.fails, now, step.later, step.later, FAILS, true);
    } else {
      full, at := KeptBacked(l.fails, now, step.later, FAILS);
    }
  }

  /** Every step leaves of a member's budget what it had, or the burst, with the gain since and less the step's cost. */
  lemma StepBacked(st: State, step: Step, id: nat, now: real, fails: bool) returns (full: bool, at: real)
    requires MemberOk(st, id, now) && now <= Begins(step) <= Finishes(step)
    ensures Backed(Level(BucketOf(Next(st, step), id, fails), Finishes(step), Budget(fails)), Level(BucketOf(st, id, fails), now, Budget(fails)),
                   now, Finishes(step), Cost(st, step, id, fails), Budget(fails), full, at)
  {
    if step.Init? && step.member && step.id == id {
      hide Level, Next, Reads, BucketOk, Backed, MemberLimit;
      if fails {
        full, at := FailsBacked(st, step, id, now);
      } else {
        full, at := InitsBacked(st, step, id, now);
      }
    } else if step.Forget? && id !in step.roster {
      assert MemberLimit(Next(st, step), id) == FRESH;
      NoGain(Budget(fails).perSecond);
      full, at := true, Finishes(step);
    } else {
      OthersUntouched(st, step, id);
      hide Level, Next, Reads, BucketOk, Backed, MemberLimit;
      full, at := KeptBacked(BucketOf(st, id, fails), now, Finishes(step), Budget(fails));
    }
  }

  /** Since a time in step `k`, the level has been the burst and what was gained, less what was spent from that step on. */
  predicate Since(st: State, steps: seq<Step>, id: nat, now: real, fails: bool, k: nat, at: real) {
    && k < |steps| && EndOf(steps[..k], now) <= at <= Finishes(steps[k])
    && Level(BucketOf(Run(st, steps), id, fails), EndOf(steps, now), Budget(fails))
       >= Budget(fails).burst + Gain(EndOf(steps, now) - at, Budget(fails).perSecond)
          - Spent(Run(st, steps[..k]), steps[k..], id, fails) as real
  }

  lemma SinceLater(st: State, steps: seq<Step>, id: nat, now: real, fails: bool, k: nat, at: real)
    requires steps != [] && Since(Next(st, steps[0]), steps[1..], id, Finishes(steps[0]), fails, k, at)
    ensures Since(st, steps, id, now, fails, k + 1, at)
  {
    hide Next, Level, Gain, Spent, BucketOf;
    assert steps[..k + 1][1..] == steps[1..][..k] && steps[..k + 1][0] == steps[0];
    assert steps[1..][k..] == steps[k + 1..] && steps[1..][k] == steps[k + 1];
  }

  lemma SpentFirst(st: State, steps: seq<Step>, id: nat, fails: bool)
    requires steps != []
    ensures Spent(st, steps, id, fails) as real == Cost(st, steps[0], id, fails) + Spent(Next(st, steps[0]), steps[1..], id, fails) as real
  {
    hide Next, ReadsFrom;
  }

  lemma {:induction false} RunBacked(st: State, steps: seq<Step>, id: nat, now: real, fails: bool) returns (full: bool, k: nat, at: real)
    requires MemberOk(st, id, now) && BucketOk(st.ceiling, now, STRANGERS_INITS) && InTime(steps, now)
    ensures if full then Since(st, steps, id, now, fails, k, at)
            else Level(BucketOf(Run(st, steps), id, fails), EndOf(steps, now), Budget(fails))
                 >= Level(BucketOf(st, id, fails), now, Budget(fails)) + Gain(EndOf(steps, now) - now, Budget(fails).perSecond)
                    - Spent(st, steps, id, fails) as real
    decreases |steps|
  {
    hide Next, BucketOk, MemberLimit, Level, Spent, Cost, Gain, BucketOf, Since;
    if steps == [] {
      NoGain(Budget(fails).perSecond);
      return false, 0, now;
    }
    var st1, e := Next(st, steps[0]), Finishes(steps[0]);
    assert [steps[0]][1..] == [] && Run(st, [steps[0]]) == st1;
    RunOk(st, [steps[0]], id, now);
    full, k, at := RunBacked(st1, steps[1..], id, e, fails);
    if full {
      SinceLater(st, steps, id, now, fails, k, at);
      return true, k + 1, at;
    }
    full, at := StepBacked(st, steps[0], id, now, fails);
    k := 0;
    SpentFirst(st, steps, id, fails);
    BackedAll(st, steps, id, now, fails, full, at);
  }

  lemma BackedAll(st: State, steps: seq<Step>, id: nat, now: real, fails: bool, full: bool, at: real)
    requires steps != []
    requires var st1, e := Next(st, steps[0]), Finishes(steps[0]);
             && Backed(Level(BucketOf(st1, id, fails), e, Budget(fails)), Level(BucketOf(st, id, fails), now, Budget(fails)),
                       now, e, Cost(st, steps[0], id, fails), Budget(fails), full, at)
             && Level(BucketOf(Run(st1, steps[1..]), id, fails), EndOf(steps[1..], e), Budget(fails))
                >= Level(BucketOf(st1, id, fails), e, Budget(fails)) + Gain(EndOf(steps[1..], e) - e, Budget(fails).perSecond)
                   - Spent(st1, steps[1..], id, fails) as real
    ensures if full then Since(st, steps, id, now, fails, 0, at)
            else Level(BucketOf(Run(st, steps), id, fails), EndOf(steps, now), Budget(fails))
                 >= Level(BucketOf(st, id, fails), now, Budget(fails)) + Gain(EndOf(steps, now) - now, Budget(fails).perSecond)
                    - Spent(st, steps, id, fails) as real
  {
    hide Next, Level, Spent, Cost, Gain, BucketOf;
    SpentFirst(st, steps, id, fails);
    var e, end := Finishes(steps[0]), EndOf(steps, now);
    assert steps[..0] == [] && steps[0..] == steps;
    GainAdds(e - at, end - e, Budget(fails).perSecond);
    GainAdds(e - now, end - e, Budget(fails).perSecond);
    assert e - at + (end - e) == end - at && e - now + (end - e) == end - now;
  }

  /** More than the budget less one was spent since a time in the run, `at`, which falls in step `k`. */
  predicate UsedUp(steps: seq<Step>, id: nat, begin: real, now: real, fails: bool, k: nat, at: real) {
    && k < |steps| && EndOf(steps[..k], begin) <= at <= Finishes(steps[k])
    && Spent(Run(START, steps[..k]), steps[k..], id, fails) as real
       > Budget(fails).burst - 1.0 + Gain(now - at, Budget(fails).perSecond)
  }

  lemma EmptyMeans(steps: seq<Step>, id: nat, begin: real, now: real, fails: bool) returns (k: nat, at: real)
    requires InTime(steps, begin) && EndOf(steps, begin) <= now
    requires !HasToken(BucketOf(Run(START, steps), id, fails), now, Budget(fails))
    ensures UsedUp(steps, id, begin, now, fails, k, at)
  {
    var b, end, r := BucketOf(Run(START, steps), id, fails), EndOf(steps, begin), Budget(fails);
    RunOk(START, steps, id, begin);
    LevelLater(b, end, now, r);
    var full;
    full, k, at := RunBacked(START, steps, id, begin, fails);
    assert Level(BucketOf(START, id, fails), begin, r) == r.burst;
    assert Level(b, now, r) < 1.0;
    hide Level, Gain, Spent, Refilled, BucketOf, Run, BucketOk;
    if !full {
      k, at := 0, begin;
      if steps == [] {
        NoGain(r.perSecond);
        NothingSpent(START, id, fails);
      }
      assert steps[..0] == [] && steps[0..] == steps && EndOf(steps[..0], begin) == begin;
    }
    GainAdds(end - at, now - end, r.perSecond);
    assert end - at + (now - end) == now - at;
    StartsFirst(steps, begin);
  }

  lemma NothingSpent(st: State, id: nat, fails: bool)
    ensures Spent(st, [], id, fails) == 0
  {}

  lemma StartsFirst(steps: seq<Step>, begin: real)
    requires InTime(steps, begin)
    ensures steps != [] ==> begin <= Finishes(steps[0])
    ensures Run(START, []) == START
  {}

  /**
    In every run an init of a member goes unread only for what was read before: since some time in the run, more than
    31 + 16 d of its inits were read or more than 3 + 2 d found bad, where d is how long ago that is.
   */
  lemma RefusedMeans(steps: seq<Step>, id: nat, begin: real, step: Step)
    requires InTime(steps, begin) && EndOf(steps, begin) <= step.now
    requires step.Init? && step.member && step.id == id && !Reads(Run(START, steps), step)
    ensures exists fails, k: nat, at :: UsedUp(steps, id, begin, step.now, fails, k, at)
  {
    hide Next, Run, HasToken, UsedUp;
    OwnInit(Run(START, steps), step);
    var fails := !HasToken(BucketOf(Run(START, steps), id, true), step.now, FAILS);
    var k, at := EmptyMeans(steps, id, begin, step.now, fails);
  }

  predicate StrangerOk(st: State, id: nat, now: real) { BucketOk(StrangerLimit(st, id).inits, now, STRANGER_INITS) }

  lemma StrangerStep(st: State, step: Step, id: nat, now: real)
    requires StrangerOk(st, id, now) && now <= Begins(step) <= Finishes(step)
    ensures StrangerOk(Next(st, step), id, Finishes(step))
  {
    if step.Init? && !step.member {
      hide Less, HasToken;
      var l := StrangerLimit(Seen(st, step.id), id);
      assert l == FRESH || l == StrangerLimit(st, id);
      RefillOk(l.inits, step.now, STRANGER_INITS);
      hide Refilled, Take, Seen;
    }
  }

  lemma {:induction false} RunStranger(st: State, steps: seq<Step>, id: nat, now: real)
    requires StrangerOk(st, id, now) && InTime(steps, now)
    ensures StrangerOk(Run(st, steps), id, EndOf(steps, now))
    decreases |steps|
  {
    hide Next, StrangerOk;
    if steps != [] {
      StrangerStep(st, steps[0], id, now);
      RunStranger(Next(st, steps[0]), steps[1..], id, Finishes(steps[0]));
    }
  }

  /** Half a second is worth a token of any bucket. */
  lemma HalfASecond(b: Bucket, now: real, later: real, r: Rate)
    requires RateOk(r) && r.perSecond >= 2.0 && BucketOk(b, now, r) && now + 0.5 <= later
    ensures HasToken(b, later, r)
  {
    LevelLater(b, now, later, r);
    RefillOk(b, now, r);
    assert Gain(later - now, r.perSecond) >= 1.0 by {
      GainGrows(later - now - 0.5, r.perSecond);
      GainAdds(later - now - 0.5, 0.5, r.perSecond);
      assert Gain(0.5, r.perSecond) == 0.5 * r.perSecond;
      hide Gain;
    }
    hide Gain;
  }

  lemma StrangerReadIf(st: State, step: Step)
    requires step.Init? && !step.member
    requires HasToken(StrangerLimit(st, step.id).inits, step.now, STRANGER_INITS) && HasToken(st.ceiling, step.now, STRANGERS_INITS)
    ensures Reads(st, step)
  {
    hide Refilled, Less;
    assert StrangerLimit(Seen(st, step.id), step.id) == StrangerLimit(st, step.id);
  }

  /** After any run, an init half a second later is read, whoever it is from. */
  lemma ReadAfterWait(steps: seq<Step>, begin: real, step: Step)
    requires InTime(steps, begin) && EndOf(steps, begin) + 0.5 <= step.now && step.Init?
    ensures Reads(Run(START, steps), step)
  {
    var st, end := Run(START, steps), EndOf(steps, begin);
    RunOk(START, steps, step.id, begin);
    RunStranger(START, steps, step.id, begin);
    hide Next, Run, HasToken, Reads;
    if step.member {
      HalfASecond(MemberLimit(st, step.id).inits, end, step.now, MEMBER_INITS);
      HalfASecond(MemberLimit(st, step.id).fails, end, step.now, FAILS);
      OwnInit(st, step);
    } else {
      HalfASecond(StrangerLimit(st, step.id).inits, end, step.now, STRANGER_INITS);
      HalfASecond(st.ceiling, end, step.now, STRANGERS_INITS);
      StrangerReadIf(st, step);
    }
  }

  // ---- One id off the roster ----

  predicate StrangerReadsFrom(st: State, step: Step, id: nat) { step.Init? && !step.member && step.id == id && Reads(st, step) }

  function ReadsOfStranger(st: State, steps: seq<Step>, id: nat): nat
    decreases |steps|
  {
    if steps == [] then 0
    else (if StrangerReadsFrom(st, steps[0], id) then 1 else 0) + ReadsOfStranger(Next(st, steps[0]), steps[1..], id)
  }

  /** The id is not pushed out of the list in these steps. */
  predicate Remembered(st: State, steps: seq<Step>, id: nat)
    decreases |steps|
  {
    steps == [] || ((id in st.strangers ==> id in Next(st, steps[0]).strangers) && Remembered(Next(st, steps[0]), steps[1..], id))
  }

  /** What a step does to the bucket of an id it does not push out. */
  lemma StrangerShape(st: State, step: Step, id: nat)
    requires id in st.strangers ==> id in Next(st, step).strangers
    ensures var b, b1 := StrangerLimit(st, id).inits, StrangerLimit(Next(st, step), id).inits;
            if step.Init? && !step.member && step.id == id
            then b1 == Take(b, step.now, STRANGER_INITS) && (Reads(st, step) ==> HasToken(b, step.now, STRANGER_INITS))
            else b1 == b
  {
    hide Refilled, Less, Take;
    if step.Init? && !step.member {
      assert StrangerLimit(Seen(st, step.id), step.id) == StrangerLimit(st, step.id);
    }
  }

  lemma StrangerInits(st: State, step: Step, id: nat, now: real)
    requires StrangerOk(st, id, now) && now <= Begins(step) <= Finishes(step) && (id in st.strangers ==> id in Next(st, step).strangers)
    ensures var b, b1 := StrangerLimit(st, id).inits, StrangerLimit(Next(st, step), id).inits;
            && StrangerOk(Next(st, step), id, Finishes(step))
            && Level(b1, Finishes(step), STRANGER_INITS)
               <= Level(b, now, STRANGER_INITS) + Gain(Finishes(step) - now, STRANGER_INITS.perSecond)
                  - (if StrangerReadsFrom(st, step, id) then 1.0 else 0.0)
  {
    hide Refilled, Take, HasToken, Level, Next, Reads, StrangerLimit, BucketOk;
    StrangerShape(st, step, id);
    StrangerStep(st, step, id, now);
    UsedAndKept(StrangerLimit(st, id).inits, now, Begins(step), Finishes(step), STRANGER_INITS);
  }

  lemma {:induction false} StrangerWithin(st: State, steps: seq<Step>, id: nat, now: real)
    requires StrangerOk(st, id, now) && InTime(steps, now) && Remembered(st, steps, id)
    ensures ReadsOfStranger(st, steps, id) as real
            <= Level(StrangerLimit(st, id).inits, now, STRANGER_INITS) + Gain(EndOf(steps, now) - now, STRANGER_INITS.perSecond)
    decreases |steps|
  {
    hide Level, Next, StrangerReadsFrom, StrangerLimit, BucketOk;
    if steps == [] {
      NotNegative(StrangerLimit(st, id).inits, now, STRANGER_INITS);
    } else {
      var e := Finishes(steps[0]);
      StrangerInits(st, steps[0], id, now);
      StrangerWithin(Next(st, steps[0]), steps[1..], id, e);
      GainAdds(e - now, EndOf(steps, now) - e, STRANGER_INITS.perSecond);
    }
  }

  /** In any stretch of any run, of an id off the roster that stays in the list at most 8 + 4 d inits are read. */
  lemma StrangerBound(before: seq<Step>, steps: seq<Step>, id: nat, begin: real)
    requires InTime(before, begin) && InTime(steps, EndOf(before, begin)) && Remembered(Run(START, before), steps, id)
    ensures var st, now := Run(START, before), EndOf(before, begin);
            ReadsOfStranger(st, steps, id) as real <= 8.0 + 4.0 * (EndOf(steps, now) - now)
  {
    hide Next, Level, ReadsOfStranger;
    var st, now := Run(START, before), EndOf(before, begin);
    RunStranger(START, before, id, begin);
    StrangerWithin(st, steps, id, now);
    NotNegative(StrangerLimit(st, id).inits, now, STRANGER_INITS);
  }

  // ---- The list of strangers ----

  ghost predicate ListOk(st: State) {
    Distinct(st.order) && |st.order| <= STRANGER_IDS && forall id :: id in st.order <==> id in st.strangers
  }

  /** All ids off the roster seen so far, the most recent first. */
  function Recent(seen: seq<nat>): seq<nat> {
    if seen == [] then [] else [seen[|seen| - 1]] + Less(Recent(seen[..|seen| - 1]), seen[|seen| - 1])
  }

  function First(s: seq<nat>): seq<nat> { if |s| <= STRANGER_IDS then s else s[..STRANGER_IDS] }

  /** The ids off the roster whose inits came, in order. */
  function Sightings(steps: seq<Step>): seq<nat> { if steps == [] then [] else Sighting(steps[0]) + Sightings(steps[1..]) }

  function Sighting(step: Step): seq<nat> { if step.Init? && !step.member then [step.id] else [] }

  /** Moving an id to the front of the first `k`, or of all of them: the first `k` come out the same. */
  lemma {:induction false} FirstMoved(s: seq<nat>, k: nat, x: nat)
    requires Distinct(s) && k <= |s|
    ensures x in s[..k] ==> |Less(s, x)| >= k - 1 && Less(s[..k], x) == Less(s, x)[..k - 1]
    ensures x !in s[..k] && k > 0 ==> |Less(s, x)| >= k - 1 && s[..k - 1] == Less(s, x)[..k - 1]
  {
    LessOf(s, x);
    if k > 0 {
      assert s[..k][1..] == s[1..][..k - 1];
      if s[0] != x {
        FirstMoved(s[1..], k - 1, x);
        assert Less(s, x) == [s[0]] + Less(s[1..], x);
        if x in s[..k] {
          assert x in s[1..][..k - 1];
          assert k > 1;
          assert Less(s, x)[..k - 1] == [s[0]] + Less(s[1..], x)[..k - 2];
        } else if k > 1 {
          assert s[..k - 1] == [s[0]] + s[1..][..k - 2];
        }
      }
    }
  }

  lemma SeenKeeps(st: State, id: nat)
    requires ListOk(st)
    ensures ListOk(Seen(st, id))
  {
    hide Less;
    LessOf(st.order, id);
    var st1 := Seen(st, id);
    if id !in st.strangers && |st.order| >= STRANGER_IDS {
      var k := |st.order| - 1;
      forall x ensures x in st1.order <==> x in st1.strangers {
        assert x in st.order[..k] <==> x in st.order && x != st.order[k];
      }
    }
  }

  lemma SeenMoves(st: State, all: seq<nat>, id: nat)
    requires ListOk(st) && Distinct(all) && st.order == First(all)
    ensures Seen(st, id).order == First([id] + Less(all, id))
  {
    hide Less;
    LessOf(all, id);
    var k := |st.order|;
    assert st.order == all[..k];
    FirstMoved(all, k, id);
    var rest := Less(all, id);
    if k == STRANGER_IDS {
      assert ([id] + rest)[..STRANGER_IDS] == [id] + rest[..k - 1];
    }
  }

  lemma {:induction false} RecentDistinct(seen: seq<nat>)
    ensures Distinct(Recent(seen))
  {
    if seen != [] {
      RecentDistinct(seen[..|seen| - 1]);
      LessOf(Recent(seen[..|seen| - 1]), seen[|seen| - 1]);
    }
  }

  /** A step moves the list as its sighting does, or leaves it. */
  lemma StepSees(st: State, step: Step)
    ensures var st1 := Next(st, step);
            if step.Init? && !step.member
            then st1.order == Seen(st, step.id).order && st1.strangers.Keys == Seen(st, step.id).strangers.Keys
            else st1.order == st.order && st1.strangers == st.strangers
  {
    hide Refilled, Take, HasToken, Less;
  }

  lemma StepRecent(st: State, step: Step, seen: seq<nat>)
    requires ListOk(st) && st.order == First(Recent(seen))
    ensures ListOk(Next(st, step)) && Next(st, step).order == First(Recent(seen + Sighting(step)))
  {
    hide Seen, First, Less, Next;
    StepSees(st, step);
    if Sighting(step) == [] {
      assert seen + Sighting(step) == seen;
    } else {
      RecentDistinct(seen);
      SeenKeeps(st, step.id);
      SeenMoves(st, Recent(seen), step.id);
      assert (seen + [step.id])[..|seen|] == seen;
    }
  }

  lemma {:induction false} RunRecent(st: State, steps: seq<Step>, seen: seq<nat>)
    requires ListOk(st) && st.order == First(Recent(seen))
    ensures ListOk(Run(st, steps)) && Run(st, steps).order == First(Recent(seen + Sightings(steps)))
    decreases |steps|
  {
    hide ListOk, Recent, First, Next, Sighting;
    if steps == [] {
      assert seen + Sightings(steps) == seen;
    } else {
      StepRecent(st, steps[0], seen);
      RunRecent(Next(st, steps[0]), steps[1..], seen + Sighting(steps[0]));
      assert seen + Sighting(steps[0]) + Sightings(steps[1..]) == seen + Sightings(steps);
    }
  }

  /** In every run, members' inits and new rosters in between, the list and its index are the 256 ids most recently seen, in that order. */
  lemma LruIsRecent(steps: seq<Step>)
    ensures ListOk(Run(START, steps)) && Run(START, steps).order == First(Recent(Sightings(steps)))
  {
    hide Next;
    assert First(Recent([])) == [];
    RunRecent(START, steps, []);
    assert [] + Sightings(steps) == Sightings(steps);
  }

  // ---- As the code keeps them ----

  class PeerLimits {
    var members: map<nat, Limit>
    var order: seq<nat>
    var strangers: map<nat, Limit>
    var ceiling: Bucket

    function S(): State
      reads this
    {
      State(members, order, strangers, ceiling)
    }

    constructor ()
      ensures S() == START && ListOk(S())
    {
      members, order, strangers, ceiling := map[], [], map[], FULL;
    }

    /** The id's budgets, made or brought to the front; an id off the roster may push another out. */
    method Get(id: nat, member: bool) returns (l: Limit)
      requires ListOk(S())
      modifies this`members, this`order, this`strangers
      ensures ListOk(S())
      ensures member ==> S() == old(S()).(members := old(members)[id := l]) && l == MemberLimit(old(S()), id)
      ensures !member ==> S() == Seen(old(S()), id) && id in strangers && l == strangers[id]
    {
      hide Less;
      if member {
        if id !in members {
          members := members[id := FRESH];
        }
        assert members == old(members)[id := members[id]];
        return members[id];
      }
      SeenKeeps(S(), id);
      if id in strangers {
        order := [id] + Less(order, id);
        return strangers[id];
      }
      if |order| >= STRANGER_IDS {
        var last := order[|order| - 1];
        order := order[..|order| - 1];
        strangers := strangers - {last};
      }
      order, strangers := [id] + order, strangers[id := FRESH];
      return strangers[id];
    }

    method AllowInit(id: nat, member: bool, now: real) returns (allowed: bool)
      requires ListOk(S())
      modifies this
      ensures Asked(S(), allowed) == if member then AllowMember(old(S()), id, now) else AllowStranger(old(S()), id, now)
      ensures ListOk(S())
    {
      hide Refilled, Take, HasToken, Seen;
      var l := Get(id, member);
      if member {
        allowed := HasToken(l.fails, now, FAILS);
        l := l.(fails := Refilled(l.fails, now, FAILS));
        if allowed {
          allowed := HasToken(l.inits, now, MEMBER_INITS);
          l := l.(inits := Take(l.inits, now, MEMBER_INITS));
        }
        members := members[id := l];
        assert old(members)[id := l] == members;
      } else {
        allowed := HasToken(l.inits, now, STRANGER_INITS);
        strangers := strangers[id := l.(inits := Take(l.inits, now, STRANGER_INITS))];
        if allowed {
          allowed := HasToken(ceiling, now, STRANGERS_INITS);
          ceiling := Take(ceiling, now, STRANGERS_INITS);
        }
      }
    }

    method SpendFailure(id: nat, now: real)
      requires ListOk(S())
      modifies this
      ensures S() == FailedInit(old(S()), id, now) && ListOk(S())
    {
      hide Take;
      var l := Get(id, true);
      members := members[id := l.(fails := Take(l.fails, now, FAILS))];
      assert members == old(members)[id := members[id]];
    }

    /** forget: the budgets of members that left go, in whatever order they are met. */
    method ForgetMembers(roster: set<nat>, ghost now: real)
      requires ListOk(S())
      modifies this`members
      ensures S() == Next(old(S()), Forget(roster, now)) && ListOk(S())
    {
      var todo := members.Keys;
      while todo != {}
        invariant todo <= old(members).Keys
        invariant members == map id | id in old(members) && (id in roster || id in todo) :: old(members)[id]
        decreases todo
      {
        var id :| id in todo;
        todo := todo - {id};
        if id !in roster {
          members := members - {id};
        }
      }
    }
  }
}
