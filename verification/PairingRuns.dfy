/**
  What a pairing took, over every run of the primary's bookkeeping (client-go/primary.go): when a newcomer gets a
  channel, and what was heard on a channel before it admits a member.
 */
module PairingRuns {

  import opened Basics
  import opened Pairing

  // ---- Who gets a channel ----

  /**
    In every run a newcomer gets a channel exactly if the code it names is open and has not expired, an exchange may be
    set up (`allowed`), no channel of that code is claimed, and its failures and live channels are fewer than five.
   */
  lemma AskedExactly(steps: seq<Step>, k: nat, id: nat, now: int, allowed: bool)
    ensures var st := Run(START, steps);
            var st1 := Next(st, PairingAsked(k, id, now, allowed));
            && (forall id | id in st.codes :: st.codes[id] in st.entries)
            && (st1 != st <==>
                && k !in st.channels && allowed && id in st.codes && now < st.entries[st.codes[id]].expiresAt
                && ClaimsOf(st, st.codes[id]) == {}
                && st.entries[st.codes[id]].failed + |ChannelsOf(st, st.codes[id])| < CODE_ATTEMPTS)
            && (st1 != st ==> st1.channels == st.channels[k := Channel(st.codes[id], P1, false)])
  {
    var st := Run(START, steps);
    assert Inv(START) by { Nothing(); }
    RunKeeps(START, steps);
    if id in st.codes {
      Unburned(st, id);
      assert Holds(st, st.codes[id]);
      hide Run, Entries, ChannelsOf, ClaimsOf;
      assert k !in st.channels ==> st.channels[k := Channel(st.codes[id], P1, false)] != st.channels;
    }
  }

  // ---- What steps do to channels ----

  /** No channel is new, and those left are as they were. */
  ghost predicate Fewer(st: State, st1: State) {
    && (forall k | k in st1.channels :: k in st.channels && st1.channels[k] == st.channels[k])
    && st1.paired == st.paired
  }

  /** Entries stay, with their code and the time they expire. */
  ghost predicate Same(st: State, st1: State) {
    forall e | e in st.entries ::
      e in st1.entries && st1.entries[e].codeId == st.entries[e].codeId && st1.entries[e].expiresAt == st.entries[e].expiresAt
  }

  lemma CloseCodeFewer(st: State, id: nat)
    ensures Fewer(st, CloseCode(st, id)) && Same(st, CloseCode(st, id))
  {
    hide Trim;
  }

  lemma CloseFewer(st: State, e: nat)
    ensures Fewer(st, CloseEntry(st, e)) && Same(st, CloseEntry(st, e))
  {
    hide CloseCode;
    if IsOpen(st, e) {
      CloseCodeFewer(st, st.entries[e].codeId);
    }
  }

  lemma FewerTwice(st: State, st1: State, st2: State)
    requires Fewer(st, st1) && Fewer(st1, st2)
    ensures Fewer(st, st2)
  {}

  lemma SameTwice(st: State, st1: State, st2: State)
    requires Same(st, st1) && Same(st1, st2)
    ensures Same(st, st2)
  {}

  lemma {:induction false} PruneFewer(st: State, now: int, order: seq<nat>)
    ensures Fewer(st, PruneAll(st, now, order)) && Same(st, PruneAll(st, now, order))
    decreases |order|
  {
    hide CloseCode, Fewer, Same;
    if order == [] {
      Unchanged(st);
    } else {
      var st1 := if Stale(st, order[0], now) then CloseCode(st, order[0]) else st;
      Unchanged(st);
      CloseCodeFewer(st, order[0]);
      PruneFewer(st1, now, order[1..]);
      FewerTwice(st, st1, PruneAll(st, now, order));
      SameTwice(st, st1, PruneAll(st, now, order));
    }
  }

  lemma Unchanged(st: State)
    ensures Fewer(st, st) && Same(st, st)
  {}

  lemma {:induction false} CloseAllFewer(st: State, order: seq<nat>)
    ensures Fewer(st, CloseAll(st, order)) && Same(st, CloseAll(st, order))
    decreases |order|
  {
    Unchanged(st);
    if order != [] {
      var id := order[0];
      var st0 := if id in st.codes && st.codes[id] in st.entries
                 then st.(entries := st.entries[st.codes[id] := st.entries[st.codes[id]].(burned := true)]) else st;
      var st1 := if id in st.codes && st.codes[id] in st.entries then CloseCode(st0, id) else st;
      assert Fewer(st, st0) && Same(st, st0);
      hide CloseCode, Fewer, Same;
      CloseCodeFewer(st0, id);
      if id in st.codes && st.codes[id] in st.entries {
        FewerTwice(st, st0, st1);
        SameTwice(st, st0, st1);
      }
      CloseAllFewer(st1, order[1..]);
      FewerTwice(st, st1, CloseAll(st, order));
      SameTwice(st, st1, CloseAll(st, order));
    }
  }

  lemma WithdrawFewer(st: State, e: nat)
    requires e in st.entries
    ensures Fewer(st, Withdraw(st, e)) && Same(st, Withdraw(st, e))
  {
    var st1 := EndChannelsOf(st.(entries := st.entries[e := st.entries[e].(burned := true)]), e);
    assert Fewer(st, st1) && Same(st, st1);
    hide CloseEntry;
    CloseFewer(st1, e);
    FewerTwice(st, st1, CloseEntry(st1, e));
    SameTwice(st, st1, CloseEntry(st1, e));
  }

  /** A failed attempt, also one that has just claimed its code, leaves the others as they were. */
  lemma FailFewer(st: State, k: nat)
    ensures Fewer(st, FailAttempt(st, k)) && Same(st, FailAttempt(st, k))
    ensures k in st.channels && st.channels[k].entry in st.entries ==> k !in FailAttempt(st, k).channels
  {
    if k in st.channels && st.channels[k].entry in st.entries {
      var e, st1 := st.channels[k].entry, EndChannel(st, k);
      var x := st1.entries[e];
      var st2 := st1.(entries := st1.entries[e := x.(failed := x.failed + 1, burned := x.burned || x.failed + 1 >= CODE_ATTEMPTS)]);
      assert Fewer(st, st2) && Same(st, st2) && k !in st2.channels;
      hide CloseEntry;
      CloseFewer(st2, e);
      FewerTwice(st, st2, CloseEntry(st2, e));
      SameTwice(st, st2, CloseEntry(st2, e));
    }
  }

  lemma OtherFewer(st: State, step: Step)
    requires !step.PairingAsked? && !step.Frame?
    ensures Fewer(st, Next(st, step)) && Same(st, Next(st, step))
  {
    Unchanged(st);
    match step {
      case Cancel(id) => CancelFewer(st, id);
      case Prune(now, order) => PruneFewer(st, now, order);
      case Open(id, e, now, at, order) => OpenFewer(st, id, e, now, at, order);
      case Stop(order) =>
        var st1 := EndAll(st);
        assert Fewer(st, st1) && Same(st, st1);
        hide EndAll, CloseAll;
        CloseAllFewer(st1, order);
        FewerTwice(st, st1, CloseAll(st1, order));
        SameTwice(st, st1, CloseAll(st1, order));
      case _ =>
    }
  }

  lemma CancelFewer(st: State, id: nat)
    ensures Fewer(st, Cancelled(st, id)) && Same(st, Cancelled(st, id))
  {
    hide Withdraw;
    if id in st.codes && st.codes[id] in st.entries {
      WithdrawFewer(st, st.codes[id]);
    }
  }

  lemma OpenFewer(st: State, id: nat, e: nat, now: int, at: int, order: seq<nat>)
    ensures var st1 := Next(st, Open(id, e, now, at, order));
            Fewer(st, st1) && Same(st, st1)
  {
    if e !in st.entries && forall id' | id' in st.codes :: id' in order {
      var st1 := PruneAll(st, now, order);
      var st2 := Cancelled(st1, id);
      PruneFewer(st, now, order);
      CancelFewer(st1, id);
      FewerTwice(st, st1, st2);
      SameTwice(st, st1, st2);
      hide PruneAll, Cancelled;
      assert Fewer(st, OpenNew(st2, id, e, at));
    }
  }

  // ---- What was heard on a channel ----

  function Stages(stage: Stage): seq<Verdict> {
    match stage
    case P1 => []
    case P3 => [Right]
    case P5 => [Right, Right]
  }

  /** What a frame may do to the channels and admissions. */
  ghost predicate Heard(st: State, st1: State, k: nat, v: Verdict) {
    && (forall j | j in st1.channels && j != k :: j in st.channels && st1.channels[j] == st.channels[j])
    && (k in st1.channels ==>
          && k in st.channels && v == Right && st1.channels[k].entry == st.channels[k].entry
          && Stages(st1.channels[k].stage) == Stages(st.channels[k].stage) + [Right])
    && (st1.paired != st.paired ==>
          && k in st.channels && v == Right && Stages(st.channels[k].stage) == [Right, Right]
          && st1.paired == st.paired + [st.channels[k].entry])
    && Same(st, st1)
  }

  lemma GoneHeard(st: State, st1: State, k: nat, v: Verdict)
    requires Fewer(st, st1) && Same(st, st1) && k !in st1.channels
    ensures Heard(st, st1, k, v)
  {}

  lemma ClaimHeard(st: State, k: nat)
    requires k in st.channels && ChannelOk(st, k)
    ensures st.channels[k].stage == P3 ==> Heard(st, Claim(st, k), k, Right)
    ensures Heard(st, FailAttempt(Claim(st, k), k), k, NoReply)
  {
    var st1 := Claim(st, k);
    assert Same(st, st1);
    FailFewer(st1, k);
    var st2 := FailAttempt(st1, k);
    SameTwice(st, st1, st2);
    hide FailAttempt;
    assert forall j | j in st2.channels :: j != k && st1.channels[j] == st.channels[j];
  }

  lemma FrameMeans(st: State, k: nat, v: Verdict)
    requires Channels(st)
    ensures k !in st.channels ==> OnPairFrame(st, k, v) == st
    ensures k in st.channels ==> Heard(st, OnPairFrame(st, k, v), k, v)
  {
    if k in st.channels {
      assert ChannelOk(st, k);
      var ended := EndChannel(st, k);
      assert Fewer(st, ended) && Same(st, ended) && k !in ended.channels;
      hide Heard, EndChannel, FailAttempt, Complete, Claim, Fewer, Same;
      GoneHeard(st, ended, k, v);
      FailFewer(st, k);
      GoneHeard(st, FailAttempt(st, k), k, v);
      ClaimHeard(st, k);
      CompleteMeans(st, k);
      if st.channels[k].stage == P1 {
        AdvanceHeard(st, k);
      }
    }
  }

  lemma AdvanceHeard(st: State, k: nat)
    requires k in st.channels && st.channels[k].stage == P1
    ensures Heard(st, st.(channels := st.channels[k := st.channels[k].(stage := P3)]), k, Right)
  {}

  lemma CompleteMeans(st: State, k: nat)
    requires k in st.channels && st.channels[k].entry in st.entries
    ensures st.channels[k].stage == P5 ==> Heard(st, Complete(st, k), k, Right)
  {
    var e := st.channels[k].entry;
    var x := st.entries[e];
    var st1 := st.(channels := st.channels - {k}, entries := st.entries[e := x.(inFlight := x.inFlight - 1, burned := true)],
                   paired := st.paired + [e]);
    assert Same(st, st1);
    hide CloseEntry;
    CloseFewer(st1, e);
    SameTwice(st, st1, CloseEntry(st1, e));
  }

  function Front(steps: seq<Step>): seq<Step>
    requires steps != []
  {
    steps[..|steps| - 1]
  }

  function Last(steps: seq<Step>): Step
    requires steps != []
  {
    steps[|steps| - 1]
  }

  lemma {:induction false} RunLast(st: State, steps: seq<Step>)
    requires steps != []
    ensures Run(st, steps) == Next(Run(st, Front(steps)), Last(steps))
    decreases |steps|
  {
    hide Next;
    if |steps| == 1 {
      assert steps[1..] == [] && Front(steps) == [];
    } else {
      RunLast(Next(st, steps[0]), steps[1..]);
      assert Front(steps)[1..] == Front(steps[1..]);
    }
  }

  /** The verdicts on a channel's messages since it was last opened. */
  ghost function HeardOn(steps: seq<Step>, k: nat): seq<Verdict> {
    if steps == [] || k !in Run(START, Front(steps)).channels then []
    else HeardOn(Front(steps), k) + if Last(steps).Frame? && Last(steps).channel == k then [Last(steps).verdict] else []
  }

  /** The step that last opened a channel. */
  ghost function OpenedBy(steps: seq<Step>, k: nat): Option<Step> {
    if steps == [] then None
    else if k in Run(START, Front(steps)).channels then OpenedBy(Front(steps), k)
    else Some(Last(steps))
  }

  /** A channel's request: it named the code of the channel's entry before that expired, and was allowed. */
  predicate Asked(st: State, k: nat, step: Option<Step>) {
    && k in st.channels && st.channels[k].entry in st.entries && step.Some? && step.value.PairingAsked?
    && step.value.channel == k && step.value.allowed && step.value.id == st.entries[st.channels[k].entry].codeId
    && step.value.now < st.entries[st.channels[k].entry].expiresAt
  }

  lemma StepMeans(st: State, step: Step, k: nat)
    requires Inv(st) && k in Next(st, step).channels
    ensures var st1 := Next(st, step);
            if k !in st.channels then st1.channels[k].stage == P1 && Asked(st1, k, Some(step))
            else
              && st1.channels[k].entry == st.channels[k].entry && Same(st, st1)
              && Stages(st1.channels[k].stage)
                 == Stages(st.channels[k].stage) + if step.Frame? && step.channel == k then [step.verdict] else []
  {
    hide Entries;
    if step.Frame? {
      FrameMeans(st, step.channel, step.verdict);
      hide OnPairFrame;
    } else if !step.PairingAsked? {
      OtherFewer(st, step);
      hide Next;
    }
  }

  lemma {:induction false} StagesHeard(steps: seq<Step>, k: nat)
    requires k in Run(START, steps).channels
    ensures HeardOn(steps, k) == Stages(Run(START, steps).channels[k].stage)
    ensures Asked(Run(START, steps), k, OpenedBy(steps, k))
    decreases |steps|
  {
    hide Next, Inv, Run, Stages;
    if steps == [] {
      assert Run(START, steps) == START by { RunNone(); }
    } else {
      var st := Run(START, Front(steps));
      assert Inv(START) by { Nothing(); }
      RunKeeps(START, Front(steps));
      RunLast(START, steps);
      StepMeans(st, Last(steps), k);
      if k in st.channels {
        StagesHeard(Front(steps), k);
      } else {
        assert Stages(P1) == [] by { StagesNone(); }
      }
    }
  }

  lemma RunNone()
    ensures Run(START, []) == START
  {}

  lemma StagesNone()
    ensures Stages(P1) == []
  {}

  /**
    In every run, what admits a member is a right message on a channel that heard two right ones and nothing else
    before, and that was opened by a request allowed then, for the code of its entry, before that expired.
   */
  lemma AdmittedMeans(steps: seq<Step>)
    requires steps != []
    ensures var st, st1 := Run(START, Front(steps)), Run(START, steps);
            st1.paired != st.paired ==>
              && Last(steps).Frame? && Last(steps).verdict == Right && Last(steps).channel in st.channels
              && HeardOn(Front(steps), Last(steps).channel) == [Right, Right]
              && Asked(st, Last(steps).channel, OpenedBy(Front(steps), Last(steps).channel))
              && st1.paired == st.paired + [st.channels[Last(steps).channel].entry]
  {
    hide Run, HeardOn, OpenedBy, Asked, Entries;
    var st, step := Run(START, Front(steps)), Last(steps);
    RunLast(START, steps);
    assert Inv(START) by { Nothing(); }
    RunKeeps(START, Front(steps));
    if step.Frame? {
      FrameMeans(st, step.channel, step.verdict);
      if step.channel in st.channels {
        StagesHeard(Front(steps), step.channel);
      }
      hide OnPairFrame;
    } else if !step.PairingAsked? {
      OtherFewer(st, step);
      hide Next;
    }
  }

  // ---- What counts as a failure ----

  /** A message that uses up its slot: a bad one, unless another channel got the code, or the newcomer only cannot be admitted. */
  predicate Counted(x: Entry, stage: Stage, v: Verdict) {
    || v == Malformed || v == Wrong
    || (v == Inadmissible && stage != P5)
    || (v == NoReply && !(stage == P3 && (x.claimed || x.burned)))
  }

  lemma FailCounts(st: State, k: nat)
    requires k in st.channels && st.channels[k].entry in st.entries
    ensures var e, st1 := st.channels[k].entry, FailAttempt(st, k);
            e in st1.entries && st1.entries[e].failed == st.entries[e].failed + 1
  {
    hide CloseCode;
    var e, st1 := st.channels[k].entry, EndChannel(st, k);
    var x := st1.entries[e];
    var st2 := st1.(entries := st1.entries[e := x.(failed := x.failed + 1, burned := x.burned || x.failed + 1 >= CODE_ATTEMPTS)]);
    if IsOpen(st2, e) {
      CloseAside(st2, st2.entries[e].codeId);
    }
  }

  lemma CompleteCounts(st: State, k: nat)
    requires k in st.channels && st.channels[k].entry in st.entries
    ensures var e, st1 := st.channels[k].entry, Complete(st, k);
            e in st1.entries && st1.entries[e].failed == st.entries[e].failed
  {
    hide CloseCode;
    var e := st.channels[k].entry;
    var x := st.entries[e];
    var st1 := st.(channels := st.channels - {k}, entries := st.entries[e := x.(inFlight := x.inFlight - 1, burned := true)],
                   paired := st.paired + [e]);
    if IsOpen(st1, e) {
      CloseAside(st1, st1.entries[e].codeId);
    }
  }

  lemma EndCounts(st: State, k: nat)
    requires k in st.channels && st.channels[k].entry in st.entries
    ensures var e := st.channels[k].entry;
            e in EndChannel(st, k).entries && EndChannel(st, k).entries[e].failed == st.entries[e].failed
    ensures var e, st1 := st.channels[k].entry, Claim(st, k);
            k in st1.channels && st1.channels[k].entry == e && e in st1.entries && st1.entries[e].failed == st.entries[e].failed
  {}

  lemma FrameCounts(st: State, k: nat, v: Verdict)
    requires k in st.channels && st.channels[k].entry in st.entries
    ensures var e, st1 := st.channels[k].entry, OnPairFrame(st, k, v);
            && e in st1.entries
            && st1.entries[e].failed == st.entries[e].failed + if Counted(st.entries[e], st.channels[k].stage, v) then 1 else 0
  {
    hide FailAttempt, Complete, EndChannel, Claim;
    EndCounts(st, k);
    FailCounts(st, k);
    FailCounts(Claim(st, k), k);
    CompleteCounts(st, k);
  }

  /** In every run a message on a channel counts as a failure of its code exactly if it is such a one. */
  lemma CountedExactly(steps: seq<Step>, k: nat, v: Verdict)
    requires k in Run(START, steps).channels
    ensures var st := Run(START, steps);
            var e, st1 := st.channels[k].entry, Next(st, Frame(k, v));
            && e in st.entries && e in st1.entries
            && st1.entries[e].failed == st.entries[e].failed + if Counted(st.entries[e], st.channels[k].stage, v) then 1 else 0
  {
    hide Run, Entries, Codes, OnPairFrame, Counted;
    var st := Run(START, steps);
    assert Inv(START) by { Nothing(); }
    RunKeeps(START, steps);
    assert ChannelOk(st, k);
    FrameCounts(st, k, v);
  }
}
