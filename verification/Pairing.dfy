/**
  The primary's bookkeeping of pairing codes (client-go/primary.go): attempts in flight, failures, claims, and
  which codes are open. What the key exchange says of a message is an oracle.

  Code entries are named by the order they were made in; several entries may have carried one code id, as every
  default code does.
 */
module Pairing {

  import opened Basics

  const CODE_ATTEMPTS := 5
  const CLOSED_CODES := 1024
  const DEFAULT_CODE := 0

  datatype Entry = Entry(codeId: nat, expiresAt: int, failed: nat, inFlight: int, claimed: bool, burned: bool)

  datatype Stage = P1 | P3 | P5

  datatype Channel = Channel(entry: nat, stage: Stage, claimed: bool)

  datatype State = State(
    entries: map<nat, Entry>,
    codes: map<nat, nat>,          // the entry open under each code id
    channels: map<nat, Channel>,
    issued: set<nat>,              // code ids a refusal can name
    closed: seq<nat>,              // closed code ids, oldest first
    paired: seq<nat>)              // the entries that admitted a member, in order

  function ChannelsOf(st: State, e: nat): set<nat> { set k | k in st.channels && st.channels[k].entry == e }

  function ClaimsOf(st: State, e: nat): set<nat> {
    set k | k in st.channels && st.channels[k].entry == e && st.channels[k].claimed
  }

  predicate IsOpen(st: State, e: nat) {
    e in st.entries && st.entries[e].codeId in st.codes && st.codes[st.entries[e].codeId] == e
  }

  // ---- Closing codes ----

  /** The closed ids over the limit go, and with them what refusals knew of those not open again. */
  function Trim(codes: map<nat, nat>, issued: set<nat>, closed: seq<nat>): (set<nat>, seq<nat>)
    decreases |closed|
  {
    if |closed| <= CLOSED_CODES then (issued, closed)
    else Trim(codes, if closed[0] in codes then issued else issued - {closed[0]}, closed[1..])
  }

  function CloseCode(st: State, id: nat): State {
    if id !in st.codes then st
    else if id == DEFAULT_CODE then st.(codes := st.codes - {id})
    else
      var (issued, closed) := Trim(st.codes - {id}, st.issued, st.closed + [id]);
      st.(codes := st.codes - {id}, issued := issued, closed := closed)
  }

  function CloseEntry(st: State, e: nat): State {
    if IsOpen(st, e) then CloseCode(st, st.entries[e].codeId) else st
  }

  // ---- Ending channels ----

  /** endChannel: the slot is refunded, and the claim if it held one. */
  function EndChannel(st: State, k: nat): State {
    if k !in st.channels || st.channels[k].entry !in st.entries then st else
    var ch := st.channels[k];
    var e := st.entries[ch.entry];
    st.(channels := st.channels - {k},
        entries := st.entries[ch.entry := e.(inFlight := e.inFlight - 1, claimed := e.claimed && !ch.claimed)])
  }

  /** failAttempt: the slot stays used, and five burn the code. */
  function FailAttempt(st: State, k: nat): State {
    if k !in st.channels || st.channels[k].entry !in st.entries then st else
    var e := st.channels[k].entry;
    var st1 := EndChannel(st, k);
    var x := st1.entries[e];
    var st2 := st1.(entries := st1.entries[e := x.(failed := x.failed + 1, burned := x.burned || x.failed + 1 >= CODE_ATTEMPTS)]);
    if x.failed + 1 >= CODE_ATTEMPTS then CloseEntry(st2, e) else st2
  }

  /** Every channel of an entry ended at once. */
  function EndChannelsOf(st: State, e: nat): State
    requires e in st.entries
  {
    var x := st.entries[e];
    st.(channels := st.channels - ChannelsOf(st, e),
        entries := st.entries[e := x.(inFlight := x.inFlight - |ChannelsOf(st, e)|, claimed := x.claimed && ClaimsOf(st, e) == {})])
  }

  function Withdraw(st: State, e: nat): State
    requires e in st.entries
  {
    CloseEntry(EndChannelsOf(st.(entries := st.entries[e := st.entries[e].(burned := true)]), e), e)
  }

  /** Every channel ended at once. */
  function EndAll(st: State): State {
    st.(channels := map[],
        entries := map e | e in st.entries ::
          st.entries[e].(inFlight := st.entries[e].inFlight - |ChannelsOf(st, e)|,
                         claimed := st.entries[e].claimed && ClaimsOf(st, e) == {}))
  }

  // ---- The newcomer's messages ----

  /** What the exchange finds of a message: malformed, a wrong confirmation, right, right but no reply can be made, or a
      newcomer who cannot be admitted (a member already, or the roster is full). */
  datatype Verdict = Malformed | Wrong | Right | NoReply | Inadmissible

  function OnPairing(st: State, k: nat, id: nat, now: int, allowed: bool): State {
    if k in st.channels || id !in st.codes || st.codes[id] !in st.entries then st else
    var e := st.codes[id];
    var x := st.entries[e];
    if x.burned || x.expiresAt <= now || x.claimed || x.failed + x.inFlight >= CODE_ATTEMPTS || !allowed then st
    else st.(entries := st.entries[e := x.(inFlight := x.inFlight + 1)],
             channels := st.channels[k := Channel(e, P1, false)])
  }

  function Claim(st: State, k: nat): State
    requires k in st.channels && st.channels[k].entry in st.entries
  {
    var ch := st.channels[k];
    st.(entries := st.entries[ch.entry := st.entries[ch.entry].(claimed := true)],
        channels := st.channels[k := ch.(claimed := true, stage := P5)])
  }

  /** completePairing's last part: the channel is done, the code burned and closed, the member admitted. */
  function Complete(st: State, k: nat): State
    requires k in st.channels && st.channels[k].entry in st.entries
  {
    var e := st.channels[k].entry;
    var x := st.entries[e];
    CloseEntry(st.(channels := st.channels - {k},
                   entries := st.entries[e := x.(inFlight := x.inFlight - 1, burned := true)],
                   paired := st.paired + [e]), e)
  }

  function OnPairFrame(st: State, k: nat, v: Verdict): State {
    if k !in st.channels || st.channels[k].entry !in st.entries then st else
    var ch := st.channels[k];
    var x := st.entries[ch.entry];
    match ch.stage
    case P1 => if v == Right then st.(channels := st.channels[k := ch.(stage := P3)]) else FailAttempt(st, k)
    case P3 =>
      if v != Right && v != NoReply then FailAttempt(st, k)
      else if x.claimed || x.burned then EndChannel(st, k)
      else if v == NoReply then FailAttempt(Claim(st, k), k)
      else Claim(st, k)
    case P5 =>
      if v == Right then Complete(st, k)
      else if v == Inadmissible then EndChannel(st, k)
      else FailAttempt(st, k)
  }

  // ---- Steps ----

  datatype Step =
    | Open(id: nat, entry: nat, now: int, expiresAt: int, order: seq<nat>)   // the codes, in the order they are pruned
    | Cancel(id: nat)
    | Prune(now: int, order: seq<nat>)
    | PairingAsked(channel: nat, id: nat, now: int, allowed: bool)
    | Frame(channel: nat, verdict: Verdict)
    | ChannelEnds(channel: nat)
    | RelayLost
    | Stop(order: seq<nat>)   // the codes, in the order they are visited

  function Next(st: State, step: Step): State {
    match step
    case Open(id, e, now, at, order) =>
      if e in st.entries || exists id' | id' in st.codes :: id' !in order then st
      else OpenNew(Cancelled(PruneAll(st, now, order), id), id, e, at)
    case Cancel(id) => Cancelled(st, id)
    case Prune(now, order) => PruneAll(st, now, order)
    case PairingAsked(k, id, now, allowed) => OnPairing(st, k, id, now, allowed)
    case Frame(k, v) => OnPairFrame(st, k, v)
    case ChannelEnds(k) => EndChannel(st, k)
    case RelayLost => EndAll(st)
    case Stop(order) => if forall id | id in st.codes :: id in order then CloseAll(EndAll(st), order) else st
  }

  function Cancelled(st: State, id: nat): State {
    if id in st.codes && st.codes[id] in st.entries then Withdraw(st, st.codes[id]) else st
  }

  function OpenNew(st: State, id: nat, e: nat, at: int): State {
    st.(entries := st.entries[e := Entry(id, at, 0, 0, false, false)], codes := st.codes[id := e], issued := st.issued + {id})
  }

  predicate Stale(st: State, id: nat, now: int) {
    id in st.codes && st.codes[id] in st.entries && (st.entries[st.codes[id]].burned || st.entries[st.codes[id]].expiresAt <= now)
  }

  /** pruneCodes: the codes that are burned or have expired are closed; no channel ends. */
  function PruneAll(st: State, now: int, order: seq<nat>): State
    decreases |order|
  {
    if order == [] then st else PruneAll(if Stale(st, order[0], now) then CloseCode(st, order[0]) else st, now, order[1..])
  }

  /** stop's second loop: every open code burned and closed. */
  function CloseAll(st: State, order: seq<nat>): State
    decreases |order|
  {
    if order == [] then st
    else
      var id := order[0];
      var st1 :=
        if id in st.codes && st.codes[id] in st.entries
        then CloseCode(st.(entries := st.entries[st.codes[id] := st.entries[st.codes[id]].(burned := true)]), id)
        else st;
      CloseAll(st1, order[1..])
  }

  const START := State(map[], map[], map[], {}, [], [])

  function Run(st: State, steps: seq<Step>): State
    decreases |steps|
  {
    if steps == [] then st else Run(Next(st, steps[0]), steps[1..])
  }

  // ---- What every step keeps ----

  /** An entry, its live channels, those holding its claim, and how often it admitted. */
  predicate EntryOk(x: Entry, live: set<nat>, claims: set<nat>, admitted: nat) {
    && x.inFlight == |live| && x.failed + |live| <= CODE_ATTEMPTS && (x.failed == CODE_ATTEMPTS ==> x.burned)
    && claims <= live && |claims| <= 1 && admitted <= 1
    && (x.claimed <==> claims != {} || admitted == 1)
    && (claims != {} ==> !x.burned && admitted == 0)
    && (admitted == 1 ==> x.burned)
  }

  predicate Holds(st: State, e: nat)
    requires e in st.entries
  {
    EntryOk(st.entries[e], ChannelsOf(st, e), ClaimsOf(st, e), Count(st.paired, e))
  }

  ghost predicate Entries(st: State) { forall e | e in st.entries :: Holds(st, e) }

  predicate ChannelOk(st: State, k: nat)
    requires k in st.channels
  {
    st.channels[k].entry in st.entries && (st.channels[k].claimed <==> st.channels[k].stage == P5)
  }

  ghost predicate Channels(st: State) { forall k | k in st.channels :: ChannelOk(st, k) }

  /** A code is open under its own id, and not burned; an id refusals name is open, the default's, or lately closed. */
  ghost predicate Codes(st: State) {
    && (forall id | id in st.codes :: st.codes[id] in st.entries && st.entries[st.codes[id]].codeId == id && !st.entries[st.codes[id]].burned)
    && (forall id | id in st.codes :: id in st.issued)
    && (forall id | id in st.issued :: id in st.codes || id == DEFAULT_CODE || id in st.closed)
    && |st.closed| <= CLOSED_CODES && DEFAULT_CODE !in st.closed
    && (forall i | 0 <= i < |st.paired| :: st.paired[i] in st.entries)
  }

  ghost predicate Inv(st: State) { Entries(st) && Channels(st) && Codes(st) }

  // ---- Closing codes keeps it ----

  lemma {:induction false} TrimOk(codes: map<nat, nat>, issued: set<nat>, closed: seq<nat>)
    requires forall id | id in codes :: id in issued
    requires forall id | id in issued :: id in codes || id == DEFAULT_CODE || id in closed
    ensures var (issued1, closed1) := Trim(codes, issued, closed);
            && (forall id | id in codes :: id in issued1)
            && (forall id | id in issued1 :: id in codes || id == DEFAULT_CODE || id in closed1)
            && |closed1| <= CLOSED_CODES && (forall id | id in closed1 :: id in closed)
    decreases |closed|
  {
    if |closed| > CLOSED_CODES {
      TrimOk(codes, if closed[0] in codes then issued else issued - {closed[0]}, closed[1..]);
    }
  }

  lemma CloseKeepsCodes(st: State, id: nat)
    requires Codes(st)
    ensures Codes(CloseCode(st, id))
  {
    hide Trim;
    if id in st.codes && id != DEFAULT_CODE {
      TrimOk(st.codes - {id}, st.issued, st.closed + [id]);
    }
  }

  /** Which codes close changes nothing for entries and channels. */
  lemma CloseAside(st: State, id: nat)
    ensures var st1 := CloseCode(st, id);
            st1.entries == st.entries && st1.channels == st.channels && st1.paired == st.paired && st1.codes == st.codes - {id}
  {}

  lemma SameEntries(st: State, st1: State)
    requires Entries(st) && Channels(st) && st1.entries == st.entries && st1.channels == st.channels && st1.paired == st.paired
    ensures Entries(st1) && Channels(st1)
  {
    forall e | e in st1.entries ensures Holds(st1, e) {
      assert Holds(st, e);
      assert ChannelsOf(st1, e) == ChannelsOf(st, e) && ClaimsOf(st1, e) == ClaimsOf(st, e);
    }
    forall k | k in st1.channels ensures ChannelOk(st1, k) {
      assert ChannelOk(st, k);
    }
  }

  lemma CloseKeeps(st: State, id: nat)
    requires Inv(st)
    ensures Inv(CloseCode(st, id))
  {
    hide Entries, Channels, Codes, CloseCode;
    CloseKeepsCodes(st, id);
    CloseAside(st, id);
    SameEntries(st, CloseCode(st, id));
  }

  /** Codes, but for entry `e`, which is burned and about to be closed. */
  ghost predicate Closing(st: State, e: nat) {
    e in st.entries && Codes(st.(entries := st.entries[e := st.entries[e].(burned := false)]))
  }

  lemma CloseEntryKeeps(st: State, e: nat)
    requires Entries(st) && Channels(st) && Closing(st, e)
    ensures Inv(CloseEntry(st, e)) && !IsOpen(CloseEntry(st, e), e)
  {
    hide Entries, Channels, Trim;
    var id := st.entries[e].codeId;
    var st0 := st.(entries := st.entries[e := st.entries[e].(burned := false)]);
    CloseAside(st, id);
    SameEntries(st, CloseEntry(st, e));
    CloseKeepsCodes(st0, id);
  }

  // ---- Ending channels keeps it ----

  /** Channel `k` goes, and its entry becomes `x`. */
  lemma ChannelGone(st: State, st1: State, k: nat, x: Entry, admits: bool)
    requires Entries(st) && Channels(st) && k in st.channels && st.channels[k].entry in st.entries
    requires st1.channels == st.channels - {k} && st1.entries == st.entries[st.channels[k].entry := x]
    requires st1.paired == if admits then st.paired + [st.channels[k].entry] else st.paired
    requires var e := st.channels[k].entry;
             EntryOk(x, ChannelsOf(st, e) - {k}, ClaimsOf(st, e) - {k}, Count(st.paired, e) + if admits then 1 else 0)
    ensures Entries(st1) && Channels(st1)
  {
    hide EntryOk;
    var e := st.channels[k].entry;
    forall e' | e' in st1.entries ensures Holds(st1, e') {
      assert ChannelsOf(st1, e') == ChannelsOf(st, e') - {k} && ClaimsOf(st1, e') == ClaimsOf(st, e') - {k};
      CountAppend(st.paired, e, e');
      if e' != e {
        assert Holds(st, e');
        assert ChannelsOf(st, e') - {k} == ChannelsOf(st, e') && ClaimsOf(st, e') - {k} == ClaimsOf(st, e');
      }
    }
    forall k' | k' in st1.channels ensures ChannelOk(st1, k') {
      assert ChannelOk(st, k');
    }
  }

  lemma {:induction false} CountAppend(s: seq<nat>, y: nat, x: nat)
    ensures Count(s + [y], x) == Count(s, x) + if y == x then 1 else 0
  {
    if s == [] {
      assert s + [y] == [y] && [y][1..] == [];
    } else {
      assert (s + [y])[1..] == s[1..] + [y];
      CountAppend(s[1..], y, x);
    }
  }

  /** The claim, if the channel holds one, is the entry's only one. */
  lemma OnlyClaim(st: State, k: nat)
    requires Inv(st) && k in st.channels
    ensures var e := st.channels[k].entry;
            && e in st.entries && Holds(st, e) && k in ChannelsOf(st, e)
            && (st.channels[k].claimed ==> ClaimsOf(st, e) == {k})
            && (!st.channels[k].claimed ==> ClaimsOf(st, e) - {k} == ClaimsOf(st, e))
  {
    hide Codes;
    assert ChannelOk(st, k);
    var e := st.channels[k].entry;
    assert Holds(st, e);
    if st.channels[k].claimed {
      assert k in ClaimsOf(st, e);
      Single(ClaimsOf(st, e), k);
    }
  }

  lemma Single(s: set<nat>, k: nat)
    requires k in s && |s| <= 1
    ensures s == {k}
  {
    assert |s - {k}| == |s| - 1;
  }

  lemma Smaller(s: set<nat>, k: nat)
    requires k in s
    ensures |s - {k}| == |s| - 1
  {}

  lemma EndChannelKeeps(st: State, k: nat)
    requires Inv(st)
    ensures Inv(EndChannel(st, k))
  {
    hide Entries, Channels, Codes, ChannelsOf, ClaimsOf;
    if k in st.channels {
      OnlyClaim(st, k);
      var e, st1 := st.channels[k].entry, EndChannel(st, k);
      Smaller(ChannelsOf(st, e), k);
      ChannelGone(st, st1, k, st1.entries[e], false);
      CodesStay(st, st1);
    }
  }

  /** Codes look only at which entries there are, their ids and whether they are burned. */
  lemma CodesStay(st: State, st1: State)
    requires Codes(st) && st1.codes == st.codes && st1.issued == st.issued && st1.closed == st.closed
    requires forall e | e in st.entries ::
               e in st1.entries && st1.entries[e].codeId == st.entries[e].codeId && st1.entries[e].burned == st.entries[e].burned
    requires forall i | 0 <= i < |st1.paired| :: i < |st.paired| && st1.paired[i] == st.paired[i]
    ensures Codes(st1)
  {}

  /** A failed attempt, before its code is closed. */
  function Failed(st: State, k: nat): State
    requires k in st.channels && st.channels[k].entry in st.entries
  {
    var e, st1 := st.channels[k].entry, EndChannel(st, k);
    var x := st1.entries[e];
    st1.(entries := st1.entries[e := x.(failed := x.failed + 1, burned := x.burned || x.failed + 1 >= CODE_ATTEMPTS)])
  }

  lemma FailedHolds(st: State, k: nat)
    requires Inv(st) && k in st.channels && st.channels[k].entry in st.entries
    ensures Entries(Failed(st, k)) && Channels(Failed(st, k))
  {
    hide Entries, Channels, Codes, ChannelsOf, ClaimsOf;
    OnlyClaim(st, k);
    var e, st2 := st.channels[k].entry, Failed(st, k);
    assert st2.entries == st.entries[e := st2.entries[e]];
    Smaller(ChannelsOf(st, e), k);
    NoneLeft(ChannelsOf(st, e) - {k}, ClaimsOf(st, e) - {k});
    ChannelGone(st, st2, k, st2.entries[e], false);
  }

  lemma FailAttemptKeeps(st: State, k: nat)
    requires Inv(st)
    ensures Inv(FailAttempt(st, k))
  {
    hide Entries, Channels, Codes, ChannelsOf, ClaimsOf, CloseEntry, EntryOk;
    if k in st.channels {
      OnlyClaim(st, k);
      var e, st2 := st.channels[k].entry, Failed(st, k);
      FailedHolds(st, k);
      if st.entries[e].failed + 1 >= CODE_ATTEMPTS {
        assert Closing(st2, e) by { PairedIn(st); BurnedClosing(st, st2, e); }
        CloseEntryKeeps(st2, e);
      } else {
        CodesStay(st, st2);
      }
    }
  }

  lemma NoneLeft(s: set<nat>, t: set<nat>)
    ensures |s| == 0 && t <= s ==> t == {}
  {}

  lemma BurnedClosing(st: State, st1: State, e: nat)
    requires Codes(st) && st1.codes == st.codes && st1.issued == st.issued && st1.closed == st.closed
    requires e in st.entries && e in st1.entries && st1.entries[e].codeId == st.entries[e].codeId
    requires forall e' | e' in st.entries && e' != e :: e' in st1.entries && st1.entries[e'] == st.entries[e']
    requires forall i | 0 <= i < |st1.paired| :: st1.paired[i] in st1.entries
    ensures Closing(st1, e)
  {}

  lemma CompleteKeeps(st: State, k: nat)
    requires Inv(st) && k in st.channels && st.channels[k].stage == P5
    ensures st.channels[k].entry in st.entries && Inv(Complete(st, k))
    ensures Count(st.paired, st.channels[k].entry) == 0
  {
    hide Entries, Channels, Codes, ChannelsOf, ClaimsOf, CloseEntry, Count;
    OnlyClaim(st, k);
    assert ChannelOk(st, k) by { ChannelIn(st, k); }
    var e := st.channels[k].entry;
    var x := st.entries[e];
    var st1 := st.(channels := st.channels - {k},
                   entries := st.entries[e := x.(inFlight := x.inFlight - 1, burned := true)],
                   paired := st.paired + [e]);
    Smaller(ChannelsOf(st, e), k);
    ChannelGone(st, st1, k, st1.entries[e], true);
    assert Closing(st1, e) by { PairedIn(st); BurnedClosing(st, st1, e); }
    CloseEntryKeeps(st1, e);
  }

  lemma ChannelIn(st: State, k: nat)
    requires Channels(st) && k in st.channels
    ensures ChannelOk(st, k)
  {}

  lemma PairedIn(st: State)
    requires Codes(st)
    ensures forall i | 0 <= i < |st.paired| :: st.paired[i] in st.entries
  {}

  // ---- Channels that begin and claim ----

  lemma PairingKeeps(st: State, k: nat, id: nat, now: int, allowed: bool)
    requires Inv(st)
    ensures Inv(OnPairing(st, k, id, now, allowed))
  {
    hide Entries, EntryOk;
    var st1 := OnPairing(st, k, id, now, allowed);
    if st1 != st {
      CodesStay(st, st1);
      PairingEntries(st, st1, k, st.codes[id]);
      forall k' | k' in st1.channels ensures ChannelOk(st1, k') {
        assert k' in st.channels ==> ChannelOk(st, k');
      }
    }
  }

  lemma PairingEntries(st: State, st1: State, k: nat, e: nat)
    requires Entries(st) && k !in st.channels && e in st.entries && st.entries[e].failed + st.entries[e].inFlight < CODE_ATTEMPTS
    requires st1 == st.(entries := st.entries[e := st.entries[e].(inFlight := st.entries[e].inFlight + 1)],
                        channels := st.channels[k := Channel(e, P1, false)])
    ensures Entries(st1)
  {
    hide EntryOk, ChannelsOf, ClaimsOf;
    forall e' | e' in st1.entries ensures Holds(st1, e') {
      assert Holds(st, e');
      ChannelAdded(st, st1, k, e, e');
      if e' == e {
        TakesSlot(st.entries[e], ChannelsOf(st, e), ClaimsOf(st, e), Count(st.paired, e), k);
      }
    }
  }

  lemma ChannelAdded(st: State, st1: State, k: nat, e: nat, e': nat)
    requires k !in st.channels && st1.channels == st.channels[k := Channel(e, P1, false)]
    ensures k !in ChannelsOf(st, e) && ClaimsOf(st1, e') == ClaimsOf(st, e')
    ensures ChannelsOf(st1, e') == if e' == e then ChannelsOf(st, e') + {k} else ChannelsOf(st, e')
  {
    assert ClaimsOf(st1, e') == ClaimsOf(st, e');
    if e' == e {
      assert ChannelsOf(st1, e') == ChannelsOf(st, e') + {k};
    } else {
      assert ChannelsOf(st1, e') == ChannelsOf(st, e');
    }
  }

  lemma TakesSlot(x: Entry, live: set<nat>, claims: set<nat>, admitted: nat, k: nat)
    requires EntryOk(x, live, claims, admitted) && k !in live && x.failed + x.inFlight < CODE_ATTEMPTS
    ensures EntryOk(x.(inFlight := x.inFlight + 1), live + {k}, claims, admitted)
  {}

  lemma ClaimKeeps(st: State, k: nat)
    requires Inv(st) && k in st.channels && st.channels[k].entry in st.entries
    requires !st.entries[st.channels[k].entry].claimed && !st.entries[st.channels[k].entry].burned
    ensures Inv(Claim(st, k))
  {
    hide EntryOk;
    var e, st1 := st.channels[k].entry, Claim(st, k);
    CodesStay(st, st1);
    forall e' | e' in st1.entries ensures Holds(st1, e') {
      assert Holds(st, e');
      assert ChannelsOf(st1, e') == ChannelsOf(st, e');
      if e' == e {
        assert k in ChannelsOf(st, e) && ClaimsOf(st1, e') == ClaimsOf(st, e') + {k};
        assert EntryOk(st1.entries[e], ChannelsOf(st, e), ClaimsOf(st, e) + {k}, Count(st.paired, e)) by {
          TakesClaim(st.entries[e], ChannelsOf(st, e), ClaimsOf(st, e), Count(st.paired, e), k);
        }
      } else {
        assert ClaimsOf(st1, e') == ClaimsOf(st, e');
      }
    }
    forall k' | k' in st1.channels ensures ChannelOk(st1, k') {
      assert ChannelOk(st, k');
    }
  }

  lemma TakesClaim(x: Entry, live: set<nat>, claims: set<nat>, admitted: nat, k: nat)
    requires EntryOk(x, live, claims, admitted) && k in live && !x.claimed && !x.burned
    ensures EntryOk(x.(claimed := true), live, claims + {k}, admitted)
  {
    assert claims + {k} == {k};
  }

  lemma FrameKeeps(st: State, k: nat, v: Verdict)
    requires Inv(st)
    ensures Inv(OnPairFrame(st, k, v))
  {
    hide Inv, FailAttempt, EndChannel, Claim, Complete;
    if k in st.channels && st.channels[k].entry in st.entries {
      var ch := st.channels[k];
      FailAttemptKeeps(st, k);
      EndChannelKeeps(st, k);
      match ch.stage {
        case P1 => AdvanceKeeps(st, k);
        case P3 =>
          if !st.entries[ch.entry].claimed && !st.entries[ch.entry].burned {
            ClaimKeeps(st, k);
            FailAttemptKeeps(Claim(st, k), k);
          }
        case P5 => CompleteKeeps(st, k);
      }
    }
  }

  lemma AdvanceKeeps(st: State, k: nat)
    requires Inv(st) && k in st.channels && st.channels[k].stage == P1
    ensures Inv(st.(channels := st.channels[k := st.channels[k].(stage := P3)]))
  {
    hide EntryOk;
    var st1 := st.(channels := st.channels[k := st.channels[k].(stage := P3)]);
    CodesStay(st, st1);
    assert ChannelOk(st, k);
    forall e | e in st1.entries ensures Holds(st1, e) {
      assert Holds(st, e);
      assert ChannelsOf(st1, e) == ChannelsOf(st, e) && ClaimsOf(st1, e) == ClaimsOf(st, e);
    }
    forall k' | k' in st1.channels ensures ChannelOk(st1, k') {
      assert ChannelOk(st, k');
    }
  }

  // ---- Codes that open and close ----

  lemma Emptied(x: Entry, live: set<nat>, claims: set<nat>, admitted: nat, burned: bool)
    requires EntryOk(x, live, claims, admitted) && (x.burned ==> burned)
    ensures EntryOk(x.(inFlight := x.inFlight - |live|, claimed := x.claimed && claims == {}, burned := burned), {}, {}, admitted)
  {}

  lemma WithdrawnHolds(st: State, e: nat)
    requires Inv(st) && e in st.entries
    ensures var st1 := EndChannelsOf(st.(entries := st.entries[e := st.entries[e].(burned := true)]), e);
            Entries(st1) && Channels(st1) && Closing(st1, e) && ChannelsOf(st1, e) == {}
  {
    hide EntryOk;
    var st0 := st.(entries := st.entries[e := st.entries[e].(burned := true)]);
    var st1 := EndChannelsOf(st0, e);
    assert ChannelsOf(st0, e) == ChannelsOf(st, e) && ClaimsOf(st0, e) == ClaimsOf(st, e);
    forall e' | e' in st1.entries ensures Holds(st1, e') {
      assert Holds(st, e');
      if e' == e {
        Emptied(st.entries[e], ChannelsOf(st, e), ClaimsOf(st, e), Count(st.paired, e), true);
        assert ChannelsOf(st1, e) == {} && ClaimsOf(st1, e) == {};
      } else {
        assert ChannelsOf(st1, e') == ChannelsOf(st, e') && ClaimsOf(st1, e') == ClaimsOf(st, e');
      }
    }
    forall k | k in st1.channels ensures ChannelOk(st1, k) {
      assert ChannelOk(st, k);
    }
    BurnedClosing(st, st1, e);
  }

  /** A withdrawn code is burned, closed, and has no channel. */
  lemma WithdrawKeeps(st: State, e: nat)
    requires Inv(st) && e in st.entries
    ensures var st1 := Withdraw(st, e);
            Inv(st1) && e in st1.entries && st1.entries[e].burned && Dead(st1, e)
  {
    hide Inv, Entries, Channels, Closing, CloseCode;
    var st1 := EndChannelsOf(st.(entries := st.entries[e := st.entries[e].(burned := true)]), e);
    WithdrawnHolds(st, e);
    CloseEntryKeeps(st1, e);
    CloseAside(st1, st1.entries[e].codeId);
    assert ChannelsOf(Withdraw(st, e), e) == ChannelsOf(st1, e);
  }

  /** An entry without a channel that is not open. */
  predicate Dead(st: State, e: nat) { e in st.entries && ChannelsOf(st, e) == {} && !IsOpen(st, e) }

  lemma EndAllKeeps(st: State)
    requires Inv(st)
    ensures Inv(EndAll(st)) && EndAll(st).codes == st.codes
  {
    hide EntryOk;
    var st1 := EndAll(st);
    CodesStay(st, st1);
    forall e | e in st1.entries ensures Holds(st1, e) {
      assert Holds(st, e);
      Emptied(st.entries[e], ChannelsOf(st, e), ClaimsOf(st, e), Count(st.paired, e), st.entries[e].burned);
      assert ChannelsOf(st1, e) == {} && ClaimsOf(st1, e) == {};
    }
  }

  lemma BurnAndClose(st: State, id: nat)
    requires Inv(st) && st.channels == map[] && id in st.codes && st.codes[id] in st.entries
    ensures var st1 := CloseCode(st.(entries := st.entries[st.codes[id] := st.entries[st.codes[id]].(burned := true)]), id);
            Inv(st1) && st1.channels == map[]
  {
    hide EntryOk, CloseCode;
    var e := st.codes[id];
    var st0 := st.(entries := st.entries[e := st.entries[e].(burned := true)]);
    forall e' | e' in st0.entries ensures Holds(st0, e') {
      assert Holds(st, e');
      assert ChannelsOf(st, e') == {} && ChannelsOf(st0, e') == {} && ClaimsOf(st, e') == {} && ClaimsOf(st0, e') == {};
      assert e' == e ==> EntryOk(st0.entries[e], {}, {}, Count(st.paired, e)) by {
        Burns(st.entries[e], Count(st.paired, e), EntryOk(st.entries[e], {}, {}, Count(st.paired, e)));
      }
    }
    BurnedClosing(st, st0, e);
    CloseEntryKeeps(st0, e);
    CloseAside(st0, id);
  }

  lemma Burns(x: Entry, admitted: nat, ok: bool)
    requires ok == EntryOk(x, {}, {}, admitted)
    ensures ok ==> EntryOk(x.(burned := true), {}, {}, admitted)
  {}

  lemma {:induction false} CloseAllKeeps(st: State, order: seq<nat>)
    requires Inv(st) && st.channels == map[]
    ensures var st1 := CloseAll(st, order);
            Inv(st1) && st1.channels == map[] && (forall id | id in st1.codes :: id in st.codes && id !in order)
    decreases |order|
  {
    hide Inv, CloseCode;
    if order != [] {
      var id := order[0];
      if id in st.codes && st.codes[id] in st.entries {
        BurnAndClose(st, id);
        CloseAside(st.(entries := st.entries[st.codes[id] := st.entries[st.codes[id]].(burned := true)]), id);
        CloseAllKeeps(CloseCode(st.(entries := st.entries[st.codes[id] := st.entries[st.codes[id]].(burned := true)]), id), order[1..]);
      } else {
        assert id !in st.codes by { OpenKnown(st, id); }
        CloseAllKeeps(st, order[1..]);
      }
    }
  }

  lemma OpenKnown(st: State, id: nat)
    requires Inv(st)
    ensures id in st.codes ==> st.codes[id] in st.entries
  {}

  lemma OpenKeeps(st: State, id: nat, e: nat, at: int)
    requires Inv(st) && e !in st.entries && id !in st.codes
    ensures Inv(OpenNew(st, id, e, at))
  {
    hide EntryOk;
    var st1 := OpenNew(st, id, e, at);
    forall k | k in st1.channels ensures ChannelOk(st1, k) && st.channels[k].entry != e {
      assert ChannelOk(st, k);
    }
    forall e' | e' in st1.entries ensures Holds(st1, e') {
      assert ChannelsOf(st1, e') == ChannelsOf(st, e') && ClaimsOf(st1, e') == ClaimsOf(st, e');
      if e' != e {
        assert Holds(st, e');
      } else {
        NeverPaired(st.paired, e);
        assert ChannelsOf(st, e) == {} && ClaimsOf(st, e) == {};
        assert EntryOk(st1.entries[e], {}, {}, 0) by { NewEntry(st1.entries[e]); }
      }
    }
  }

  lemma NewEntry(x: Entry)
    requires x == Entry(x.codeId, x.expiresAt, 0, 0, false, false)
    ensures EntryOk(x, {}, {}, 0)
  {}

  lemma {:induction false} NeverPaired(s: seq<nat>, e: nat)
    requires forall i | 0 <= i < |s| :: s[i] != e
    ensures Count(s, e) == 0
  {
    if s != [] {
      NeverPaired(s[1..], e);
    }
  }

  lemma CancelKeeps(st: State, id: nat)
    requires Inv(st)
    ensures var st1 := Cancelled(st, id);
            Inv(st1) && id !in st1.codes && st1.entries.Keys == st.entries.Keys && st1.paired == st.paired
  {
    hide Inv, Withdraw, Dead;
    OpenKnown(st, id);
    if id in st.codes {
      WithdrawKeeps(st, st.codes[id]);
      WithdrawShape(st, id);
    }
  }

  /** Pruning closes exactly the stale codes it visits, and nothing else changes for entries and channels. */
  lemma {:induction false} PruneKeeps(st: State, now: int, order: seq<nat>)
    requires Inv(st)
    ensures var st1 := PruneAll(st, now, order);
            && Inv(st1) && st1.entries == st.entries && st1.channels == st.channels && st1.paired == st.paired
            && (forall id :: id in st1.codes <==> id in st.codes && !(id in order && Stale(st, id, now)))
            && (forall id | id in st1.codes :: st1.codes[id] == st.codes[id])
    decreases |order|
  {
    hide Inv, CloseCode;
    if order != [] {
      var id := order[0];
      CloseKeeps(st, id);
      CloseAside(st, id);
      PruneKeeps(if Stale(st, id, now) then CloseCode(st, id) else st, now, order[1..]);
    }
  }

  lemma {:induction false} PruneOneMore(st: State, now: int, order: seq<nat>, id: nat)
    ensures var st1 := PruneAll(st, now, order);
            PruneAll(st, now, order + [id]) == if Stale(st1, id, now) then CloseCode(st1, id) else st1
    decreases |order|
  {
    hide CloseCode, Stale;
    if order == [] {
      assert order + [id] == [id] && [id][1..] == [];
    } else {
      assert (order + [id])[1..] == order[1..] + [id];
      PruneOneMore(if Stale(st, order[0], now) then CloseCode(st, order[0]) else st, now, order[1..], id);
    }
  }

  lemma OpenStep(st: State, id: nat, e: nat, now: int, at: int, order: seq<nat>)
    requires Inv(st)
    ensures Inv(Next(st, Open(id, e, now, at, order)))
  {
    hide Inv, Cancelled, PruneAll, OpenNew;
    var st1 := PruneAll(st, now, order);
    PruneKeeps(st, now, order);
    CancelKeeps(st1, id);
    if e !in st.entries {
      OpenKeeps(Cancelled(st1, id), id, e, at);
    }
  }

  lemma WithdrawShape(st: State, id: nat)
    requires Inv(st) && id in st.codes && st.codes[id] in st.entries
    ensures var st1 := Withdraw(st, st.codes[id]);
            st1.entries.Keys == st.entries.Keys && st1.codes == st.codes - {id} && st1.paired == st.paired
  {
    hide Entries, Channels, CloseCode;
    var e := st.codes[id];
    CloseAside(EndChannelsOf(st.(entries := st.entries[e := st.entries[e].(burned := true)]), e), id);
  }

  lemma NextKeeps(st: State, step: Step)
    requires Inv(st)
    ensures Inv(Next(st, step))
  {
    hide Inv, Cancelled, PruneAll, OpenNew, OnPairing, OnPairFrame, EndChannel, EndAll, CloseAll;
    match step {
      case Open(id, e, now, at, order) => OpenStep(st, id, e, now, at, order);
      case Cancel(id) => CancelKeeps(st, id);
      case Prune(now, order) => PruneKeeps(st, now, order);
      case PairingAsked(k, id, now, allowed) => PairingKeeps(st, k, id, now, allowed);
      case Frame(k, v) => FrameKeeps(st, k, v);
      case ChannelEnds(k) => EndChannelKeeps(st, k);
      case RelayLost => EndAllKeeps(st);
      case Stop(order) =>
        EndAllKeeps(st);
        assert EndAll(st).channels == map[] by { NoChannels(st); }
        CloseAllKeeps(EndAll(st), order);
    }
  }

  lemma NoChannels(st: State)
    ensures EndAll(st).channels == map[] && EndAll(st).codes == st.codes && EndAll(st).entries.Keys == st.entries.Keys
  {}

  lemma {:induction false} RunKeeps(st: State, steps: seq<Step>)
    requires Inv(st)
    ensures Inv(Run(st, steps))
    decreases |steps|
  {
    hide Inv, Next;
    if steps != [] {
      NextKeeps(st, steps[0]);
      RunKeeps(Next(st, steps[0]), steps[1..]);
    }
  }

  // ---- Every run ----

  /**
    In every run and for every code entry: attempts in flight are its live channels, they and its failures are at
    most five, at most one channel holds its claim, it admits at most one member, and five failures burn it with no
    channel left.
   */
  lemma Accounting(steps: seq<Step>, e: nat)
    requires e in Run(START, steps).entries
    ensures var st := Run(START, steps);
            && st.entries[e].inFlight == |set k | k in st.channels && st.channels[k].entry == e|
            && st.entries[e].failed + st.entries[e].inFlight <= CODE_ATTEMPTS
            && (forall k, k' | k in st.channels && k' in st.channels && st.channels[k].entry == e && st.channels[k'].entry == e ::
                  st.channels[k].claimed && st.channels[k'].claimed ==> k == k')
            && Count(st.paired, e) <= 1
            && (st.entries[e].failed == CODE_ATTEMPTS ==>
                  st.entries[e].burned && !IsOpen(st, e) && forall k | k in st.channels :: st.channels[k].entry != e)
  {
    hide Next;
    var st := Run(START, steps);
    RunKeeps(START, steps);
    assert Holds(st, e);
    assert ChannelsOf(st, e) == set k | k in st.channels && st.channels[k].entry == e;
    forall k, k' | k in st.channels && k' in st.channels && st.channels[k].entry == e && st.channels[k'].entry == e
      ensures st.channels[k].claimed && st.channels[k'].claimed ==> k == k'
    {
      if st.channels[k].claimed && st.channels[k'].claimed {
        assert k in ClaimsOf(st, e) && k' in ClaimsOf(st, e);
        Single(ClaimsOf(st, e), k);
      }
    }
    forall k | k in st.channels ensures st.channels[k].entry == e ==> k in ChannelsOf(st, e) {}
  }

  /** Nothing new for entry `e`: no channel more, not opened, nobody admitted. */
  ghost predicate Still(st: State, st1: State, e: nat) {
    && e in st.entries && e in st1.entries && st1.entries[e].codeId == st.entries[e].codeId
    && ChannelsOf(st1, e) <= ChannelsOf(st, e) && (IsOpen(st1, e) ==> IsOpen(st, e))
    && Count(st1.paired, e) == Count(st.paired, e)
  }

  lemma CloseStill(st: State, id: nat, e: nat)
    requires e in st.entries
    ensures Still(st, CloseCode(st, id), e)
  {
    CloseAside(st, id);
    assert ChannelsOf(CloseCode(st, id), e) == ChannelsOf(st, e);
  }

  lemma CloseEntryStill(st: State, st1: State, e': nat, e: nat)
    requires Still(st, st1, e)
    ensures Still(st, CloseEntry(st1, e'), e)
  {
    hide CloseCode;
    if IsOpen(st1, e') {
      CloseStill(st1, st1.entries[e'].codeId, e);
    }
  }

  lemma ChannelStill(st: State, k: nat, e: nat)
    requires e in st.entries
    ensures Still(st, EndChannel(st, k), e) && Still(st, FailAttempt(st, k), e)
  {
    hide CloseEntry, Count;
    assert Still(st, EndChannel(st, k), e);
    if k in st.channels && st.channels[k].entry in st.entries {
      var e', st1 := st.channels[k].entry, EndChannel(st, k);
      var x := st1.entries[e'];
      var st2 := st1.(entries := st1.entries[e' := x.(failed := x.failed + 1, burned := x.burned || x.failed + 1 >= CODE_ATTEMPTS)]);
      CloseEntryStill(st, st2, e', e);
    }
  }

  lemma WithdrawStill(st: State, e': nat, e: nat)
    requires e in st.entries && e' in st.entries
    ensures Still(st, Withdraw(st, e'), e)
  {
    hide CloseEntry, Count;
    CloseEntryStill(st, EndChannelsOf(st.(entries := st.entries[e' := st.entries[e'].(burned := true)]), e'), e', e);
  }

  lemma CancelStill(st: State, id: nat, e: nat)
    requires e in st.entries
    ensures Still(st, Cancelled(st, id), e)
  {
    hide Withdraw;
    if id in st.codes && st.codes[id] in st.entries {
      WithdrawStill(st, st.codes[id], e);
    }
  }

  lemma {:induction false} PruneStill(st: State, now: int, order: seq<nat>, e: nat)
    requires e in st.entries
    ensures Still(st, PruneAll(st, now, order), e)
    decreases |order|
  {
    hide CloseCode, Count;
    if order != [] {
      CloseStill(st, order[0], e);
      PruneStill(if Stale(st, order[0], now) then CloseCode(st, order[0]) else st, now, order[1..], e);
    }
  }

  lemma FrameStill(st: State, k: nat, v: Verdict, e: nat)
    requires e in st.entries && (k in st.channels ==> st.channels[k].entry != e)
    ensures Still(st, OnPairFrame(st, k, v), e)
  {
    hide CloseEntry, FailAttempt, EndChannel, Count;
    ChannelStill(st, k, e);
    if k in st.channels && st.channels[k].entry in st.entries {
      var e' := st.channels[k].entry;
      var st1 := st.(channels := st.channels - {k},
                     entries := st.entries[e' := st.entries[e'].(inFlight := st.entries[e'].inFlight - 1, burned := true)],
                     paired := st.paired + [e']);
      CountAppend(st.paired, e', e);
      CloseEntryStill(st, st1, e', e);
      ChannelStill(Claim(st, k), k, e);
    }
  }

  lemma {:induction false} CloseAllStill(st: State, order: seq<nat>, e: nat)
    requires e in st.entries
    ensures Still(st, CloseAll(st, order), e)
    decreases |order|
  {
    hide CloseCode, Count;
    if order != [] {
      var id := order[0];
      if id in st.codes && st.codes[id] in st.entries {
        var st0 := st.(entries := st.entries[st.codes[id] := st.entries[st.codes[id]].(burned := true)]);
        CloseStill(st0, id, e);
        CloseAllStill(CloseCode(st0, id), order[1..], e);
      } else {
        CloseAllStill(st, order[1..], e);
      }
    }
  }

  lemma StepStill(st: State, step: Step, e: nat)
    requires Inv(st) && Dead(st, e)
    ensures Still(st, Next(st, step), e)
  {
    hide Entries, Channels, CloseEntry, Cancelled, PruneAll, FailAttempt, EndChannel, OnPairFrame, CloseCode, Count, CloseAll;
    match step {
      case Open(id, e', now, at, order) =>
        PruneStill(st, now, order, e);
        CancelStill(PruneAll(st, now, order), id, e);
      case Cancel(id) => CancelStill(st, id, e);
      case Prune(now, order) => PruneStill(st, now, order, e);
      case PairingAsked(k, id, now, allowed) =>
      case Frame(k, v) =>
        assert k in st.channels ==> k in ChannelsOf(st, st.channels[k].entry);
        FrameStill(st, k, v, e);
      case ChannelEnds(k) => ChannelStill(st, k, e);
      case RelayLost =>
      case Stop(order) =>
        NoChannels(st);
        CloseAllStill(EndAll(st), order, e);
    }
  }

  /** A code withdrawn, or of a member demoted, admits nobody from then on, whatever happens. */
  lemma {:induction false} DeadStays(st: State, steps: seq<Step>, e: nat)
    requires Inv(st) && Dead(st, e)
    ensures Dead(Run(st, steps), e) && Count(Run(st, steps).paired, e) == Count(st.paired, e)
    decreases |steps|
  {
    hide Inv, Next, IsOpen, Count;
    if steps != [] {
      NextKeeps(st, steps[0]);
      StepStill(st, steps[0], e);
      DeadStays(Next(st, steps[0]), steps[1..], e);
    }
  }

  lemma WithdrawnAdmitsNobody(before: seq<Step>, id: nat, after: seq<Step>)
    requires id in Run(START, before).codes
    ensures var st := Run(START, before);
            Count(Run(Next(st, Cancel(id)), after).paired, st.codes[id]) == Count(st.paired, st.codes[id])
  {
    hide Inv, Withdraw, Dead, Count;
    var st := Run(START, before);
    assert Inv(START) by { Nothing(); }
    RunKeeps(START, before);
    OpenKnown(st, id);
    WithdrawKeeps(st, st.codes[id]);
    WithdrawStill(st, st.codes[id], st.codes[id]);
    DeadStays(Withdraw(st, st.codes[id]), after, st.codes[id]);
  }

  lemma Nothing()
    ensures Inv(START)
  {}

  // ---- A code opened over another ----

  /** What opening a code leaves of the one open under its id: dead, unless it had expired with a channel left. */
  lemma OpenedOver(st: State, id: nat, e: nat, now: int, at: int, order: seq<nat>)
    requires Inv(st) && id in st.codes && e !in st.entries && forall id' | id' in st.codes :: id' in order
    ensures var st1, was := Next(st, Open(id, e, now, at, order)), st.codes[id];
            && Inv(st1) && IsOpen(st1, e) && was in st.entries && was in st1.entries
            && Count(st1.paired, was) == Count(st.paired, was)
            && (Dead(st1, was) <==> st.entries[was].expiresAt > now || ChannelsOf(st, was) == {})
            && (!Dead(st1, was) ==> st1.entries[was] == st.entries[was] && !st.entries[was].burned
                                    && ChannelsOf(st1, was) == ChannelsOf(st, was))
  {
    hide Inv, PruneAll, Withdraw, Count;
    var st0, was := PruneAll(st, now, order), st.codes[id];
    OpenStep(st, id, e, now, at, order);
    PruneKeeps(st, now, order);
    OpenKnown(st, id);
    Unburned(st, id);
    if st.entries[was].expiresAt > now {
      WithdrawKeeps(st0, was);
      WithdrawShape(st0, id);
    }
    var st2 := Cancelled(st0, id);
    assert ChannelsOf(Next(st, Open(id, e, now, at, order)), was) == ChannelsOf(st2, was);
    assert ChannelsOf(st0, was) == ChannelsOf(st, was);
  }

  lemma Unburned(st: State, id: nat)
    requires Inv(st) && id in st.codes
    ensures st.codes[id] in st.entries && !st.entries[st.codes[id]].burned
  {}

  /** How many right messages a channel is away from an admission. */
  function Left(stage: Stage): nat {
    match stage
    case P1 => 3
    case P3 => 2
    case P5 => 1
  }

  /** Messages that are all right take a channel of an unburned entry to an admission. */
  lemma RightAdmits(st: State, k: nat)
    requires Inv(st) && k in st.channels && st.channels[k].entry in st.entries && !st.entries[st.channels[k].entry].burned
    requires st.channels[k].claimed || !st.entries[st.channels[k].entry].claimed
    ensures Run(st, seq(Left(st.channels[k].stage), _ => Frame(k, Right))).paired == st.paired + [st.channels[k].entry]
    decreases Left(st.channels[k].stage)
  {
    hide Inv, CloseEntry;
    var f := Frame(k, Right);
    StageOk(st, k);
    var n, st1 := Left(st.channels[k].stage), Next(st, f);
    if st.channels[k].stage == P5 {
      CompletePairs(st, k);
      assert seq(1, _ => f)[1..] == [];
    } else {
      FrameKeeps(st, k, Right);
      RightAdmits(st1, k);
      assert seq(n, _ => f)[1..] == seq(n - 1, _ => f);
    }
  }

  lemma StageOk(st: State, k: nat)
    requires Inv(st) && k in st.channels
    ensures st.channels[k].claimed <==> st.channels[k].stage == P5
  {
    hide Entries, Codes;
    ChannelIn(st, k);
  }

  lemma CompletePairs(st: State, k: nat)
    requires k in st.channels && st.channels[k].entry in st.entries
    ensures Complete(st, k).paired == st.paired + [st.channels[k].entry]
  {}

  /** Of an unburned entry with a channel, the one that holds the claim, or any if none does. */
  lemma Candidate(st: State, e: nat) returns (k: nat)
    requires Inv(st) && e in st.entries && !st.entries[e].burned && ChannelsOf(st, e) != {}
    ensures k in st.channels && st.channels[k].entry == e && (st.channels[k].claimed || !st.entries[e].claimed)
  {
    assert Holds(st, e);
    if st.entries[e].claimed {
      k :| k in ClaimsOf(st, e);
    } else {
      k :| k in ChannelsOf(st, e);
    }
  }

  /**
    When a code is opened over one still open under its id, the old one admits nobody from then on, in any run, if
    and only if it has not expired or has no channel: an expired one is closed by the prune before it, its channels
    left as they were.
   */
  lemma OpenedOverAdmitsNobody(before: seq<Step>, id: nat, e: nat, now: int, at: int, order: seq<nat>)
    requires var st := Run(START, before);
             id in st.codes && e !in st.entries && forall id' | id' in st.codes :: id' in order
    ensures var st := Run(START, before);
            var st1, was := Next(st, Open(id, e, now, at, order)), st.codes[id];
            && was in st.entries
            && ((forall after :: Count(Run(st1, after).paired, was) == Count(st.paired, was))
                <==> st.entries[was].expiresAt > now || ChannelsOf(st, was) == {})
  {
    hide Inv, Next, Dead, Count;
    var st := Run(START, before);
    assert Inv(START) by { Nothing(); }
    RunKeeps(START, before);
    OpenedOver(st, id, e, now, at, order);
    var st1, was := Next(st, Open(id, e, now, at, order)), st.codes[id];
    if Dead(st1, was) {
      forall after ensures Count(Run(st1, after).paired, was) == Count(st.paired, was) {
        DeadStays(st1, after, was);
      }
    } else {
      var k := Candidate(st1, was);
      RightAdmits(st1, k);
      CountAppend(st1.paired, was, was);
      assert Count(Run(st1, seq(Left(st1.channels[k].stage), _ => Frame(k, Right))).paired, was) != Count(st.paired, was);
    }
  }

  /** Such a run: a default code expires with a newcomer on its way, another is opened, and the first still admits. */
  lemma ExpiredStillAdmits()
    ensures var first := [Open(0, 1, 0, 10, []), PairingAsked(7, 0, 5, true), Open(0, 2, 10, 20, [0])];
            var st := Run(START, first + [Frame(7, Right), Frame(7, Right), Frame(7, Right)]);
            st.paired == [1] && IsOpen(st, 2)
  {
    var o1, o2, o3, f := Open(0, 1, 0, 10, []), PairingAsked(7, 0, 5, true), Open(0, 2, 10, 20, [0]), Frame(7, Right);
    var first := [o1, o2, o3];
    var old1 := Entry(0, 10, 0, 0, false, false);
    var st1 := State(map[1 := old1], map[0 := 1], map[], {0}, [], []);
    assert Next(START, o1) == st1;
    var st2 := State(map[1 := old1.(inFlight := 1)], map[0 := 1], map[7 := Channel(1, P1, false)], {0}, [], []);
    assert Next(st1, o2) == st2;
    var st3 := Next(st2, o3);
    assert PruneAll(st2, 10, [0]) == PruneAll(CloseCode(st2, 0), 10, [0][1..]);
    assert st3 == OpenNew(st2.(codes := map[]), 0, 2, 20);
    var all := first + [f, f, f];
    RunSix(START, all);
  }

  lemma RunSix(st: State, s: seq<Step>)
    requires |s| == 6
    ensures Run(st, s) == Next(Next(Next(Next(Next(Next(st, s[0]), s[1]), s[2]), s[3]), s[4]), s[5])
  {
    hide Next;
    var a := Next(Next(st, s[0]), s[1]);
    var b := Next(Next(a, s[2]), s[3]);
    assert s[1..][1..] == s[2..] && s[1..][0] == s[1];
    assert Run(st, s) == Run(Next(st, s[0]), s[1..]) == Run(a, s[2..]);
    assert s[2..][1..] == s[3..] && s[3..][1..] == s[4..] && s[3..][0] == s[3];
    assert Run(a, s[2..]) == Run(Next(a, s[2]), s[3..]) == Run(b, s[4..]);
    assert s[4..][1..] == s[5..] && s[5..][1..] == [] && s[5..][0] == s[5];
    var c := Next(b, s[4]);
    assert Run(b, s[4..]) == Run(c, s[5..]) == Run(Next(c, s[5]), []);
  }

  lemma DemotedAdmitsNobody(before: seq<Step>, order: seq<nat>, after: seq<Step>, e: nat)
    requires var st := Run(START, before);
             e in st.entries && forall id | id in st.codes :: id in order
    ensures var st := Run(START, before);
            Count(Run(Next(st, Stop(order)), after).paired, e) == Count(st.paired, e)
  {
    hide Inv, EndAll, CloseAll, Count;
    var st := Run(START, before);
    assert Inv(START) by { Nothing(); }
    RunKeeps(START, before);
    var st1 := EndAll(st);
    EndAllKeeps(st);
    NoChannels(st);
    CloseAllKeeps(st1, order);
    CloseAllStill(st1, order, e);
    assert Dead(CloseAll(st1, order), e);
    DeadStays(CloseAll(st1, order), after, e);
    assert st1.paired == st.paired by { EndAllPaired(st); }
  }

  lemma EndAllPaired(st: State)
    ensures EndAll(st).paired == st.paired
  {}

  /** The code open under `id` is open as before, and its entry as it was. */
  predicate LeavesOpen(st: State, st1: State, id: nat) {
    && id in st.codes && id in st1.codes && st1.codes[id] == st.codes[id]
    && st.codes[id] in st.entries && st.codes[id] in st1.entries && st1.entries[st.codes[id]] == st.entries[st.codes[id]]
  }

  /** What happens on a channel closes at most its own entry's code: one opened since under the same id stays open. */
  lemma OldCodeLeavesNew(st: State, k: nat, v: Verdict, id: nat)
    requires Inv(st) && k in st.channels && id in st.codes && st.codes[id] != st.channels[k].entry
    ensures LeavesOpen(st, OnPairFrame(st, k, v), id) && LeavesOpen(st, EndChannel(st, k), id)
  {
    hide Entries, Trim, CloseCode;
    var e := st.channels[k].entry;
    assert ChannelOk(st, k);
    CloseLeaves(st, e, id);
    LeavesOthers(st, k, id);
    LeavesOthers(Claim(st, k), k, id);
    CompleteLeaves(st, k, id);
  }

  lemma CloseLeaves(st: State, e: nat, id: nat)
    requires id in st.codes && st.codes[id] != e
    ensures var st1 := CloseEntry(st, e);
            id in st1.codes && st1.codes[id] == st.codes[id] && st1.entries == st.entries
  {
    hide CloseCode;
    if IsOpen(st, e) {
      CloseAside(st, st.entries[e].codeId);
    }
  }

  lemma LeavesOthers(st: State, k: nat, id: nat)
    requires k in st.channels && id in st.codes && st.codes[id] in st.entries && st.codes[id] != st.channels[k].entry
    ensures LeavesOpen(st, FailAttempt(st, k), id)
  {
    hide CloseEntry;
    if st.channels[k].entry in st.entries {
      var e, st1 := st.channels[k].entry, EndChannel(st, k);
      var x := st1.entries[e];
      CloseLeaves(st1.(entries := st1.entries[e := x.(failed := x.failed + 1, burned := x.burned || x.failed + 1 >= CODE_ATTEMPTS)]), e, id);
    }
  }

  lemma CompleteLeaves(st: State, k: nat, id: nat)
    requires k in st.channels && st.channels[k].entry in st.entries
    requires id in st.codes && st.codes[id] in st.entries && st.codes[id] != st.channels[k].entry
    ensures LeavesOpen(st, Complete(st, k), id)
  {
    hide CloseEntry;
    var e := st.channels[k].entry;
    var x := st.entries[e];
    CloseLeaves(st.(channels := st.channels - {k},
                    entries := st.entries[e := x.(inFlight := x.inFlight - 1, burned := true)],
                    paired := st.paired + [e]), e, id);
  }
}
