/**
  The primary's pairing state as the code keeps it (client-go/primary.go): maps updated in place, and loops over
  them in whatever order the map gives.
 */
module PrimaryState {

  import opened Basics
  import opened Pairing

  /** The channels in `done` ended, in any order. */
  function Ended(st: State, done: set<nat>): State {
    st.(channels := st.channels - done,
        entries := map e | e in st.entries ::
          st.entries[e].(inFlight := st.entries[e].inFlight - |done * ChannelsOf(st, e)|,
                         claimed := st.entries[e].claimed && done * ClaimsOf(st, e) == {}))
  }

  lemma EndedNone(st: State)
    ensures Ended(st, {}) == st
  {
    var st1 := Ended(st, {});
    forall e | e in st.entries ensures st1.entries[e] == st.entries[e] {
      assert {} * ChannelsOf(st, e) == {} && {} * ClaimsOf(st, e) == {};
    }
    assert st1.entries == st.entries && st1.channels == st.channels;
  }

  lemma EndedMore(st: State, done: set<nat>, k: nat)
    requires k in st.channels && k !in done && st.channels[k].entry in st.entries
    ensures EndChannel(Ended(st, done), k) == Ended(st, done + {k})
  {
    hide ChannelsOf, ClaimsOf;
    var entries1, entries2 := EndChannel(Ended(st, done), k).entries, Ended(st, done + {k}).entries;
    assert EndChannel(Ended(st, done), k).channels == st.channels - (done + {k});
    assert entries1.Keys == entries2.Keys;
    forall e | e in st.entries ensures entries1[e] == entries2[e] {
      EndedEntryMore(st, done, k, e);
    }
    assert entries1 == entries2;
  }

  lemma EndedEntryMore(st: State, done: set<nat>, k: nat, e: nat)
    requires k in st.channels && k !in done && st.channels[k].entry in st.entries && e in st.entries
    ensures EndChannel(Ended(st, done), k).entries[e] == Ended(st, done + {k}).entries[e]
  {
    hide ChannelsOf, ClaimsOf;
    EndedOne(done, k, ChannelsOf(st, e), ClaimsOf(st, e));
    Belongs(st, k, e);
  }

  lemma Belongs(st: State, k: nat, e: nat)
    requires k in st.channels
    ensures k in ChannelsOf(st, e) <==> st.channels[k].entry == e
    ensures k in ClaimsOf(st, e) <==> st.channels[k].entry == e && st.channels[k].claimed
  {}

  lemma EndedOne(done: set<nat>, k: nat, live: set<nat>, claims: set<nat>)
    requires k !in done
    ensures |(done + {k}) * live| == |done * live| + if k in live then 1 else 0
    ensures (done + {k}) * claims == {} <==> done * claims == {} && k !in claims
  {
    if k in live {
      assert (done + {k}) * live == done * live + {k};
    } else {
      assert (done + {k}) * live == done * live;
    }
    if k in claims {
      assert k in (done + {k}) * claims;
    } else {
      assert (done + {k}) * claims == done * claims;
    }
  }

  lemma Overlap(st: State, e: nat, e': nat)
    ensures e' == e ==> ChannelsOf(st, e) * ChannelsOf(st, e') == ChannelsOf(st, e) && ChannelsOf(st, e) * ClaimsOf(st, e') == ClaimsOf(st, e)
    ensures e' != e ==> ChannelsOf(st, e) * ChannelsOf(st, e') == {} && ChannelsOf(st, e) * ClaimsOf(st, e') == {}
    ensures st.channels.Keys * ChannelsOf(st, e) == ChannelsOf(st, e) && st.channels.Keys * ClaimsOf(st, e) == ClaimsOf(st, e)
  {}

  lemma EndedEntry(st: State, done: set<nat>, e: nat, e': nat)
    requires e in st.entries && e' in st.entries && done == ChannelsOf(st, e)
    ensures Ended(st, done).entries[e'] == EndChannelsOf(st, e).entries[e']
  {
    hide ChannelsOf, ClaimsOf;
    Overlap(st, e, e');
  }

  lemma EndedOf(st: State, e: nat)
    requires e in st.entries
    ensures Ended(st, ChannelsOf(st, e)) == EndChannelsOf(st, e)
  {
    hide ChannelsOf, ClaimsOf;
    var done := ChannelsOf(st, e);
    var entries1, entries2 := Ended(st, done).entries, EndChannelsOf(st, e).entries;
    assert entries1.Keys == entries2.Keys;
    forall e' | e' in st.entries ensures entries1[e'] == entries2[e'] {
      EndedEntry(st, done, e, e');
    }
    assert entries1 == entries2;
  }

  lemma EndedEntryAll(st: State, done: set<nat>, e: nat)
    requires e in st.entries && done == st.channels.Keys
    ensures Ended(st, done).entries[e] == EndAll(st).entries[e]
  {
    hide ChannelsOf, ClaimsOf;
    Overlap(st, e, e);
  }

  lemma EndedAll(st: State)
    ensures Ended(st, st.channels.Keys) == EndAll(st)
  {
    hide ChannelsOf, ClaimsOf;
    var done := st.channels.Keys;
    var entries1, entries2 := Ended(st, done).entries, EndAll(st).entries;
    assert entries1.Keys == entries2.Keys;
    forall e | e in st.entries ensures entries1[e] == entries2[e] {
      EndedEntryAll(st, done, e);
    }
    assert entries1 == entries2;
    assert st.channels - done == map[];
  }

  class Primary {
    var entries: map<nat, Entry>
    var codes: map<nat, nat>
    var channels: map<nat, Channel>
    var issued: set<nat>
    var closed: seq<nat>
    var paired: seq<nat>

    function S(): State
      reads this
    {
      State(entries, codes, channels, issued, closed, paired)
    }

    constructor ()
      ensures Inv(S()) && S() == START
    {
      entries, codes, channels, issued, closed, paired := map[], map[], map[], {}, [], [];
      new;
      Nothing();
    }

    method CloseCode(id: nat)
      modifies this`codes, this`issued, this`closed
      ensures S() == Pairing.CloseCode(old(S()), id)
    {
      if id !in codes {
        return;
      }
      codes := codes - {id};
      if id == DEFAULT_CODE {
        return;
      }
      closed := closed + [id];
      while |closed| > CLOSED_CODES
        invariant codes == old(codes) - {id}
        invariant Trim(codes, issued, closed) == Trim(codes, old(issued), old(closed) + [id])
        decreases |closed|
      {
        var oldest := closed[0];
        closed := closed[1..];
        if oldest !in codes {
          issued := issued - {oldest};
        }
      }
    }

    method CloseEntry(e: nat)
      modifies this`codes, this`issued, this`closed
      ensures S() == Pairing.CloseEntry(old(S()), e)
    {
      if IsOpen(S(), e) {
        CloseCode(entries[e].codeId);
      }
    }

    method EndChannel(k: nat)
      requires k in channels ==> channels[k].entry in entries
      modifies this`entries, this`channels
      ensures S() == Pairing.EndChannel(old(S()), k)
    {
      if k !in channels {
        return;
      }
      var ch := channels[k];
      channels := channels - {k};
      var x := entries[ch.entry];
      x := x.(inFlight := x.inFlight - 1);
      if ch.claimed {
        x := x.(claimed := false);
      }
      entries := entries[ch.entry := x];
    }

    method FailAttempt(k: nat)
      requires k in channels && channels[k].entry in entries
      modifies this`entries, this`channels, this`codes, this`issued, this`closed
      ensures S() == Pairing.FailAttempt(old(S()), k)
    {
      hide Pairing.CloseEntry;
      var e := channels[k].entry;
      EndChannel(k);
      ghost var st, x := S(), entries[e];
      entries := entries[e := entries[e].(failed := entries[e].failed + 1)];
      if entries[e].failed >= CODE_ATTEMPTS {
        entries := entries[e := entries[e].(burned := true)];
        assert S() == st.(entries := st.entries[e := x.(failed := x.failed + 1, burned := true)]);
        CloseEntry(e);
      } else {
        assert S() == st.(entries := st.entries[e := x.(failed := x.failed + 1, burned := x.burned)]);
      }
    }

    /** withdraw: whatever order its channels are met in, they all end, the code is burned and closed. */
    method Withdraw(e: nat)
      requires Inv(S()) && e in entries
      modifies this`entries, this`channels, this`codes, this`issued, this`closed
      ensures S() == Pairing.Withdraw(old(S()), e)
      ensures Inv(S()) && e in entries && entries[e].burned && Dead(S(), e)
    {
      hide Entries, Codes, Pairing.CloseEntry, Pairing.EndChannel, Ended, EndChannelsOf, Dead;
      WithdrawKeeps(S(), e);
      ghost var ok := KnownChannels(S());
      entries := entries[e := entries[e].(burned := true)];
      ghost var st := S();
      ghost var done: set<nat> := {};
      EndedNone(st);
      var todo := channels.Keys;
      while todo != {}
        invariant S() == Ended(st, done) && todo <= st.channels.Keys
        invariant done == set k | k in st.channels && k !in todo && st.channels[k].entry == e
        decreases todo
      {
        var k :| k in todo;
        EndedKeeps(st, done, k);
        if channels[k].entry == e {
          EndedMore(st, done, k);
          EndChannel(k);
          done := done + {k};
        }
        todo := todo - {k};
      }
      assert done == ChannelsOf(st, e);
      EndedOf(st, e);
      CloseEntry(e);
    }

    /** onConnectionState: every channel ends, its slot refunded. */
    method RelayLost()
      requires Inv(S())
      modifies this`entries, this`channels
      ensures S() == EndAll(old(S())) && Inv(S())
    {
      hide Entries, Codes, Pairing.EndChannel, Ended, EndAll;
      EndAllKeeps(S());
      ghost var ok := KnownChannels(S());
      ghost var st, done: set<nat> := S(), {};
      EndedNone(st);
      var todo := channels.Keys;
      while todo != {}
        invariant S() == Ended(st, done) && todo <= st.channels.Keys && done == st.channels.Keys - todo
        decreases todo
      {
        var k :| k in todo;
        EndedKeeps(st, done, k);
        EndedMore(st, done, k);
        EndChannel(k);
        done, todo := done + {k}, todo - {k};
      }
      assert done == st.channels.Keys;
      EndedAll(st);
    }

    method OnPairing(k: nat, id: nat, now: int, allowed: bool) returns (began: bool)
      requires Inv(S())
      modifies this`entries, this`channels
      ensures S() == Pairing.OnPairing(old(S()), k, id, now, allowed) && Inv(S())
      ensures began <==> k in channels && k !in old(channels)
    {
      hide Inv;
      PairingKeeps(S(), k, id, now, allowed);
      OpenKnown(S(), id);
      if k in channels || id !in codes {
        return false;
      }
      var e := codes[id];
      if entries[e].burned || entries[e].expiresAt <= now || entries[e].claimed {
        return false;
      }
      if entries[e].failed + entries[e].inFlight >= CODE_ATTEMPTS || !allowed {
        return false;
      }
      entries := entries[e := entries[e].(inFlight := entries[e].inFlight + 1)];
      channels := channels[k := Channel(e, P1, false)];
      return true;
    }

    method OnPairFrame(k: nat, v: Verdict)
      requires Inv(S())
      modifies this`entries, this`channels, this`codes, this`issued, this`closed, this`paired
      ensures S() == Pairing.OnPairFrame(old(S()), k, v) && Inv(S())
      ensures |paired| <= |old(paired)| + 1
    {
      hide Inv, Pairing.CloseEntry, Pairing.FailAttempt, Pairing.EndChannel;
      FrameKeeps(S(), k, v);
      if k !in channels {
        return;
      }
      assert channels[k].entry in entries by { assert Inv(S()); OnlyClaim(S(), k); }
      var ch := channels[k];
      var e := ch.entry;
      match ch.stage {
        case P1 =>
          if v == Right {
            channels := channels[k := ch.(stage := P3)];
            return;
          }
        case P3 =>
          if v == Wrong {
            FailAttempt(k);
            return;
          }
          if v == Right || v == NoReply {
            if entries[e].claimed || entries[e].burned {
              EndChannel(k);
              return;
            }
            entries := entries[e := entries[e].(claimed := true)];
            channels := channels[k := ch.(claimed := true, stage := P5)];
            if v == Right {
              return;
            }
          }
        case P5 =>
          if v == Inadmissible {
            EndChannel(k);
            return;
          }
          if v == Right {
            channels := channels - {k};
            entries := entries[e := entries[e].(inFlight := entries[e].inFlight - 1, burned := true)];
            paired := paired + [e];
            CloseEntry(e);
            return;
          }
      }
      FailAttempt(k);
    }

    /** OpenPairingCode, once the roster is known to have room: stale codes are pruned first, then a code still open
        under the id is withdrawn. */
    method Open(id: nat, e: nat, now: int, expiresAt: int) returns (ghost order: seq<nat>)
      requires Inv(S()) && e !in entries
      modifies this`entries, this`channels, this`codes, this`issued, this`closed
      ensures (forall id' | id' in old(codes) :: id' in order) && S() == Next(old(S()), Step.Open(id, e, now, expiresAt, order))
      ensures Inv(S()) && IsOpen(S(), e)
      ensures id in old(codes) && old(codes)[id] in old(entries) ==>
                var was := old(codes)[id];
                Dead(S(), was) <==> old(entries)[was].expiresAt > now || ChannelsOf(old(S()), was) == {}
    {
      hide Inv, Pairing.Withdraw, Dead, PruneAll;
      ghost var st := S();
      order := PruneCodes(now);
      if id in st.codes {
        OpenedOver(st, id, e, now, expiresAt, order);
      }
      OpenStep(st, id, e, now, expiresAt, order);
      OpenKnown(S(), id);
      if id in codes {
        Withdraw(codes[id]);
      }
      entries := entries[e := Entry(id, expiresAt, 0, 0, false, false)];
      codes, issued := codes[id := e], issued + {id};
    }

    /** pruneCodes: in whatever order they are met, the open codes left have not expired; their channels, and those of
        the codes closed, go on. */
    method PruneCodes(now: int) returns (ghost order: seq<nat>)
      requires Inv(S())
      modifies this`codes, this`issued, this`closed
      ensures (forall id | id in old(codes) :: id in order) && S() == PruneAll(old(S()), now, order) && Inv(S())
      ensures forall id :: id in codes <==> id in old(codes) && !Stale(old(S()), id, now)
    {
      hide Inv, Stale, Pairing.CloseCode;
      ghost var st := S();
      order := [];
      var todo := codes.Keys;
      while todo != {}
        invariant S() == PruneAll(st, now, order) && Inv(S()) && todo <= codes.Keys <= st.codes.Keys
        invariant forall id | id in st.codes :: id in todo || id in order
        invariant forall id | id in todo :: id !in order
        decreases todo
      {
        var id :| id in todo;
        PruneOneMore(st, now, order, id);
        PruneKeeps(st, now, order + [id]);
        PruneKeeps(st, now, order);
        StaleKnown(S(), id, now);
        todo, order := todo - {id}, order + [id];
        if entries[codes[id]].burned || entries[codes[id]].expiresAt <= now {
          CloseCode(id);
        }
      }
      PruneKeeps(st, now, order);
    }

    /** stop: no channel and no open code is left, so no entry can admit any more. */
    method Stop()
      requires Inv(S())
      modifies this`entries, this`channels, this`codes, this`issued, this`closed
      ensures Inv(S()) && channels == map[] && codes == map[] && paired == old(paired)
      ensures forall e | e in entries :: Dead(S(), e)
    {
      hide Inv, EndAll;
      NoChannels(S());
      RelayLost();
      var todo := codes.Keys;
      while todo != {}
        invariant Inv(S()) && codes.Keys == todo && channels == map[] && paired == old(paired)
        decreases todo
      {
        var id :| id in todo;
        OpenKnown(S(), id);
        BurnAndClose(S(), id);
        entries := entries[codes[id] := entries[codes[id]].(burned := true)];
        CloseAside(S(), id);
        CloseCode(id);
        todo := todo - {id};
      }
    }
  }

  lemma StaleKnown(st: State, id: nat, now: int)
    requires Inv(st) && id in st.codes
    ensures st.codes[id] in st.entries
    ensures Stale(st, id, now) <==> st.entries[st.codes[id]].burned || st.entries[st.codes[id]].expiresAt <= now
  {}

  ghost function KnownChannels(st: State): (ok: bool)
    requires Inv(st)
    ensures ok && forall k | k in st.channels :: st.channels[k].entry in st.entries
  {
    assert forall k | k in st.channels :: ChannelOk(st, k);
    true
  }

  lemma EndedKeeps(st: State, done: set<nat>, k: nat)
    requires k in st.channels && k !in done
    ensures k in Ended(st, done).channels && Ended(st, done).channels[k] == st.channels[k]
    ensures Ended(st, done).entries.Keys == st.entries.Keys
  {}
}
