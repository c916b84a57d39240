/**
  Rosters: when one is valid, how the next is made and signed, and which members take
  (client-go/roster.go, client-go/primary.go, client-go/role.go, client-go/member.go). Keys, signatures and the
  size of a roster's canonical text are given by a suite; ids are ordered as naturals.
 */
module Rosters {

  import opened Basics

  const MAX_ROSTER_BYTES := 65000
  const MAX_SAFE := 0x20_0000_0000_0000 - 1

  datatype Member = Member(id: nat, ed: nat, x: nat)

  datatype Unsigned = Unsigned(
    network: nat, version: int, issuedAt: int, relay: Option<nat>, networkKey: nat, primary: nat, members: seq<Member>)

  datatype Roster = Roster(u: Unsigned, signature: nat)

  /** The primitives: ids of keys, signatures, and the bytes a signed roster takes. */
  datatype Suite = Suite(
    idOf: nat -> nat, isId: nat -> bool, keyOk: nat -> bool,
    publicOf: nat -> nat, sign: (nat, Unsigned) -> nat, signatureOk: nat -> bool, verify: (nat, Unsigned, nat) -> bool,
    sizeOf: Unsigned -> nat)

  ghost predicate Lawful(s: Suite) {
    && (forall k :: s.keyOk(k) ==> s.isId(s.idOf(k)))
    && (forall seed :: s.keyOk(s.publicOf(seed)))
    && (forall seed, u :: s.signatureOk(s.sign(seed, u)) && s.verify(s.publicOf(seed), u, s.sign(seed, u)))
  }

  // ---- Validity ----

  predicate Sorted(ms: seq<Member>) { forall i, j | 0 <= i < j < |ms| :: ms[i].id < ms[j].id }

  predicate Lists(ms: seq<Member>, id: nat) { exists i | 0 <= i < |ms| :: ms[i].id == id }

  predicate MemberOk(s: Suite, m: Member) { s.keyOk(m.ed) && s.keyOk(m.x) && s.idOf(m.ed) == m.id }

  predicate MembersOk(s: Suite, ms: seq<Member>) { forall i | 0 <= i < |ms| :: MemberOk(s, ms[i]) }

  /** Valid but for its signature and its numbers. */
  predicate Formed(s: Suite, u: Unsigned) {
    && s.keyOk(u.networkKey) && s.idOf(u.networkKey) == u.network
    && Sorted(u.members) && MembersOk(s, u.members) && Lists(u.members, u.primary)
  }

  predicate NumbersOk(s: Suite, u: Unsigned) {
    1 <= u.version <= MAX_SAFE && 0 <= u.issuedAt <= MAX_SAFE && s.sizeOf(u) <= MAX_ROSTER_BYTES
  }

  predicate Valid(s: Suite, r: Roster) {
    Formed(s, r.u) && NumbersOk(s, r.u) && s.signatureOk(r.signature) && s.verify(r.u.networkKey, r.u, r.signature)
  }

  datatype Problem = BadNetwork | BadVersion | BadIssuedAt | BadKey | BadPrimary | BadMember | Unsorted | Unlisted | TooBig | BadSignature

  /** Problem's loop over the members, with its flag. */
  method CheckMembers(s: Suite, ms: seq<Member>, primary: nat) returns (p: Option<Problem>, listed: bool)
    requires Lawful(s)
    ensures p.None? <==> Sorted(ms) && MembersOk(s, ms)
    ensures p.None? ==> (listed <==> Lists(ms, primary))
  {
    listed := false;
    for i := 0 to |ms|
      invariant Sorted(ms[..i]) && MembersOk(s, ms[..i])
      invariant listed <==> Lists(ms[..i], primary)
    {
      var m := ms[i];
      assert ms[..i + 1] == ms[..i] + [m];
      if !s.isId(m.id) {
        assert MemberOk(s, m) ==> s.isId(m.id);
        return Some(BadMember), listed;
      }
      if i > 0 && ms[i - 1].id >= m.id {
        return Some(Unsorted), listed;
      }
      if !s.keyOk(m.ed) || !s.keyOk(m.x) || s.idOf(m.ed) != m.id {
        assert !MemberOk(s, ms[i]);
        return Some(BadMember), listed;
      }
      SortedMore(ms[..i], m);
      ListsMore(ms[..i], m, primary);
      if m.id == primary {
        listed := true;
      }
    }
    assert ms[..|ms|] == ms;
    return None, listed;
  }

  /** Problem: the checks in the order of the code find none exactly when the roster is valid. */
  method FindProblem(s: Suite, r: Roster) returns (p: Option<Problem>)
    requires Lawful(s)
    ensures p.None? <==> Valid(s, r)
  {
    hide Sorted, MembersOk, Lists;
    var u := r.u;
    if !s.isId(u.network) {
      return Some(BadNetwork);
    }
    if u.version < 1 || u.version > MAX_SAFE {
      return Some(BadVersion);
    }
    if u.issuedAt < 0 || u.issuedAt > MAX_SAFE {
      return Some(BadIssuedAt);
    }
    if !s.keyOk(u.networkKey) {
      return Some(BadKey);
    }
    if s.idOf(u.networkKey) != u.network {
      return Some(BadNetwork);
    }
    if !s.isId(u.primary) {
      PrimaryIsId(s, u);
      return Some(BadPrimary);
    }
    var problem, listed := CheckMembers(s, u.members, u.primary);
    if problem.Some? {
      return problem;
    }
    if !listed {
      return Some(Unlisted);
    }
    if s.sizeOf(u) > MAX_ROSTER_BYTES {
      return Some(TooBig);
    }
    if !s.signatureOk(r.signature) || !s.verify(u.networkKey, u, r.signature) {
      return Some(BadSignature);
    }
    return None;
  }

  lemma PrimaryIsId(s: Suite, u: Unsigned)
    requires Lawful(s)
    ensures Formed(s, u) ==> s.isId(u.primary)
  {
    if Formed(s, u) {
      var i :| 0 <= i < |u.members| && u.members[i].id == u.primary;
      assert MemberOk(s, u.members[i]);
    }
  }

  lemma SortedMore(ms: seq<Member>, m: Member)
    requires Sorted(ms) && (ms != [] ==> ms[|ms| - 1].id < m.id)
    ensures Sorted(ms + [m])
  {}

  lemma ListsMore(ms: seq<Member>, m: Member, id: nat)
    ensures Lists(ms + [m], id) <==> Lists(ms, id) || m.id == id
  {
    var all := ms + [m];
    assert all[|ms|] == m;
    if Lists(ms, id) {
      var i :| 0 <= i < |ms| && ms[i].id == id;
      assert all[i] == ms[i];
    }
  }

  /** AcceptanceProblem: valid, by the pinned key, and newer than what is held. */
  predicate Acceptable(s: Suite, r: Roster, pinned: nat, held: int) {
    Valid(s, r) && r.u.networkKey == pinned && r.u.version > held
  }

  // ---- Sorting ----

  function Insert(m: Member, ms: seq<Member>): seq<Member> {
    if ms == [] || m.id <= ms[0].id then [m] + ms else [ms[0]] + Insert(m, ms[1..])
  }

  function Sort(ms: seq<Member>): seq<Member> { if ms == [] then [] else Insert(ms[0], Sort(ms[1..])) }

  predicate DistinctIds(ms: seq<Member>) { forall i, j | 0 <= i < j < |ms| :: ms[i].id != ms[j].id }

  lemma {:induction false} InsertIn(m: Member, ms: seq<Member>, x: Member)
    ensures x in Insert(m, ms) <==> x == m || x in ms
  {
    if ms != [] && m.id > ms[0].id {
      InsertIn(m, ms[1..], x);
    }
  }

  lemma {:induction false} SortIn(ms: seq<Member>, x: Member)
    ensures x in Sort(ms) <==> x in ms
  {
    hide Insert;
    if ms != [] {
      InsertIn(ms[0], Sort(ms[1..]), x);
      SortIn(ms[1..], x);
    }
  }

  lemma {:induction false} InsertSorted(m: Member, ms: seq<Member>)
    requires Sorted(ms) && forall i | 0 <= i < |ms| :: ms[i].id != m.id
    ensures Sorted(Insert(m, ms))
  {
    if ms != [] && m.id > ms[0].id {
      assert forall i | 0 <= i < |ms[1..]| :: ms[1..][i] == ms[i + 1];
      InsertSorted(m, ms[1..]);
      var r, rest := Insert(m, ms), Insert(m, ms[1..]);
      forall i, j | 0 <= i < j < |r| ensures r[i].id < r[j].id {
        assert r[j] == rest[j - 1] && rest[j - 1] in rest;
        InsertIn(m, ms[1..], r[j]);
        assert i > 0 ==> r[i] == rest[i - 1];
      }
    }
  }

  lemma {:induction false} SortSorted(ms: seq<Member>)
    requires DistinctIds(ms)
    ensures Sorted(Sort(ms))
  {
    hide Insert;
    if ms != [] {
      assert forall i | 0 <= i < |ms[1..]| :: ms[1..][i] == ms[i + 1];
      SortSorted(ms[1..]);
      var s := Sort(ms[1..]);
      forall i | 0 <= i < |s| ensures s[i].id != ms[0].id {
        SortIn(ms[1..], s[i]);
        assert s[i] in ms[1..];
      }
      InsertSorted(ms[0], s);
    }
  }

  /** Sorting sorted members changes nothing. */
  lemma {:induction false} SortTwice(ms: seq<Member>)
    requires Sorted(ms)
    ensures Sort(ms) == ms
  {
    if ms != [] {
      assert forall i | 0 <= i < |ms[1..]| :: ms[1..][i] == ms[i + 1];
      SortTwice(ms[1..]);
      assert Insert(ms[0], ms[1..]) == [ms[0]] + ms[1..];
    }
  }

  // ---- The next roster ----

  datatype Outcome = Made(roster: Roster) | Full | Refused

  /** nextUnsigned, for a primary given. */
  function NextUnsigned(prev: Unsigned, members: seq<Member>, primary: nat, now: int): Unsigned {
    prev.(version := prev.version + 1, issuedAt := Max(now, prev.issuedAt), primary := primary, members := Sort(members))
  }

  /** SignRoster: sorted, signed, and refused if it has a problem. */
  function SignRoster(s: Suite, u: Unsigned, seed: nat): Outcome {
    var u1 := u.(members := Sort(u.members));
    var r := Roster(u1, s.sign(seed, u1));
    if Valid(s, r) then Made(r) else Refused
  }

  /** nextRoster: the size is tried before signing. */
  function NextRoster(s: Suite, prev: Unsigned, members: seq<Member>, now: int, seed: nat): Outcome {
    var u := NextUnsigned(prev, members, prev.primary, now);
    if s.sizeOf(u) > MAX_ROSTER_BYTES then Full else SignRoster(s, u, seed)
  }

  function WithoutMember(ms: seq<Member>, id: nat): seq<Member> {
    if ms == [] then [] else (if ms[0].id == id then [] else [ms[0]]) + WithoutMember(ms[1..], id)
  }

  function Revoke(s: Suite, self: nat, prev: Unsigned, id: nat, now: int, seed: nat): Outcome {
    if id == self || !Lists(prev.members, id) then Refused else NextRoster(s, prev, WithoutMember(prev.members, id), now, seed)
  }

  function OnResign(s: Suite, prev: Unsigned, from: nat, now: int, seed: nat): Outcome {
    if !Lists(prev.members, from) || from == prev.primary then Refused else NextRoster(s, prev, WithoutMember(prev.members, from), now, seed)
  }

  /** completePairing's roster: the newcomer's id comes from its key. */
  function Pair(s: Suite, prev: Unsigned, ed: nat, x: nat, now: int, seed: nat): Outcome {
    if Lists(prev.members, s.idOf(ed)) then Refused else NextRoster(s, prev, prev.members + [Member(s.idOf(ed), ed, x)], now, seed)
  }

  function Claim(s: Suite, self: nat, prev: Unsigned, now: int, seed: nat): Outcome {
    if prev.primary == self || !Lists(prev.members, self) then Refused
    else SignRoster(s, NextUnsigned(prev, prev.members, self, now), seed)
  }

  function Place(s: Suite, prev: Roster, relay: nat, now: int, seed: nat): Outcome {
    if !Valid(s, prev) || prev.u.relay.Some? || s.publicOf(seed) != prev.u.networkKey || !(0 <= now <= MAX_SAFE) then Refused
    else
      var u := prev.u.(version := prev.u.version + 1, issuedAt := Max(now, prev.u.issuedAt), relay := Some(relay));
      if s.sizeOf(u) > MAX_ROSTER_BYTES then Full
      else
        var r := Roster(u, s.sign(seed, u));
        if Valid(s, r) then Made(r) else Refused
  }

  // ---- Every next roster is good ----

  /** What a seed signs verifies, so only the content decides. */
  lemma SignedOk(s: Suite, u: Unsigned, seed: nat)
    requires Lawful(s) && s.publicOf(seed) == u.networkKey
    ensures Valid(s, Roster(u, s.sign(seed, u))) <==> Formed(s, u) && NumbersOk(s, u)
  {}

  /** The next roster: valid, one version on, and taken by everyone on this key with an older one. */
  predicate Succeeds(s: Suite, prev: Roster, r: Roster) {
    && Valid(s, r) && r.u.version == prev.u.version + 1
    && r.u.network == prev.u.network && r.u.networkKey == prev.u.networkKey
    && r.u.issuedAt >= prev.u.issuedAt
  }

  lemma TakenByAll(s: Suite, prev: Roster, r: Roster, held: int)
    requires Succeeds(s, prev, r) && held <= prev.u.version
    ensures Acceptable(s, r, prev.u.networkKey, held)
  {}

  /** What can stand in the way: the size, and the bounds of versions and times. */
  predicate Fits(s: Suite, prev: Unsigned, u: Unsigned, now: int) {
    s.sizeOf(u) <= MAX_ROSTER_BYTES && prev.version < MAX_SAFE && now <= MAX_SAFE
  }

  lemma SortForms(s: Suite, ms: seq<Member>, id: nat)
    requires DistinctIds(ms) && MembersOk(s, ms)
    ensures Sorted(Sort(ms)) && MembersOk(s, Sort(ms)) && Sort(Sort(ms)) == Sort(ms)
    ensures Lists(Sort(ms), id) <==> Lists(ms, id)
  {
    hide Sort, MemberOk;
    SortSorted(ms);
    SortTwice(Sort(ms));
    var r := Sort(ms);
    forall i | 0 <= i < |r| ensures MemberOk(s, r[i]) && Lists(ms, r[i].id) {
      SortIn(ms, r[i]);
      assert r[i] in ms;
    }
    if Lists(ms, id) {
      var i :| 0 <= i < |ms| && ms[i].id == id;
      SortIn(ms, ms[i]);
      assert ms[i] in r;
    }
  }

  lemma NextGood(s: Suite, prev: Roster, members: seq<Member>, primary: nat, now: int, seed: nat)
    requires Lawful(s) && Valid(s, prev) && s.publicOf(seed) == prev.u.networkKey
    requires DistinctIds(members) && MembersOk(s, members) && Lists(members, primary)
    ensures var u := NextUnsigned(prev.u, members, primary, now);
            var out := SignRoster(s, u, seed);
            && (out.Made? <==> Fits(s, prev.u, u, now)) && !out.Full?
            && (out.Made? ==> Succeeds(s, prev, out.roster) && out.roster.u == u)
  {
    hide Sorted, MembersOk, Lists, Sort, DistinctIds;
    var u := NextUnsigned(prev.u, members, primary, now);
    SortForms(s, members, primary);
    SignedOk(s, u, seed);
  }

  lemma SortedDistinct(ms: seq<Member>)
    requires Sorted(ms)
    ensures DistinctIds(ms)
  {}

  lemma {:induction false} WithoutIn(ms: seq<Member>, id: nat, x: Member)
    ensures x in WithoutMember(ms, id) <==> x in ms && x.id != id
  {
    if ms != [] {
      WithoutIn(ms[1..], id, x);
    }
  }

  lemma {:induction false} WithoutSorted(ms: seq<Member>, id: nat)
    requires Sorted(ms)
    ensures Sorted(WithoutMember(ms, id))
  {
    if ms != [] {
      assert forall i | 0 <= i < |ms[1..]| :: ms[1..][i] == ms[i + 1];
      WithoutSorted(ms[1..], id);
      var r, rest := WithoutMember(ms, id), WithoutMember(ms[1..], id);
      if ms[0].id != id {
        forall i, j | 0 <= i < j < |r| ensures r[i].id < r[j].id {
          assert r[j] == rest[j - 1] && rest[j - 1] in rest;
          WithoutIn(ms[1..], id, r[j]);
          assert i > 0 ==> r[i] == rest[i - 1];
        }
      }
    }
  }

  lemma WithoutOk(s: Suite, ms: seq<Member>, id: nat, primary: nat)
    requires Sorted(ms) && MembersOk(s, ms) && Lists(ms, primary) && primary != id
    ensures var r := WithoutMember(ms, id);
            DistinctIds(r) && MembersOk(s, r) && Lists(r, primary)
  {
    hide WithoutMember, MemberOk;
    var r := WithoutMember(ms, id);
    WithoutSorted(ms, id);
    forall i | 0 <= i < |r| ensures MemberOk(s, r[i]) {
      WithoutIn(ms, id, r[i]);
      assert r[i] in ms;
    }
    var i :| 0 <= i < |ms| && ms[i].id == primary;
    WithoutIn(ms, id, ms[i]);
    assert ms[i] in r;
  }

  /** Without a member, and nothing else: its place is the only change. */
  ghost predicate Removes(prev: Unsigned, next: Unsigned, id: nat) {
    && (forall m :: m in next.members <==> m in prev.members && m.id != id)
    && next.primary == prev.primary && next.relay == prev.relay
  }

  lemma SortedWithout(ms: seq<Member>, id: nat)
    requires Sorted(ms)
    ensures forall m :: m in Sort(WithoutMember(ms, id)) <==> m in ms && m.id != id
  {
    hide Sort, WithoutMember;
    forall m ensures m in Sort(WithoutMember(ms, id)) <==> m in ms && m.id != id {
      SortIn(WithoutMember(ms, id), m);
      WithoutIn(ms, id, m);
    }
  }

  /** Removing a member other than the primary fails only on size, version or time. */
  lemma RemovalGood(s: Suite, prev: Roster, id: nat, now: int, seed: nat)
    requires Lawful(s) && Valid(s, prev) && s.publicOf(seed) == prev.u.networkKey && id != prev.u.primary
    ensures var u := NextUnsigned(prev.u, WithoutMember(prev.u.members, id), prev.u.primary, now);
            var out := NextRoster(s, prev.u, WithoutMember(prev.u.members, id), now, seed);
            && (out.Made? <==> Fits(s, prev.u, u, now)) && (out.Full? <==> s.sizeOf(u) > MAX_ROSTER_BYTES)
            && (out.Made? ==> Succeeds(s, prev, out.roster) && Removes(prev.u, out.roster.u, id))
  {
    hide Sorted, MembersOk, Lists, Sort, DistinctIds, WithoutMember, SignRoster;
    WithoutOk(s, prev.u.members, id, prev.u.primary);
    NextGood(s, prev, WithoutMember(prev.u.members, id), prev.u.primary, now, seed);
    SortedWithout(prev.u.members, id);
  }

  /** revoke, by the primary: refused for itself and for ids not listed, and otherwise good. */
  lemma RevokeGood(s: Suite, prev: Roster, id: nat, now: int, seed: nat)
    requires Lawful(s) && Valid(s, prev) && s.publicOf(seed) == prev.u.networkKey
    ensures var u := NextUnsigned(prev.u, WithoutMember(prev.u.members, id), prev.u.primary, now);
            var out := Revoke(s, prev.u.primary, prev.u, id, now, seed);
            && (out.Made? <==> id != prev.u.primary && Lists(prev.u.members, id) && Fits(s, prev.u, u, now))
            && (out.Made? ==> Succeeds(s, prev, out.roster) && Removes(prev.u, out.roster.u, id))
  {
    hide NextRoster, NextUnsigned, WithoutMember, Succeeds, Removes;
    if id != prev.u.primary {
      RemovalGood(s, prev, id, now, seed);
    }
  }

  lemma ResignGood(s: Suite, prev: Roster, from: nat, now: int, seed: nat)
    requires Lawful(s) && Valid(s, prev) && s.publicOf(seed) == prev.u.networkKey
    ensures var u := NextUnsigned(prev.u, WithoutMember(prev.u.members, from), prev.u.primary, now);
            var out := OnResign(s, prev.u, from, now, seed);
            && (out.Made? <==> from != prev.u.primary && Lists(prev.u.members, from) && Fits(s, prev.u, u, now))
            && (out.Made? ==> Succeeds(s, prev, out.roster) && Removes(prev.u, out.roster.u, from))
  {
    hide NextRoster, NextUnsigned, WithoutMember, Succeeds, Removes;
    if from != prev.u.primary {
      RemovalGood(s, prev, from, now, seed);
    }
  }

  lemma AddedOk(s: Suite, ms: seq<Member>, m: Member, primary: nat)
    requires Sorted(ms) && MembersOk(s, ms) && Lists(ms, primary) && MemberOk(s, m) && !Lists(ms, m.id)
    ensures DistinctIds(ms + [m]) && MembersOk(s, ms + [m]) && Lists(ms + [m], primary)
  {
    ListsMore(ms, m, primary);
  }

  /** Pairing a newcomer whose keys are well formed: refused for one listed already, and otherwise good. */
  lemma PairGood(s: Suite, prev: Roster, ed: nat, x: nat, now: int, seed: nat)
    requires Lawful(s) && Valid(s, prev) && s.publicOf(seed) == prev.u.networkKey && s.keyOk(ed) && s.keyOk(x)
    ensures var m := Member(s.idOf(ed), ed, x);
            var u := NextUnsigned(prev.u, prev.u.members + [m], prev.u.primary, now);
            var out := Pair(s, prev.u, ed, x, now, seed);
            && (out.Made? <==> !Lists(prev.u.members, m.id) && Fits(s, prev.u, u, now))
            && (out.Made? ==> Succeeds(s, prev, out.roster) && out.roster.u.primary == prev.u.primary
                              && forall y :: y in out.roster.u.members <==> y in prev.u.members || y == m)
  {
    hide Sorted, MembersOk, Lists, Sort, DistinctIds, SignRoster;
    var m := Member(s.idOf(ed), ed, x);
    var members := prev.u.members + [m];
    if !Lists(prev.u.members, m.id) {
      AddedOk(s, prev.u.members, m, prev.u.primary);
      NextGood(s, prev, members, prev.u.primary, now, seed);
      forall y ensures y in Sort(members) <==> y in prev.u.members || y == m {
        SortIn(members, y);
      }
    }
  }

  /** Claiming the primary: refused for the primary and for ids not listed, and otherwise good, the members unchanged. */
  lemma ClaimGood(s: Suite, self: nat, prev: Roster, now: int, seed: nat)
    requires Lawful(s) && Valid(s, prev) && s.publicOf(seed) == prev.u.networkKey
    ensures var u := NextUnsigned(prev.u, prev.u.members, self, now);
            var out := Claim(s, self, prev.u, now, seed);
            && (out.Made? <==> self != prev.u.primary && Lists(prev.u.members, self) && Fits(s, prev.u, u, now))
            && (out.Made? ==> Succeeds(s, prev, out.roster) && out.roster.u.primary == self && out.roster.u.members == prev.u.members)
  {
    hide MembersOk, Lists, Sort, SignRoster;
    if Lists(prev.u.members, self) {
      SortedDistinct(prev.u.members);
      NextGood(s, prev, prev.u.members, self, now, seed);
      SortTwice(prev.u.members);
    }
  }

  /** Placing a network: good exactly for an unplaced, valid roster and its own seed. */
  lemma PlaceGood(s: Suite, prev: Roster, relay: nat, now: int, seed: nat)
    requires Lawful(s)
    ensures var u := prev.u.(version := prev.u.version + 1, issuedAt := Max(now, prev.u.issuedAt), relay := Some(relay));
            var out := Place(s, prev, relay, now, seed);
            && (out.Made? <==> Valid(s, prev) && prev.u.relay.None? && s.publicOf(seed) == prev.u.networkKey
                               && 0 <= now && Fits(s, prev.u, u, now))
            && (out.Made? ==> Succeeds(s, prev, out.roster) && out.roster.u == u)
  {
    hide Sorted, MembersOk, Lists;
    var u := prev.u.(version := prev.u.version + 1, issuedAt := Max(now, prev.u.issuedAt), relay := Some(relay));
    if Valid(s, prev) && s.publicOf(seed) == prev.u.networkKey {
      SignedOk(s, u, seed);
    }
  }
}
