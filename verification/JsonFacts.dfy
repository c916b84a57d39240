/**
  What the parser accepts, on every text; and what a canonical print depends on
  (client-typescript/src/json.ts, client-rust/src/json.rs).
 */
module JsonFacts {

  import opened Basics
  import opened JsonText
  import opened Json
  import opened JsonRoundTrip

  // ---- Every accepted text ----

  predicate FrameOk(f: Frame, depth: nat, finite: Text -> bool) {
    match f
    case InArr(items) => ItemsOk(items, depth, finite) && forall i | 0 <= i < |items| :: NumbersOk(items[i])
    case InObj(ms, name) =>
      && MembersOk(ms, {}, depth, finite) && !HasLoneSurrogate(name) && name !in NamesOf(ms)
      && forall i | 0 <= i < |ms| :: NumbersOk(ms[i].value)
  }

  /** The stack is never deeper than 32, and holds only what can be part of an acceptable tree. */
  predicate StackOk(stack: seq<Frame>, finite: Text -> bool) {
    |stack| <= MAX_DEPTH && forall k | 0 <= k < |stack| :: FrameOk(stack[k], k + 1, finite)
  }

  predicate Good(v: Json, depth: nat, finite: Text -> bool) { Acceptable(v, depth, finite) && NumbersOk(v) }

  predicate Sound(r: Result, finite: Text -> bool) { r.Ok? ==> Good(r.value, 0, finite) }

  lemma {:induction false} ItemsAppend(items: seq<Json>, v: Json, depth: nat, finite: Text -> bool)
    ensures ItemsOk(items + [v], depth, finite) <==> ItemsOk(items, depth, finite) && Acceptable(v, depth, finite)
  {
    hide Acceptable;
    if items == [] {
      assert items + [v] == [v] && [v][1..] == [];
    } else {
      assert (items + [v])[1..] == items[1..] + [v];
      ItemsAppend(items[1..], v, depth, finite);
    }
  }

  lemma {:induction false} MembersAppend(ms: seq<Member>, m: Member, seen: set<Text>, depth: nat, finite: Text -> bool)
    requires MembersOk(ms, seen, depth, finite) && !HasLoneSurrogate(m.name) && m.name !in seen && m.name !in NamesOf(ms)
    requires Acceptable(m.value, depth, finite)
    ensures MembersOk(ms + [m], seen, depth, finite)
  {
    hide Acceptable, HasLoneSurrogate;
    if ms == [] {
      assert ms + [m] == [m] && [m][1..] == [];
    } else {
      assert (ms + [m])[1..] == ms[1..] + [m];
      assert forall i | 0 <= i < |ms[1..]| :: ms[1..][i] == ms[i + 1];
      assert ms[0].name in NamesOf(ms);
      MembersAppend(ms[1..], m, seen + {ms[0].name}, depth, finite);
    }
  }

  lemma {:induction false} SoundStart(rest: Text, stack: seq<Frame>, finite: Text -> bool)
    requires StackOk(stack, finite)
    ensures Sound(Start(rest, stack, finite), finite)
    decreases |rest|, 1
  {
    hide StackOk, Sound, StartObj, StartArr, StartStr, StartNum, StartWord;
    var here := SkipWhite(rest);
    assert Sound(Err, finite) by { Failing(finite); }
    if here != [] {
      SoundObj(here, stack, finite);
      SoundArr(here, stack, finite);
      SoundStr(here, stack, finite);
      SoundNum(here, stack, finite);
      SoundWord(here, stack, finite);
    }
  }

  lemma {:induction false} SoundStr(here: Text, stack: seq<Frame>, finite: Text -> bool)
    requires StackOk(stack, finite)
    ensures Sound(StartStr(here, stack, finite), finite)
    decreases |here|, 0
  {
    hide StackOk, Sound, Complete, ReadString, HasLoneSurrogate;
    assert Sound(Err, finite) by { Failing(finite); }
    var r := ReadString(here);
    if r.Some? {
      SoundComplete(r.value.rest, Str(r.value.text), stack, finite);
    }
  }

  lemma {:induction false} SoundNum(here: Text, stack: seq<Frame>, finite: Text -> bool)
    requires StackOk(stack, finite)
    ensures Sound(StartNum(here, stack, finite), finite)
    decreases |here|, 0
  {
    hide StackOk, Sound, Complete, NumberLength, IsNumber;
    assert Sound(Err, finite) by { Failing(finite); }
    var n := NumberLength(here);
    if n > 0 && finite(here[..n]) {
      NumberOwn(here);
      SoundComplete(here[n..], Number(here[..n]), stack, finite);
    }
  }

  lemma {:induction false} SoundWord(here: Text, stack: seq<Frame>, finite: Text -> bool)
    requires StackOk(stack, finite)
    ensures Sound(StartWord(here, stack, finite), finite)
    decreases |here|, 0
  {
    hide StackOk, Sound, Complete;
    assert Sound(Err, finite) by { Failing(finite); }
    if StartsWith(here, TRUE) {
      SoundComplete(here[4..], Bool(true), stack, finite);
    } else if StartsWith(here, FALSE) {
      SoundComplete(here[5..], Bool(false), stack, finite);
    } else if StartsWith(here, NULL) {
      SoundComplete(here[4..], Null, stack, finite);
    }
  }

  lemma Failing(finite: Text -> bool)
    ensures Sound(Err, finite)
  {}

  lemma Pushed(stack: seq<Frame>, f: Frame, finite: Text -> bool)
    requires StackOk(stack, finite) && |stack| < MAX_DEPTH && FrameOk(f, |stack| + 1, finite)
    ensures StackOk(stack + [f], finite)
  {
    hide FrameOk;
  }

  lemma {:induction false} SoundArr(here: Text, stack: seq<Frame>, finite: Text -> bool)
    requires here != [] && StackOk(stack, finite)
    ensures Sound(StartArr(here, stack, finite), finite)
    decreases |here|, 0
  {
    hide StackOk, Sound, Start, Complete;
    assert Sound(Err, finite) by { Failing(finite); }
    var inside := SkipWhite(here[1..]);
    if |stack| < MAX_DEPTH {
      if inside != [] && inside[0] == CLOSE_ARR {
        SoundComplete(inside[1..], Arr([]), stack, finite);
      } else {
        Pushed(stack, InArr([]), finite);
        SoundStart(inside, stack + [InArr([])], finite);
      }
    }
  }

  lemma {:induction false} SoundObj(here: Text, stack: seq<Frame>, finite: Text -> bool)
    requires here != [] && StackOk(stack, finite)
    ensures Sound(StartObj(here, stack, finite), finite)
    decreases |here|, 0
  {
    hide StackOk, Sound, NextMember, Complete;
    assert Sound(Err, finite) by { Failing(finite); }
    var inside := SkipWhite(here[1..]);
    if |stack| < MAX_DEPTH {
      if inside != [] && inside[0] == CLOSE_OBJ {
        SoundComplete(inside[1..], Obj([]), stack, finite);
      } else {
        SoundMember(inside, [], stack, finite);
      }
    }
  }

  lemma {:induction false} SoundMember(rest: Text, ms: seq<Member>, stack: seq<Frame>, finite: Text -> bool)
    requires StackOk(stack, finite) && |stack| < MAX_DEPTH && MembersOk(ms, {}, |stack| + 1, finite)
    requires forall i | 0 <= i < |ms| :: NumbersOk(ms[i].value)
    ensures Sound(NextMember(rest, ms, stack, finite), finite)
    decreases |rest|, 0
  {
    hide StackOk, Sound, ReadName, HasLoneSurrogate, MembersOk, NamesOf;
    assert Sound(Err, finite) by { Failing(finite); }
    var r := ReadName(rest, NamesOf(ms));
    if r.Some? {
      Pushed(stack, InObj(ms, r.value.text), finite);
      SoundStart(r.value.rest, stack + [InObj(ms, r.value.text)], finite);
    }
  }

  lemma Popped(stack: seq<Frame>, finite: Text -> bool)
    requires StackOk(stack, finite) && stack != []
    ensures StackOk(stack[..|stack| - 1], finite) && FrameOk(stack[|stack| - 1], |stack|, finite) && |stack| <= MAX_DEPTH
  {
    hide FrameOk;
  }

  lemma {:induction false} SoundComplete(rest: Text, v: Json, stack: seq<Frame>, finite: Text -> bool)
    requires StackOk(stack, finite) && Good(v, |stack|, finite)
    ensures Sound(Complete(rest, v, stack, finite), finite)
    decreases |rest|, 2
  {
    hide StackOk, AddItem, AddMember, Acceptable, NumbersOk;
    var here := SkipWhite(rest);
    if stack != [] && here != [] {
      SoundItem(here, v, stack, finite);
      SoundValue(here, v, stack, finite);
    }
  }

  /** A value joins the array it is in, which may then be closed. */
  lemma ItemJoins(below: seq<Frame>, items: seq<Json>, v: Json, finite: Text -> bool)
    requires FrameOk(InArr(items), |below| + 1, finite) && Good(v, |below| + 1, finite) && |below| < MAX_DEPTH
    ensures FrameOk(InArr(items + [v]), |below| + 1, finite) && Good(Arr(items + [v]), |below|, finite)
  {
    hide ItemsOk;
    ItemsAppend(items, v, |below| + 1, finite);
  }

  /** A value joins the object it is in, which may then be closed. */
  lemma MemberJoins(below: seq<Frame>, top: Frame, v: Json, finite: Text -> bool)
    requires top.InObj? && FrameOk(top, |below| + 1, finite) && Good(v, |below| + 1, finite) && |below| < MAX_DEPTH
    ensures var ms := top.members + [Member(top.name, v)];
            && MembersOk(ms, {}, |below| + 1, finite) && (forall i | 0 <= i < |ms| :: NumbersOk(ms[i].value))
            && Good(Obj(ms), |below|, finite)
  {
    hide MembersOk, NamesOf, HasLoneSurrogate;
    MembersAppend(top.members, Member(top.name, v), {}, |below| + 1, finite);
  }

  lemma {:induction false} SoundItem(here: Text, v: Json, stack: seq<Frame>, finite: Text -> bool)
    requires here != [] && stack != [] && StackOk(stack, finite) && Good(v, |stack|, finite)
    ensures stack[|stack| - 1].InArr? ==> Sound(AddItem(here, stack[|stack| - 1].items + [v], stack[..|stack| - 1], finite), finite)
    decreases |here|, 1
  {
    hide StackOk, Start, Complete, FrameOk, Good, Sound;
    assert Sound(Err, finite) by { Failing(finite); }
    if stack[|stack| - 1].InArr? {
      var below, items := stack[..|stack| - 1], stack[|stack| - 1].items;
      Popped(stack, finite);
      ItemJoins(below, items, v, finite);
      if here[0] == COMMA {
        Pushed(below, InArr(items + [v]), finite);
        SoundStart(here[1..], below + [InArr(items + [v])], finite);
      } else if here[0] == CLOSE_ARR {
        SoundComplete(here[1..], Arr(items + [v]), below, finite);
      }
    }
  }

  lemma {:induction false} SoundValue(here: Text, v: Json, stack: seq<Frame>, finite: Text -> bool)
    requires here != [] && stack != [] && StackOk(stack, finite) && Good(v, |stack|, finite)
    ensures stack[|stack| - 1].InObj? ==>
              Sound(AddMember(here, stack[|stack| - 1].members + [Member(stack[|stack| - 1].name, v)], stack[..|stack| - 1], finite), finite)
    decreases |here|, 1
  {
    hide StackOk, NextMember, Complete, FrameOk, Good, MembersOk, NumbersOk, Sound;
    assert Sound(Err, finite) by { Failing(finite); }
    if stack[|stack| - 1].InObj? {
      var below, top := stack[..|stack| - 1], stack[|stack| - 1];
      var ms := top.members + [Member(top.name, v)];
      Popped(stack, finite);
      MemberJoins(below, top, v, finite);
      if here[0] == COMMA {
        SoundMember(here[1..], ms, below, finite);
      } else if here[0] == CLOSE_OBJ {
        SoundComplete(here[1..], Obj(ms), below, finite);
      }
    }
  }

  /** Whatever the text, a tree the parser returns is at most 32 deep, repeats no name and holds no lone surrogate. */
  lemma ParseSound(text: Text, finite: Text -> bool)
    ensures Parse(text, finite).Ok? ==> Acceptable(Parse(text, finite).value, 0, finite) && NumbersOk(Parse(text, finite).value)
  {
    hide Start, Acceptable, NumbersOk;
    SoundStart(text, [], finite);
  }

  /** So what it returns prints to a text it reads back to the same tree. */
  lemma ParsePrintParse(text: Text, canonical: bool, finite: Text -> bool)
    requires Parse(text, finite).Ok?
    ensures Parse(Print(Parse(text, finite).value, canonical), finite) == Ok(Norm(Parse(text, finite).value, canonical))
  {
    hide Start, Acceptable, NumbersOk, Print, Norm;
    ParseSound(text, finite);
    RoundTrip(Parse(text, finite).value, canonical, finite);
  }

  // ---- What a canonical print depends on ----

  lemma {:induction false} PrintNorm(v: Json, c: bool)
    ensures Print(v, c) == Print(Norm(v, c), false)
    decreases Size(v), 2
  {
    match v {
      case Arr(items) => PrintNormItems(items, c);
      case Obj(members) => PrintNormMembers(Ordered(members, c), c);
      case _ =>
    }
  }

  lemma {:induction false} PrintNormItems(items: seq<Json>, c: bool)
    ensures PrintItems(items, c) == PrintItems(NormItems(items, c), false) && |NormItems(items, c)| == |items|
    decreases Sizes(items), 3, |items|
  {
    hide Print, Norm;
    if items != [] {
      PrintNorm(items[0], c);
      PrintNormItems(items[1..], c);
      assert NormItems(items, c)[1..] == NormItems(items[1..], c);
    }
  }

  lemma {:induction false} PrintNormMembers(ms: seq<Member>, c: bool)
    ensures PrintMembers(ms, c) == PrintMembers(NormMembers(ms, c), false) && |NormMembers(ms, c)| == |ms|
    decreases MemberSizes(ms), 3, |ms|
  {
    hide Print, Norm, PrintString;
    if ms != [] {
      PrintNorm(ms[0].value, c);
      PrintNormMembers(ms[1..], c);
      assert NormMembers(ms, c)[1..] == NormMembers(ms[1..], c);
    }
  }

  // ---- The order of names ----

  lemma {:induction false} Irreflexive(a: Text)
    ensures !Before(a, a)
  {
    if a != [] {
      Irreflexive(a[1..]);
    }
  }

  lemma {:induction false} Total(a: Text, b: Text)
    ensures Before(a, b) || a == b || Before(b, a)
    decreases |a|
  {
    if a != [] && b != [] && a[0] == b[0] {
      Total(a[1..], b[1..]);
      assert a == [a[0]] + a[1..] && b == [b[0]] + b[1..];
    }
  }

  lemma {:induction false} Transitive(a: Text, b: Text, c: Text)
    requires Before(a, b) && Before(b, c)
    ensures Before(a, c)
    decreases |a|
  {
    if a != [] && a[0] == b[0] && b[0] == c[0] {
      Transitive(a[1..], b[1..], c[1..]);
    }
  }

  predicate DistinctNames(ms: seq<Member>) { forall i, j | 0 <= i < j < |ms| :: ms[i].name != ms[j].name }

  predicate Sorted(ms: seq<Member>) { forall i, j | 0 <= i < j < |ms| :: Before(ms[i].name, ms[j].name) }

  lemma {:induction false} InsertSorted(m: Member, ms: seq<Member>)
    requires Sorted(ms) && forall i | 0 <= i < |ms| :: ms[i].name != m.name
    ensures Sorted(Insert(m, ms))
  {
    hide Before;
    var r := Insert(m, ms);
    if ms == [] {
    } else if Before(ms[0].name, m.name) {
      assert forall i | 0 <= i < |ms[1..]| :: ms[1..][i] == ms[i + 1];
      InsertSorted(m, ms[1..]);
      var rest := Insert(m, ms[1..]);
      forall i, j | 0 <= i < j < |r| ensures Before(r[i].name, r[j].name) {
        assert r[j] == rest[j - 1] && rest[j - 1] in rest;
        InsertIn(m, ms[1..], r[j]);
        assert i > 0 ==> r[i] == rest[i - 1];
      }
    } else {
      Total(ms[0].name, m.name);
      forall i, j | 0 <= i < j < |r| ensures Before(r[i].name, r[j].name) {
        if i == 0 && j > 1 {
          Transitive(m.name, ms[0].name, ms[j - 1].name);
        }
      }
    }
  }

  lemma {:induction false} SortSorted(ms: seq<Member>)
    requires DistinctNames(ms)
    ensures Sorted(Sort(ms))
  {
    hide Insert, Before;
    if ms != [] {
      assert forall i | 0 <= i < |ms[1..]| :: ms[1..][i] == ms[i + 1];
      SortSorted(ms[1..]);
      var s := Sort(ms[1..]);
      forall i | 0 <= i < |s| ensures s[i].name != ms[0].name {
        SortIn(ms[1..], s[i]);
        assert s[i] in ms[1..];
      }
      InsertSorted(ms[0], s);
    }
  }

  /** There is one way to sort a set of members. */
  lemma {:induction false} OneSorting(a: seq<Member>, b: seq<Member>)
    requires Sorted(a) && Sorted(b) && forall m :: m in a <==> m in b
    ensures a == b
  {
    hide Before;
    assert a != [] ==> a[0] in a;
    assert b != [] ==> b[0] in b;
    if a != [] && b != [] {
      SameFirst(a, b);
      assert forall i | 0 <= i < |a[1..]| :: a[1..][i] == a[i + 1];
      assert forall i | 0 <= i < |b[1..]| :: b[1..][i] == b[i + 1];
      forall m ensures m in a[1..] <==> m in b[1..] {
        InRest(a, m);
        InRest(b, m);
      }
      OneSorting(a[1..], b[1..]);
      assert a == [a[0]] + a[1..] && b == [b[0]] + b[1..];
    }
  }

  lemma SameFirst(a: seq<Member>, b: seq<Member>)
    requires a != [] && b != [] && Sorted(a) && Sorted(b) && a[0] in b && b[0] in a
    ensures a[0] == b[0]
  {
    hide Before;
    if a[0] != b[0] {
      Irreflexive(a[0].name);
      Transitive(a[0].name, b[0].name, a[0].name);
    }
  }

  lemma InRest(a: seq<Member>, m: Member)
    requires a != [] && Sorted(a)
    ensures m in a[1..] <==> m in a && m != a[0]
  {
    hide Before;
    if m in a[1..] {
      var i :| 0 <= i < |a[1..]| && a[1..][i] == m;
      assert a[i + 1] == m && Before(a[0].name, m.name);
      Irreflexive(m.name);
    }
  }

  /** The canonical print of an object depends on its members as a set, not on their order. */
  lemma PrintOfSet(a: seq<Member>, b: seq<Member>)
    requires DistinctNames(a) && DistinctNames(b) && forall m :: m in a <==> m in b
    ensures Print(Obj(a), true) == Print(Obj(b), true)
  {
    hide Print, Sort;
    SortSorted(a);
    SortSorted(b);
    forall m ensures m in Sort(a) <==> m in Sort(b) {
      SortIn(a, m);
      SortIn(b, m);
    }
    OneSorting(Sort(a), Sort(b));
    PrintObj(a, true);
    PrintObj(b, true);
  }

  // ---- What the order is ----

  /** `a` and `b` agree up to `k`, where `a` ends or has the lesser unit. */
  predicate Differs(a: Text, b: Text, k: nat) { k <= |a| && k < |b| && a[..k] == b[..k] && (k == |a| || a[k] < b[k]) }

  lemma {:induction false} BeforeMeans(a: Text, b: Text)
    ensures Before(a, b) <==> exists k: nat :: Differs(a, b, k)
    decreases |a|
  {
    if a == [] {
      assert b != [] ==> Differs(a, b, 0);
    } else if b != [] {
      assert a[0] < b[0] ==> Differs(a, b, 0);
      if a[0] == b[0] {
        BeforeMeans(a[1..], b[1..]);
        assert a == [a[0]] + a[1..] && b == [b[0]] + b[1..];
        if k: nat :| Differs(a[1..], b[1..], k) {
          assert a[..k + 1] == [a[0]] + a[1..][..k] && b[..k + 1] == [b[0]] + b[1..][..k];
          assert Differs(a, b, k + 1);
        }
        if k: nat :| Differs(a, b, k) {
          assert k > 0;
          assert a[1..][..k - 1] == a[..k][1..] && b[1..][..k - 1] == b[..k][1..];
          assert Differs(a[1..], b[1..], k - 1);
        }
      } else if k: nat :| Differs(a, b, k) {
        assert k > 0 ==> a[..k][0] == b[..k][0];
      }
    }
  }
}
