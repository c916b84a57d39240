/**
  Printing and parsing JSON undo each other (client-rust/src/json.rs, client-typescript/src/json.ts).
 */
module JsonRoundTrip {

  import opened Basics
  import opened JsonText
  import opened Json

  /** What may follow a value in a print. */
  predicate Follows(tail: Text) { tail == [] || tail[0] == COMMA || tail[0] == CLOSE_ARR || tail[0] == CLOSE_OBJ }

  lemma NotWhite(t: Text)
    requires t == [] || !IsWhite(t[0])
    ensures SkipWhite(t) == t
  {}

  lemma PrintHead(v: Json, canonical: bool)
    requires NumbersOk(v)
    ensures Print(v, canonical) != []
    ensures var h := Print(v, canonical)[0];
            !IsWhite(h) && h != CLOSE_ARR && h != CLOSE_OBJ && h != COMMA
  {
    hide PrintItems, PrintMembers, EscapeAll, Fraction, Exponent, Digits;
  }

  // ---- The parser on values of each kind ----

  /** Which part of the parser a value's first unit leads to. */
  lemma Here(t: Text, stack: seq<Frame>, finite: Text -> bool)
    requires t != [] && !IsWhite(t[0])
    ensures t[0] == OPEN_OBJ ==> Start(t, stack, finite) == StartObj(t, stack, finite)
    ensures t[0] == OPEN_ARR ==> Start(t, stack, finite) == StartArr(t, stack, finite)
    ensures t[0] == QUOTE ==> Start(t, stack, finite) == StartStr(t, stack, finite)
    ensures t[0] == 0x2d || IsDigit(t[0]) ==> Start(t, stack, finite) == StartNum(t, stack, finite)
    ensures t[0] == TRUE[0] || t[0] == FALSE[0] || t[0] == NULL[0] ==> Start(t, stack, finite) == StartWord(t, stack, finite)
  {
    hide StartObj, StartArr, StartStr, StartNum, StartWord;
    NotWhite(t);
  }

  lemma StartString(s: Text, tail: Text, stack: seq<Frame>, finite: Text -> bool)
    ensures Start(PrintString(s) + tail, stack, finite)
         == if HasLoneSurrogate(s) then Err else Complete(tail, Str(s), stack, finite)
  {
    hide Start, ReadString, Complete, HasLoneSurrogate, EscapeAll;
    Here(PrintString(s) + tail, stack, finite);
    StringRoundTrip(s, tail);
  }

  lemma NumberHead(s: Text)
    requires IsNumber(s)
    ensures s[0] == 0x2d || IsDigit(s[0])
  {
    hide Fraction, Exponent, Digits;
  }

  lemma StartNumber(s: Text, tail: Text, stack: seq<Frame>, finite: Text -> bool)
    requires IsNumber(s) && Ends(tail)
    ensures Start(s + tail, stack, finite) == if finite(s) then Complete(tail, Number(s), stack, finite) else Err
  {
    hide Start, Complete, NumberLength;
    var t := s + tail;
    NumberHead(s);
    assert t[0] == s[0];
    Here(t, stack, finite);
    NumberThen(s, tail);
    assert t[..|s|] == s && t[|s|..] == tail;
  }

  lemma Words(w: Text, v: Json, tail: Text, stack: seq<Frame>, finite: Text -> bool)
    requires (w == TRUE && v == Bool(true)) || (w == FALSE && v == Bool(false)) || (w == NULL && v == Null)
    ensures Start(w + tail, stack, finite) == Complete(tail, v, stack, finite)
  {
    hide Start, Complete;
    var t := w + tail;
    assert w[0] == t[0] && w <= t && t[|w|..] == tail;
    Here(t, stack, finite);
  }

  lemma StartItems(body: Text, stack: seq<Frame>, finite: Text -> bool)
    requires body != [] && !IsWhite(body[0]) && body[0] != CLOSE_ARR
    ensures Start([OPEN_ARR] + body, stack, finite)
         == if |stack| >= MAX_DEPTH then Err else Start(body, stack + [InArr([])], finite)
  {
    hide Start, Complete, SkipWhite;
    var t := [OPEN_ARR] + body;
    Here(t, stack, finite);
    assert t[1..] == body;
    NotWhite(body);
  }

  lemma StartEmptyArr(tail: Text, stack: seq<Frame>, finite: Text -> bool)
    ensures Start([OPEN_ARR] + [CLOSE_ARR] + tail, stack, finite)
         == if |stack| >= MAX_DEPTH then Err else Complete(tail, Arr([]), stack, finite)
  {
    hide Start, Complete, SkipWhite;
    var inside := [CLOSE_ARR] + tail;
    var t := [OPEN_ARR] + inside;
    assert [OPEN_ARR] + [CLOSE_ARR] + tail == t;
    Here(t, stack, finite);
    assert t[1..] == inside && inside[1..] == tail;
    NotWhite(inside);
  }

  lemma StartEmptyObj(tail: Text, stack: seq<Frame>, finite: Text -> bool)
    ensures Start([OPEN_OBJ] + [CLOSE_OBJ] + tail, stack, finite)
         == if |stack| >= MAX_DEPTH then Err else Complete(tail, Obj([]), stack, finite)
  {
    hide Start, Complete, SkipWhite, NextMember;
    var inside := [CLOSE_OBJ] + tail;
    var t := [OPEN_OBJ] + inside;
    assert [OPEN_OBJ] + [CLOSE_OBJ] + tail == t;
    Here(t, stack, finite);
    assert t[1..] == inside && inside[1..] == tail;
    NotWhite(inside);
  }

  lemma StartMembers(body: Text, stack: seq<Frame>, finite: Text -> bool)
    requires body != [] && body[0] == QUOTE
    ensures Start([OPEN_OBJ] + body, stack, finite)
         == if |stack| >= MAX_DEPTH then Err else NextMember(body, [], stack, finite)
  {
    hide Start, Complete, SkipWhite, NextMember;
    var t := [OPEN_OBJ] + body;
    Here(t, stack, finite);
    assert t[1..] == body;
    NotWhite(body);
  }

  /** A printed name and its colon. */
  lemma NameReads(name: Text, more: Text, members: seq<Member>, stack: seq<Frame>, finite: Text -> bool)
    ensures NextMember(PrintString(name) + [COLON] + more, members, stack, finite)
         == if HasLoneSurrogate(name) || name in NamesOf(members) then Err
            else Start(more, stack + [InObj(members, name)], finite)
  {
    hide ReadString, HasLoneSurrogate, Start, NamesOf;
    var t := PrintString(name) + [COLON] + more;
    NotWhite(t);
    StringRoundTrip(name, [COLON] + more);
    assert t == PrintString(name) + ([COLON] + more);
    NotWhite([COLON] + more);
    assert ([COLON] + more)[1..] == more;
  }

  lemma CompleteItem(more: Text, value: Json, items: seq<Json>, stack: seq<Frame>, finite: Text -> bool)
    requires more != [] && !IsWhite(more[0])
    ensures Complete(more, value, stack + [InArr(items)], finite) == AddItem(more, items + [value], stack, finite)
  {
    hide AddItem, AddMember;
    var s1 := stack + [InArr(items)];
    assert s1[..|s1| - 1] == stack;
    NotWhite(more);
  }

  lemma CompleteMember(more: Text, value: Json, members: seq<Member>, name: Text, stack: seq<Frame>, finite: Text -> bool)
    requires more != [] && !IsWhite(more[0])
    ensures Complete(more, value, stack + [InObj(members, name)], finite) == AddMember(more, members + [Member(name, value)], stack, finite)
  {
    hide AddItem, AddMember;
    var s1 := stack + [InObj(members, name)];
    assert s1[..|s1| - 1] == stack;
    NotWhite(more);
  }

  // ---- The parser on prints ----

  lemma {:induction false} ReadsValue(v: Json, c: bool, tail: Text, stack: seq<Frame>, finite: Text -> bool)
    requires NumbersOk(v) && Follows(tail)
    ensures Start(Print(v, c) + tail, stack, finite)
         == if Acceptable(v, |stack|, finite) then Complete(tail, Norm(v, c), stack, finite) else Err
    decreases Size(v), 2
  {
    hide Start, Complete, PrintString, HasLoneSurrogate, PrintItems, PrintMembers, IsNumber, ItemsOk, MembersOk, NormItems, NormMembers, Sort, NextMember;
    match v {
      case Null => Words(NULL, v, tail, stack, finite);
      case Bool(b) => Words(if b then TRUE else FALSE, v, tail, stack, finite);
      case Number(lexeme) => StartNumber(lexeme, tail, stack, finite);
      case Str(s) => StartString(s, tail, stack, finite);
      case Arr(items) => ReadsArr(items, c, tail, stack, finite);
      case Obj(members) => ReadsObj(members, c, tail, stack, finite);
    }
  }

  lemma {:induction false} ReadsArr(items: seq<Json>, c: bool, tail: Text, stack: seq<Frame>, finite: Text -> bool)
    requires NumbersOk(Arr(items)) && Follows(tail)
    ensures Start(Print(Arr(items), c) + tail, stack, finite)
         == if Acceptable(Arr(items), |stack|, finite) then Complete(tail, Norm(Arr(items), c), stack, finite) else Err
    decreases Size(Arr(items)), 0
  {
    hide Start, Complete;
    if items == [] {
      assert Print(Arr(items), c) == [OPEN_ARR] + [CLOSE_ARR];
      StartEmptyArr(tail, stack, finite);
    } else {
      var body := PrintItems(items, c) + [CLOSE_ARR] + tail;
      assert Print(Arr(items), c) + tail == [OPEN_ARR] + body;
      PrintHead(items[0], c);
      StartItems(body, stack, finite);
      ReadsItems(items, c, tail, stack, [], finite);
      assert [] + NormItems(items, c) == NormItems(items, c);
    }
  }

  lemma {:induction false} ReadsItems(items: seq<Json>, c: bool, tail: Text, stack: seq<Frame>, done: seq<Json>, finite: Text -> bool)
    requires items != [] && (forall i | 0 <= i < |items| :: NumbersOk(items[i])) && Follows(tail)
    ensures Start(PrintItems(items, c) + [CLOSE_ARR] + tail, stack + [InArr(done)], finite)
         == if ItemsOk(items, |stack| + 1, finite) then Complete(tail, Arr(done + NormItems(items, c)), stack, finite) else Err
    decreases Sizes(items), 3, |items|
  {
    hide Start, Complete, Print, Norm, Acceptable, NumbersOk;
    var v, rest := items[0], items[1..];
    var more := (if |items| == 1 then [] else [COMMA] + PrintItems(rest, c)) + [CLOSE_ARR] + tail;
    assert PrintItems(items, c) + [CLOSE_ARR] + tail == Print(v, c) + more;
    ReadsValue(v, c, more, stack + [InArr(done)], finite);
    if Acceptable(v, |stack| + 1, finite) {
      CompleteItem(more, Norm(v, c), done, stack, finite);
      if |items| == 1 {
        assert more[1..] == tail && rest == [];
        assert NormItems(items, c) == [Norm(v, c)];
      } else {
        assert more[1..] == PrintItems(rest, c) + [CLOSE_ARR] + tail;
        ReadsItems(rest, c, tail, stack, done + [Norm(v, c)], finite);
        assert done + [Norm(v, c)] + NormItems(rest, c) == done + NormItems(items, c);
      }
    }
  }

  lemma PrintObj(members: seq<Member>, c: bool)
    ensures Print(Obj(members), c) == [OPEN_OBJ] + PrintMembers(Ordered(members, c), c) + [CLOSE_OBJ]
    ensures Norm(Obj(members), c) == Obj(NormMembers(Ordered(members, c), c))
  {
    hide PrintMembers, NormMembers, Sort;
  }

  lemma {:induction false} ReadsObj(members: seq<Member>, c: bool, tail: Text, stack: seq<Frame>, finite: Text -> bool)
    requires NumbersOk(Obj(members)) && Follows(tail)
    ensures Start(Print(Obj(members), c) + tail, stack, finite)
         == if Acceptable(Obj(members), |stack|, finite) then Complete(tail, Norm(Obj(members), c), stack, finite) else Err
    decreases Size(Obj(members)), 0
  {
    hide Start, Complete, MembersOk, Print, PrintMembers, Norm, NormMembers, Ordered, NextMember;
    var ms := Ordered(members, c);
    PrintObj(members, c);
    OrderedOk(members, c, |stack| + 1, finite);
    if members == [] {
      NoMembers(c, |stack| + 1, finite);
      assert ms == [] && Print(Obj(members), c) == [OPEN_OBJ] + [CLOSE_OBJ];
      StartEmptyObj(tail, stack, finite);
    } else {
      OrderedNumbers(members, c);
      var body := PrintMembers(ms, c) + [CLOSE_OBJ] + tail;
      assert Print(Obj(members), c) + tail == [OPEN_OBJ] + body;
      MembersHead(ms, c);
      StartMembers(body, stack, finite);
      ReadsMembers(ms, c, tail, stack, [], finite);
      assert NamesOf([]) == {};
      assert [] + NormMembers(ms, c) == NormMembers(ms, c);
    }
  }

  lemma NoMembers(c: bool, depth: nat, finite: Text -> bool)
    ensures PrintMembers([], c) == [] && NormMembers([], c) == [] && MembersOk([], {}, depth, finite)
  {}

  lemma MembersHead(ms: seq<Member>, c: bool)
    requires ms != []
    ensures PrintMembers(ms, c) != [] && PrintMembers(ms, c)[0] == QUOTE
  {
    hide EscapeAll, Print;
  }

  lemma {:induction false} ReadsMembers(ms: seq<Member>, c: bool, tail: Text, stack: seq<Frame>, done: seq<Member>, finite: Text -> bool)
    requires ms != [] && (forall i | 0 <= i < |ms| :: NumbersOk(ms[i].value)) && Follows(tail)
    ensures NextMember(PrintMembers(ms, c) + [CLOSE_OBJ] + tail, done, stack, finite)
         == if MembersOk(ms, NamesOf(done), |stack| + 1, finite) then Complete(tail, Obj(done + NormMembers(ms, c)), stack, finite) else Err
    decreases MemberSizes(ms), 3, |ms|
  {
    hide Start, Complete, Print, Norm, Acceptable, NumbersOk, NextMember, PrintString, HasLoneSurrogate, NamesOf;
    var m, rest := ms[0], ms[1..];
    var more := (if |ms| == 1 then [] else [COMMA] + PrintMembers(rest, c)) + [CLOSE_OBJ] + tail;
    var value := Print(m.value, c) + more;
    assert PrintMembers(ms, c) + [CLOSE_OBJ] + tail == PrintString(m.name) + [COLON] + value;
    NameReads(m.name, value, done, stack, finite);
    if !HasLoneSurrogate(m.name) && m.name !in NamesOf(done) {
      ReadsValue(m.value, c, more, stack + [InObj(done, m.name)], finite);
      if Acceptable(m.value, |stack| + 1, finite) {
        var m1 := Member(m.name, Norm(m.value, c));
        CompleteMember(more, Norm(m.value, c), done, m.name, stack, finite);
        NamesAppend(done, m1);
        if |ms| == 1 {
          assert more[1..] == tail && rest == [];
          assert NormMembers(ms, c) == [m1];
        } else {
          assert more[1..] == PrintMembers(rest, c) + [CLOSE_OBJ] + tail;
          ReadsMembers(rest, c, tail, stack, done + [m1], finite);
          assert done + [m1] + NormMembers(rest, c) == done + NormMembers(ms, c);
        }
      }
    }
  }

  lemma NamesAppend(ms: seq<Member>, m: Member)
    ensures NamesOf(ms + [m]) == NamesOf(ms) + {m.name}
  {
    var ms1 := ms + [m];
    assert forall i | 0 <= i < |ms| :: ms1[i].name == ms[i].name;
    assert ms1[|ms|].name == m.name;
  }

  // ---- Order does not matter to what is acceptable ----

  lemma {:induction false} InsertOk(m: Member, ms: seq<Member>, seen: set<Text>, depth: nat, finite: Text -> bool)
    ensures MembersOk(Insert(m, ms), seen, depth, finite) == MembersOk([m] + ms, seen, depth, finite)
  {
    hide Acceptable, HasLoneSurrogate, Before;
    if ms != [] && Before(ms[0].name, m.name) {
      var r := Insert(m, ms);
      assert r[0] == ms[0] && r[1..] == Insert(m, ms[1..]);
      InsertOk(m, ms[1..], seen + {ms[0].name}, depth, finite);
      assert ([m] + ms)[1..] == ms && ([m] + ms[1..])[1..] == ms[1..];
      assert seen + {ms[0].name} + {m.name} == seen + {m.name} + {ms[0].name};
    }
  }

  lemma {:induction false} SortOk(ms: seq<Member>, seen: set<Text>, depth: nat, finite: Text -> bool)
    ensures MembersOk(Sort(ms), seen, depth, finite) == MembersOk(ms, seen, depth, finite)
  {
    hide Acceptable, HasLoneSurrogate, Insert;
    if ms != [] {
      InsertOk(ms[0], Sort(ms[1..]), seen, depth, finite);
      assert ([ms[0]] + Sort(ms[1..]))[1..] == Sort(ms[1..]);
      SortOk(ms[1..], seen + {ms[0].name}, depth, finite);
    }
  }

  lemma OrderedOk(ms: seq<Member>, c: bool, depth: nat, finite: Text -> bool)
    ensures MembersOk(Ordered(ms, c), {}, depth, finite) == MembersOk(ms, {}, depth, finite)
  {
    SortOk(ms, {}, depth, finite);
  }

  lemma {:induction false} InsertIn(m: Member, ms: seq<Member>, x: Member)
    ensures x in Insert(m, ms) <==> x == m || x in ms
  {
    hide Before;
    if ms != [] && Before(ms[0].name, m.name) {
      InsertIn(m, ms[1..], x);
    }
  }

  lemma {:induction false} SortIn(ms: seq<Member>, x: Member)
    ensures x in Sort(ms) <==> x in ms
  {
    hide Insert;
    if ms != [] {
      InsertIn(ms[0], Sort(ms[1..]), x);
      SortIn(ms[1..], x);
    }
  }

  lemma OrderedNumbers(ms: seq<Member>, c: bool)
    requires forall i | 0 <= i < |ms| :: NumbersOk(ms[i].value)
    ensures var r := Ordered(ms, c);
            forall i | 0 <= i < |r| :: NumbersOk(r[i].value)
  {
    hide NumbersOk;
    var r := Ordered(ms, c);
    forall i | 0 <= i < |r| ensures NumbersOk(r[i].value) {
      SortIn(ms, r[i]);
      assert r[i] in ms;
    }
  }

  /**
    The parser reads a print back to the tree printed, its members in the order printed, exactly when the tree has at
    most 32 containers open at once, no name twice in an object, no lone surrogate, and numbers in range.
   */
  lemma RoundTrip(v: Json, canonical: bool, finite: Text -> bool)
    requires NumbersOk(v)
    ensures Parse(Print(v, canonical), finite) == if Acceptable(v, 0, finite) then Ok(Norm(v, canonical)) else Err
  {
    hide Start, Print, Norm, Acceptable;
    ReadsValue(v, canonical, [], [], finite);
    assert Print(v, canonical) + [] == Print(v, canonical);
  }
}
