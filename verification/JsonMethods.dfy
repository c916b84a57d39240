/**
  The printer and the parser as they run: appending to an output, and moving an offset over the text with a stack
  of open containers (client-rust/src/json.rs, client-typescript/src/json.ts).
 */
module JsonMethods {

  import opened Basics
  import opened JsonText
  import opened Json
  import JsonFacts

  // ---- Printing ----

  method WriteString(out: Text, s: Text) returns (r: Text)
    ensures r == out + PrintString(s)
  {
    hide Escape;
    var t: Text := [QUOTE];
    for i := 0 to |s|
      invariant t == [QUOTE] + EscapeAll(s[..i])
    {
      assert s[..i + 1] == s[..i] + [s[i]];
      EscapeMore(s[..i], s[i]);
      t := t + Escape(s[i]);
    }
    assert s[..|s|] == s;
    r := out + (t + [QUOTE]);
  }

  lemma {:induction false} EscapeMore(s: Text, c: Unit)
    ensures EscapeAll(s + [c]) == EscapeAll(s) + Escape(c)
  {
    hide Escape;
    if s == [] {
      assert s + [c] == [c] && [c][1..] == [];
    } else {
      assert (s + [c])[1..] == s[1..] + [c];
      EscapeMore(s[1..], c);
    }
  }

  method WriteValue(out: Text, v: Json, canonical: bool) returns (r: Text)
    ensures r == out + Print(v, canonical)
    decreases Size(v), 2
  {
    hide PrintString, PrintItems, PrintMembers, Sort;
    match v {
      case Null => r := out + NULL;
      case Bool(b) => r := out + if b then TRUE else FALSE;
      case Number(lexeme) => r := out + lexeme;
      case Str(s) => r := WriteString(out, s);
      case Arr(items) =>
        r := WriteItems(out + [OPEN_ARR], items, canonical);
        r := r + [CLOSE_ARR];
      case Obj(members) =>
        r := WriteMembers(out + [OPEN_OBJ], Ordered(members, canonical), canonical);
        r := r + [CLOSE_OBJ];
    }
  }

  method WriteItems(out: Text, items: seq<Json>, canonical: bool) returns (r: Text)
    ensures r == out + PrintItems(items, canonical)
    decreases Sizes(items), 3
  {
    hide Print;
    r := out;
    for i := 0 to |items|
      invariant r == out + Items(items, i, canonical)
    {
      SizeIn(items, i);
      ItemsGrow(items, i, canonical);
      if i > 0 {
        r := r + [COMMA];
      }
      r := WriteValue(r, items[i], canonical);
    }
    ItemsWhole(items, canonical);
  }

  /** The first `i` items, with commas between them. */
  ghost function Items(items: seq<Json>, i: nat, canonical: bool): Text
    requires i <= |items|
  {
    PrintItems(items[..i], canonical)
  }

  lemma {:induction false} SizeIn(items: seq<Json>, i: nat)
    requires i < |items|
    ensures Size(items[i]) <= Sizes(items)
  {
    if i > 0 {
      SizeIn(items[1..], i - 1);
    }
  }

  lemma ItemsGrow(items: seq<Json>, i: nat, c: bool)
    requires i < |items|
    ensures Items(items, i + 1, c) == Items(items, i, c) + (if i > 0 then [COMMA] else []) + Print(items[i], c)
  {
    hide Print;
    assert items[..i + 1] == items[..i] + [items[i]];
    PrintItemsAppend(items[..i], items[i], c);
  }

  lemma {:induction false} PrintItemsAppend(a: seq<Json>, v: Json, c: bool)
    ensures PrintItems(a + [v], c) == PrintItems(a, c) + (if a != [] then [COMMA] else []) + Print(v, c)
  {
    hide Print, PrintItems;
    if a == [] {
      assert a + [v] == [v];
      OneItem([v], c);
      NoItem(c);
    } else if |a| == 1 {
      assert (a + [v])[1..] == [v];
      OneItem(a, c);
      OneItem([v], c);
      MoreItems(a + [v], c);
    } else {
      assert (a + [v])[1..] == a[1..] + [v];
      PrintItemsAppend(a[1..], v, c);
      MoreItems(a, c);
      MoreItems(a + [v], c);
    }
  }

  lemma NoItem(c: bool)
    ensures PrintItems([], c) == []
  {}

  lemma OneItem(a: seq<Json>, c: bool)
    requires |a| == 1
    ensures PrintItems(a, c) == Print(a[0], c)
  {
    hide Print;
  }

  lemma MoreItems(a: seq<Json>, c: bool)
    requires |a| > 1
    ensures PrintItems(a, c) == Print(a[0], c) + ([COMMA] + PrintItems(a[1..], c))
  {
    hide Print;
  }

  lemma ItemsWhole(items: seq<Json>, c: bool)
    ensures Items(items, |items|, c) == PrintItems(items, c)
  {
    assert items[..|items|] == items;
  }

  method WriteMembers(out: Text, ms: seq<Member>, canonical: bool) returns (r: Text)
    ensures r == out + PrintMembers(ms, canonical)
    decreases MemberSizes(ms), 3
  {
    hide Print, PrintString, PrintMembers;
    var t: Text := [];
    NoMember(canonical);
    for i := 0 to |ms|
      invariant t == PrintMembers(ms[..i], canonical)
    {
      MemberSizeIn(ms, i);
      assert ms[..i + 1] == ms[..i] + [ms[i]];
      PrintMembersAppend(ms[..i], ms[i], canonical);
      if i > 0 {
        t := t + [COMMA];
      }
      var m := WriteString([], ms[i].name);
      m := WriteValue(m + [COLON], ms[i].value, canonical);
      assert [] + PrintString(ms[i].name) == PrintString(ms[i].name);
      t := t + m;
    }
    assert ms[..|ms|] == ms;
    r := out + t;
  }

  lemma NoMember(c: bool)
    ensures PrintMembers([], c) == []
  {}

  lemma {:induction false} MemberSizeIn(ms: seq<Member>, i: nat)
    requires i < |ms|
    ensures Size(ms[i].value) <= MemberSizes(ms)
  {
    if i > 0 {
      MemberSizeIn(ms[1..], i - 1);
    }
  }

  /** One member as it is printed. */
  ghost function MemberText(m: Member, c: bool): Text { PrintString(m.name) + [COLON] + Print(m.value, c) }

  lemma OneMember(a: seq<Member>, c: bool)
    requires |a| == 1
    ensures PrintMembers(a, c) == MemberText(a[0], c)
  {
    hide Print, PrintString;
  }

  lemma MoreMembers(a: seq<Member>, c: bool)
    requires |a| > 1
    ensures PrintMembers(a, c) == MemberText(a[0], c) + ([COMMA] + PrintMembers(a[1..], c))
  {
    hide Print, PrintString;
  }

  lemma {:induction false} PrintMembersAppend(a: seq<Member>, m: Member, c: bool)
    ensures PrintMembers(a + [m], c) == PrintMembers(a, c) + (if a != [] then [COMMA] else []) + MemberText(m, c)
  {
    hide PrintMembers, MemberText;
    if a == [] {
      assert a + [m] == [m];
      OneMember([m], c);
      NoMember(c);
    } else if |a| == 1 {
      assert (a + [m])[1..] == [m];
      OneMember(a, c);
      OneMember([m], c);
      MoreMembers(a + [m], c);
    } else {
      assert (a + [m])[1..] == a[1..] + [m];
      PrintMembersAppend(a[1..], m, c);
      MoreMembers(a, c);
      MoreMembers(a + [m], c);
    }
  }

  // ---- Parsing ----

  method Ws(text: Text, from: nat) returns (i: nat)
    requires from <= |text|
    ensures from <= i <= |text| && text[i..] == SkipWhite(text[from..])
  {
    i := from;
    while i < |text| && IsWhite(text[i])
      invariant from <= i <= |text| && SkipWhite(text[i..]) == SkipWhite(text[from..])
    {
      assert text[i..][0] == text[i] && text[i..][1..] == text[i + 1..];
      i := i + 1;
    }
    assert i < |text| ==> text[i..][0] == text[i];
  }

  /** Reading `more` on, with `out` read already. */
  function After(out: Text, r: Option<Read>): Option<Read> {
    if r.None? then None else Some(Read(out + r.value.text, r.value.rest))
  }

  lemma AfterOne(out: Text, c: Unit, r: Option<Read>)
    ensures After(out, Prepend(c, r)) == After(out + [c], r)
  {
    if r.Some? {
      assert out + ([c] + r.value.text) == out + [c] + r.value.text;
    }
  }

  lemma AfterNothing(r: Option<Read>)
    ensures After([], r) == r
  {
    if r.Some? {
      assert [] + r.value.text == r.value.text;
    }
  }

  /** The escape at `i`, which holds a backslash. */
  method ReadEscape(text: Text, i: nat) returns (ok: bool, c: Unit, next: nat)
    requires i < |text| && text[i] == BACKSLASH
    ensures !ok ==> ScanString(text[i..]).None?
    ensures ok ==> i < next <= |text| && ScanString(text[i..]) == Prepend(c, ScanString(text[next..]))
  {
    hide Hex4, Unescape;
    ghost var rest := text[i..];
    assert rest[0] == BACKSLASH;
    c, next := 0, i;
    if i + 1 == |text| {
      return false, c, next;
    }
    assert rest[1] == text[i + 1];
    if text[i + 1] == LOWER_U {
      if |text| - i < 6 {
        return false, c, next;
      }
      assert rest[2..6] == text[i + 2..i + 6] && rest[6..] == text[i + 6..];
      var h := Hex4(text[i + 2..i + 6]);
      if h.None? {
        return false, c, next;
      }
      return true, h.value, i + 6;
    }
    assert rest[2..] == text[i + 2..];
    var e := Unescape(text[i + 1]);
    if e.None? {
      return false, c, next;
    }
    return true, e.value, i + 2;
  }

  lemma PlainUnit(text: Text, i: nat)
    requires i < |text|
    ensures text[i] == QUOTE ==> ScanString(text[i..]) == Some(Read([], text[i + 1..]))
    ensures text[i] < 0x20 ==> ScanString(text[i..]).None?
    ensures text[i] >= 0x20 && text[i] != QUOTE && text[i] != BACKSLASH ==>
              ScanString(text[i..]) == Prepend(text[i], ScanString(text[i + 1..]))
  {
    hide Hex4, Unescape;
    assert text[i..][0] == text[i] && text[i..][1..] == text[i + 1..];
  }

  /** What is left of a string literal after its quote: runs of plain units are taken together, escapes one by one. */
  method ReadRest(text: Text, from: nat) returns (ok: bool, out: Text, i: nat)
    requires from <= |text|
    ensures ok <==> ScanString(text[from..]).Some?
    ensures ok ==> from < i <= |text| && ScanString(text[from..]) == Some(Read(out, text[i..]))
  {
    hide ScanString;
    out, i := [], from;
    var start := i;
    ghost var whole := ScanString(text[from..]);
    AfterNothing(whole);
    assert [] + text[start..i] == [];
    while true
      invariant from <= start <= i <= |text|
      invariant whole == After(out + text[start..i], ScanString(text[i..]))
      decreases |text| - i
    {
      ghost var so := out + text[start..i];
      if i == |text| {
        NothingLeft();
        return false, out, i;
      }
      PlainUnit(text, i);
      if text[i] == QUOTE {
        assert so + [] == so;
        return true, out + text[start..i], i + 1;
      }
      if text[i] < 0x20 {
        return false, out, i;
      }
      if text[i] != BACKSLASH {
        AfterOne(so, text[i], ScanString(text[i + 1..]));
        assert so + [text[i]] == out + text[start..i + 1];
        i := i + 1;
      } else {
        out := out + text[start..i];
        var fine, c, next := ReadEscape(text, i);
        if !fine {
          return false, out, i;
        }
        AfterOne(so, c, ScanString(text[next..]));
        out, i := out + [c], next;
        start := i;
        assert out + text[start..i] == out;
      }
    }
  }

  lemma NothingLeft()
    ensures ScanString([]).None?
  {}

  method ReadStr(text: Text, from: nat) returns (ok: bool, out: Text, i: nat)
    requires from <= |text|
    ensures ok <==> ReadString(text[from..]).Some?
    ensures ok ==> from < i <= |text| && ReadString(text[from..]) == Some(Read(out, text[i..]))
  {
    hide HasLoneSurrogate, ScanString;
    if from == |text| || text[from] != QUOTE {
      assert from < |text| ==> text[from..][0] == text[from];
      return false, [], from;
    }
    assert text[from..][0] == QUOTE && text[from..][1..] == text[from + 1..];
    ok, out, i := ReadRest(text, from + 1);
    ok := ok && !HasLoneSurrogate(out);
  }

  method ReadMemberName(text: Text, from: nat, names: set<Text>) returns (ok: bool, name: Text, i: nat)
    requires from <= |text|
    ensures ok <==> ReadName(text[from..], names).Some?
    ensures ok ==> from < i <= |text| && ReadName(text[from..], names) == Some(Read(name, text[i..]))
  {
    hide ReadString, SkipWhite;
    i := Ws(text, from);
    ok, name, i := ReadStr(text, i);
    if !ok || name in names {
      return false, name, i;
    }
    i := Ws(text, i);
    if i == |text| || text[i] != COLON {
      assert i < |text| ==> text[i..][0] == text[i];
      return false, name, i;
    }
    assert text[i..][0] == COLON && text[i..][1..] == text[i + 1..];
    return true, name, i + 1;
  }

  /** How a value begins: not at all, whole, or by opening a container whose first value is next. */
  datatype Begun = Fails | Value(value: Json, next: nat) | Opens(stack: seq<Frame>, next: nat)

  ghost predicate Continues(r: Result, b: Begun, text: Text, from: nat, stack: seq<Frame>, finite: Text -> bool) {
    match b
    case Fails => r == Err
    case Value(v, i) => from < i <= |text| && r == Complete(text[i..], v, stack, finite)
    case Opens(stack1, i) => from < i <= |text| && |stack1| == |stack| + 1 <= MAX_DEPTH && r == Start(text[i..], stack1, finite)
  }

  method BeginObj(text: Text, i: nat, stack: seq<Frame>, finite: Text -> bool) returns (b: Begun)
    requires i < |text| && text[i] == OPEN_OBJ
    ensures Continues(StartObj(text[i..], stack, finite), b, text, i, stack, finite)
  {
    hide Start, Complete, SkipWhite, ReadName;
    if |stack| >= MAX_DEPTH {
      return Fails;
    }
    assert text[i..][1..] == text[i + 1..];
    var j := Ws(text, i + 1);
    assert j < |text| ==> text[j..][0] == text[j] && text[j..][1..] == text[j + 1..];
    if j < |text| && text[j] == CLOSE_OBJ {
      return Value(Obj([]), j + 1);
    }
    assert NamesOf([]) == {};
    var ok, name, k := ReadMemberName(text, j, {});
    return if ok then Opens(stack + [InObj([], name)], k) else Fails;
  }

  method BeginArr(text: Text, i: nat, stack: seq<Frame>, finite: Text -> bool) returns (b: Begun)
    requires i < |text| && text[i] == OPEN_ARR
    ensures Continues(StartArr(text[i..], stack, finite), b, text, i, stack, finite)
  {
    hide Start, Complete, SkipWhite;
    if |stack| >= MAX_DEPTH {
      return Fails;
    }
    assert text[i..][1..] == text[i + 1..];
    var j := Ws(text, i + 1);
    assert j < |text| ==> text[j..][0] == text[j] && text[j..][1..] == text[j + 1..];
    if j < |text| && text[j] == CLOSE_ARR {
      return Value(Arr([]), j + 1);
    }
    return Opens(stack + [InArr([])], j);
  }

  method BeginWord(text: Text, i: nat, stack: seq<Frame>, finite: Text -> bool) returns (b: Begun)
    requires i < |text| && text[i] != OPEN_OBJ && text[i] != OPEN_ARR && text[i] != QUOTE
    ensures Continues(StartHere(text[i..], stack, finite), b, text, i, stack, finite)
  {
    hide Complete, NumberLength, StartObj, StartArr, StartStr;
    var here := text[i..];
    assert here[0] == text[i];
    if text[i] == 0x2d || IsDigit(text[i]) {
      var n := NumberLength(here);
      assert here[n..] == text[i + n..];
      return if n == 0 || !finite(here[..n]) then Fails else Value(Number(here[..n]), i + n);
    } else if StartsWith(here, TRUE) {
      assert here[4..] == text[i + 4..];
      return Value(Bool(true), i + 4);
    } else if StartsWith(here, FALSE) {
      assert here[5..] == text[i + 5..];
      return Value(Bool(false), i + 5);
    } else if StartsWith(here, NULL) {
      assert here[4..] == text[i + 4..];
      return Value(Null, i + 4);
    }
    return Fails;
  }

  method Begin(text: Text, from: nat, stack: seq<Frame>, finite: Text -> bool) returns (b: Begun)
    requires from <= |text|
    ensures Continues(Start(text[from..], stack, finite), b, text, from, stack, finite)
  {
    hide Complete, StartObj, StartArr, ReadString, SkipWhite, StartNum, StartWord;
    var i := Ws(text, from);
    if i == |text| {
      return Fails;
    }
    assert text[i..][0] == text[i];
    if text[i] == OPEN_OBJ {
      b := BeginObj(text, i, stack, finite);
    } else if text[i] == OPEN_ARR {
      b := BeginArr(text, i, stack, finite);
    } else if text[i] == QUOTE {
      assert Start(text[from..], stack, finite) == StartStr(text[i..], stack, finite);
      var ok, s, j := ReadStr(text, i);
      return if ok then Value(Str(s), j) else Fails;
    } else {
      b := BeginWord(text, i, stack, finite);
    }
  }

  method AddToArr(text: Text, i: nat, items: seq<Json>, below: seq<Frame>, finite: Text -> bool) returns (b: Begun)
    requires i < |text| && |below| < MAX_DEPTH
    ensures Continues(AddItem(text[i..], items, below, finite), b, text, i, below, finite)
  {
    hide Start, Complete;
    assert text[i..][0] == text[i] && text[i..][1..] == text[i + 1..];
    if text[i] == COMMA {
      return Opens(below + [InArr(items)], i + 1);
    }
    return if text[i] == CLOSE_ARR then Value(Arr(items), i + 1) else Fails;
  }

  method AddToObj(text: Text, i: nat, ms: seq<Member>, below: seq<Frame>, finite: Text -> bool) returns (b: Begun)
    requires i < |text| && |below| < MAX_DEPTH
    ensures Continues(AddMember(text[i..], ms, below, finite), b, text, i, below, finite)
  {
    hide Start, Complete, ReadName, NamesOf;
    assert text[i..][0] == text[i] && text[i..][1..] == text[i + 1..];
    if text[i] == COMMA {
      var ok, name, k := ReadMemberName(text, i + 1, NamesOf(ms));
      assert AddMember(text[i..], ms, below, finite) == NextMember(text[i + 1..], ms, below, finite);
      return if ok then Opens(below + [InObj(ms, name)], k) else Fails;
    }
    return if text[i] == CLOSE_OBJ then Value(Obj(ms), i + 1) else Fails;
  }

  /** A whole value goes to the container on top, which it completes, or which goes on to its next value. */
  method Add(text: Text, from: nat, value: Json, stack: seq<Frame>, finite: Text -> bool) returns (b: Begun)
    requires from <= |text| && stack != [] && |stack| <= MAX_DEPTH
    ensures Continues(Complete(text[from..], value, stack, finite), b, text, from, stack[..|stack| - 1], finite)
  {
    hide Start, SkipWhite, AddItem, AddMember;
    var i := Ws(text, from);
    if i == |text| {
      return Fails;
    }
    var below := stack[..|stack| - 1];
    match stack[|stack| - 1] {
      case InArr(items) =>
        b := AddToArr(text, i, items + [value], below, finite);
      case InObj(members, name) =>
        b := AddToObj(text, i, members + [Member(name, value)], below, finite);
    }
  }

  /** parseJson: an offset, a stack of at most 32 open containers, and two loops. */
  method ParseJson(text: Text, finite: Text -> bool) returns (r: Result)
    ensures r == Parse(text, finite)
    ensures r.Ok? ==> Acceptable(r.value, 0, finite)
  {
    hide Start, Complete, Acceptable;
    JsonFacts.ParseSound(text, finite);
    var i, stack: seq<Frame> := 0, [];
    assert text[0..] == text;
    while true
      invariant i <= |text| && |stack| <= MAX_DEPTH && Start(text[i..], stack, finite) == Parse(text, finite)
      decreases |text| - i
    {
      var b := Begin(text, i, stack, finite);
      ghost var at := i;
      while b.Value?
        invariant b.Fails? ==> Parse(text, finite) == Err
        invariant b.Value? ==> at < b.next <= |text| && |stack| <= MAX_DEPTH && Complete(text[b.next..], b.value, stack, finite) == Parse(text, finite)
        invariant b.Opens? ==> at < b.next <= |text| && |b.stack| <= MAX_DEPTH && Start(text[b.next..], b.stack, finite) == Parse(text, finite)
        decreases if b.Value? then |text| - b.next + 1 else 0
      {
        if stack == [] {
          CompleteLast(text[b.next..], b.value, finite);
          i := Ws(text, b.next);
          return if i == |text| then Ok(b.value) else Err;
        }
        b := Add(text, b.next, b.value, stack, finite);
        stack := stack[..|stack| - 1];
      }
      if b.Fails? {
        return Err;
      }
      i, stack := b.next, b.stack;
    }
  }

  lemma CompleteLast(rest: Text, value: Json, finite: Text -> bool)
    ensures Complete(rest, value, [], finite) == if SkipWhite(rest) == [] then Ok(value) else Err
  {}
}
