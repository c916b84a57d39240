/**
  The bracket scan that bounds nesting before parsing (client-rust/src/json.rs), and the depth of trees.
  The scan is over code units; the bytes of a character beyond ASCII are as inert as its units.
 */
module JsonNesting {

  import opened Basics
  import opened JsonText
  import opened Json
  import JsonRoundTrip
  import JsonFacts

  function Max(a: nat, b: nat): nat { if a >= b then a else b }

  /** Arrays and objects open at once, at most. */
  function Depth(v: Json): nat
    decreases Size(v), 0
  {
    match v
    case Arr(items) => 1 + ItemsDepth(items)
    case Obj(members) => 1 + MembersDepth(members)
    case _ => 0
  }

  function ItemsDepth(items: seq<Json>): nat
    decreases Sizes(items), 1, |items|
  {
    if items == [] then 0 else Max(Depth(items[0]), ItemsDepth(items[1..]))
  }

  function MembersDepth(ms: seq<Member>): nat
    decreases MemberSizes(ms), 1, |ms|
  {
    if ms == [] then 0 else Max(Depth(ms[0].value), MembersDepth(ms[1..]))
  }

  datatype Scan = Scan(depth: nat, max: nat, inString: bool, escaped: bool)

  function Step(s: Scan, c: Unit): Scan {
    if s.inString then
      if s.escaped then s.(escaped := false)
      else if c == BACKSLASH then s.(escaped := true)
      else if c == QUOTE then s.(inString := false)
      else s
    else if c == QUOTE then s.(inString := true)
    else if c == OPEN_ARR || c == OPEN_OBJ then s.(depth := s.depth + 1, max := Max(s.max, s.depth + 1))
    else if c == CLOSE_ARR || c == CLOSE_OBJ then s.(depth := if s.depth == 0 then 0 else s.depth - 1)
    else s
  }

  function Steps(s: Scan, text: Text): Scan
    decreases |text|
  {
    if text == [] then s else Steps(Step(s, text[0]), text[1..])
  }

  const CLEAR := Scan(0, 0, false, false)

  /** The scan of the code: one pass over the text finds how deep the tree is that the parser makes of it. */
  method Nesting(text: Text) returns (max: nat)
    ensures max == Steps(CLEAR, text).max
    ensures forall finite | Parse(text, finite).Ok? :: max == Depth(Parse(text, finite).value) <= MAX_DEPTH
  {
    forall finite | Parse(text, finite).Ok?
      ensures Steps(CLEAR, text).max == Depth(Parse(text, finite).value) <= MAX_DEPTH
    {
      NestingOfText(text, finite);
    }
    var depth: nat, inString, escaped := 0, false, false;
    max := 0;
    for i := 0 to |text|
      invariant Steps(Scan(depth, max, inString, escaped), text[i..]) == Steps(CLEAR, text)
    {
      var c := text[i];
      assert text[i..][0] == c && text[i..][1..] == text[i + 1..];
      if inString {
        if escaped {
          escaped := false;
        } else if c == BACKSLASH {
          escaped := true;
        } else if c == QUOTE {
          inString := false;
        }
      } else if c == QUOTE {
        inString := true;
      } else if c == OPEN_ARR || c == OPEN_OBJ {
        depth := depth + 1;
        max := Max(max, depth);
      } else if c == CLOSE_ARR || c == CLOSE_OBJ {
        depth := if depth == 0 then 0 else depth - 1;
      }
    }
  }

  lemma {:induction false} StepsAppend(s: Scan, a: Text, b: Text)
    ensures Steps(s, a + b) == Steps(Steps(s, a), b)
    decreases |a|
  {
    if a == [] {
      assert a + b == b;
    } else {
      assert (a + b)[1..] == a[1..] + b;
      StepsAppend(Step(s, a[0]), a[1..], b);
    }
  }

  lemma StepsOne(s: Scan, c: Unit)
    ensures Steps(s, [c]) == Step(s, c)
  {
    assert [c][1..] == [];
  }

  // ---- Strings and numbers do not count ----

  lemma EscapeInert(s: Scan, c: Unit)
    requires s.inString && !s.escaped
    ensures Steps(s, Escape(c)) == s
  {
    var e := Escape(c);
    if |e| == 1 {
      StepsOne(s, c);
    } else {
      var s1 := Step(s, BACKSLASH);
      assert e[1..] == [e[1]] + e[2..];
      assert Step(s1, e[1]) == s;
      assert Steps(s, e) == Steps(s, e[2..]);
      if |e| == 6 {
        assert e[2..] == [0x30, 0x30, HexLower(c / 16), HexLower(c % 16)];
        Inert(s, e[2..]);
      } else {
        assert e[2..] == [];
      }
    }
  }

  /** Units inside a string that neither end it nor escape. */
  lemma {:induction false} Inert(s: Scan, text: Text)
    requires s.inString && !s.escaped && forall i | 0 <= i < |text| :: text[i] != BACKSLASH && text[i] != QUOTE
    ensures Steps(s, text) == s
    decreases |text|
  {
    if text != [] {
      Inert(s, text[1..]);
    }
  }

  lemma {:induction false} EscapesInert(s: Scan, text: Text)
    requires s.inString && !s.escaped
    ensures Steps(s, EscapeAll(text)) == s
    decreases |text|
  {
    hide Escape;
    if text != [] {
      StepsAppend(s, Escape(text[0]), EscapeAll(text[1..]));
      EscapeInert(s, text[0]);
      EscapesInert(s, text[1..]);
    }
  }

  lemma StringInert(s: Scan, text: Text)
    requires !s.inString && !s.escaped
    ensures Steps(s, PrintString(text)) == s
  {
    hide Escape, EscapeAll;
    var s1 := s.(inString := true);
    StepsAppend(s, [QUOTE] + EscapeAll(text), [QUOTE]);
    StepsAppend(s, [QUOTE], EscapeAll(text));
    StepsOne(s, QUOTE);
    EscapesInert(s1, text);
    StepsOne(s1, QUOTE);
  }

  predicate Plain(c: Unit) {
    c != QUOTE && c != OPEN_ARR && c != OPEN_OBJ && c != CLOSE_ARR && c != CLOSE_OBJ
  }

  lemma {:induction false} PlainInert(s: Scan, text: Text)
    requires !s.inString && forall i | 0 <= i < |text| :: Plain(text[i])
    ensures Steps(s, text) == s
    decreases |text|
  {
    if text != [] {
      PlainInert(s, text[1..]);
    }
  }

  lemma NumberPlain(text: Text)
    requires IsNumber(text)
    ensures forall i | 0 <= i < |text| :: Plain(text[i])
  {
    hide Whole, Fraction, Exponent;
    var whole := Whole(text);
    var frac := whole + Fraction(text[whole..]);
    WholePlain(text);
    FractionPlain(text[whole..]);
    ExponentPlain(text[frac..]);
    forall i | 0 <= i < |text| ensures Plain(text[i]) {
      if i >= frac {
        assert text[i] == text[frac..][i - frac];
      } else if i >= whole {
        assert text[i] == text[whole..][i - whole];
      }
    }
  }

  lemma WholePlain(rest: Text)
    ensures forall i | 0 <= i < Whole(rest) :: Plain(rest[i])
  {
    hide Digits;
    var sign := if rest != [] && rest[0] == 0x2d then 1 else 0;
    forall i | 0 <= i < Whole(rest) ensures Plain(rest[i]) {
      assert i >= sign ==> rest[i] == rest[sign..][i - sign];
    }
  }

  lemma FractionPlain(rest: Text)
    ensures forall i | 0 <= i < Fraction(rest) :: Plain(rest[i])
  {
    hide Digits;
    forall i | 0 <= i < Fraction(rest) ensures Plain(rest[i]) {
      assert i >= 1 ==> rest[i] == rest[1..][i - 1];
    }
  }

  lemma ExponentPlain(rest: Text)
    ensures forall i | 0 <= i < Exponent(rest) :: Plain(rest[i])
  {
    hide Digits;
    forall i | 0 <= i < Exponent(rest) ensures Plain(rest[i]) {
      var k := if |rest| > 1 && (rest[1] == 0x2b || rest[1] == 0x2d) then 2 else 1;
      assert i >= k ==> rest[i] == rest[k..][i - k];
    }
  }

  // ---- Prints count their depth ----

  function Deeper(s: Scan, d: nat): Scan { s.(max := Max(s.max, s.depth + d)) }

  predicate Outside(s: Scan) { !s.inString && !s.escaped && s.depth <= s.max }

  lemma {:induction false} PrintCounts(s: Scan, v: Json, c: bool)
    requires Outside(s) && NumbersOk(v)
    ensures Steps(s, Print(v, c)) == Deeper(s, Depth(v))
    decreases Size(v), 2
  {
    hide Steps, PrintString, PrintItems, PrintMembers, IsNumber, Sort;
    match v {
      case Null => PlainInert(s, NULL);
      case Bool(b) => PlainInert(s, if b then TRUE else FALSE);
      case Number(lexeme) =>
        NumberPlain(lexeme);
        PlainInert(s, lexeme);
      case Str(text) => StringInert(s, text);
      case Arr(items) => BracketsCount(s, OPEN_ARR, PrintItems(items, c), CLOSE_ARR, ItemsDepth(items)) by {
        ItemsCount(Step(s, OPEN_ARR), items, c);
      }
      case Obj(members) =>
        var ms := Ordered(members, c);
        OrderedSame(members, c);
        BracketsCount(s, OPEN_OBJ, PrintMembers(ms, c), CLOSE_OBJ, MembersDepth(members)) by {
          MembersCount(Step(s, OPEN_OBJ), ms, c);
        }
    }
  }

  lemma BracketsCount(s: Scan, open: Unit, inside: Text, close: Unit, d: nat)
    requires Outside(s) && (open == OPEN_ARR || open == OPEN_OBJ) && (close == CLOSE_ARR || close == CLOSE_OBJ)
    requires Steps(Step(s, open), inside) == Deeper(Step(s, open), d)
    ensures Steps(s, [open] + inside + [close]) == Deeper(s, 1 + d)
  {
    StepsAppend(s, [open] + inside, [close]);
    StepsAppend(s, [open], inside);
    StepsOne(s, open);
    StepsOne(Deeper(Step(s, open), d), close);
  }

  lemma {:induction false} ItemsCount(s: Scan, items: seq<Json>, c: bool)
    requires Outside(s) && forall i | 0 <= i < |items| :: NumbersOk(items[i])
    ensures Steps(s, PrintItems(items, c)) == Deeper(s, ItemsDepth(items))
    decreases Sizes(items), 3, |items|
  {
    hide Steps, Print, Depth, NumbersOk;
    if items == [] {
      PlainInert(s, []);
    } else {
      PrintCounts(s, items[0], c);
      var s1 := Deeper(s, Depth(items[0]));
      if |items| == 1 {
        assert items[1..] == [];
        assert PrintItems(items, c) == Print(items[0], c);
      } else {
        StepsAppend(s, Print(items[0], c), [COMMA] + PrintItems(items[1..], c));
        StepsAppend(s1, [COMMA], PrintItems(items[1..], c));
        StepsOne(s1, COMMA);
        ItemsCount(s1, items[1..], c);
      }
    }
  }

  lemma {:induction false} MembersCount(s: Scan, ms: seq<Member>, c: bool)
    requires Outside(s) && forall i | 0 <= i < |ms| :: NumbersOk(ms[i].value)
    ensures Steps(s, PrintMembers(ms, c)) == Deeper(s, MembersDepth(ms))
    decreases MemberSizes(ms), 3, |ms|
  {
    hide Steps, Print, Depth, NumbersOk, PrintString;
    if ms == [] {
      PlainInert(s, []);
    } else {
      var m := ms[0];
      var head := PrintString(m.name) + [COLON] + Print(m.value, c);
      var s1 := Deeper(s, Depth(m.value));
      assert Steps(s, head) == s1 by {
        StepsAppend(s, PrintString(m.name) + [COLON], Print(m.value, c));
        StepsAppend(s, PrintString(m.name), [COLON]);
        StringInert(s, m.name);
        StepsOne(s, COLON);
        PrintCounts(s, m.value, c);
      }
      if |ms| == 1 {
        assert ms[1..] == [];
        assert PrintMembers(ms, c) == head;
      } else {
        assert PrintMembers(ms, c) == head + ([COMMA] + PrintMembers(ms[1..], c));
        StepsAppend(s, head, [COMMA] + PrintMembers(ms[1..], c));
        StepsAppend(s1, [COMMA], PrintMembers(ms[1..], c));
        StepsOne(s1, COMMA);
        MembersCount(s1, ms[1..], c);
      }
    }
  }

  lemma {:induction false} InsertDepth(m: Member, ms: seq<Member>)
    ensures MembersDepth(Insert(m, ms)) == Max(Depth(m.value), MembersDepth(ms))
  {
    hide Depth, Before;
    if ms != [] && Before(ms[0].name, m.name) {
      InsertDepth(m, ms[1..]);
      assert Insert(m, ms)[1..] == Insert(m, ms[1..]);
    } else {
      assert Insert(m, ms)[1..] == ms;
    }
  }

  lemma {:induction false} SortDepth(ms: seq<Member>)
    ensures MembersDepth(Sort(ms)) == MembersDepth(ms)
  {
    hide Depth, Insert;
    if ms != [] {
      InsertDepth(ms[0], Sort(ms[1..]));
      SortDepth(ms[1..]);
    }
  }

  lemma OrderedSame(ms: seq<Member>, c: bool)
    requires forall i | 0 <= i < |ms| :: NumbersOk(ms[i].value)
    ensures MembersDepth(Ordered(ms, c)) == MembersDepth(ms)
    ensures var r := Ordered(ms, c);
            forall i | 0 <= i < |r| :: NumbersOk(r[i].value)
  {
    SortDepth(ms);
    JsonRoundTrip.OrderedNumbers(ms, c);
  }

  /** The scan of a print finds exactly the depth of the tree printed. */
  lemma NestingOfPrint(v: Json, c: bool)
    requires NumbersOk(v)
    ensures Steps(CLEAR, Print(v, c)).max == Depth(v)
  {
    PrintCounts(CLEAR, v, c);
  }

  lemma {:induction false} DepthAllowed(v: Json, depth: nat, finite: Text -> bool)
    requires Acceptable(v, depth, finite) && depth <= MAX_DEPTH
    ensures depth + Depth(v) <= MAX_DEPTH
    decreases Size(v), 2
  {
    match v {
      case Arr(items) => ItemsAllowed(items, depth + 1, finite);
      case Obj(members) => MembersAllowed(members, {}, depth + 1, finite);
      case _ =>
    }
  }

  lemma {:induction false} ItemsAllowed(items: seq<Json>, depth: nat, finite: Text -> bool)
    requires ItemsOk(items, depth, finite) && depth <= MAX_DEPTH
    ensures depth + ItemsDepth(items) <= MAX_DEPTH
    decreases Sizes(items), 3, |items|
  {
    hide Acceptable, Depth;
    if items != [] {
      DepthAllowed(items[0], depth, finite);
      ItemsAllowed(items[1..], depth, finite);
    }
  }

  lemma {:induction false} MembersAllowed(ms: seq<Member>, seen: set<Text>, depth: nat, finite: Text -> bool)
    requires MembersOk(ms, seen, depth, finite) && depth <= MAX_DEPTH
    ensures depth + MembersDepth(ms) <= MAX_DEPTH
    decreases MemberSizes(ms), 3, |ms|
  {
    hide Acceptable, Depth, HasLoneSurrogate;
    if ms != [] {
      DepthAllowed(ms[0].value, depth, finite);
      MembersAllowed(ms[1..], seen + {ms[0].name}, depth, finite);
    }
  }

  // ---- Every text that parses counts the depth of its tree ----

  function FrameDepth(f: Frame): nat { if f.InArr? then ItemsDepth(f.items) else MembersDepth(f.members) }

  /** How deep what is open goes so far. */
  function Reach(stack: seq<Frame>): nat {
    if stack == [] then 0
    else Max(Reach(stack[..|stack| - 1]), |stack| + FrameDepth(stack[|stack| - 1]))
  }

  /** The scan stands outside strings, with `stack` open and `max` the deepest so far. */
  predicate At(s: Scan, depth: nat, max: nat) { s == Scan(depth, max, false, false) }

  lemma ReachPushed(stack: seq<Frame>, f: Frame)
    ensures Reach(stack + [f]) == Max(Reach(stack), |stack| + 1 + FrameDepth(f))
  {
    assert (stack + [f])[..|stack|] == stack;
  }

  lemma {:induction false} ReachOpen(stack: seq<Frame>)
    ensures |stack| <= Reach(stack)
  {
    if stack != [] {
      ReachOpen(stack[..|stack| - 1]);
    }
  }

  lemma {:induction false} ItemsDepthAppend(items: seq<Json>, v: Json)
    ensures ItemsDepth(items + [v]) == Max(ItemsDepth(items), Depth(v))
  {
    hide Depth;
    if items == [] {
      assert items + [v] == [v] && [v][1..] == [];
    } else {
      assert (items + [v])[1..] == items[1..] + [v];
      ItemsDepthAppend(items[1..], v);
    }
  }

  lemma {:induction false} MembersDepthAppend(ms: seq<Member>, m: Member)
    ensures MembersDepth(ms + [m]) == Max(MembersDepth(ms), Depth(m.value))
  {
    hide Depth;
    if ms == [] {
      assert ms + [m] == [m] && [m][1..] == [];
    } else {
      assert (ms + [m])[1..] == ms[1..] + [m];
      MembersDepthAppend(ms[1..], m);
    }
  }

  lemma {:induction false} WhiteInert(s: Scan, rest: Text)
    requires !s.inString
    ensures Steps(s, rest) == Steps(s, SkipWhite(rest))
    decreases |rest|
  {
    if rest != [] && IsWhite(rest[0]) {
      WhiteInert(s, rest[1..]);
    }
  }

  /** A scan inside a string comes out where the string literal ends. */
  lemma {:induction false} LiteralInert(s: Scan, rest: Text)
    requires s.inString && !s.escaped && ScanString(rest).Some?
    ensures Steps(s, rest) == Steps(s.(inString := false), ScanString(rest).value.rest)
    decreases |rest|
  {
    hide Hex4, Unescape;
    if rest[0] == QUOTE {
    } else if rest[0] != BACKSLASH {
      LiteralInert(s, rest[1..]);
    } else {
      assert rest[1..][1..] == rest[2..];
      assert Steps(s, rest) == Steps(s, rest[2..]);
      if rest[1] == LOWER_U {
        HexInert(s, rest[2..6]);
        assert rest[2..] == rest[2..6] + rest[6..];
        StepsAppend(s, rest[2..6], rest[6..]);
        LiteralInert(s, rest[6..]);
      } else {
        LiteralInert(s, rest[2..]);
      }
    }
  }

  lemma HexInert(s: Scan, h: Text)
    requires s.inString && !s.escaped && |h| == 4 && Hex4(h).Some?
    ensures Steps(s, h) == s
  {
    Inert(s, h);
  }

  lemma StringRead(s: Scan, here: Text)
    requires !s.inString && !s.escaped && ReadString(here).Some?
    ensures Steps(s, here) == Steps(s, ReadString(here).value.rest)
  {
    hide ScanString, HasLoneSurrogate;
    LiteralInert(s.(inString := true), here[1..]);
  }

  lemma NumberRead(s: Scan, here: Text)
    requires !s.inString && NumberLength(here) > 0
    ensures Steps(s, here) == Steps(s, here[NumberLength(here)..])
  {
    hide NumberLength, IsNumber, Plain, Steps;
    var n := NumberLength(here);
    NumberOwn(here);
    NumberPlain(here[..n]);
    WordRead(s, here, here[..n]);
  }

  lemma WordRead(s: Scan, here: Text, word: Text)
    requires !s.inString && word <= here && forall i | 0 <= i < |word| :: Plain(word[i])
    ensures Steps(s, here) == Steps(s, here[|word|..])
  {
    PlainInert(s, word);
    StepsAppend(s, word, here[|word|..]);
    assert here == word + here[|word|..];
  }

  lemma NameRead(s: Scan, rest: Text, names: set<Text>)
    requires !s.inString && !s.escaped && ReadName(rest, names).Some?
    ensures Steps(s, rest) == Steps(s, ReadName(rest, names).value.rest)
  {
    hide ReadString;
    WhiteInert(s, rest);
    var r := ReadString(SkipWhite(rest)).value;
    StringRead(s, SkipWhite(rest));
    WhiteInert(s, r.rest);
  }

  lemma {:induction false} CountStart(s: Scan, rest: Text, stack: seq<Frame>, finite: Text -> bool)
    requires At(s, |stack|, Reach(stack)) && Start(rest, stack, finite).Ok?
    ensures Steps(s, rest).max == Depth(Start(rest, stack, finite).value)
    decreases |rest|, 1
  {
    hide Steps, StartObj, StartArr, StartStr, StartNum, StartWord;
    var here := SkipWhite(rest);
    WhiteInert(s, rest);
    if here[0] == OPEN_OBJ {
      CountObj(s, here, stack, finite);
    } else if here[0] == OPEN_ARR {
      CountArr(s, here, stack, finite);
    } else {
      CountAtom(s, here, stack, finite);
    }
  }

  lemma {:induction false} CountAtom(s: Scan, here: Text, stack: seq<Frame>, finite: Text -> bool)
    requires here != [] && here[0] != OPEN_OBJ && here[0] != OPEN_ARR
    requires At(s, |stack|, Reach(stack)) && StartHere(here, stack, finite).Ok?
    ensures Steps(s, here).max == Depth(StartHere(here, stack, finite).value)
    decreases |here|, 0
  {
    hide Steps, Complete, ReadString, NumberLength, Reach, Plain;
    ReachOpen(stack);
    if here[0] == QUOTE {
      StringRead(s, here);
      CountComplete(s, ReadString(here).value.rest, Str(ReadString(here).value.text), stack, finite);
    } else if here[0] == 0x2d || IsDigit(here[0]) {
      var n := NumberLength(here);
      NumberRead(s, here);
      CountComplete(s, here[n..], Number(here[..n]), stack, finite);
    } else {
      WordsPlain();
      if StartsWith(here, TRUE) {
        WordRead(s, here, TRUE);
        CountComplete(s, here[4..], Bool(true), stack, finite);
      } else if StartsWith(here, FALSE) {
        WordRead(s, here, FALSE);
        CountComplete(s, here[5..], Bool(false), stack, finite);
      } else {
        WordRead(s, here, NULL);
        CountComplete(s, here[4..], Null, stack, finite);
      }
    }
  }

  lemma WordsPlain()
    ensures forall i | 0 <= i < |TRUE| :: Plain(TRUE[i])
    ensures forall i | 0 <= i < |FALSE| :: Plain(FALSE[i])
    ensures forall i | 0 <= i < |NULL| :: Plain(NULL[i])
  {}

  lemma {:induction false} CountObj(s: Scan, here: Text, stack: seq<Frame>, finite: Text -> bool)
    requires here != [] && here[0] == OPEN_OBJ
    requires At(s, |stack|, Reach(stack)) && StartObj(here, stack, finite).Ok?
    ensures Steps(s, here).max == Depth(StartObj(here, stack, finite).value)
    decreases |here|, 0
  {
    hide Complete, NextMember, Reach;
    var inside, s1 := SkipWhite(here[1..]), Step(s, OPEN_OBJ);
    WhiteInert(s1, here[1..]);
    if inside != [] && inside[0] == CLOSE_OBJ {
      CountComplete(Step(s1, CLOSE_OBJ), inside[1..], Obj([]), stack, finite);
    } else {
      CountMember(s1, inside, [], stack, finite);
    }
  }

  lemma {:induction false} CountArr(s: Scan, here: Text, stack: seq<Frame>, finite: Text -> bool)
    requires here != [] && here[0] == OPEN_ARR
    requires At(s, |stack|, Reach(stack)) && StartArr(here, stack, finite).Ok?
    ensures Steps(s, here).max == Depth(StartArr(here, stack, finite).value)
    decreases |here|, 0
  {
    hide Complete, Start, Reach;
    var inside, s1 := SkipWhite(here[1..]), Step(s, OPEN_ARR);
    WhiteInert(s1, here[1..]);
    if inside != [] && inside[0] == CLOSE_ARR {
      CountComplete(Step(s1, CLOSE_ARR), inside[1..], Arr([]), stack, finite);
    } else {
      ReachPushed(stack, InArr([]));
      CountStart(s1, inside, stack + [InArr([])], finite);
    }
  }

  lemma {:induction false} CountMember(s: Scan, rest: Text, ms: seq<Member>, stack: seq<Frame>, finite: Text -> bool)
    requires At(s, |stack| + 1, Max(Reach(stack), |stack| + 1 + MembersDepth(ms))) && NextMember(rest, ms, stack, finite).Ok?
    ensures Steps(s, rest).max == Depth(NextMember(rest, ms, stack, finite).value)
    decreases |rest|, 0
  {
    hide Steps, Start, ReadName, Reach, MembersDepth;
    var r := ReadName(rest, NamesOf(ms)).value;
    NameRead(s, rest, NamesOf(ms));
    ReachPushed(stack, InObj(ms, r.text));
    CountStart(s, r.rest, stack + [InObj(ms, r.text)], finite);
  }

  lemma {:induction false} CountComplete(s: Scan, rest: Text, v: Json, stack: seq<Frame>, finite: Text -> bool)
    requires At(s, |stack|, Max(Reach(stack), |stack| + Depth(v))) && Complete(rest, v, stack, finite).Ok?
    ensures Steps(s, rest).max == Depth(Complete(rest, v, stack, finite).value)
    decreases |rest|, 4
  {
    hide Depth, AddItem, AddMember, ItemsDepth, MembersDepth;
    var here := SkipWhite(rest);
    WhiteInert(s, rest);
    if stack != [] {
      var below, top := stack[..|stack| - 1], stack[|stack| - 1];
      match top
      case InArr(items) =>
        ItemsDepthAppend(items, v);
        CountItem(s, here, items + [v], below, finite);
      case InObj(ms, name) =>
        MembersDepthAppend(ms, Member(name, v));
        CountValue(s, here, ms + [Member(name, v)], below, finite);
    }
  }

  lemma {:induction false} CountItem(s: Scan, here: Text, items: seq<Json>, below: seq<Frame>, finite: Text -> bool)
    requires here != [] && AddItem(here, items, below, finite).Ok?
    requires At(s, |below| + 1, Max(Reach(below), |below| + 1 + ItemsDepth(items)))
    ensures Steps(s, here).max == Depth(AddItem(here, items, below, finite).value)
    decreases |here|, 1
  {
    hide Start, Complete, Reach, ItemsDepth;
    if here[0] == COMMA {
      ReachPushed(below, InArr(items));
      CountStart(s, here[1..], below + [InArr(items)], finite);
    } else {
      CountComplete(Step(s, CLOSE_ARR), here[1..], Arr(items), below, finite);
    }
  }

  lemma {:induction false} CountValue(s: Scan, here: Text, ms: seq<Member>, below: seq<Frame>, finite: Text -> bool)
    requires here != [] && AddMember(here, ms, below, finite).Ok?
    requires At(s, |below| + 1, Max(Reach(below), |below| + 1 + MembersDepth(ms)))
    ensures Steps(s, here).max == Depth(AddMember(here, ms, below, finite).value)
    decreases |here|, 1
  {
    hide NextMember, Complete, Reach, MembersDepth;
    if here[0] == COMMA {
      CountMember(s, here[1..], ms, below, finite);
    } else {
      CountComplete(Step(s, CLOSE_OBJ), here[1..], Obj(ms), below, finite);
    }
  }

  /** Whatever the text, if the parser accepts it the scan finds exactly the depth of the tree, at most 32. */
  lemma NestingOfText(text: Text, finite: Text -> bool)
    requires Parse(text, finite).Ok?
    ensures Steps(CLEAR, text).max == Depth(Parse(text, finite).value) <= MAX_DEPTH
  {
    hide Start, Steps, Acceptable, Depth;
    CountStart(CLEAR, text, [], finite);
    JsonFacts.ParseSound(text, finite);
    DepthAllowed(Parse(text, finite).value, 0, finite);
  }
}
