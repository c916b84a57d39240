/**
  JSON trees, their canonical print (client-rust/src/json.rs) and the strict parser with its own stack
  (client-typescript/src/json.ts). Numbers are kept as they are written.
 */
module Json {

  import opened Basics
  import opened JsonText

  const MAX_DEPTH := 32

  datatype Json =
    | Null
    | Bool(value: bool)
    | Number(lexeme: Text)
    | Str(text: Text)
    | Arr(items: seq<Json>)
    | Obj(members: seq<Member>)

  datatype Member = Member(name: Text, value: Json)

  const COMMA: Unit := 0x2c
  const COLON: Unit := 0x3a
  const OPEN_ARR: Unit := 0x5b
  const CLOSE_ARR: Unit := 0x5d
  const OPEN_OBJ: Unit := 0x7b
  const CLOSE_OBJ: Unit := 0x7d
  const TRUE: Text := [0x74, 0x72, 0x75, 0x65]
  const FALSE: Text := [0x66, 0x61, 0x6c, 0x73, 0x65]
  const NULL: Text := [0x6e, 0x75, 0x6c, 0x6c]

  // ---- Order of members ----

  /** The order of UTF-16 code units. */
  predicate Before(a: Text, b: Text)
    decreases |a|
  {
    if a == [] then b != []
    else if b == [] then false
    else a[0] < b[0] || (a[0] == b[0] && Before(a[1..], b[1..]))
  }

  function Size(v: Json): nat {
    match v
    case Arr(items) => 1 + Sizes(items)
    case Obj(members) => 1 + MemberSizes(members)
    case _ => 1
  }

  function Sizes(items: seq<Json>): nat { if items == [] then 0 else Size(items[0]) + Sizes(items[1..]) }

  function MemberSizes(ms: seq<Member>): nat { if ms == [] then 0 else Size(ms[0].value) + MemberSizes(ms[1..]) }

  /** A member put before the first that it is not behind: the sort is stable. */
  function Insert(m: Member, ms: seq<Member>): (r: seq<Member>)
    ensures MemberSizes(r) == Size(m.value) + MemberSizes(ms) && |r| == |ms| + 1
  {
    if ms == [] || !Before(ms[0].name, m.name) then [m] + ms
    else
      var r := [ms[0]] + Insert(m, ms[1..]);
      assert r[1..] == Insert(m, ms[1..]);
      r
  }

  function Sort(ms: seq<Member>): (r: seq<Member>)
    ensures MemberSizes(r) == MemberSizes(ms) && |r| == |ms|
  {
    if ms == [] then [] else Insert(ms[0], Sort(ms[1..]))
  }

  // ---- Printing ----

  function Ordered(ms: seq<Member>, canonical: bool): (r: seq<Member>)
    ensures MemberSizes(r) == MemberSizes(ms) && |r| == |ms|
  {
    if canonical then Sort(ms) else ms
  }

  function Print(v: Json, canonical: bool): Text
    decreases Size(v), 0
  {
    match v
    case Null => NULL
    case Bool(b) => if b then TRUE else FALSE
    case Number(lexeme) => lexeme
    case Str(s) => PrintString(s)
    case Arr(items) => [OPEN_ARR] + PrintItems(items, canonical) + [CLOSE_ARR]
    case Obj(members) => [OPEN_OBJ] + PrintMembers(Ordered(members, canonical), canonical) + [CLOSE_OBJ]
  }

  function PrintItems(items: seq<Json>, canonical: bool): Text
    decreases Sizes(items), 1, |items|
  {
    if items == [] then []
    else Print(items[0], canonical) + if |items| == 1 then [] else [COMMA] + PrintItems(items[1..], canonical)
  }

  function PrintMembers(ms: seq<Member>, canonical: bool): Text
    decreases MemberSizes(ms), 1, |ms|
  {
    if ms == [] then []
    else
      PrintString(ms[0].name) + [COLON] + Print(ms[0].value, canonical)
      + if |ms| == 1 then [] else [COMMA] + PrintMembers(ms[1..], canonical)
  }

  /** A tree with its members in the order they are printed. */
  function Norm(v: Json, canonical: bool): Json
    decreases Size(v), 0
  {
    match v
    case Arr(items) => Arr(NormItems(items, canonical))
    case Obj(members) => Obj(NormMembers(Ordered(members, canonical), canonical))
    case _ => v
  }

  function NormItems(items: seq<Json>, canonical: bool): seq<Json>
    decreases Sizes(items), 1, |items|
  {
    if items == [] then [] else [Norm(items[0], canonical)] + NormItems(items[1..], canonical)
  }

  function NormMembers(ms: seq<Member>, canonical: bool): seq<Member>
    decreases MemberSizes(ms), 1, |ms|
  {
    if ms == [] then []
    else [Member(ms[0].name, Norm(ms[0].value, canonical))] + NormMembers(ms[1..], canonical)
  }

  // ---- Parsing ----

  /** What is open around the value being read. */
  datatype Frame = InArr(items: seq<Json>) | InObj(members: seq<Member>, name: Text)

  datatype Result = Ok(value: Json) | Err

  function NamesOf(ms: seq<Member>): set<Text> { set i | 0 <= i < |ms| :: ms[i].name }

  /** A member name not seen yet, and its colon. */
  function ReadName(rest: Text, names: set<Text>): (r: Option<Read>)
    ensures r.Some? ==> |r.value.rest| < |rest| && r.value.text !in names && !HasLoneSurrogate(r.value.text)
  {
    var r := ReadString(SkipWhite(rest));
    if r.None? || r.value.text in names then None
    else
      var after := SkipWhite(r.value.rest);
      if after == [] || after[0] != COLON then None else Some(Read(r.value.text, after[1..]))
  }

  predicate StartsWith(rest: Text, word: Text) { word <= rest }

  /** A value starts here. `finite` says of a number whether it is in range. */
  function Start(rest: Text, stack: seq<Frame>, finite: Text -> bool): Result
    decreases |rest|, 2
  {
    StartHere(SkipWhite(rest), stack, finite)
  }

  function StartHere(here: Text, stack: seq<Frame>, finite: Text -> bool): Result
    decreases |here|, 1
  {
    if here == [] then Err
    else if here[0] == OPEN_OBJ then StartObj(here, stack, finite)
    else if here[0] == OPEN_ARR then StartArr(here, stack, finite)
    else if here[0] == QUOTE then StartStr(here, stack, finite)
    else if here[0] == 0x2d || IsDigit(here[0]) then StartNum(here, stack, finite)
    else StartWord(here, stack, finite)
  }

  function StartStr(here: Text, stack: seq<Frame>, finite: Text -> bool): Result
    decreases |here|, 0
  {
    var r := ReadString(here);
    if r.None? then Err else Complete(r.value.rest, Str(r.value.text), stack, finite)
  }

  function StartNum(here: Text, stack: seq<Frame>, finite: Text -> bool): Result
    decreases |here|, 0
  {
    var n := NumberLength(here);
    if n == 0 || !finite(here[..n]) then Err else Complete(here[n..], Number(here[..n]), stack, finite)
  }

  function StartWord(here: Text, stack: seq<Frame>, finite: Text -> bool): Result
    decreases |here|, 0
  {
    if StartsWith(here, TRUE) then Complete(here[4..], Bool(true), stack, finite)
    else if StartsWith(here, FALSE) then Complete(here[5..], Bool(false), stack, finite)
    else if StartsWith(here, NULL) then Complete(here[4..], Null, stack, finite)
    else Err
  }

  function StartObj(here: Text, stack: seq<Frame>, finite: Text -> bool): Result
    requires here != []
    decreases |here|, 0
  {
    var inside := SkipWhite(here[1..]);
    if |stack| >= MAX_DEPTH then Err
    else if inside != [] && inside[0] == CLOSE_OBJ then Complete(inside[1..], Obj([]), stack, finite)
    else NextMember(inside, [], stack, finite)
  }

  /** An object's next member: its name, then its value starts. */
  function NextMember(rest: Text, members: seq<Member>, stack: seq<Frame>, finite: Text -> bool): Result
    decreases |rest|, 0
  {
    var r := ReadName(rest, NamesOf(members));
    if r.None? then Err else Start(r.value.rest, stack + [InObj(members, r.value.text)], finite)
  }

  function StartArr(here: Text, stack: seq<Frame>, finite: Text -> bool): Result
    requires here != []
    decreases |here|, 0
  {
    var inside := SkipWhite(here[1..]);
    if |stack| >= MAX_DEPTH then Err
    else if inside != [] && inside[0] == CLOSE_ARR then Complete(inside[1..], Arr([]), stack, finite)
    else Start(inside, stack + [InArr([])], finite)
  }

  /** A value is complete: it goes to what is open, which it may complete in turn. */
  function Complete(rest: Text, value: Json, stack: seq<Frame>, finite: Text -> bool): Result
    decreases |rest|, 4
  {
    CompleteHere(SkipWhite(rest), value, stack, finite)
  }

  function CompleteHere(here: Text, value: Json, stack: seq<Frame>, finite: Text -> bool): Result
    decreases |here|, 3
  {
    if stack == [] then if here == [] then Ok(value) else Err
    else if here == [] then Err
    else
      match stack[|stack| - 1]
      case InArr(items) => AddItem(here, items + [value], stack[..|stack| - 1], finite)
      case InObj(members, name) => AddMember(here, members + [Member(name, value)], stack[..|stack| - 1], finite)
  }

  /** An array's next item starts, or the array is closed. */
  function AddItem(here: Text, items: seq<Json>, below: seq<Frame>, finite: Text -> bool): Result
    requires here != []
    decreases |here|, 2
  {
    if here[0] == COMMA then Start(here[1..], below + [InArr(items)], finite)
    else if here[0] == CLOSE_ARR then Complete(here[1..], Arr(items), below, finite)
    else Err
  }

  /** An object's next member starts, or the object is closed. */
  function AddMember(here: Text, ms: seq<Member>, below: seq<Frame>, finite: Text -> bool): Result
    requires here != []
    decreases |here|, 2
  {
    if here[0] == COMMA then NextMember(here[1..], ms, below, finite)
    else if here[0] == CLOSE_OBJ then Complete(here[1..], Obj(ms), below, finite)
    else Err
  }

  function Parse(text: Text, finite: Text -> bool): Result { Start(text, [], finite) }

  // ---- What the parser takes ----

  /** Numbers are written as JSON writes them. */
  predicate NumbersOk(v: Json) {
    match v
    case Number(lexeme) => IsNumber(lexeme)
    case Arr(items) => forall i | 0 <= i < |items| :: NumbersOk(items[i])
    case Obj(members) => forall i | 0 <= i < |members| :: NumbersOk(members[i].value)
    case _ => true
  }

  /** A tree inside `depth` open containers: at most 32 in all, no name twice, no lone surrogate, numbers in range. */
  predicate Acceptable(v: Json, depth: nat, finite: Text -> bool)
    decreases Size(v), 0
  {
    match v
    case Number(lexeme) => finite(lexeme)
    case Str(s) => !HasLoneSurrogate(s)
    case Arr(items) => depth < MAX_DEPTH && ItemsOk(items, depth + 1, finite)
    case Obj(members) => depth < MAX_DEPTH && MembersOk(members, {}, depth + 1, finite)
    case _ => true
  }

  predicate ItemsOk(items: seq<Json>, depth: nat, finite: Text -> bool)
    decreases Sizes(items), 1, |items|
  {
    items == [] || (Acceptable(items[0], depth, finite) && ItemsOk(items[1..], depth, finite))
  }

  predicate MembersOk(ms: seq<Member>, seen: set<Text>, depth: nat, finite: Text -> bool)
    decreases MemberSizes(ms), 1, |ms|
  {
    || ms == []
    || (&& !HasLoneSurrogate(ms[0].name) && ms[0].name !in seen && Acceptable(ms[0].value, depth, finite)
        && MembersOk(ms[1..], seen + {ms[0].name}, depth, finite))
  }
}
