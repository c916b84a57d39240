/**
  The texts the strict parser takes, and what they say (client-typescript/src/json.ts): documents as RFC 8259 writes
  them, with white space anywhere between tokens and every spelling of a string.
 */
module JsonGrammar {

  import opened Basics
  import opened JsonText
  import opened Json
  import opened JsonRoundTrip

  // ---- Documents ----

  type Nibble = n: nat | n < 16

  datatype Hex = Hex(value: Nibble, upper: bool)

  /** One unit of a string: as it is, by a letter after a backslash, or by four hexadecimal digits. */
  datatype Spelled = Plain(unit: Unit) | Short(letter: Unit) | Long(a: Hex, b: Hex, c: Hex, d: Hex)

  datatype Doc =
    | Word(value: Json)
    | Num(lexeme: Text)
    | Quoted(units: seq<Spelled>)
    | List(inside: Text, items: seq<Item>)      // `inside` is the white space of one without items
    | Record(inside: Text, entries: seq<Entry>)

  /** A value with the white space around it; an object's member with that around its name too. */
  datatype Item = Item(before: Text, doc: Doc, after: Text)

  datatype Entry = Entry(before: Text, name: seq<Spelled>, after: Text, item: Item)

  const WHITE: set<Unit> := {0x20, 0x09, 0x0a, 0x0d}

  /** `\"`, `\\`, `\/`, `\b`, `\f`, `\n`, `\r` and `\t`. */
  const ESCAPES: map<Unit, Unit> :=
    map[0x22 := 0x22, 0x5c := 0x5c, 0x2f := 0x2f, 0x62 := 0x08, 0x66 := 0x0c, 0x6e := 0x0a, 0x72 := 0x0d, 0x74 := 0x09]

  predicate White(w: Text) { forall i | 0 <= i < |w| :: w[i] in WHITE }

  predicate SpelledOk(p: Spelled) {
    match p
    case Plain(c) => c >= 0x20 && c != QUOTE && c != BACKSLASH
    case Short(e) => e in ESCAPES
    case Long(_, _, _, _) => true
  }

  predicate AllSpelled(ps: seq<Spelled>) { forall i | 0 <= i < |ps| :: SpelledOk(ps[i]) }

  predicate DocOk(d: Doc)
    decreases d, 0
  {
    match d
    case Word(v) => v.Null? || v.Bool?
    case Num(lexeme) => IsNumber(lexeme)
    case Quoted(units) => AllSpelled(units)
    case List(inside, items) => White(inside) && ItemsGood(items)
    case Record(inside, entries) => White(inside) && EntriesGood(entries)
  }

  predicate ItemOk(x: Item)
    decreases x, 1
  {
    White(x.before) && White(x.after) && DocOk(x.doc)
  }

  predicate ItemsGood(items: seq<Item>)
    decreases items, 2
  {
    items == [] || (ItemOk(items[0]) && ItemsGood(items[1..]))
  }

  predicate EntryOk(x: Entry)
    decreases x, 2
  {
    White(x.before) && AllSpelled(x.name) && White(x.after) && ItemOk(x.item)
  }

  predicate EntriesGood(entries: seq<Entry>)
    decreases entries, 3
  {
    entries == [] || (EntryOk(entries[0]) && EntriesGood(entries[1..]))
  }

  // ---- How a document is written ----

  function WriteHex(h: Hex): Unit {
    if h.value < 10 then 0x30 + h.value else (if h.upper then 0x41 else 0x61) + h.value - 10
  }

  function Spell(p: Spelled): Text {
    match p
    case Plain(c) => [c]
    case Short(e) => [BACKSLASH, e]
    case Long(a, b, c, d) => [BACKSLASH, LOWER_U] + [WriteHex(a), WriteHex(b), WriteHex(c), WriteHex(d)]
  }

  function SpellAll(ps: seq<Spelled>): Text { if ps == [] then [] else Spell(ps[0]) + SpellAll(ps[1..]) }

  function WriteString(ps: seq<Spelled>): Text { [QUOTE] + SpellAll(ps) + [QUOTE] }

  function WriteWord(v: Json): Text { if v.Null? then NULL else if v == Bool(true) then TRUE else FALSE }

  function Write(d: Doc): Text
    decreases d, 0
  {
    match d
    case Word(v) => WriteWord(v)
    case Num(lexeme) => lexeme
    case Quoted(units) => WriteString(units)
    case List(inside, items) => [OPEN_ARR] + (if items == [] then inside else WriteItems(items)) + [CLOSE_ARR]
    case Record(inside, entries) => [OPEN_OBJ] + (if entries == [] then inside else WriteEntries(entries)) + [CLOSE_OBJ]
  }

  function WriteItem(x: Item): Text
    decreases x, 1
  {
    x.before + Write(x.doc) + x.after
  }

  function WriteItems(items: seq<Item>): Text
    decreases items, 2
  {
    if items == [] then [] else WriteItem(items[0]) + if |items| == 1 then [] else [COMMA] + WriteItems(items[1..])
  }

  function WriteEntry(x: Entry): Text
    decreases x, 2
  {
    x.before + WriteString(x.name) + x.after + [COLON] + WriteItem(x.item)
  }

  function WriteEntries(entries: seq<Entry>): Text
    decreases entries, 3
  {
    if entries == [] then [] else WriteEntry(entries[0]) + if |entries| == 1 then [] else [COMMA] + WriteEntries(entries[1..])
  }

  // ---- What a document says ----

  function UnitOf(p: Spelled): Unit {
    match p
    case Plain(c) => c
    case Short(e) => if e in ESCAPES then ESCAPES[e] else e
    case Long(a, b, c, d) => ((a.value * 16 + b.value) * 16 + c.value) * 16 + d.value
  }

  function UnitsOf(ps: seq<Spelled>): Text { if ps == [] then [] else [UnitOf(ps[0])] + UnitsOf(ps[1..]) }

  function Means(d: Doc): Json
    decreases d, 0
  {
    match d
    case Word(v) => v
    case Num(lexeme) => Number(lexeme)
    case Quoted(units) => Str(UnitsOf(units))
    case List(_, items) => Arr(MeansItems(items))
    case Record(_, entries) => Obj(MeansEntries(entries))
  }

  function MeansItems(items: seq<Item>): seq<Json>
    decreases items, 2
  {
    if items == [] then [] else [Means(items[0].doc)] + MeansItems(items[1..])
  }

  function MeansEntry(x: Entry): Member
    decreases x, 2
  {
    Member(UnitsOf(x.name), Means(x.item.doc))
  }

  function MeansEntries(entries: seq<Entry>): seq<Member>
    decreases entries, 3
  {
    if entries == [] then [] else [MeansEntry(entries[0])] + MeansEntries(entries[1..])
  }

  // ---- Numbers ----

  /** A number by its parts: a whole part without leading zeros, then a fraction and an exponent or not. */
  datatype Numeral = Numeral(minus: bool, whole: Text, fraction: Option<Text>, exponent: Option<Power>)

  datatype Power = Power(upper: bool, sign: Sign, digits: Text)

  datatype Sign = NoSign | Plus | Minus

  predicate SomeDigits(s: Text) { s != [] && forall i | 0 <= i < |s| :: 0x30 <= s[i] <= 0x39 }

  predicate NumeralOk(n: Numeral) {
    && SomeDigits(n.whole) && (n.whole[0] == 0x30 ==> |n.whole| == 1)
    && (n.fraction.Some? ==> SomeDigits(n.fraction.value)) && (n.exponent.Some? ==> SomeDigits(n.exponent.value.digits))
  }

  function WriteSign(s: Sign): Text { match s case NoSign => [] case Plus => [0x2b] case Minus => [0x2d] }

  function WriteFraction(f: Option<Text>): Text { if f.None? then [] else [0x2e] + f.value }

  function WritePower(p: Option<Power>): Text {
    if p.None? then [] else [if p.value.upper then 0x45 else 0x65] + WriteSign(p.value.sign) + p.value.digits
  }

  function WriteNumeral(n: Numeral): Text {
    (if n.minus then [0x2d] else []) + n.whole + WriteFraction(n.fraction) + WritePower(n.exponent)
  }

  lemma {:induction false} AllCount(s: Text, tail: Text)
    requires (forall i | 0 <= i < |s| :: IsDigit(s[i])) && (tail == [] || !IsDigit(tail[0]))
    ensures Digits(s + tail) == |s|
  {
    if s == [] {
      assert s + tail == tail;
    } else {
      assert (s + tail)[1..] == s[1..] + tail;
      AllCount(s[1..], tail);
    }
  }

  lemma PowerReads(p: Option<Power>)
    requires p.Some? ==> SomeDigits(p.value.digits)
    ensures Exponent(WritePower(p)) == |WritePower(p)|
  {
    if p.Some? {
      var t, ds := WritePower(p), p.value.digits;
      var k := |WriteSign(p.value.sign)|;
      assert t[1 + k..] == ds && ds + [] == ds;
      AllCount(ds, []);
      hide Digits;
    }
  }

  lemma FractionReads(f: Option<Text>, tail: Text)
    requires f.Some? ==> SomeDigits(f.value)
    requires tail == [] || (!IsDigit(tail[0]) && tail[0] != 0x2e)
    ensures Fraction(WriteFraction(f) + tail) == |WriteFraction(f)|
  {
    if f.Some? {
      AllCount(f.value, tail);
      hide Digits;
      var t := [0x2e] + f.value + tail;
      assert t[1..] == f.value + tail;
    } else {
      hide Digits;
      assert [] + tail == tail;
    }
  }

  lemma PowerHead(p: Option<Power>)
    ensures var t := WritePower(p);
            t == [] || (!IsDigit(t[0]) && t[0] != 0x2e)
  {}

  lemma WholeReads(minus: bool, whole: Text, tail: Text)
    requires SomeDigits(whole) && (whole[0] == 0x30 ==> |whole| == 1) && (tail == [] || !IsDigit(tail[0]))
    ensures Whole((if minus then [0x2d] else []) + whole + tail) == |whole| + if minus then 1 else 0
  {
    var sign: Text := if minus then [0x2d] else [];
    var t := sign + whole + tail;
    assert t[|sign|..] == whole + tail;
    AllCount(whole, tail);
    hide Digits;
  }

  lemma TailHead(f: Option<Text>, p: Option<Power>)
    ensures var t := WriteFraction(f) + WritePower(p);
            t == [] || !IsDigit(t[0])
  {}

  lemma NumeralIsNumber(n: Numeral)
    requires NumeralOk(n)
    ensures IsNumber(WriteNumeral(n))
  {
    hide Whole, Fraction, Exponent, WriteFraction, WritePower;
    var f, p := WriteFraction(n.fraction), WritePower(n.exponent);
    var t, sign := WriteNumeral(n), if n.minus then [0x2d] else [];
    var w := |sign| + |n.whole|;
    assert t == sign + n.whole + (f + p);
    TailHead(n.fraction, n.exponent);
    WholeReads(n.minus, n.whole, f + p);
    assert t[w..] == f + p && t[w + |f|..] == p;
    PowerHead(n.exponent);
    FractionReads(n.fraction, p);
    PowerReads(n.exponent);
  }

  lemma FindPower(t: Text) returns (p: Option<Power>)
    requires Exponent(t) == |t|
    ensures WritePower(p) == t && (p.Some? ==> SomeDigits(p.value.digits))
  {
    if t == [] {
      return None;
    }
    var sign := if |t| > 1 && t[1] == 0x2b then Plus else if |t| > 1 && t[1] == 0x2d then Minus else NoSign;
    var k := |WriteSign(sign)|;
    p := Some(Power(t[0] == 0x45, sign, t[1 + k..]));
    assert Digits(t[1 + k..]) == |t[1 + k..]|;
    hide Digits;
    assert t == [t[0]] + t[1..1 + k] + t[1 + k..];
  }

  lemma FindFraction(t: Text) returns (f: Option<Text>)
    ensures WriteFraction(f) == t[..Fraction(t)] && (f.Some? ==> SomeDigits(f.value))
  {
    hide Digits;
    var n := Fraction(t);
    f := if n == 0 then None else Some(t[1..n]);
    if n > 0 {
      assert t[..n] == [t[0]] + t[1..n];
      assert forall i | 0 <= i < n - 1 :: t[1..n][i] == t[1..][i];
    }
  }

  lemma FindWhole(s: Text) returns (sign: nat)
    requires Whole(s) > 0
    ensures sign < Whole(s) && s[..sign] == (if s[0] == 0x2d then [0x2d] else [])
    ensures SomeDigits(s[sign..Whole(s)]) && (s[sign] == 0x30 ==> Whole(s) == sign + 1)
  {
    hide Digits;
    sign := if s[0] == 0x2d then 1 else 0;
    var whole := s[sign..Whole(s)];
    assert forall i | 0 <= i < |whole| :: whole[i] == s[sign..][i];
  }

  lemma NumberParts(s: Text)
    requires IsNumber(s)
    ensures Whole(s) > 0
    ensures var k := Whole(s) + Fraction(s[Whole(s)..]);
            k <= |s| && Exponent(s[k..]) == |s[k..]|
  {
    hide Whole, Fraction, Exponent;
  }

  lemma FindNumeral(s: Text) returns (n: Numeral)
    requires IsNumber(s)
    ensures NumeralOk(n) && s == WriteNumeral(n)
  {
    hide Whole, Fraction, Exponent, WriteFraction, WritePower, IsNumber;
    NumberParts(s);
    var w := Whole(s);
    var sign := FindWhole(s);
    var k := w + Fraction(s[w..]);
    var f := FindFraction(s[w..]);
    var p := FindPower(s[k..]);
    n := Numeral(s[0] == 0x2d, s[sign..w], f, p);
    assert s[w..][..k - w] == s[w..k];
    assert s == s[..sign] + s[sign..w] + s[w..k] + s[k..];
  }

  /** What is taken for a number is exactly what RFC 8259 writes as one. */
  lemma NumbersExactly(s: Text)
    ensures IsNumber(s) <==> exists n :: NumeralOk(n) && s == WriteNumeral(n)
  {
    hide IsNumber, NumeralOk, WriteNumeral;
    if IsNumber(s) {
      var n := FindNumeral(s);
    }
    forall n | NumeralOk(n) && s == WriteNumeral(n) ensures IsNumber(s) {
      NumeralIsNumber(n);
    }
  }

  // ---- White space and strings are read for what they say ----

  lemma {:induction false} Skipped(w: Text, t: Text)
    requires White(w)
    ensures SkipWhite(w + t) == SkipWhite(t)
  {
    if w == [] {
      assert w + t == t;
    } else {
      assert (w + t)[1..] == w[1..] + t;
      Skipped(w[1..], t);
    }
  }

  lemma StartSkips(w: Text, t: Text, stack: seq<Frame>, finite: Text -> bool)
    requires White(w)
    ensures Start(w + t, stack, finite) == Start(t, stack, finite)
  {
    hide StartHere;
    Skipped(w, t);
  }

  lemma CompleteSkips(w: Text, t: Text, v: Json, stack: seq<Frame>, finite: Text -> bool)
    requires White(w)
    ensures Complete(w + t, v, stack, finite) == Complete(t, v, stack, finite)
  {
    hide CompleteHere;
    Skipped(w, t);
  }

  lemma HexReads(h: Hex)
    ensures HexDigit(WriteHex(h)) == Some(h.value)
  {}

  lemma SpellReads(p: Spelled, more: Text)
    requires SpelledOk(p)
    ensures ScanString(Spell(p) + more) == Prepend(UnitOf(p), ScanString(more))
  {
    hide ScanString, HexDigit, WriteHex;
    match p {
      case Plain(c) => PlainReads(c, more);
      case Short(e) => ShortReads(e, ESCAPES[e], more);
      case Long(a, b, c, d) =>
        HexReads(a);
        HexReads(b);
        HexReads(c);
        HexReads(d);
        LongReads([WriteHex(a), WriteHex(b), WriteHex(c), WriteHex(d)], UnitOf(p), more);
    }
  }

  lemma {:induction false} SpelledScans(ps: seq<Spelled>, tail: Text)
    requires AllSpelled(ps)
    ensures ScanString(SpellAll(ps) + [QUOTE] + tail) == Some(Read(UnitsOf(ps), tail))
  {
    if ps == [] {
      assert SpellAll(ps) + [QUOTE] + tail == [QUOTE] + tail;
      assert ([QUOTE] + tail)[1..] == tail;
    } else {
      var more := SpellAll(ps[1..]) + [QUOTE] + tail;
      assert SpellAll(ps) + [QUOTE] + tail == Spell(ps[0]) + more;
      SpellReads(ps[0], more);
      SpelledScans(ps[1..], tail);
      hide Spell, SpelledOk, UnitOf;
    }
  }

  /** Whatever its spelling, a string is read for its units, unless they hold a lone surrogate. */
  lemma StringReads(ps: seq<Spelled>, tail: Text)
    requires AllSpelled(ps)
    ensures ReadString(WriteString(ps) + tail) == if HasLoneSurrogate(UnitsOf(ps)) then None else Some(Read(UnitsOf(ps), tail))
  {
    hide ScanString, SpellAll, HasLoneSurrogate, SpelledOk;
    SpelledScans(ps, tail);
    assert (WriteString(ps) + tail)[1..] == SpellAll(ps) + [QUOTE] + tail;
  }

  // ---- Every document is read for what it says ----

  lemma Lexeme(s: Text)
    requires IsNumber(s)
    ensures s != []
  {}

  lemma DocHead(d: Doc)
    requires DocOk(d)
    ensures Write(d) != [] && !IsWhite(Write(d)[0]) && Write(d)[0] != CLOSE_ARR && Write(d)[0] != CLOSE_OBJ
  {
    hide WriteItems, WriteEntries, SpellAll, IsNumber, ItemsGood, EntriesGood;
    if d.Num? {
      assert d.lexeme != [] by { Lexeme(d.lexeme); }
      NumberHead(d.lexeme);
    }
  }

  /** An array opens: it closes at once, or its first item starts. */
  lemma OpensArr(body: Text, stack: seq<Frame>, finite: Text -> bool)
    ensures var inside := SkipWhite(body);
            Start([OPEN_ARR] + body, stack, finite) ==
              if |stack| >= MAX_DEPTH then Err
              else if inside != [] && inside[0] == CLOSE_ARR then Complete(inside[1..], Arr([]), stack, finite)
              else Start(body, stack + [InArr([])], finite)
  {
    var t := [OPEN_ARR] + body;
    Here(t, stack, finite);
    assert t[1..] == body;
    NotWhite(SkipWhite(body));
    hide StartHere, Complete, SkipWhite;
  }

  lemma OpensObj(body: Text, stack: seq<Frame>, finite: Text -> bool)
    ensures var inside := SkipWhite(body);
            Start([OPEN_OBJ] + body, stack, finite) ==
              if |stack| >= MAX_DEPTH then Err
              else if inside != [] && inside[0] == CLOSE_OBJ then Complete(inside[1..], Obj([]), stack, finite)
              else NextMember(body, [], stack, finite)
  {
    var t := [OPEN_OBJ] + body;
    Here(t, stack, finite);
    assert t[1..] == body;
    NotWhite(SkipWhite(body));
    hide Start, Complete, SkipWhite, ReadString;
  }

  /** What comes after an item: a comma, or the end of its container. */
  predicate Stops(tail: Text) { tail != [] && (tail[0] == COMMA || tail[0] == CLOSE_ARR || tail[0] == CLOSE_OBJ) }

  lemma {:induction false} ReadsDoc(d: Doc, tail: Text, stack: seq<Frame>, finite: Text -> bool)
    requires DocOk(d) && Ends(tail)
    ensures Start(Write(d) + tail, stack, finite)
         == if Acceptable(Means(d), |stack|, finite) then Complete(tail, Means(d), stack, finite) else Err
    decreases d, 4
  {
    hide Start, Complete, WriteString, HasLoneSurrogate, WriteItems, WriteEntries, IsNumber, ItemsOk, MembersOk, MeansItems, MeansEntries;
    hide NextMember, ItemsGood, EntriesGood, SpelledOk;
    match d {
      case Word(v) => Words(WriteWord(v), v, tail, stack, finite);
      case Num(lexeme) => StartNumber(lexeme, tail, stack, finite);
      case Quoted(units) => StartSpelled(units, tail, stack, finite);
      case List(inside, items) => ReadsList(inside, items, tail, stack, finite);
      case Record(inside, entries) => ReadsRecord(inside, entries, tail, stack, finite);
    }
  }

  lemma StartSpelled(ps: seq<Spelled>, tail: Text, stack: seq<Frame>, finite: Text -> bool)
    requires AllSpelled(ps)
    ensures Start(WriteString(ps) + tail, stack, finite)
         == if HasLoneSurrogate(UnitsOf(ps)) then Err else Complete(tail, Str(UnitsOf(ps)), stack, finite)
  {
    hide Start, ReadString, Complete, HasLoneSurrogate, SpellAll, SpelledOk;
    Here(WriteString(ps) + tail, stack, finite);
    StringReads(ps, tail);
  }

  lemma {:induction false} ReadsList(inside: Text, items: seq<Item>, tail: Text, stack: seq<Frame>, finite: Text -> bool)
    requires White(inside) && ItemsGood(items)
    ensures Start(Write(List(inside, items)) + tail, stack, finite)
         == if Acceptable(Arr(MeansItems(items)), |stack|, finite) then Complete(tail, Arr(MeansItems(items)), stack, finite) else Err
    decreases items, 3
  {
    hide Start, Complete, ItemsGood, ItemsOk, WriteItems, MeansItems, SkipWhite;
    var end := [CLOSE_ARR] + tail;
    var body := (if items == [] then inside else WriteItems(items)) + end;
    assert Write(List(inside, items)) + tail == [OPEN_ARR] + body;
    OpensArr(body, stack, finite);
    hide Write;
    if items == [] {
      Skipped(inside, end);
      NotWhite(end);
      assert end[1..] == tail;
      NoItems(|stack| + 1, finite);
    } else {
      FirstItem(items, end);
      ReadsListed(items, tail, stack, [], finite);
      assert [] + MeansItems(items) == MeansItems(items);
    }
  }

  lemma NoItems(depth: nat, finite: Text -> bool)
    ensures MeansItems([]) == [] && MeansEntries([]) == []
    ensures ItemsOk([], depth, finite) && forall seen :: MembersOk([], seen, depth, finite)
  {}

  /** A list does not begin with its end. */
  lemma FirstItem(items: seq<Item>, more: Text)
    requires items != [] && ItemsGood(items)
    ensures var here := SkipWhite(WriteItems(items) + more);
            here != [] && here[0] != CLOSE_ARR
  {
    var x := items[0];
    var rest := x.after + (if |items| == 1 then [] else [COMMA] + WriteItems(items[1..])) + more;
    hide Write, ItemsGood, DocOk, SkipWhite;
    assert ItemOk(x) by { FirstOk(items); }
    assert WriteItems(items) + more == x.before + (Write(x.doc) + rest);
    Skipped(x.before, Write(x.doc) + rest);
    DocHead(x.doc);
    assert (Write(x.doc) + rest)[0] == Write(x.doc)[0];
    NotWhite(Write(x.doc) + rest);
  }

  lemma FirstOk(items: seq<Item>)
    requires items != [] && ItemsGood(items)
    ensures ItemOk(items[0]) && ItemsGood(items[1..])
  {}

  /** An item with the white space around it. */
  lemma {:induction false} ReadsItem(x: Item, more: Text, stack: seq<Frame>, finite: Text -> bool)
    requires ItemOk(x) && Stops(more)
    ensures Start(WriteItem(x) + more, stack, finite)
         == if Acceptable(Means(x.doc), |stack|, finite) then Complete(more, Means(x.doc), stack, finite) else Err
    decreases x, 5
  {
    hide Start, Complete, Write, Means, Acceptable, DocOk;
    assert WriteItem(x) + more == x.before + (Write(x.doc) + (x.after + more));
    StartSkips(x.before, Write(x.doc) + (x.after + more), stack, finite);
    assert Ends(x.after + more);
    ReadsDoc(x.doc, x.after + more, stack, finite);
    CompleteSkips(x.after, more, Means(x.doc), stack, finite);
  }

  function AfterFirst(items: seq<Item>, end: Text): Text { (if |items| <= 1 then [] else [COMMA] + WriteItems(items[1..])) + end }

  lemma ItemsFirst(items: seq<Item>, end: Text, depth: nat, finite: Text -> bool)
    requires items != []
    ensures WriteItems(items) + end == WriteItem(items[0]) + AfterFirst(items, end)
    ensures MeansItems(items) == [Means(items[0].doc)] + MeansItems(items[1..])
    ensures ItemsOk(MeansItems(items), depth, finite)
        <==> Acceptable(Means(items[0].doc), depth, finite) && ItemsOk(MeansItems(items[1..]), depth, finite)
  {
    hide WriteItem, Means, Acceptable;
    assert MeansItems(items)[1..] == MeansItems(items[1..]);
  }

  lemma {:induction false} ReadsListed(items: seq<Item>, tail: Text, stack: seq<Frame>, done: seq<Json>, finite: Text -> bool)
    requires items != [] && ItemsGood(items)
    ensures Start(WriteItems(items) + ([CLOSE_ARR] + tail), stack + [InArr(done)], finite)
         == if ItemsOk(MeansItems(items), |stack| + 1, finite) then Complete(tail, Arr(done + MeansItems(items)), stack, finite) else Err
    decreases items, 2
  {
    hide Start, Complete, WriteItem, Means, Acceptable, ItemOk, WriteItems, MeansItems, ItemsOk, ItemsGood;
    var x, rest, end := items[0], items[1..], [CLOSE_ARR] + tail;
    var v, more := Means(x.doc), AfterFirst(items, end);
    FirstOk(items);
    ItemsFirst(items, end, |stack| + 1, finite);
    assert !IsWhite(more[0]);
    ReadsItem(x, more, stack + [InArr(done)], finite);
    CompleteItem(more, v, done, stack, finite);
    if |items| == 1 {
      assert more[1..] == tail && rest == [];
      NoItems(|stack| + 1, finite);
      assert done + MeansItems(items) == done + [v];
    } else {
      assert more[1..] == WriteItems(rest) + end;
      ReadsListed(rest, tail, stack, done + [v], finite);
      assert done + [v] + MeansItems(rest) == done + MeansItems(items);
    }
  }

  lemma {:induction false} ReadsRecord(inside: Text, entries: seq<Entry>, tail: Text, stack: seq<Frame>, finite: Text -> bool)
    requires White(inside) && EntriesGood(entries)
    ensures Start(Write(Record(inside, entries)) + tail, stack, finite)
         == if Acceptable(Obj(MeansEntries(entries)), |stack|, finite) then Complete(tail, Obj(MeansEntries(entries)), stack, finite) else Err
    decreases entries, 4
  {
    hide Start, Complete, EntriesGood, MembersOk, NextMember, WriteEntries, MeansEntries, SkipWhite, NamesOf;
    var end := [CLOSE_OBJ] + tail;
    var body := (if entries == [] then inside else WriteEntries(entries)) + end;
    assert Write(Record(inside, entries)) + tail == [OPEN_OBJ] + body;
    OpensObj(body, stack, finite);
    hide Write;
    if entries == [] {
      Skipped(inside, end);
      NotWhite(end);
      assert end[1..] == tail;
      NoItems(|stack| + 1, finite);
    } else {
      FirstEntry(entries, end);
      ReadsEntries(entries, tail, stack, [], finite);
      assert NamesOf([]) == {} by { NoNames(); }
      assert [] + MeansEntries(entries) == MeansEntries(entries);
    }
  }

  lemma NoNames()
    ensures NamesOf([]) == {}
  {}

  lemma FirstEntry(entries: seq<Entry>, more: Text)
    requires entries != [] && EntriesGood(entries)
    ensures var here := SkipWhite(WriteEntries(entries) + more);
            here != [] && here[0] != CLOSE_OBJ
  {
    hide WriteItem, SkipWhite, EntriesGood, ItemOk, SpellAll, WriteEntries, MeansEntries, MembersOk, AfterEntry;
    var x := entries[0];
    FirstGood(entries);
    EntriesFirst(entries, more, {}, 0, _ => true);
    var rest := WriteString(x.name) + (x.after + [COLON] + (WriteItem(x.item) + AfterEntry(entries, more)));
    assert WriteEntries(entries) + more == x.before + rest;
    assert rest[0] == QUOTE;
    Skipped(x.before, rest);
    NotWhite(rest);
  }

  lemma FirstGood(entries: seq<Entry>)
    requires entries != [] && EntriesGood(entries)
    ensures EntryOk(entries[0]) && EntriesGood(entries[1..])
  {}

  /** A name however spelled, and its colon, with white space around them. */
  lemma NameOf(x: Entry, more: Text, members: seq<Member>, stack: seq<Frame>, finite: Text -> bool)
    requires White(x.before) && AllSpelled(x.name) && White(x.after)
    ensures NextMember(x.before + WriteString(x.name) + x.after + [COLON] + more, members, stack, finite)
         == if HasLoneSurrogate(UnitsOf(x.name)) || UnitsOf(x.name) in NamesOf(members) then Err
            else Start(more, stack + [InObj(members, UnitsOf(x.name))], finite)
  {
    hide ReadString, HasLoneSurrogate, Start, NamesOf, SpellAll, UnitsOf, SpelledOk;
    var after := x.after + ([COLON] + more);
    var t := WriteString(x.name) + after;
    assert x.before + WriteString(x.name) + x.after + [COLON] + more == x.before + t;
    Skipped(x.before, t);
    NotWhite(t);
    StringReads(x.name, after);
    Skipped(x.after, [COLON] + more);
    NotWhite([COLON] + more);
    assert ([COLON] + more)[1..] == more;
  }

  function AfterEntry(entries: seq<Entry>, end: Text): Text {
    (if |entries| <= 1 then [] else [COMMA] + WriteEntries(entries[1..])) + end
  }

  lemma EntriesFirst(entries: seq<Entry>, end: Text, seen: set<Text>, depth: nat, finite: Text -> bool)
    requires entries != []
    ensures var x, m, rest := entries[0], MeansEntry(entries[0]), entries[1..];
            && WriteEntries(entries) + end
               == x.before + WriteString(x.name) + x.after + [COLON] + (WriteItem(x.item) + AfterEntry(entries, end))
            && MeansEntries(entries) == [m] + MeansEntries(rest)
            && (MembersOk(MeansEntries(entries), seen, depth, finite) <==>
                !HasLoneSurrogate(m.name) && m.name !in seen && Acceptable(m.value, depth, finite)
                && MembersOk(MeansEntries(rest), seen + {m.name}, depth, finite))
  {
    hide WriteItem, Means, Acceptable, HasLoneSurrogate, WriteString, UnitsOf;
    assert MeansEntries(entries)[1..] == MeansEntries(entries[1..]);
  }

  lemma {:induction false} ReadsEntries(entries: seq<Entry>, tail: Text, stack: seq<Frame>, done: seq<Member>, finite: Text -> bool)
    requires entries != [] && EntriesGood(entries)
    ensures NextMember(WriteEntries(entries) + ([CLOSE_OBJ] + tail), done, stack, finite)
         == if MembersOk(MeansEntries(entries), NamesOf(done), |stack| + 1, finite)
            then Complete(tail, Obj(done + MeansEntries(entries)), stack, finite) else Err
    decreases entries, 3
  {
    hide Start, Complete, WriteItem, Means, Acceptable, NextMember, WriteString, HasLoneSurrogate, NamesOf, UnitsOf, ItemOk, SpelledOk;
    hide WriteEntries, MeansEntries, MembersOk, EntriesGood;
    var x, rest, end := entries[0], entries[1..], [CLOSE_OBJ] + tail;
    var m, more := MeansEntry(x), AfterEntry(entries, end);
    FirstGood(entries);
    EntriesFirst(entries, end, NamesOf(done), |stack| + 1, finite);
    assert !IsWhite(more[0]);
    NameOf(x, WriteItem(x.item) + more, done, stack, finite);
    ReadsItem(x.item, more, stack + [InObj(done, m.name)], finite);
    CompleteMember(more, m.value, done, m.name, stack, finite);
    NamesAppend(done, m);
    if |entries| == 1 {
      assert more[1..] == tail && rest == [];
      NoItems(|stack| + 1, finite);
      assert done + MeansEntries(entries) == done + [m];
    } else {
      assert more[1..] == WriteEntries(rest) + end;
      ReadsEntries(rest, tail, stack, done + [m], finite);
      assert done + [m] + MeansEntries(rest) == done + MeansEntries(entries);
    }
  }

  /** A text is a document with white space around it. */
  ghost predicate Shows(text: Text, before: Text, doc: Doc, after: Text) {
    White(before) && White(after) && DocOk(doc) && text == before + Write(doc) + after
  }

  lemma ReadsShown(text: Text, before: Text, doc: Doc, after: Text, finite: Text -> bool)
    requires Shows(text, before, doc, after)
    ensures Parse(text, finite) == if Acceptable(Means(doc), 0, finite) then Ok(Means(doc)) else Err
  {
    hide Start, Write, Means, Acceptable, DocOk;
    assert text == before + (Write(doc) + after);
    StartSkips(before, Write(doc) + after, [], finite);
    ReadsDoc(doc, after, [], finite);
    assert after + [] == after;
    CompleteSkips(after, [], Means(doc), [], finite);
  }

  // ---- Every text taken is a document ----

  lemma {:induction false} FindWhite(t: Text) returns (w: Text)
    ensures White(w) && t == w + SkipWhite(t)
  {
    w := [];
    if t != [] && IsWhite(t[0]) {
      w := FindWhite(t[1..]);
      w := [t[0]] + w;
    }
  }

  lemma FindHex(c: Unit) returns (h: Hex)
    requires HexDigit(c).Some?
    ensures WriteHex(h) == c && HexDigit(c) == Some(h.value)
  {
    h := Hex(HexDigit(c).value, 0x41 <= c <= 0x46);
  }

  lemma FindLong(s: Text) returns (p: Spelled)
    requires |s| == 4 && Hex4(s).Some?
    ensures SpelledOk(p) && Spell(p) == [BACKSLASH, LOWER_U] + s && UnitOf(p) == Hex4(s).value
  {
    var a := FindHex(s[0]);
    var b := FindHex(s[1]);
    var c := FindHex(s[2]);
    var d := FindHex(s[3]);
    hide WriteHex, HexDigit;
    p := Long(a, b, c, d);
    assert s == [s[0], s[1], s[2], s[3]];
  }

  lemma SpellCons(p: Spelled, ps: seq<Spelled>)
    requires SpelledOk(p) && AllSpelled(ps)
    ensures AllSpelled([p] + ps) && SpellAll([p] + ps) == Spell(p) + SpellAll(ps) && UnitsOf([p] + ps) == [UnitOf(p)] + UnitsOf(ps)
  {
    assert ([p] + ps)[1..] == ps;
    hide SpelledOk, Spell, UnitOf;
  }

  lemma AtQuote(rest: Text)
    ensures rest != [] && rest[0] == QUOTE ==> ScanString(rest) == Some(Read([], rest[1..]))
    ensures ScanString(rest).Some? ==> rest != []
  {}

  lemma {:induction false} FindSpelled(rest: Text) returns (ps: seq<Spelled>)
    requires ScanString(rest).Some?
    ensures AllSpelled(ps) && UnitsOf(ps) == ScanString(rest).value.text
    ensures rest == SpellAll(ps) + [QUOTE] + ScanString(rest).value.rest
  {
    hide ScanString, Spell, UnitOf, SpelledOk;
    AtQuote(rest);
    if rest[0] == QUOTE {
      ps := [];
      assert rest == [QUOTE] + rest[1..];
    } else {
      var p, n := FindUnit(rest);
      ps := FindSpelled(rest[n..]);
      SpellCons(p, ps);
      hide SpellAll, UnitsOf, AllSpelled;
      assert rest == rest[..n] + rest[n..];
      ps := [p] + ps;
    }
  }

  /** The first unit of a string that is not at its end, and how long it is written. */
  lemma FindUnit(rest: Text) returns (p: Spelled, n: nat)
    requires ScanString(rest).Some? && rest[0] != QUOTE
    ensures 0 < n <= |rest| && SpelledOk(p) && rest[..n] == Spell(p)
    ensures ScanString(rest) == Prepend(UnitOf(p), ScanString(rest[n..]))
  {
    if rest[0] != BACKSLASH {
      p, n := Plain(rest[0]), 1;
    } else if rest[1] == LOWER_U {
      p := FindLong(rest[2..6]);
      n := 6;
      assert rest[..6] == [BACKSLASH, LOWER_U] + rest[2..6];
    } else {
      p, n := Short(rest[1]), 2;
    }
  }

  lemma FindString(t: Text) returns (ps: seq<Spelled>)
    requires ReadString(t).Some?
    ensures AllSpelled(ps) && UnitsOf(ps) == ReadString(t).value.text && t == WriteString(ps) + ReadString(t).value.rest
  {
    hide ScanString, SpellAll, UnitsOf, SpelledOk, HasLoneSurrogate;
    ps := FindSpelled(t[1..]);
    assert t == [QUOTE] + t[1..];
  }

  /** A value found at the start of a text: the parser goes on with what follows it. */
  ghost predicate Found(t: Text, d: Doc, tail: Text, v: Json, stack: seq<Frame>, finite: Text -> bool) {
    DocOk(d) && t == Write(d) + tail && Complete(tail, Means(d), stack, finite) == Ok(v)
  }

  lemma FindAtom(t: Text, v: Json, stack: seq<Frame>, finite: Text -> bool) returns (d: Doc, tail: Text)
    requires t != [] && !IsWhite(t[0]) && t[0] != OPEN_ARR && t[0] != OPEN_OBJ && StartHere(t, stack, finite) == Ok(v)
    ensures Found(t, d, tail, v, stack, finite)
  {
    hide Complete, ReadString, WriteString, NumberLength, IsNumber, SpelledOk;
    if t[0] == QUOTE {
      var ps := FindString(t);
      d, tail := Quoted(ps), ReadString(t).value.rest;
    } else if t[0] == 0x2d || IsDigit(t[0]) {
      var n := NumberLength(t);
      NumberOwn(t);
      d, tail := Num(t[..n]), t[n..];
    } else {
      d := if StartsWith(t, TRUE) then Word(Bool(true)) else if StartsWith(t, FALSE) then Word(Bool(false)) else Word(Null);
      tail := t[|Write(d)|..];
    }
  }

  /** A value found after white space. */
  lemma {:induction false} FindDoc(t: Text, v: Json, stack: seq<Frame>, finite: Text -> bool) returns (w: Text, d: Doc, tail: Text)
    requires Start(t, stack, finite) == Ok(v)
    ensures White(w) && t == w + Write(d) + tail && Found(Write(d) + tail, d, tail, v, stack, finite)
    decreases |t|, 1
  {
    hide Found, Complete, StartObj, StartArr, StartStr, StartNum, StartWord;
    w := FindWhite(t);
    var here := SkipWhite(t);
    assert StartHere(here, stack, finite) == Ok(v) && here != [] && !IsWhite(here[0]);
    if here[0] == OPEN_ARR {
      d, tail := FindList(here, v, stack, finite);
    } else if here[0] == OPEN_OBJ {
      d, tail := FindRecord(here, v, stack, finite);
    } else {
      d, tail := FindAtom(here, v, stack, finite);
    }
    assert here == Write(d) + tail by { Taken(here, d, tail, v, stack, finite); }
  }

  lemma Taken(t: Text, d: Doc, tail: Text, v: Json, stack: seq<Frame>, finite: Text -> bool)
    requires Found(t, d, tail, v, stack, finite)
    ensures t == Write(d) + tail && DocOk(d) && Complete(tail, Means(d), stack, finite) == Ok(v)
  {}

  lemma InsideArr(here: Text, v: Json, stack: seq<Frame>, finite: Text -> bool)
    requires here != [] && StartArr(here, stack, finite) == Ok(v)
    ensures var inside := SkipWhite(here[1..]);
            if inside != [] && inside[0] == CLOSE_ARR then Complete(inside[1..], Arr([]), stack, finite) == Ok(v)
            else Start(here[1..], stack + [InArr([])], finite) == Ok(v)
  {
    hide Complete, StartHere;
    NotWhite(SkipWhite(here[1..]));
  }

  lemma ListFound(w: Text, items: seq<Item>, tail: Text, v: Json, stack: seq<Frame>, finite: Text -> bool)
    requires White(w) && ItemsGood(items) && Complete(tail, Arr(MeansItems(items)), stack, finite) == Ok(v)
    ensures Found([OPEN_ARR] + ((if items == [] then w else WriteItems(items)) + [CLOSE_ARR] + tail), List(w, items), tail, v, stack, finite)
  {
    hide Complete, WriteItems, MeansItems, ItemsGood;
  }

  lemma {:induction false} FindList(here: Text, v: Json, stack: seq<Frame>, finite: Text -> bool) returns (d: Doc, tail: Text)
    requires here != [] && here[0] == OPEN_ARR && StartArr(here, stack, finite) == Ok(v)
    ensures Found(here, d, tail, v, stack, finite)
    decreases |here|, 0
  {
    hide Complete, Start, WriteItems, MeansItems, ItemsGood, StartArr, SkipWhite, Found;
    var body := here[1..];
    var inside := SkipWhite(body);
    InsideArr(here, v, stack, finite);
    var w: Text, items: seq<Item> := [], [];
    if inside != [] && inside[0] == CLOSE_ARR {
      w := FindWhite(body);
      tail := inside[1..];
      NoItems(0, finite);
      NoneGood();
      assert body == w + [CLOSE_ARR] + tail;
    } else {
      items, tail := FindItems(body, [], v, stack, finite);
      assert [] + MeansItems(items) == MeansItems(items);
    }
    d := List(w, items);
    ListFound(w, items, tail, v, stack, finite);
    assert here == [OPEN_ARR] + body;
  }

  lemma NoneGood()
    ensures ItemsGood([]) && EntriesGood([])
  {}

  lemma ItemsCons(x: Item, items: seq<Item>)
    requires ItemOk(x) && ItemsGood(items)
    ensures ItemsGood([x] + items) && MeansItems([x] + items) == [Means(x.doc)] + MeansItems(items)
    ensures WriteItems([x] + items) == WriteItem(x) + if items == [] then [] else [COMMA] + WriteItems(items)
  {
    hide ItemOk, Means, WriteItem;
    assert ([x] + items)[1..] == items;
  }

  /** What comes after an item in an array. */
  lemma AfterItem(t: Text, m: Json, done: seq<Json>, v: Json, stack: seq<Frame>, finite: Text -> bool)
    requires Complete(t, m, stack + [InArr(done)], finite) == Ok(v)
    ensures var here := SkipWhite(t);
            && here != []
            && (here[0] == COMMA ==> Start(here[1..], stack + [InArr(done + [m])], finite) == Ok(v))
            && (here[0] != COMMA ==> here[0] == CLOSE_ARR && Complete(here[1..], Arr(done + [m]), stack, finite) == Ok(v))
  {
    var s1 := stack + [InArr(done)];
    assert s1[..|s1| - 1] == stack && s1[|s1| - 1] == InArr(done);
    assert CompleteHere(SkipWhite(t), m, s1, finite) == Ok(v);
    assert SkipWhite(t) != [] && AddItem(SkipWhite(t), done + [m], stack, finite) == Ok(v);
  }

  lemma {:induction false} FindItems(t: Text, done: seq<Json>, v: Json, stack: seq<Frame>, finite: Text -> bool) returns (items: seq<Item>, tail: Text)
    requires Start(t, stack + [InArr(done)], finite) == Ok(v)
    ensures items != [] && ItemsGood(items) && t == WriteItems(items) + [CLOSE_ARR] + tail
    ensures Complete(tail, Arr(done + MeansItems(items)), stack, finite) == Ok(v)
    decreases |t|, 2
  {
    hide Found, Complete, Start, Write, Means, DocOk, WriteItems, MeansItems, ItemsGood;
    var w, d, rest := FindDoc(t, v, stack + [InArr(done)], finite);
    Taken(Write(d) + rest, d, rest, v, stack + [InArr(done)], finite);
    AfterItem(rest, Means(d), done, v, stack, finite);
    var w1 := FindWhite(rest);
    var here := SkipWhite(rest);
    var x := Item(w, d, w1);
    assert here == [here[0]] + here[1..];
    NoneGood();
    if here[0] == COMMA {
      items, tail := FindItems(here[1..], done + [Means(d)], v, stack, finite);
      ItemsCons(x, items);
      assert done + [Means(d)] + MeansItems(items) == done + ([Means(d)] + MeansItems(items));
      items := [x] + items;
    } else {
      ItemsCons(x, []);
      NoItems(0, finite);
      assert [x] + [] == [x] && done + ([Means(d)] + []) == done + [Means(d)];
      items, tail := [x], here[1..];
    }
  }

  lemma InsideObj(here: Text, v: Json, stack: seq<Frame>, finite: Text -> bool)
    requires here != [] && StartObj(here, stack, finite) == Ok(v)
    ensures var inside := SkipWhite(here[1..]);
            if inside != [] && inside[0] == CLOSE_OBJ then Complete(inside[1..], Obj([]), stack, finite) == Ok(v)
            else NextMember(here[1..], [], stack, finite) == Ok(v)
  {
    hide Complete, NextMember;
    var w := FindWhite(here[1..]);
    SameMember(w, SkipWhite(here[1..]), [], stack, finite);
  }

  lemma RecordFound(w: Text, entries: seq<Entry>, tail: Text, v: Json, stack: seq<Frame>, finite: Text -> bool)
    requires White(w) && EntriesGood(entries) && Complete(tail, Obj(MeansEntries(entries)), stack, finite) == Ok(v)
    ensures Found([OPEN_OBJ] + ((if entries == [] then w else WriteEntries(entries)) + [CLOSE_OBJ] + tail), Record(w, entries), tail, v, stack, finite)
  {
    hide Complete, WriteEntries, MeansEntries, EntriesGood;
  }

  lemma {:induction false} FindRecord(here: Text, v: Json, stack: seq<Frame>, finite: Text -> bool) returns (d: Doc, tail: Text)
    requires here != [] && here[0] == OPEN_OBJ && StartObj(here, stack, finite) == Ok(v)
    ensures Found(here, d, tail, v, stack, finite)
    decreases |here|, 0
  {
    hide Complete, NextMember, WriteEntries, MeansEntries, EntriesGood, StartObj, SkipWhite, Found;
    var body := here[1..];
    var inside := SkipWhite(body);
    InsideObj(here, v, stack, finite);
    var w: Text, entries: seq<Entry> := [], [];
    if inside != [] && inside[0] == CLOSE_OBJ {
      w := FindWhite(body);
      tail := inside[1..];
      NoItems(0, finite);
      NoneGood();
      assert body == w + [CLOSE_OBJ] + tail;
    } else {
      entries, tail := FindEntries(body, [], v, stack, finite);
      assert [] + MeansEntries(entries) == MeansEntries(entries);
    }
    d := Record(w, entries);
    RecordFound(w, entries, tail, v, stack, finite);
    assert here == [OPEN_OBJ] + body;
  }

  lemma SameMember(w: Text, t: Text, members: seq<Member>, stack: seq<Frame>, finite: Text -> bool)
    requires White(w)
    ensures NextMember(w + t, members, stack, finite) == NextMember(t, members, stack, finite)
  {
    Skipped(w, t);
    hide Start, ReadString, SkipWhite, NamesOf;
  }

  lemma EntriesCons(x: Entry, entries: seq<Entry>)
    requires EntryOk(x) && EntriesGood(entries)
    ensures EntriesGood([x] + entries) && MeansEntries([x] + entries) == [MeansEntry(x)] + MeansEntries(entries)
    ensures WriteEntries([x] + entries) == WriteEntry(x) + if entries == [] then [] else [COMMA] + WriteEntries(entries)
  {
    hide EntryOk, MeansEntry, WriteEntry;
    assert ([x] + entries)[1..] == entries;
  }

  lemma AfterMember(t: Text, m: Member, done: seq<Member>, v: Json, stack: seq<Frame>, finite: Text -> bool)
    requires Complete(t, m.value, stack + [InObj(done, m.name)], finite) == Ok(v)
    ensures var here := SkipWhite(t);
            && here != []
            && (here[0] == COMMA ==> NextMember(here[1..], done + [m], stack, finite) == Ok(v))
            && (here[0] != COMMA ==> here[0] == CLOSE_OBJ && Complete(here[1..], Obj(done + [m]), stack, finite) == Ok(v))
  {
    var s1 := stack + [InObj(done, m.name)];
    assert s1[..|s1| - 1] == stack && s1[|s1| - 1] == InObj(done, m.name) && Member(m.name, m.value) == m;
    assert CompleteHere(SkipWhite(t), m.value, s1, finite) == Ok(v);
    assert SkipWhite(t) != [] && AddMember(SkipWhite(t), done + [m], stack, finite) == Ok(v);
  }

  /** A member's name, its colon and the white space around them. */
  lemma FindName(t: Text, done: seq<Member>, v: Json, stack: seq<Frame>, finite: Text -> bool) returns (w: Text, ps: seq<Spelled>, w1: Text, rest: Text)
    requires NextMember(t, done, stack, finite) == Ok(v)
    ensures White(w) && AllSpelled(ps) && White(w1) && t == w + WriteString(ps) + w1 + [COLON] + rest
    ensures Start(rest, stack + [InObj(done, UnitsOf(ps))], finite) == Ok(v)
  {
    hide Start, ReadString, WriteString, UnitsOf, SpelledOk, NamesOf, SkipWhite;
    w := FindWhite(t);
    var here := SkipWhite(t);
    ps := FindString(here);
    var after := ReadString(here).value.rest;
    w1 := FindWhite(after);
    rest := SkipWhite(after)[1..];
    assert SkipWhite(after) == [COLON] + rest;
  }

  /** A member found, and what comes after it. */
  lemma {:induction false} FindEntry(t: Text, done: seq<Member>, v: Json, stack: seq<Frame>, finite: Text -> bool) returns (x: Entry, here: Text)
    requires NextMember(t, done, stack, finite) == Ok(v)
    ensures EntryOk(x) && t == WriteEntry(x) + here && here != [] && |here| < |t|
    ensures here[0] == COMMA ==> NextMember(here[1..], done + [MeansEntry(x)], stack, finite) == Ok(v)
    ensures here[0] != COMMA ==> here[0] == CLOSE_OBJ && Complete(here[1..], Obj(done + [MeansEntry(x)]), stack, finite) == Ok(v)
    decreases |t|, 2
  {
    hide Found, Complete, Start, Write, Means, DocOk, NextMember, WriteString, UnitsOf, SpelledOk, SkipWhite;
    var w, ps, w1, start := FindName(t, done, v, stack, finite);
    var stack1 := stack + [InObj(done, UnitsOf(ps))];
    var w2, d, rest := FindDoc(start, v, stack1, finite);
    Taken(Write(d) + rest, d, rest, v, stack1, finite);
    var w3 := FindWhite(rest);
    here := SkipWhite(rest);
    x := Entry(w, ps, w1, Item(w2, d, w3));
    AfterMember(rest, MeansEntry(x), done, v, stack, finite);
    assert start == WriteItem(x.item) + here;
    assert t == WriteEntry(x) + here;
  }

  lemma {:induction false} FindEntries(t: Text, done: seq<Member>, v: Json, stack: seq<Frame>, finite: Text -> bool) returns (entries: seq<Entry>, tail: Text)
    requires NextMember(t, done, stack, finite) == Ok(v)
    ensures entries != [] && EntriesGood(entries) && t == WriteEntries(entries) + [CLOSE_OBJ] + tail
    ensures Complete(tail, Obj(done + MeansEntries(entries)), stack, finite) == Ok(v)
    decreases |t|, 3
  {
    hide Complete, WriteEntries, MeansEntries, EntriesGood, NextMember, EntryOk, WriteEntry, MeansEntry;
    var x, here := FindEntry(t, done, v, stack, finite);
    var m := MeansEntry(x);
    assert here == [here[0]] + here[1..];
    NoneGood();
    if here[0] == COMMA {
      entries, tail := FindEntries(here[1..], done + [m], v, stack, finite);
      EntriesCons(x, entries);
      assert done + [m] + MeansEntries(entries) == done + ([m] + MeansEntries(entries));
      entries := [x] + entries;
    } else {
      EntriesCons(x, []);
      NoItems(0, finite);
      assert [x] + [] == [x] && done + ([m] + []) == done + [m];
      entries, tail := [x], here[1..];
    }
  }

  /**
    The parser takes exactly the documents that have at most 32 containers open at once, no name twice in an object, no
    lone surrogate and numbers in range, and gives what they say, wherever white space is and however strings are spelled.
   */
  lemma ParsesExactly(text: Text, v: Json, finite: Text -> bool)
    ensures Parse(text, finite) == Ok(v) <==>
            Acceptable(v, 0, finite) && exists before, doc, after :: Shows(text, before, doc, after) && Means(doc) == v
  {
    hide Start, Acceptable, Means, Write, DocOk;
    forall before, doc, after | Shows(text, before, doc, after)
      ensures Parse(text, finite) == if Acceptable(Means(doc), 0, finite) then Ok(Means(doc)) else Err
    {
      ReadsShown(text, before, doc, after, finite);
    }
    if Parse(text, finite) == Ok(v) {
      var w, d, tail := FindDoc(text, v, [], finite);
      Taken(Write(d) + tail, d, tail, v, [], finite);
      var w1 := FindWhite(tail);
      assert SkipWhite(tail) == [] && w1 + [] == w1;
      assert Shows(text, w, d, tail);
    }
  }
}
