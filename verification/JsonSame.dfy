/**
  When two trees are the same but for the order of their members, and that this is exactly when their canonical
  prints are equal (client-rust/src/json.rs).
 */
module JsonSame {

  import opened Basics
  import opened JsonText
  import opened Json
  import opened JsonRoundTrip
  import opened JsonFacts

  /** Arrays alike item by item; objects with the same names, and alike under each. */
  predicate Same(v: Json, w: Json)
    decreases v
  {
    match v
    case Arr(items) => w.Arr? && |w.items| == |items| && forall i | 0 <= i < |items| :: Same(items[i], w.items[i])
    case Obj(ms) =>
      && w.Obj?
      && (forall i | 0 <= i < |ms| :: InOther(ms[i], w.members))
      && (forall j | 0 <= j < |w.members| :: InOne(ms, w.members[j]))
    case _ => v == w
  }

  predicate InOther(m: Member, ns: seq<Member>)
    decreases m
  {
    exists j | 0 <= j < |ns| :: m.name == ns[j].name && Same(m.value, ns[j].value)
  }

  predicate InOne(ms: seq<Member>, n: Member)
    decreases ms
  {
    exists i | 0 <= i < |ms| :: ms[i].name == n.name && Same(ms[i].value, n.value)
  }

  /** No object of the tree repeats a name. */
  predicate Unique(v: Json) {
    match v
    case Arr(items) => forall i | 0 <= i < |items| :: Unique(items[i])
    case Obj(ms) => DistinctNames(ms) && forall i | 0 <= i < |ms| :: Unique(ms[i].value)
    case _ => true
  }

  // ---- What the parser accepts repeats no name ----

  lemma {:induction false} AcceptableUnique(v: Json, depth: nat, finite: Text -> bool)
    requires Acceptable(v, depth, finite)
    ensures Unique(v)
    decreases Size(v), 2
  {
    match v
    case Arr(items) => ItemsUnique(items, depth + 1, finite);
    case Obj(ms) => MembersUnique(ms, {}, depth + 1, finite);
    case _ =>
  }

  lemma {:induction false} ItemsUnique(items: seq<Json>, depth: nat, finite: Text -> bool)
    requires ItemsOk(items, depth, finite)
    ensures forall i | 0 <= i < |items| :: Unique(items[i])
    decreases Sizes(items), 3, |items|
  {
    hide Acceptable, Unique;
    if items != [] {
      AcceptableUnique(items[0], depth, finite);
      ItemsUnique(items[1..], depth, finite);
      assert forall i | 0 < i < |items| :: items[i] == items[1..][i - 1];
    }
  }

  lemma {:induction false} MembersUnique(ms: seq<Member>, seen: set<Text>, depth: nat, finite: Text -> bool)
    requires MembersOk(ms, seen, depth, finite)
    ensures DistinctNames(ms) && forall i | 0 <= i < |ms| :: ms[i].name !in seen && Unique(ms[i].value)
    decreases MemberSizes(ms), 3, |ms|
  {
    hide Acceptable, Unique, HasLoneSurrogate;
    if ms != [] {
      AcceptableUnique(ms[0].value, depth, finite);
      MembersUnique(ms[1..], seen + {ms[0].name}, depth, finite);
      assert forall i | 0 < i < |ms| :: ms[i] == ms[1..][i - 1];
    }
  }

  // ---- The sorted form, member by member ----

  lemma {:induction false} NormItemsAt(items: seq<Json>)
    ensures |NormItems(items, true)| == |items|
    ensures forall i | 0 <= i < |items| :: NormItems(items, true)[i] == Norm(items[i], true)
  {
    hide Norm;
    if items != [] {
      NormItemsAt(items[1..]);
      assert forall i | 0 < i < |items| :: items[i] == items[1..][i - 1];
    }
  }

  lemma {:induction false} NormMembersAt(ms: seq<Member>)
    ensures |NormMembers(ms, true)| == |ms|
    ensures forall i | 0 <= i < |ms| :: NormMembers(ms, true)[i] == Member(ms[i].name, Norm(ms[i].value, true))
  {
    hide Norm;
    if ms != [] {
      NormMembersAt(ms[1..]);
      assert forall i | 0 < i < |ms| :: ms[i] == ms[1..][i - 1];
    }
  }

  lemma {:induction false} NormInsert(m: Member, ms: seq<Member>)
    ensures NormMembers(Insert(m, ms), true) == Insert(Member(m.name, Norm(m.value, true)), NormMembers(ms, true))
  {
    hide Norm, Before;
    if ms != [] {
      assert NormMembers(ms, true)[1..] == NormMembers(ms[1..], true);
      if Before(ms[0].name, m.name) {
        NormInsert(m, ms[1..]);
        assert Insert(m, ms)[1..] == Insert(m, ms[1..]);
      } else {
        assert ([m] + ms)[1..] == ms;
      }
    }
  }

  lemma {:induction false} NormSort(ms: seq<Member>)
    ensures NormMembers(Sort(ms), true) == Sort(NormMembers(ms, true))
  {
    hide Norm, Insert;
    if ms != [] {
      NormInsert(ms[0], Sort(ms[1..]));
      NormSort(ms[1..]);
      assert NormMembers(ms, true)[1..] == NormMembers(ms[1..], true);
    }
  }

  /** Two lists without a repeated name sort alike exactly when they hold the same members. */
  lemma SortsAlike(a: seq<Member>, b: seq<Member>)
    requires DistinctNames(a) && DistinctNames(b)
    ensures Sort(a) == Sort(b) <==> forall m :: m in a <==> m in b
  {
    hide Sort, Sorted, DistinctNames;
    SortSorted(a);
    SortSorted(b);
    forall m ensures (m in Sort(a) <==> m in a) && (m in Sort(b) <==> m in b) {
      SortIn(a, m);
      SortIn(b, m);
    }
    if forall m :: m in a <==> m in b {
      OneSorting(Sort(a), Sort(b));
    } else {
      var m :| !(m in a <==> m in b);
      assert !(m in Sort(a) <==> m in Sort(b));
    }
  }

  lemma ObjectsAlike(ms: seq<Member>, ns: seq<Member>)
    requires DistinctNames(ms) && DistinctNames(ns)
    ensures Norm(Obj(ms), true) == Norm(Obj(ns), true) <==> forall m :: m in NormMembers(ms, true) <==> m in NormMembers(ns, true)
  {
    hide Sort, NormMembers;
    NormSort(ms);
    NormSort(ns);
    NormMembersAt(ms);
    NormMembersAt(ns);
    SortsAlike(NormMembers(ms, true), NormMembers(ns, true));
  }

  // ---- The two notions agree ----

  lemma {:induction false} NormSame(v: Json, w: Json)
    requires Unique(v) && Unique(w)
    ensures Same(v, w) <==> Norm(v, true) == Norm(w, true)
    decreases v
  {
    match v
    case Arr(items) =>
      if w.Arr? && |w.items| == |items| {
        forall i | 0 <= i < |items| ensures Same(items[i], w.items[i]) <==> Norm(items[i], true) == Norm(w.items[i], true) {
          NormSame(items[i], w.items[i]);
        }
      }
      ItemsAlike(items, w);
    case Obj(ms) =>
      if w.Obj? {
        forall i, j | 0 <= i < |ms| && 0 <= j < |w.members|
          ensures Same(ms[i].value, w.members[j].value) <==> Norm(ms[i].value, true) == Norm(w.members[j].value, true)
        {
          NormSame(ms[i].value, w.members[j].value);
        }
        MembersAlike(ms, w.members);
      }
    case _ =>
  }

  lemma ItemsAlike(items: seq<Json>, w: Json)
    requires w.Arr? && |w.items| == |items| ==>
               forall i | 0 <= i < |items| :: Same(items[i], w.items[i]) <==> Norm(items[i], true) == Norm(w.items[i], true)
    ensures Same(Arr(items), w) <==> Norm(Arr(items), true) == Norm(w, true)
  {
    NormItemsAt(items);
    if w.Arr? {
      NormItemsAt(w.items);
      if Norm(Arr(items), true) == Norm(w, true) {
        forall i | 0 <= i < |items| ensures Same(items[i], w.items[i]) {
          assert NormItems(items, true)[i] == NormItems(w.items, true)[i];
        }
      }
    }
  }

  lemma InOtherIs(m: Member, ns: seq<Member>)
    requires forall j | 0 <= j < |ns| :: Same(m.value, ns[j].value) <==> Norm(m.value, true) == Norm(ns[j].value, true)
    ensures InOther(m, ns) <==> Member(m.name, Norm(m.value, true)) in NormMembers(ns, true)
  {
    hide Norm, Same, NormMembers;
    NormMembersAt(ns);
    var x, b := Member(m.name, Norm(m.value, true)), NormMembers(ns, true);
    if x in b {
      var j :| 0 <= j < |b| && b[j] == x;
      assert m.name == ns[j].name;
    } else {
      forall j | 0 <= j < |ns| ensures b[j] != x {
        assert b[j] in b;
      }
    }
  }

  lemma InOneIs(ms: seq<Member>, n: Member)
    requires forall i | 0 <= i < |ms| :: Same(ms[i].value, n.value) <==> Norm(ms[i].value, true) == Norm(n.value, true)
    ensures InOne(ms, n) <==> Member(n.name, Norm(n.value, true)) in NormMembers(ms, true)
  {
    hide Norm, Same, NormMembers;
    NormMembersAt(ms);
    var x, a := Member(n.name, Norm(n.value, true)), NormMembers(ms, true);
    if x in a {
      var i :| 0 <= i < |a| && a[i] == x;
      assert ms[i].name == n.name;
    } else {
      forall i | 0 <= i < |ms| ensures a[i] != x {
        assert a[i] in a;
      }
    }
  }

  lemma MembersAlike(ms: seq<Member>, ns: seq<Member>)
    requires DistinctNames(ms) && DistinctNames(ns)
    requires forall i, j | 0 <= i < |ms| && 0 <= j < |ns| ::
               Same(ms[i].value, ns[j].value) <==> Norm(ms[i].value, true) == Norm(ns[j].value, true)
    ensures Same(Obj(ms), Obj(ns)) <==> Norm(Obj(ms), true) == Norm(Obj(ns), true)
  {
    hide Norm, NormMembers, DistinctNames, InOther, InOne;
    var a, b := NormMembers(ms, true), NormMembers(ns, true);
    ObjectsAlike(ms, ns);
    NormMembersAt(ms);
    NormMembersAt(ns);
    forall i | 0 <= i < |ms| ensures InOther(ms[i], ns) <==> a[i] in b {
      InOtherIs(ms[i], ns);
    }
    forall j | 0 <= j < |ns| ensures InOne(ms, ns[j]) <==> b[j] in a {
      InOneIs(ms, ns[j]);
    }
    SetsAlike(a, b);
  }

  lemma SetsAlike(a: seq<Member>, b: seq<Member>)
    ensures (forall m :: m in a <==> m in b) <==> (forall i | 0 <= i < |a| :: a[i] in b) && (forall j | 0 <= j < |b| :: b[j] in a)
  {}

  /** Trees the parser can return print alike exactly when they are the same but for the order of members. */
  lemma PrintsAlike(v: Json, w: Json, finite: Text -> bool)
    requires Good(v, 0, finite) && Good(w, 0, finite)
    ensures Print(v, true) == Print(w, true) <==> Same(v, w)
  {
    hide Start, Acceptable, NumbersOk, Print, Norm, Same, Unique;
    RoundTrip(v, true, finite);
    RoundTrip(w, true, finite);
    PrintNorm(v, true);
    PrintNorm(w, true);
    AcceptableUnique(v, 0, finite);
    AcceptableUnique(w, 0, finite);
    NormSame(v, w);
  }
}
