/**
 Go visits the members of a map in no fixed order.  For settled expressions the order changes the
 emitted text but not its meaning (internal/policy/compiler/expression.go:75-79, 172-216).
 */
module IterationOrder {
  import opened Text
  import opened Json
  import opened Expressions
  import opened ExpressionReader
  import opened ExpressionMeaning
  import opened RegoTests

  predicate UniqueKeys(members: seq<Member>) {
    forall i, j :: 0 <= i < j < |members| ==> members[i].key != members[j].key
  }

  /** The same Go value, with the members of its maps visited in another order. */
  ghost predicate SameUpToOrder(a: Json, b: Json)
    decreases a
  {
    if a.Array? && b.Array? then
      |a.items| == |b.items| && forall i :: 0 <= i < |a.items| ==> SameUpToOrder(a.items[i], b.items[i])
    else if a.Object? && b.Object? then
      && UniqueKeys(a.members) && UniqueKeys(b.members)
      && (forall key :: HasField(a, key) <==> HasField(b, key))
      && (forall key :: HasField(a, key) && HasField(b, key) ==> SameUpToOrder(Field(a, key).value, Field(b, key).value))
    else a == b
  }

  lemma {:induction false} PrintableSame(a: Json, b: Json)
    requires SameUpToOrder(a, b) && Printable(a)
    ensures a == b
  {
    if a.Array? && b.Array? {
      forall i | 0 <= i < |a.items| ensures a.items[i] == b.items[i] { PrintableSame(a.items[i], b.items[i]); }
      assert a.items == b.items;
    }
  }

  lemma {:induction false} FindUnique(members: seq<Member>, i: int)
    requires UniqueKeys(members) && 0 <= i < |members|
    ensures FindMember(members, members[i].key) == Some(members[i].value)
  {
    if i > 0 {
      assert members[i] == members[1..][i - 1];
      FindUnique(members[1..], i - 1);
    }
  }

  predicate AllPrintable(members: seq<Member>) {
    forall i :: 0 <= i < |members| ==> Printable(members[i].value)
  }

  /** At most one member could be taken for a direct comparison. */
  predicate OneFieldPath(members: seq<Member>) {
    forall i, j :: 0 <= i < j < |members| ==> !(IsFieldPath(members[i].key) && IsFieldPath(members[j].key))
  }

  predicate IsLeaf(e: Json)
    requires e.Object?
  {
    !HasField(e, "all") && !HasField(e, "any") && !HasField(e, "not")
  }

  predicate HasFieldMap(e: Json)
    requires e.Object?
  {
    HasField(e, "field_equals") || HasField(e, "field_in") || HasField(e, "field_matches")
  }

  /** Neither a list nor a field map: a named field or a direct comparison. */
  predicate Listless(a: Json)
    requires a.Object?
  {
    !HasField(a, "tool_in") && !HasField(a, "agent_in") && !HasFieldMap(a)
  }

  /** The reading takes the first member whose key is a field path. */
  predicate IsComparison(e: Json)
    requires e.Object?
  {
    Listless(e) && !HasField(e, "field")
  }

  /** No choice is left to the iteration: a direct comparison has one field path to take, and the first
      line under a `not` does not come from a field map with several members. */
  predicate Settled(e: Json)
    requires e.Object?
    decreases e
  {
    if HasField(e, "all") then SettledItems(Field(e, "all").value)
    else if HasField(e, "any") then SettledItems(Field(e, "any").value)
    else if HasField(e, "not") then
      var operand := Field(e, "not").value;
      operand.Object? && Settled(operand) && (ReadExpr(operand).Ok? ==> FirstSteady(ReadExpr(operand).value))
    else IsComparison(e) ==> OneFieldPath(e.members)
  }

  predicate SettledItems(v: Json)
    decreases v
  {
    v.Array? && forall i :: 0 <= i < |v.items| ==> v.items[i].Object? && Settled(v.items[i])
  }

  /** The first line of the text is not one of several from a field map. */
  predicate FirstSteady(e: Expr)
    decreases e, 0
  {
    match e
    case All(items) => FirstLineSteady(items)
    case Any(items) => items != [] ==> FirstSteady(items[0])
    case Not(item) => FirstSteady(item)
    case Tests(tests) => |tests| <= 1
    case NotIn(_) => true
  }

  predicate FirstLineSteady(items: seq<Expr>) {
    items == [] || if Emit(items[0]) == [] then FirstLineSteady(items[1..]) else FirstSteady(items[0])
  }

  /** Equal up to the order of lines that come from one field map, and equal in the first line under
      each `not`. */
  predicate Reordered(a: Expr, b: Expr) {
    match a
    case All(items) =>
      b.All? && |items| == |b.items| && forall i :: 0 <= i < |items| ==> Reordered(items[i], b.items[i])
    case Any(items) =>
      b.Any? && |items| == |b.items| && forall i :: 0 <= i < |items| ==> Reordered(items[i], b.items[i])
    case Not(item) => b.Not? && Reordered(item, b.item) && FirstSteady(item)
    case Tests(tests) => b.Tests? && multiset(tests) == multiset(b.tests)
    case NotIn(_) => a == b
  }

  /** The literals can be printed. */
  predicate PrintableTests(e: Expr) {
    forall t :: t in TestsOf(e) ==> Printable(t.value)
  }

  // ---------------------------------------------------------------- meaning

  /** Both bodies parse or neither does, and they hold the same literals. */
  predicate SameLiterals(a: Option<seq<Literal>>, b: Option<seq<Literal>>) {
    a.Some? == b.Some? && (a.Some? ==> multiset(a.value) == multiset(b.value))
  }

  lemma {:induction false} ReorderedLiterals(a: Expr, b: Expr)
    requires Reordered(a, b)
    ensures SameLiterals(Literals(a), Literals(b))
    decreases a, 0
  {
    match a
    case All(items) => ReorderedLines(items, b.items);
    case Any(items) => ReorderedBranches(items, b.items);
    case Not(item) =>
      ReorderedLiterals(item, b.item);
      FirstSame(item, b.item);
      if Literals(item).Some? { NegatedSame(Literals(item).value, Literals(b.item).value); }
    case Tests(tests) => PositivesMultiset(tests, b.tests);
    case NotIn(_) =>
  }

  /** Negating an equal first literal keeps bodies equal up to order. */
  lemma {:induction false} NegatedSame(x: seq<Literal>, y: seq<Literal>)
    requires multiset(x) == multiset(y) && (x != [] && y != [] ==> x[0] == y[0])
    ensures SameLiterals(NegateFirst(Some(x)), NegateFirst(Some(y)))
  {
    assert |multiset(x)| == |x| && |multiset(y)| == |y|;
    if x != [] && !x[0].negated {
      assert x == [x[0]] + x[1..] && y == [y[0]] + y[1..];
      assert multiset(x[1..]) == multiset(x) - multiset{x[0]} && multiset(y[1..]) == multiset(y) - multiset{x[0]};
    }
  }

  /** The first literal is the same when the first line is steady. */
  lemma {:induction false} FirstSame(a: Expr, b: Expr)
    requires Reordered(a, b) && FirstSteady(a)
    ensures Literals(a).Some? && Literals(b).Some? && Literals(a).value != [] && Literals(b).value != [] ==>
              Literals(a).value[0] == Literals(b).value[0]
    decreases a, 0
  {
    match a
    case All(items) => FirstLineSame(items, b.items);
    case Any(items) =>
      if items != [] && Sole(Literals(items[0])) && Sole(Literals(b.items[0])) {
        FirstSame(items[0], b.items[0]);
      }
    case Not(item) => FirstSame(item, b.item);
    case Tests(tests) =>
      assert |multiset(tests)| == |tests| == |b.tests|;
      if |tests| == 1 { assert tests[0] in multiset(b.tests); }
    case NotIn(_) =>
  }

  lemma {:induction false} FirstLineSame(a: seq<Expr>, b: seq<Expr>)
    requires |a| == |b| && (forall i :: 0 <= i < |a| ==> Reordered(a[i], b[i])) && FirstLineSteady(a)
    ensures LineLiterals(a).Some? && LineLiterals(b).Some? && LineLiterals(a).value != [] && LineLiterals(b).value != [] ==>
              LineLiterals(a).value[0] == LineLiterals(b).value[0]
    decreases a, 1
  {
    if a != [] {
      ReorderedLength(a[0], b[0]);
      if Emit(a[0]) == [] {
        FirstLineSame(a[1..], b[1..]);
      } else {
        FirstSame(a[0], b[0]);
      }
      if Literals(a[0]).Some? { TextShows(a[0]); }
      if Literals(b[0]).Some? { TextShows(b[0]); }
    }
  }

  /** Text that is read shows in literals. */
  lemma {:induction false} TextShows(e: Expr)
    requires Literals(e).Some?
    ensures Emit(e) == [] <==> Literals(e).value == []
    decreases e, 0
  {
    match e
    case All(items) => LinesShow(items);
    case _ =>
  }

  lemma {:induction false} LinesShow(items: seq<Expr>)
    requires LineLiterals(items).Some?
    ensures EmitLines(items) == [] <==> LineLiterals(items).value == []
  {
    if items != [] {
      TextShows(items[0]);
      LinesShow(items[1..]);
    }
  }

  lemma {:induction false} ReorderedLines(a: seq<Expr>, b: seq<Expr>)
    requires |a| == |b| && forall i :: 0 <= i < |a| ==> Reordered(a[i], b[i])
    ensures SameLiterals(LineLiterals(a), LineLiterals(b))
  {
    if a != [] {
      ReorderedLiterals(a[0], b[0]);
      ReorderedLines(a[1..], b[1..]);
    }
  }

  lemma {:induction false} ReorderedBranches(a: seq<Expr>, b: seq<Expr>)
    requires |a| == |b| && forall i :: 0 <= i < |a| ==> Reordered(a[i], b[i])
    ensures SameLiterals(BranchLiterals(a), BranchLiterals(b))
  {
    if a != [] {
      ReorderedLiterals(a[0], b[0]);
      var x, y := Literals(a[0]), Literals(b[0]);
      if x.Some? {
        assert |multiset(x.value)| == |x.value| == |y.value|;
        if |x.value| == 1 { assert x.value[0] in multiset(y.value); }
      }
      ReorderedBranches(a[1..], b[1..]);
    }
  }

  lemma {:induction false} PositivesMultiset(s: seq<Test>, t: seq<Test>)
    requires multiset(s) == multiset(t)
    ensures multiset(Positives(s)) == multiset(Positives(t))
  {
    forall l: Literal ensures multiset(Positives(s))[l] == multiset(Positives(t))[l] {
      PositivesCount(s, l);
      PositivesCount(t, l);
    }
  }

  lemma {:induction false} PositivesCount(s: seq<Test>, l: Literal)
    ensures multiset(Positives(s))[l] == if l.negated then 0 else multiset(s)[l.test]
  {
    if s != [] {
      PositivesCount(s[1..], l);
      assert s == [s[0]] + s[1..];
      assert Positives(s) == [Literal(false, s[0])] + Positives(s[1..]);
    }
  }

  lemma BodyMultiset(a: seq<Literal>, b: seq<Literal>, v: Valuation)
    requires multiset(a) == multiset(b)
    ensures BodyHolds(a, v) == BodyHolds(b, v)
  {
    forall i | 0 <= i < |a| ensures a[i] in b { assert a[i] in multiset(b); }
    forall i | 0 <= i < |b| ensures b[i] in a { assert b[i] in multiset(a); }
  }

  lemma {:induction false} ReorderedLength(a: Expr, b: Expr)
    requires Reordered(a, b)
    ensures |Emit(a)| == |Emit(b)|
    ensures Tight(a) ==> Tight(b)
    decreases a, 0
  {
    match a
    case All(items) =>
      ReorderedLengths(items, b.items);
      forall i | 0 <= i < |items| ensures Tight(items[i]) ==> Tight(b.items[i]) { ReorderedLength(items[i], b.items[i]); }
    case Any(items) =>
      ReorderedLengths(items, b.items);
      forall i | 0 <= i < |items|
        ensures Tight(items[i]) && Emit(items[i]) != [] ==> Tight(b.items[i]) && Emit(b.items[i]) != []
      {
        ReorderedLength(items[i], b.items[i]);
      }
    case Not(item) => ReorderedLength(item, b.item);
    case Tests(tests) => assert |multiset(tests)| == |tests| == |b.tests|;
    case NotIn(_) =>
  }

  lemma {:induction false} ReorderedLengths(a: seq<Expr>, b: seq<Expr>)
    requires |a| == |b| && forall i :: 0 <= i < |a| ==> Reordered(a[i], b[i])
    ensures |EmitLines(a)| == |EmitLines(b)| && |EmitBranches(a)| == |EmitBranches(b)|
  {
    if a != [] {
      ReorderedLength(a[0], b[0]);
      ReorderedLengths(a[1..], b[1..]);
    }
  }

  // ---------------------------------------------------------------- reading two orders of one map

  lemma NoDuplicates(s: seq<Test>, t: Test)
    requires Distinct(s)
    ensures multiset(s)[t] == if t in s then 1 else 0
  {
    if s != [] {
      assert s == [s[0]] + s[1..];
      NoDuplicates(s[1..], t);
    }
  }

  lemma {:induction false} MemberTestIn(members: seq<Member>, op: Operator, t: Test)
    ensures t in MemberTests(members, op) <==> t.op == op && Member(t.path, t.value) in members
  {
    var s := MemberTests(members, op);
    if t in s { var i :| 0 <= i < |s| && s[i] == t; assert members[i] == Member(t.path, t.value); }
    if t.op == op && Member(t.path, t.value) in members {
      var i :| 0 <= i < |members| && members[i] == Member(t.path, t.value);
      assert s[i] == t;
    }
  }

  lemma {:induction false} MemberTestsSame(a: seq<Member>, b: seq<Member>, op: Operator)
    requires UniqueKeys(a) && UniqueKeys(b) && forall m :: m in a <==> m in b
    ensures multiset(MemberTests(a, op)) == multiset(MemberTests(b, op))
  {
    var s, t := MemberTests(a, op), MemberTests(b, op);
    forall x: Test ensures multiset(s)[x] == multiset(t)[x] {
      MemberTestIn(a, op, x);
      MemberTestIn(b, op, x);
      NoDuplicates(s, x);
      NoDuplicates(t, x);
    }
  }

  lemma {:induction false} FieldMapReordered(a: Json, b: Json, op: Operator)
    requires a.Object? && b.Object? && SameUpToOrder(a, b) && AllPrintable(a.members)
    requires ReadFieldMap(a, op).Ok?
    ensures ReadFieldMap(b, op).Ok? && Reordered(ReadFieldMap(a, op).value, ReadFieldMap(b, op).value)
  {
    MembersMatch(a, b);
    MembersMatchBack(a, b);
    assert forall m :: m in b.members ==> m in a.members;
    MemberTestsSame(a.members, b.members, op);
  }

  lemma {:induction false} MembersMatch(a: Json, b: Json)
    requires a.Object? && SameUpToOrder(a, b) && AllPrintable(a.members)
    ensures forall i :: 0 <= i < |a.members| ==> a.members[i] in b.members
  {
    forall i | 0 <= i < |a.members| ensures a.members[i] in b.members {
      FindUnique(a.members, i);
      var key := a.members[i].key;
      assert HasField(a, key);
      PrintableSame(Field(a, key).value, Field(b, key).value);
    }
  }

  lemma {:induction false} MembersMatchBack(a: Json, b: Json)
    requires a.Object? && SameUpToOrder(a, b) && AllPrintable(a.members)
    ensures forall i :: 0 <= i < |b.members| ==> b.members[i] in a.members
  {
    forall i | 0 <= i < |b.members| ensures b.members[i] in a.members {
      FindUnique(b.members, i);
      var key := b.members[i].key;
      assert HasField(b, key) && HasField(a, key);
      var k :| 0 <= k < |a.members| && a.members[k] == Member(key, Field(a, key).value);
      assert Printable(a.members[k].value);
      PrintableSame(Field(a, key).value, Field(b, key).value);
    }
  }

  /** With one field path the comparison read does not depend on the order. */
  lemma {:induction false} ComparisonFound(members: seq<Member>, i: int)
    requires OneFieldPath(members) && 0 <= i < |members| && IsFieldPath(members[i].key)
    ensures ReadComparison(members) == Ok(Tests([Test(members[i].key, Equals, members[i].value)]))
  {
    if i > 0 {
      assert members[i] == members[1..][i - 1];
      assert !IsFieldPath(members[0].key);
      ComparisonFound(members[1..], i - 1);
    }
  }

  lemma {:induction false} ComparisonSource(members: seq<Member>) returns (i: int)
    requires ReadComparison(members).Ok?
    ensures 0 <= i < |members| && IsFieldPath(members[i].key)
    ensures ReadComparison(members) == Ok(Tests([Test(members[i].key, Equals, members[i].value)]))
  {
    if IsFieldPath(members[0].key) {
      i := 0;
    } else {
      i := ComparisonSource(members[1..]);
      i := i + 1;
    }
  }

  lemma {:induction false} OneFieldPathSame(a: Json, b: Json)
    requires a.Object? && b.Object? && SameUpToOrder(a, b) && OneFieldPath(a.members)
    ensures OneFieldPath(b.members)
  {
    forall i, j | 0 <= i < j < |b.members| ensures !(IsFieldPath(b.members[i].key) && IsFieldPath(b.members[j].key)) {
      var k := MemberMatched(a, b, i);
      var l := MemberMatched(a, b, j);
      assert k != l;
    }
  }

  lemma {:induction false} MemberMatched(a: Json, b: Json, i: int) returns (k: int)
    requires a.Object? && b.Object? && SameUpToOrder(a, b) && 0 <= i < |b.members|
    ensures 0 <= k < |a.members| && a.members[k].key == b.members[i].key
  {
    FindUnique(b.members, i);
    var key := b.members[i].key;
    assert HasField(b, key) && HasField(a, key);
    k :| 0 <= k < |a.members| && a.members[k] == Member(key, Field(a, key).value);
  }

  /** A member read from one order of a map is there in any other. */
  lemma {:induction false} FieldSame(a: Json, b: Json, key: string)
    requires a.Object? && b.Object? && SameUpToOrder(a, b)
    ensures HasField(a, key) <==> HasField(b, key)
    ensures HasField(a, key) ==> SameUpToOrder(Field(a, key).value, Field(b, key).value)
    ensures HasField(a, key) && Printable(Field(a, key).value) ==> Field(b, key) == Field(a, key)
  {
    assert HasField(a, key) <==> HasField(b, key);
    if HasField(a, key) && Printable(Field(a, key).value) {
      PrintableSame(Field(a, key).value, Field(b, key).value);
    }
  }

  lemma {:induction false} StringsPrintable(v: Json)
    requires IsStringList(v)
    ensures Printable(v)
  {
  }

  lemma {:induction false} ListLeaf(a: Json, b: Json)
    requires a.Object? && b.Object? && SameUpToOrder(a, b)
    requires ReadLeaf(a).Ok? && (HasField(a, "tool_in") || HasField(a, "agent_in"))
    ensures ReadLeaf(b).Ok? && Reordered(ReadLeaf(a).value, ReadLeaf(b).value)
  {
    var key := if HasField(a, "tool_in") then "tool_in" else "agent_in";
    StringsPrintable(Field(a, key).value);
    FieldSame(a, b, "tool_in");
    FieldSame(a, b, "agent_in");
  }

  lemma {:induction false} MapPrintable(fields: Json, op: Operator)
    requires ReadFieldMap(fields, op).Ok? && PrintableTests(ReadFieldMap(fields, op).value)
    ensures fields.Object? && AllPrintable(fields.members)
  {
    forall i | 0 <= i < |fields.members| ensures Printable(fields.members[i].value) {
      assert MemberTests(fields.members, op)[i] in MemberTests(fields.members, op);
    }
  }

  lemma {:induction false} OneFieldMap(a: Json, b: Json, op: Operator)
    requires SameUpToOrder(a, b) && ReadFieldMap(a, op).Ok? && PrintableTests(ReadFieldMap(a, op).value)
    ensures ReadFieldMap(b, op).Ok? && Reordered(ReadFieldMap(a, op).value, ReadFieldMap(b, op).value)
  {
    MapPrintable(a, op);
    FieldMapReordered(a, b, op);
  }

  lemma {:induction false} FieldMapLeaf(a: Json, b: Json)
    requires a.Object? && b.Object? && SameUpToOrder(a, b)
    requires ReadLeaf(a).Ok? && PrintableTests(ReadLeaf(a).value)
    requires !HasField(a, "tool_in") && !HasField(a, "agent_in") && HasFieldMap(a)
    ensures ReadLeaf(b).Ok? && Reordered(ReadLeaf(a).value, ReadLeaf(b).value)
  {
    FieldSame(a, b, "tool_in");
    FieldSame(a, b, "agent_in");
    FieldSame(a, b, "field_equals");
    FieldSame(a, b, "field_in");
    FieldSame(a, b, "field_matches");
    if HasField(a, "field_equals") {
      OneFieldMap(Field(a, "field_equals").value, Field(b, "field_equals").value, Equals);
    } else if HasField(a, "field_in") {
      OneFieldMap(Field(a, "field_in").value, Field(b, "field_in").value, In);
    } else {
      OneFieldMap(Field(a, "field_matches").value, Field(b, "field_matches").value, Matches);
    }
  }

  lemma {:induction false} ListlessSame(a: Json, b: Json)
    requires a.Object? && b.Object? && SameUpToOrder(a, b) && Listless(a)
    ensures Listless(b) && (HasField(a, "field") <==> HasField(b, "field"))
  {
  }

  /** The value of a named field's comparison is printable when the comparison is. */
  lemma {:induction false} ValuePrintable(path: string, a: Json)
    requires a.Object? && ReadFieldOp(path, a).Ok? && PrintableTests(ReadFieldOp(path, a).value) && HasField(a, "value")
    ensures Printable(Field(a, "value").value)
  {
    var value := Field(a, "value").value;
    var e := ReadFieldOp(path, a).value;
    if e.Tests? { assert e.tests[0] in TestsOf(e); } else { assert e.test in TestsOf(e); }
  }

  lemma {:induction false} FieldOpLeaf(a: Json, b: Json)
    requires a.Object? && b.Object? && SameUpToOrder(a, b)
    requires ReadLeaf(a).Ok? && PrintableTests(ReadLeaf(a).value) && Listless(a) && HasField(a, "field")
    ensures ReadLeaf(b).Ok? && Reordered(ReadLeaf(a).value, ReadLeaf(b).value)
  {
    ListlessSame(a, b);
    FieldSame(a, b, "field");
    assert Field(b, "field") == Field(a, "field");
    var path := Field(a, "field").value.text;
    assert ReadLeaf(a) == ReadFieldOp(path, a) && ReadLeaf(b) == ReadFieldOp(path, b);
    FieldSame(a, b, "op");
    FieldSame(a, b, "value");
    if HasField(a, "value") { ValuePrintable(path, a); }
    assert ReadFieldOp(path, b) == ReadFieldOp(path, a);
  }

  lemma {:induction false} ComparisonLeaf(a: Json, b: Json)
    requires a.Object? && b.Object? && SameUpToOrder(a, b) && OneFieldPath(a.members)
    requires ReadLeaf(a).Ok? && PrintableTests(ReadLeaf(a).value) && IsComparison(a)
    ensures ReadLeaf(b).Ok? && Reordered(ReadLeaf(a).value, ReadLeaf(b).value)
  {
    ListlessSame(a, b);
    assert ReadLeaf(a) == ReadComparison(a.members) && ReadLeaf(b) == ReadComparison(b.members);
    var i := ComparisonSource(a.members);
    FindUnique(a.members, i);
    var key := a.members[i].key;
    var e := ReadComparison(a.members).value;
    assert e.tests[0] in TestsOf(e);
    FieldSame(a, b, key);
    OneFieldPathSame(a, b);
    var j :| 0 <= j < |b.members| && b.members[j] == Member(key, Field(b, key).value);
    ComparisonFound(b.members, j);
  }

  lemma {:induction false} LeafReordered(a: Json, b: Json)
    requires a.Object? && b.Object? && SameUpToOrder(a, b) && (IsComparison(a) ==> OneFieldPath(a.members))
    requires ReadLeaf(a).Ok? && PrintableTests(ReadLeaf(a).value)
    ensures ReadLeaf(b).Ok? && Reordered(ReadLeaf(a).value, ReadLeaf(b).value)
  {
    if HasField(a, "tool_in") || HasField(a, "agent_in") {
      ListLeaf(a, b);
    } else if HasFieldMap(a) {
      FieldMapLeaf(a, b);
    } else if HasField(a, "field") {
      FieldOpLeaf(a, b);
    } else {
      ComparisonLeaf(a, b);
    }
  }

  lemma {:induction false} ReadReordered(a: Json, b: Json)
    requires a.Object? && b.Object? && SameUpToOrder(a, b) && Settled(a)
    requires ReadExpr(a).Ok? && PrintableTests(ReadExpr(a).value)
    ensures ReadExpr(b).Ok? && Reordered(ReadExpr(a).value, ReadExpr(b).value)
    decreases a, 1
  {
    if HasField(a, "all") {
      assert HasField(b, "all");
      ReadItemsReordered(Field(a, "all").value.items, Field(b, "all").value.items);
    } else if HasField(a, "any") {
      assert HasField(b, "any") && !HasField(b, "all");
      ReadItemsReordered(Field(a, "any").value.items, Field(b, "any").value.items);
    } else if HasField(a, "not") {
      assert HasField(b, "not") && !HasField(b, "all") && !HasField(b, "any");
      ReadReordered(Field(a, "not").value, Field(b, "not").value);
    } else {
      assert !HasField(b, "all") && !HasField(b, "any") && !HasField(b, "not");
      LeafReordered(a, b);
    }
  }

  lemma {:induction false} ReadItemsReordered(a: seq<Json>, b: seq<Json>)
    requires |a| == |b| && ReadItems(a).Ok? && PrintableTests(All(ReadItems(a).value))
    requires forall i :: 0 <= i < |a| ==> a[i].Object? && Settled(a[i]) && SameUpToOrder(a[i], b[i])
    ensures ReadItems(b).Ok?
    ensures forall i :: 0 <= i < |a| ==> Reordered(ReadItems(a).value[i], ReadItems(b).value[i])
    decreases a, 0
  {
    if a != [] {
      assert SameUpToOrder(a[0], b[0]);
      var values := ReadItems(a).value;
      assert values == [values[0]] + values[1..];
      assert Gather(values) == TestsOf(values[0]) + Gather(values[1..]);
      ReadReordered(a[0], b[0]);
      assert forall i :: 0 <= i < |a[1..]| ==> a[1..][i] == a[i + 1] && b[1..][i] == b[i + 1];
      ReadItemsReordered(a[1..], b[1..]);
    }
  }

  lemma {:induction false} ReorderedBodies(x: Expr, y: Expr, v: Valuation)
    requires Reordered(x, y) && Tight(x)
    ensures var a, b := ParseBody(Emit(x)), ParseBody(Emit(y));
      a.Some? == b.Some? && (a.Some? ==> BodyHolds(a.value, v) == BodyHolds(b.value, v))
  {
    ReorderedLength(x, y);
    ReorderedLiterals(x, y);
    ParseWhole(x);
    ParseWhole(y);
    if Literals(x).Some? {
      assert |multiset(Literals(x).value)| == |Literals(x).value| == |Literals(y).value|;
      BodyMultiset(Literals(x).value, Literals(y).value, v);
    }
  }

  /** Whatever order Go chooses, the text of a settled condition parses or not alike and means the same. */
  lemma {:induction false} OrderIrrelevant(a: Json, b: Json, v: Valuation)
    requires a.Object? && b.Object? && SameUpToOrder(a, b) && Settled(a)
    requires ReadExpr(a).Ok? && Tight(ReadExpr(a).value) && PrintableTests(ReadExpr(a).value)
    ensures ReadExpr(b).Ok?
    ensures var x, y := ParseBody(Emit(ReadExpr(a).value)), ParseBody(Emit(ReadExpr(b).value));
      x.Some? == y.Some? && (x.Some? ==> BodyHolds(x.value, v) == BodyHolds(y.value, v))
  {
    ReadReordered(a, b);
    ReorderedBodies(ReadExpr(a).value, ReadExpr(b).value, v);
  }

  // ---------------------------------------------------------------- settled is needed

  lemma {:induction false} PrintableReflexive(v: Json)
    requires Printable(v)
    ensures SameUpToOrder(v, v)
  {
    if v.Array? {
      forall i | 0 <= i < |v.items| ensures SameUpToOrder(v.items[i], v.items[i]) { PrintableReflexive(v.items[i]); }
    }
  }

  /** The same two members in either order. */
  lemma {:induction false} SwappedMembers(m: Member, n: Member)
    requires m.key != n.key && Printable(m.value) && Printable(n.value)
    ensures SameUpToOrder(Object([m, n]), Object([n, m]))
    ensures forall key :: Field(Object([m, n]), key) ==
              if key == m.key then Some(m.value) else if key == n.key then Some(n.value) else None
    ensures forall key :: Field(Object([n, m]), key) == Field(Object([m, n]), key)
  {
    assert [m, n][1..] == [n] && [n][1..] == [] && [n, m][1..] == [m] && [m][1..] == [];
    PrintableReflexive(m.value);
    PrintableReflexive(n.value);
  }

  lemma {:induction false} OneMember(m: Member)
    ensures forall key :: Field(Object([m]), key) == if key == m.key then Some(m.value) else None
  {
    assert [m][1..] == [];
  }

  /** Any two field paths in one object: the order decides which comparison is compiled, and some
      input tells the two apart. */
  lemma {:induction false} TwoPathsAmbiguous(m: Member, n: Member)
    requires IsFieldPath(m.key) && IsFieldPath(n.key) && m.key != n.key && Printable(m.value) && Printable(n.value)
    ensures SameUpToOrder(Object([m, n]), Object([n, m]))
    ensures ReadExpr(Object([m, n])) == Ok(Tests([Test(m.key, Equals, m.value)]))
    ensures ReadExpr(Object([n, m])) == Ok(Tests([Test(n.key, Equals, n.value)]))
    ensures exists v: Valuation :: Holds(ReadExpr(Object([m, n])).value, v) && !Holds(ReadExpr(Object([n, m])).value, v)
  {
    SwappedMembers(m, n);
    var a, b := Object([m, n]), Object([n, m]);
    assert !HasField(a, "all") && !HasField(a, "any") && !HasField(a, "not");
    assert !HasField(b, "all") && !HasField(b, "any") && !HasField(b, "not");
    assert ReadLeaf(a) == ReadComparison([m, n]) && ReadLeaf(b) == ReadComparison([n, m]);
    var v: Valuation := (x: Test) => x.path == m.key;
    assert [Test(m.key, Equals, m.value)][0].path == m.key && [Test(n.key, Equals, n.value)][0].path == n.key;
    assert Holds(ReadExpr(a).value, v) && !Holds(ReadExpr(b).value, v);
  }

  /** The object {"not": {"field_equals": {m, n}}}. */
  function NegatedMap(m: Member, n: Member): Json {
    Object([Member("not", Object([Member("field_equals", Object([m, n]))]))])
  }

  function EqualTest(m: Member): Test {
    Test(m.key, Equals, m.value)
  }

  lemma {:induction false} NegatedMapReads(m: Member, n: Member)
    ensures ReadExpr(NegatedMap(m, n)) == Ok(Not(Tests([EqualTest(m), EqualTest(n)])))
  {
    var fields := Object([m, n]);
    var inner := Object([Member("field_equals", fields)]);
    OneMember(Member("not", inner));
    OneMember(Member("field_equals", fields));
    assert MemberTests([m, n], Equals) == [EqualTest(m), EqualTest(n)];
    assert ReadFieldMap(fields, Equals) == Ok(Tests([EqualTest(m), EqualTest(n)]));
    assert ReadLeaf(inner) == ReadFieldMap(fields, Equals);
    assert ReadExpr(inner) == ReadLeaf(inner);
  }

  /** Rego's reading of a `not` over two lines. */
  lemma {:induction false} NegatedPairParses(s: Test, t: Test)
    ensures ParseBody(Emit(Not(Tests([s, t])))) == Some([Literal(true, s), Literal(false, t)])
  {
    ParseWhole(Not(Tests([s, t])));
    assert Positives([s, t]) == [Literal(false, s), Literal(false, t)];
    assert [Literal(true, s)] + [Literal(false, t)] == [Literal(true, s), Literal(false, t)];
  }

  /** A field map with two members under `not`: only the first line is negated, so each order of the
      same map compiles a different condition. */
  lemma {:induction false} NegatedMapAmbiguous(m: Member, n: Member)
    requires m.key != n.key && Printable(m.value) && Printable(n.value)
    ensures SameUpToOrder(NegatedMap(m, n), NegatedMap(n, m))
    ensures ReadExpr(NegatedMap(m, n)) == Ok(Not(Tests([EqualTest(m), EqualTest(n)])))
    ensures ReadExpr(NegatedMap(n, m)) == Ok(Not(Tests([EqualTest(n), EqualTest(m)])))
    ensures ParseBody(Emit(ReadExpr(NegatedMap(m, n)).value)).Some? && ParseBody(Emit(ReadExpr(NegatedMap(n, m)).value)).Some?
    ensures exists v: Valuation ::
      && BodyHolds(ParseBody(Emit(ReadExpr(NegatedMap(m, n)).value)).value, v)
      && !BodyHolds(ParseBody(Emit(ReadExpr(NegatedMap(n, m)).value)).value, v)
  {
    NegatedMapSame(m, n);
    NegatedMapReads(m, n);
    NegatedMapReads(n, m);
    var s, t := EqualTest(m), EqualTest(n);
    NegatedPairParses(s, t);
    NegatedPairParses(t, s);
    var v: Valuation := (x: Test) => x.path == n.key;
    assert BodyHolds([Literal(true, s), Literal(false, t)], v);
    assert !LiteralHolds([Literal(true, t), Literal(false, s)][0], v);
  }

  lemma {:induction false} NegatedMapSame(m: Member, n: Member)
    requires m.key != n.key && Printable(m.value) && Printable(n.value)
    ensures SameUpToOrder(NegatedMap(m, n), NegatedMap(n, m))
  {
    SwappedMembers(m, n);
    SameWrapped("field_equals", Object([m, n]), Object([n, m]));
    SameWrapped("not", Object([Member("field_equals", Object([m, n]))]), Object([Member("field_equals", Object([n, m]))]));
  }

  lemma {:induction false} SameWrapped(key: string, a: Json, b: Json)
    requires SameUpToOrder(a, b)
    ensures SameUpToOrder(Object([Member(key, a)]), Object([Member(key, b)]))
  {
    OneMember(Member(key, a));
    OneMember(Member(key, b));
  }
}
