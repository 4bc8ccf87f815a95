/**
 Exactly when Go's map order shows (internal/policy/compiler/expression.go:74-79, 149-216): a condition
 that leaves the iteration a choice has two orders whose texts some input tells apart.
 */
module OrderExact {
  import opened Text
  import opened Json
  import opened Expressions
  import opened ExpressionReader
  import opened ExpressionMeaning
  import opened RegoTests
  import opened IterationOrder

  // ---------------------------------------------------------------- bodies that differ

  /** One literal has another test. */
  predicate OneOff(x: seq<Literal>, y: seq<Literal>, i: nat) {
    && |x| == |y| && i < |x| && x[i].negated == y[i].negated && x[i].test != y[i].test
    && forall j :: 0 <= j < |x| && j != i ==> x[j] == y[j]
  }

  /** A negated literal and the next one have exchanged their tests. */
  predicate Exchanged(x: seq<Literal>, y: seq<Literal>, i: nat) {
    && |x| == |y| && i + 1 < |x| && x[i].negated && !x[i + 1].negated
    && y[i] == Literal(true, x[i + 1].test) && y[i + 1] == Literal(false, x[i].test)
    && forall j :: 0 <= j < |x| && j != i && j != i + 1 ==> x[j] == y[j]
  }

  ghost predicate Differ(x: seq<Literal>, y: seq<Literal>) {
    exists i: nat :: OneOff(x, y, i) || Exchanged(x, y, i)
  }

  lemma {:induction false} OneOffSeparates(x: seq<Literal>, y: seq<Literal>, i: nat) returns (v: Valuation)
    requires Distinct(TestsIn(x)) && OneOff(x, y, i)
    ensures BodyHolds(x, v) != BodyHolds(y, v)
  {
    v := Satisfying(x);
    SatisfyingHolds(x);
    if BodyHolds(y, v) {
      var w: Valuation := t => if t == x[i].test then x[i].negated else v(t);
      assert !LiteralHolds(x[i], w);
      forall j | 0 <= j < |y| ensures LiteralHolds(y[j], w) {
        assert LiteralHolds(y[j], v);
        if j != i { assert TestsIn(x)[j] != TestsIn(x)[i]; }
      }
      v := w;
    }
  }

  lemma {:induction false} ExchangeSeparates(x: seq<Literal>, y: seq<Literal>, i: nat) returns (v: Valuation)
    requires Distinct(TestsIn(x)) && Exchanged(x, y, i)
    ensures BodyHolds(x, v) != BodyHolds(y, v)
  {
    v := Satisfying(x);
    SatisfyingHolds(x);
    assert LiteralHolds(x[i], v) && LiteralHolds(x[i + 1], v);
    assert !LiteralHolds(y[i], v);
  }

  /** Different bodies with distinct tests are told apart. */
  lemma {:induction false} DifferSeparates(x: seq<Literal>, y: seq<Literal>) returns (v: Valuation)
    requires Distinct(TestsIn(x)) && Differ(x, y)
    ensures BodyHolds(x, v) != BodyHolds(y, v)
  {
    var i: nat :| OneOff(x, y, i) || Exchanged(x, y, i);
    if OneOff(x, y, i) { v := OneOffSeparates(x, y, i); } else { v := ExchangeSeparates(x, y, i); }
  }

  /** Differences stay when text comes before and after. */
  lemma {:induction false} DifferWithin(before: seq<Literal>, x: seq<Literal>, y: seq<Literal>, after: seq<Literal>)
    requires Differ(x, y)
    ensures Differ(before + x + after, before + y + after)
  {
    var i: nat :| OneOff(x, y, i) || Exchanged(x, y, i);
    var a, b, k := before + x + after, before + y + after, |before| + i;
    assert forall j :: 0 <= j < |x| ==> a[|before| + j] == x[j] && b[|before| + j] == y[j];
    assert forall j :: 0 <= j < |before| ==> a[j] == b[j];
    assert forall j :: |before| + |x| <= j < |a| ==> a[j] == b[j];
    assert forall j :: |before| <= j < |before| + |x| ==> a[j] == x[j - |before|] && b[j] == y[j - |before|];
    assert OneOff(a, b, k) || Exchanged(a, b, k);
  }

  /** And under a `not`. */
  lemma {:induction false} DifferNegated(x: seq<Literal>, y: seq<Literal>)
    requires Differ(x, y) && NegateFirst(Some(x)).Some?
    ensures NegateFirst(Some(y)).Some? && Differ(NegateFirst(Some(x)).value, NegateFirst(Some(y)).value)
  {
    var i: nat :| OneOff(x, y, i) || Exchanged(x, y, i);
    var a, b := NegateFirst(Some(x)).value, NegateFirst(Some(y)).value;
    assert forall j :: 0 < j < |x| ==> a[j] == x[j] && b[j] == y[j];
    assert OneOff(a, b, i) || Exchanged(a, b, i);
  }

  // ---------------------------------------------------------------- replacing a sub-expression

  /** `y` can stand for `x`: as long a text, tight, and read with a difference. */
  ghost predicate Variant(x: Expr, y: Expr) {
    && |Emit(x)| == |Emit(y)| && Tight(y) && Literals(x).Some? && Literals(y).Some?
    && Differ(Literals(x).value, Literals(y).value)
  }

  lemma {:induction false} LineVariant(items: seq<Expr>, k: nat, y: Expr)
    requires k < |items| && LineLiterals(items).Some? && Variant(items[k], y) && forall i :: 0 <= i < |items| ==> Tight(items[i])
    ensures Variant(All(items), All(items[k := y]))
  {
    var after := items[k := y];
    assert forall i :: 0 <= i < |after| ==> Tight(after[i]);
    LineDiffers(items, k, y);
  }

  lemma {:induction false} LineDiffers(items: seq<Expr>, k: nat, y: Expr)
    requires k < |items| && LineLiterals(items).Some? && Variant(items[k], y)
    ensures LineLiterals(items[k := y]).Some? && Differ(LineLiterals(items).value, LineLiterals(items[k := y]).value)
    ensures |EmitLines(items[k := y])| == |EmitLines(items)|
  {
    var after := items[k := y];
    var first, rest := Literals(items[0]).value, LineLiterals(items[1..]).value;
    if k == 0 {
      assert after[1..] == items[1..];
      DifferWithin([], first, Literals(y).value, rest);
      assert [] + first + rest == first + rest && [] + Literals(y).value + rest == Literals(y).value + rest;
    } else {
      assert after[1..] == items[1..][k - 1 := y];
      LineDiffers(items[1..], k - 1, y);
      var more := LineLiterals(after[1..]).value;
      DifferWithin(first, rest, more, []);
      assert first + rest + [] == first + rest && first + more + [] == first + more;
    }
  }

  lemma {:induction false} BranchVariant(items: seq<Expr>, k: nat, y: Expr)
    requires k < |items| && BranchLiterals(items).Some? && Variant(items[k], y) && Tight(Any(items))
    ensures Variant(Any(items), Any(items[k := y]))
  {
    var after := items[k := y];
    forall i | 0 <= i < |after| ensures Tight(after[i]) && Emit(after[i]) != [] {}
    BranchDiffers(items, k, y);
  }

  /** A branch is one literal, so its variant is, too. */
  lemma {:induction false} SoleVariant(x: Expr, y: Expr)
    requires Variant(x, y) && Sole(Literals(x))
    ensures Sole(Literals(y))
  {
  }

  lemma {:induction false} BranchDiffers(items: seq<Expr>, k: nat, y: Expr)
    requires k < |items| && BranchLiterals(items).Some? && Variant(items[k], y)
    ensures BranchLiterals(items[k := y]).Some? && Differ(BranchLiterals(items).value, BranchLiterals(items[k := y]).value)
    ensures |EmitBranches(items[k := y])| == |EmitBranches(items)|
  {
    var after := items[k := y];
    var first, rest := Literals(items[0]).value, BranchLiterals(items[1..]).value;
    if k == 0 {
      assert after[1..] == items[1..];
      SoleVariant(items[0], y);
      DifferWithin([], first, Literals(y).value, rest);
      assert [] + first + rest == first + rest && [] + Literals(y).value + rest == Literals(y).value + rest;
    } else {
      assert after[1..] == items[1..][k - 1 := y];
      BranchDiffers(items[1..], k - 1, y);
      var more := BranchLiterals(after[1..]).value;
      DifferWithin(first, rest, more, []);
      assert first + rest + [] == first + rest && first + more + [] == first + more;
    }
  }

  lemma {:induction false} NotVariant(x: Expr, y: Expr)
    requires Variant(x, y) && Literals(Not(x)).Some? && Emit(x) != []
    ensures Variant(Not(x), Not(y))
  {
    DifferNegated(Literals(x).value, Literals(y).value);
  }

  // ---------------------------------------------------------------- exchanging the first two lines

  /** The same lines with the first two, both without `not`, exchanged. */
  predicate FrontExchanged(x: seq<Literal>, y: seq<Literal>) {
    && |x| == |y| && |x| >= 2 && !x[0].negated && !x[1].negated && y[0] == x[1] && y[1] == x[0]
    && forall j :: 2 <= j < |x| ==> x[j] == y[j]
  }

  predicate FrontVariant(x: Expr, y: Expr) {
    && |Emit(x)| == |Emit(y)| && Tight(y) && Literals(x).Some? && Literals(y).Some?
    && FrontExchanged(Literals(x).value, Literals(y).value)
  }

  lemma {:induction false} FrontNegated(x: Expr, y: Expr)
    requires FrontVariant(x, y) && Emit(x) != []
    ensures Literals(Not(x)).Some? ==> Variant(Not(x), Not(y))
  {
    var p, q := Literals(x).value, Literals(y).value;
    var a, b := NegateFirst(Some(p)).value, NegateFirst(Some(q)).value;
    assert forall j :: 0 < j < |p| ==> a[j] == p[j] && b[j] == q[j];
    assert Exchanged(a, b, 0);
  }

  lemma {:induction false} FrontLine(items: seq<Expr>, k: nat, y: Expr)
    requires k < |items| && LineLiterals(items).Some? && FrontVariant(items[k], y)
    requires (forall i :: 0 <= i < |items| ==> Tight(items[i])) && forall i :: 0 <= i < k ==> Emit(items[i]) == []
    ensures FrontVariant(All(items), All(items[k := y]))
  {
    var after := items[k := y];
    assert forall i :: 0 <= i < |after| ==> Tight(after[i]);
    FrontLineReads(items, k, y);
  }

  lemma {:induction false} FrontLineReads(items: seq<Expr>, k: nat, y: Expr)
    requires k < |items| && LineLiterals(items).Some? && FrontVariant(items[k], y)
    requires forall i :: 0 <= i < k ==> Emit(items[i]) == []
    ensures LineLiterals(items[k := y]).Some? && FrontExchanged(LineLiterals(items).value, LineLiterals(items[k := y]).value)
    ensures |EmitLines(items[k := y])| == |EmitLines(items)|
  {
    var after := items[k := y];
    if k == 0 {
      assert after[1..] == items[1..];
      var first, rest := Literals(items[0]).value, LineLiterals(items[1..]).value;
      assert forall j :: 0 <= j < |first| ==> (first + rest)[j] == first[j] && (Literals(y).value + rest)[j] == Literals(y).value[j];
    } else {
      assert after[1..] == items[1..][k - 1 := y];
      TextShows(items[0]);
      FrontLineReads(items[1..], k - 1, y);
      assert [] + LineLiterals(items[1..]).value == LineLiterals(items[1..]).value;
      assert [] + LineLiterals(after[1..]).value == LineLiterals(after[1..]).value;
    }
  }

  /** One literal is always steady. */
  lemma {:induction false} SoleSteady(e: Expr)
    requires Sole(Literals(e))
    ensures FirstSteady(e)
    decreases e, 0
  {
    match e
    case All(items) => SoleLineSteady(items);
    case Any(items) =>
      if items != [] {
        assert Literals(e) == BranchLiterals(items);
        SoleSteady(items[0]);
      }
    case _ =>
  }

  lemma {:induction false} SoleLineSteady(items: seq<Expr>)
    requires Sole(LineLiterals(items))
    ensures FirstLineSteady(items)
  {
    if items != [] {
      TextShows(items[0]);
      var first, rest := Literals(items[0]).value, LineLiterals(items[1..]).value;
      if Emit(items[0]) == [] {
        assert first + rest == rest;
        SoleLineSteady(items[1..]);
      } else {
        assert (first + rest)[0] == first[0] && |first| == 1;
        SoleSteady(items[0]);
      }
    }
  }

  // ---------------------------------------------------------------- other orders of a Go value

  /** A Go value: the keys of each map are distinct. */
  ghost predicate GoValue(v: Json) {
    SameUpToOrder(v, v)
  }

  function Replace(members: seq<Member>, key: string, value: Json): seq<Member> {
    if members == [] then []
    else if members[0].key == key then [Member(key, value)] + members[1..]
    else [members[0]] + Replace(members[1..], key, value)
  }

  lemma {:induction false} ReplaceFinds(members: seq<Member>, key: string, value: Json, k: string)
    requires FindMember(members, key).Some?
    ensures FindMember(Replace(members, key, value), k) == if k == key then Some(value) else FindMember(members, k)
  {
    if members[0].key != key {
      ReplaceFinds(members[1..], key, value, k);
      assert Replace(members, key, value)[1..] == Replace(members[1..], key, value);
    } else {
      assert Replace(members, key, value)[1..] == members[1..];
    }
  }

  lemma {:induction false} ReplaceKeys(members: seq<Member>, key: string, value: Json)
    ensures |Replace(members, key, value)| == |members|
    ensures forall i :: 0 <= i < |members| ==> Replace(members, key, value)[i].key == members[i].key
  {
    if members != [] && members[0].key != key {
      ReplaceKeys(members[1..], key, value);
    }
  }

  /** The object with one member's value replaced by another order of it. */
  lemma {:induction false} ReplacedSame(a: Json, key: string, value: Json) returns (b: Json)
    requires a.Object? && GoValue(a) && HasField(a, key) && SameUpToOrder(Field(a, key).value, value)
    ensures b.Object? && SameUpToOrder(a, b) && Field(b, key) == Some(value)
    ensures forall k :: k != key ==> Field(b, k) == Field(a, k)
  {
    b := Object(Replace(a.members, key, value));
    ReplaceKeys(a.members, key, value);
    forall k ensures Field(b, k) == if k == key then Some(value) else Field(a, k) {
      ReplaceFinds(a.members, key, value, k);
    }
    forall k | HasField(a, k) ensures SameUpToOrder(Field(a, k).value, Field(b, k).value) {}
  }

  lemma {:induction false} ItemIsGoValue(items: seq<Json>, k: nat)
    requires GoValue(Array(items)) && k < |items|
    ensures GoValue(items[k])
  {
  }

  lemma {:induction false} ArraySame(items: seq<Json>, k: nat, item: Json)
    requires GoValue(Array(items)) && k < |items| && SameUpToOrder(items[k], item)
    ensures SameUpToOrder(Array(items), Array(items[k := item]))
  {
    var a, b := Array(items), Array(items[k := item]);
    forall i | 0 <= i < |a.items| ensures SameUpToOrder(a.items[i], b.items[i]) {
      ItemIsGoValue(items, i);
    }
  }

  lemma {:induction false} FieldIsGoValue(a: Json, key: string)
    requires a.Object? && GoValue(a) && HasField(a, key)
    ensures GoValue(Field(a, key).value)
  {
    assert HasField(a, key);
  }

  /** The same members in another sequence. */
  lemma {:induction false} PermutedSame(a: Json, b: Json)
    requires a.Object? && b.Object? && GoValue(a) && UniqueKeys(b.members) && forall m :: m in a.members <==> m in b.members
    ensures SameUpToOrder(a, b) && forall key :: Field(b, key) == Field(a, key)
  {
    forall key ensures Field(b, key) == Field(a, key) {
      if HasField(a, key) {
        var j :| 0 <= j < |b.members| && b.members[j] == Member(key, Field(a, key).value);
        FindUnique(b.members, j);
      }
    }
    forall key | HasField(a, key) ensures SameUpToOrder(Field(a, key).value, Field(b, key).value) {
      FieldIsGoValue(a, key);
    }
  }

  /** Member `q` visited first. */
  function ToFront(members: seq<Member>, q: nat): seq<Member>
    requires q < |members|
  {
    [members[q]] + members[..q] + members[q + 1..]
  }

  lemma {:induction false} ToFrontSame(a: Json, q: nat)
    requires a.Object? && GoValue(a) && q < |a.members|
    ensures var b := Object(ToFront(a.members, q)); SameUpToOrder(a, b) && forall key :: Field(b, key) == Field(a, key)
  {
    var ms := a.members;
    var ns := ToFront(ms, q);
    assert forall i :: 0 < i <= q ==> ns[i] == ms[i - 1];
    assert forall i :: q < i < |ms| ==> ns[i] == ms[i];
    assert ms == ms[..q] + [ms[q]] + ms[q + 1..];
    assert UniqueKeys(ns);
    assert forall m :: m in ms <==> m in ns;
    PermutedSame(a, Object(ns));
  }

  // ---------------------------------------------------------------- reading them

  lemma {:induction false} ReadReplaced(items: seq<Json>, k: nat, item: Json)
    requires ReadItems(items).Ok? && k < |items| && item.Object? && ReadExpr(item).Ok?
    ensures ReadItems(items[k := item]) == Ok(ReadItems(items).value[k := ReadExpr(item).value])
    decreases items
  {
    var after, values := items[k := item], ReadItems(items).value;
    assert values == [values[0]] + values[1..];
    if k == 0 {
      assert after[1..] == items[1..];
      assert values[0 := ReadExpr(item).value] == [ReadExpr(item).value] + values[1..];
    } else {
      assert after[1..] == items[1..][k - 1 := item];
      ReadReplaced(items[1..], k - 1, item);
      assert values[k := ReadExpr(item).value] == [values[0]] + values[1..][k - 1 := ReadExpr(item).value];
    }
  }

  lemma {:induction false} ReadItemAt(items: seq<Json>, k: nat)
    requires ReadItems(items).Ok? && k < |items|
    ensures items[k].Object? && ReadExpr(items[k]) == Ok(ReadItems(items).value[k])
    decreases items
  {
    if k > 0 {
      assert items[k] == items[1..][k - 1];
      ReadItemAt(items[1..], k - 1);
    }
  }

  /** `b` is another order of `a` and is read as `y`. */
  ghost predicate OtherOrder(a: Json, b: Json, y: Expr) {
    a.Object? && b.Object? && SameUpToOrder(a, b) && ReadExpr(b) == Ok(y)
  }

  lemma {:induction false} AllOrder(a: Json, k: nat, item: Json, y: Expr) returns (b: Json)
    requires a.Object? && GoValue(a) && HasField(a, "all") && ReadExpr(a).Ok? && k < |Field(a, "all").value.items|
    requires OtherOrder(Field(a, "all").value.items[k], item, y)
    ensures OtherOrder(a, b, All(ReadItems(Field(a, "all").value.items).value[k := y]))
  {
    var items := Field(a, "all").value.items;
    FieldIsGoValue(a, "all");
    ArraySame(items, k, item);
    b := ReplacedSame(a, "all", Array(items[k := item]));
    ReadReplaced(items, k, item);
  }

  lemma {:induction false} AnyOrder(a: Json, k: nat, item: Json, y: Expr) returns (b: Json)
    requires a.Object? && GoValue(a) && !HasField(a, "all") && HasField(a, "any") && ReadExpr(a).Ok?
    requires k < |Field(a, "any").value.items| && OtherOrder(Field(a, "any").value.items[k], item, y)
    ensures OtherOrder(a, b, Any(ReadItems(Field(a, "any").value.items).value[k := y]))
  {
    var items := Field(a, "any").value.items;
    FieldIsGoValue(a, "any");
    ArraySame(items, k, item);
    b := ReplacedSame(a, "any", Array(items[k := item]));
    ReadReplaced(items, k, item);
  }

  lemma {:induction false} NotOrder(a: Json, operand: Json, y: Expr) returns (b: Json)
    requires a.Object? && GoValue(a) && !HasField(a, "all") && !HasField(a, "any") && HasField(a, "not") && ReadExpr(a).Ok?
    requires OtherOrder(Field(a, "not").value, operand, y)
    ensures OtherOrder(a, b, Not(y))
  {
    b := ReplacedSame(a, "not", operand);
  }

  /** A direct comparison with two field paths: the other one can be visited first. */
  lemma {:induction false} ComparisonOrder(a: Json) returns (b: Json, y: Expr)
    requires a.Object? && GoValue(a) && IsLeaf(a) && IsComparison(a) && ReadExpr(a).Ok? && !OneFieldPath(a.members)
    ensures OtherOrder(a, b, y) && Variant(ReadExpr(a).value, y)
  {
    var ms := a.members;
    assert ReadExpr(a) == ReadComparison(ms);
    var p := ComparisonSource(ms);
    var i, j :| 0 <= i < j < |ms| && IsFieldPath(ms[i].key) && IsFieldPath(ms[j].key);
    var q := if i == p then j else i;
    b := Object(ToFront(ms, q));
    ToFrontSame(a, q);
    assert b.members[0] == ms[q];
    y := Tests([Test(ms[q].key, Equals, ms[q].value)]);
    assert IsLeaf(b) && IsComparison(b) && ReadExpr(b) == ReadComparison(b.members);
    SingleVariant(Test(ms[p].key, Equals, ms[p].value), Test(ms[q].key, Equals, ms[q].value));
  }

  lemma {:induction false} SingleVariant(s: Test, t: Test)
    requires s != t
    ensures Variant(Tests([s]), Tests([t]))
  {
    assert OneOff(Positives([s]), Positives([t]), 0);
  }

  // ---------------------------------------------------------------- a field map under a `not`

  function Exchange(members: seq<Member>): seq<Member>
    requires |members| >= 2
  {
    [members[1], members[0]] + members[2..]
  }

  lemma {:induction false} ExchangeSame(fields: Json)
    requires fields.Object? && GoValue(fields) && |fields.members| >= 2
    ensures SameUpToOrder(fields, Object(Exchange(fields.members)))
  {
    var ms, ns := fields.members, Exchange(fields.members);
    assert forall i :: 2 <= i < |ms| ==> ns[i] == ms[i];
    assert ms == [ms[0], ms[1]] + ms[2..];
    assert UniqueKeys(ns);
    PermutedSame(fields, Object(ns));
  }

  lemma {:induction false} ExchangeReads(fields: Json, op: Operator)
    requires ReadFieldMap(fields, op).Ok? && |fields.members| >= 2
    ensures ReadFieldMap(Object(Exchange(fields.members)), op) == Ok(Tests(MemberTests(Exchange(fields.members), op)))
    ensures FrontVariant(Tests(MemberTests(fields.members, op)), Tests(MemberTests(Exchange(fields.members), op)))
  {
    var ms, ns := fields.members, Exchange(fields.members);
    assert forall i :: 2 <= i < |ms| ==> ns[i] == ms[i];
    assert ns[0] == ms[1] && ns[1] == ms[0];
    forall i | 0 <= i < |ns| ensures ns[i] in ms { assert ms[0] in ms && ms[1] in ms; }
  }

  predicate MapKey(key: string, op: Operator) {
    (key == "field_equals" && op == Equals) || (key == "field_in" && op == In) || (key == "field_matches" && op == Matches)
  }

  /** Several lines of a leaf come from a field map. */
  lemma {:induction false} ManyLines(a: Json) returns (key: string, op: Operator)
    requires a.Object? && IsLeaf(a) && ReadExpr(a).Ok? && ReadExpr(a).value.Tests? && |ReadExpr(a).value.tests| >= 2
    ensures MapKey(key, op) && HasField(a, key) && ReadExpr(a) == ReadFieldMap(Field(a, key).value, op)
    ensures forall b: Json :: b.Object? && (forall k :: HasField(b, k) <==> HasField(a, k)) ==>
              ReadExpr(b) == ReadFieldMap(Field(b, key).value, op)
  {
    assert ReadExpr(a) == ReadLeaf(a);
    if !HasField(a, "tool_in") && !HasField(a, "agent_in") && !HasFieldMap(a) && !HasField(a, "field") {
      var i := ComparisonSource(a.members);
    }
    if HasField(a, "field_equals") { key, op := "field_equals", Equals; }
    else if HasField(a, "field_in") { key, op := "field_in", In; }
    else { key, op := "field_matches", Matches; }
    forall b: Json | b.Object? && (forall k :: HasField(b, k) <==> HasField(a, k)) ensures ReadExpr(b) == ReadFieldMap(Field(b, key).value, op) {
      assert IsLeaf(b);
    }
  }

  lemma {:induction false} MapOrder(a: Json) returns (b: Json, y: Expr)
    requires a.Object? && GoValue(a) && IsLeaf(a) && ReadExpr(a).Ok? && ReadExpr(a).value.Tests? && |ReadExpr(a).value.tests| >= 2
    ensures OtherOrder(a, b, y) && FrontVariant(ReadExpr(a).value, y)
  {
    var key, op := ManyLines(a);
    var fields := Field(a, key).value;
    FieldIsGoValue(a, key);
    ExchangeSame(fields);
    ExchangeReads(fields, op);
    b := ReplacedSame(a, key, Object(Exchange(fields.members)));
    y := Tests(MemberTests(Exchange(fields.members), op));
    assert forall k :: HasField(b, k) <==> HasField(a, k);
  }

  /** The line that the text of `all` begins with. */
  lemma {:induction false} FirstShown(items: seq<Expr>) returns (k: nat)
    requires !FirstLineSteady(items)
    ensures k < |items| && Emit(items[k]) != [] && !FirstSteady(items[k]) && forall i :: 0 <= i < k ==> Emit(items[i]) == []
  {
    if Emit(items[0]) == [] {
      k := FirstShown(items[1..]);
      k := k + 1;
    } else {
      k := 0;
    }
  }

  lemma {:induction false} LineFront(items: seq<Expr>, k: nat)
    requires LineLiterals(items).Some? && k < |items| && Emit(items[k]) != [] && forall i :: 0 <= i < k ==> Emit(items[i]) == []
    ensures Literals(items[k]).Some? && Literals(items[k]).value != []
    ensures LineLiterals(items).value != [] && LineLiterals(items).value[0] == Literals(items[k]).value[0]
  {
    TextShows(items[0]);
    if k > 0 {
      assert items[1..][k - 1] == items[k];
      LineFront(items[1..], k - 1);
    }
  }

  lemma {:induction false} LeafShape(a: Json)
    requires a.Object? && IsLeaf(a) && ReadExpr(a).Ok?
    ensures ReadExpr(a).value.Tests? || ReadExpr(a).value.NotIn?
  {
    assert ReadExpr(a) == ReadLeaf(a);
    if IsComparison(a) { var i := ComparisonSource(a.members); }
  }

  /** If the first line comes from a field map with several members, another order exchanges it with the
      second. */
  lemma {:induction false} FrontOrder(a: Json) returns (b: Json, y: Expr)
    requires a.Object? && GoValue(a) && ReadExpr(a).Ok? && Tight(ReadExpr(a).value) && !FirstSteady(ReadExpr(a).value)
    requires var body := Literals(ReadExpr(a).value); body.Some? && body.value != [] && !body.value[0].negated
    ensures OtherOrder(a, b, y) && FrontVariant(ReadExpr(a).value, y)
    decreases a
  {
    if HasField(a, "all") {
      var items := Field(a, "all").value.items;
      var values := ReadItems(items).value;
      var k := FirstShown(values);
      LineFront(values, k);
      ReadItemAt(items, k);
      FieldIsGoValue(a, "all");
      ItemIsGoValue(items, k);
      var item, z := FrontOrder(items[k]);
      FrontLine(values, k, z);
      b := AllOrder(a, k, item, z);
      y := All(values[k := z]);
    } else if HasField(a, "any") {
      var values := ReadItems(Field(a, "any").value.items).value;
      assert Literals(Any(values)) == BranchLiterals(values);
      SoleSteady(values[0]);
    } else if !HasField(a, "not") {
      LeafShape(a);
      b, y := MapOrder(a);
    }
  }

  /** If a choice is left, another order makes another one. */
  lemma {:induction false} ChoiceMade(a: Json) returns (b: Json, y: Expr)
    requires a.Object? && GoValue(a) && ReadExpr(a).Ok? && Tight(ReadExpr(a).value) && !Settled(a)
    requires Literals(ReadExpr(a).value).Some?
    ensures OtherOrder(a, b, y) && Variant(ReadExpr(a).value, y)
    decreases a
  {
    if HasField(a, "all") {
      b, y := ChoiceInAll(a);
    } else if HasField(a, "any") {
      b, y := ChoiceInAny(a);
    } else if HasField(a, "not") {
      b, y := ChoiceInNot(a);
    } else {
      b, y := ComparisonOrder(a);
    }
  }

  lemma {:induction false} UnsettledItem(items: seq<Json>) returns (k: nat)
    requires ReadItems(items).Ok? && !SettledItems(Array(items))
    ensures k < |items| && items[k].Object? && !Settled(items[k])
  {
    forall i | 0 <= i < |items| ensures items[i].Object? { ReadItemAt(items, i); }
    k :| 0 <= k < |items| && !Settled(items[k]);
  }

  lemma {:induction false} ChoiceInAll(a: Json) returns (b: Json, y: Expr)
    requires a.Object? && GoValue(a) && ReadExpr(a).Ok? && Tight(ReadExpr(a).value) && !Settled(a)
    requires Literals(ReadExpr(a).value).Some? && HasField(a, "all")
    ensures OtherOrder(a, b, y) && Variant(ReadExpr(a).value, y)
    decreases a, 0
  {
    var items := Field(a, "all").value.items;
    var values := ReadItems(items).value;
    var k := UnsettledItem(items);
    ReadItemAt(items, k);
    FieldIsGoValue(a, "all");
    ItemIsGoValue(items, k);
    LinesSome(values);
    var item, z := ChoiceMade(items[k]);
    LineVariant(values, k, z);
    b := AllOrder(a, k, item, z);
    y := All(values[k := z]);
  }

  lemma {:induction false} BranchSome(items: seq<Expr>, k: nat)
    requires BranchLiterals(items).Some? && k < |items|
    ensures Literals(items[k]).Some?
  {
    if k > 0 {
      assert items[1..][k - 1] == items[k];
      BranchSome(items[1..], k - 1);
    }
  }

  lemma {:induction false} ChoiceInAny(a: Json) returns (b: Json, y: Expr)
    requires a.Object? && GoValue(a) && ReadExpr(a).Ok? && Tight(ReadExpr(a).value) && !Settled(a)
    requires Literals(ReadExpr(a).value).Some? && !HasField(a, "all") && HasField(a, "any")
    ensures OtherOrder(a, b, y) && Variant(ReadExpr(a).value, y)
    decreases a, 0
  {
    var items := Field(a, "any").value.items;
    var values := ReadItems(items).value;
    var k := UnsettledItem(items);
    ReadItemAt(items, k);
    FieldIsGoValue(a, "any");
    ItemIsGoValue(items, k);
    BranchSome(values, k);
    var item, z := ChoiceMade(items[k]);
    BranchVariant(values, k, z);
    b := AnyOrder(a, k, item, z);
    y := Any(values[k := z]);
  }

  lemma {:induction false} ChoiceInNot(a: Json) returns (b: Json, y: Expr)
    requires a.Object? && GoValue(a) && ReadExpr(a).Ok? && Tight(ReadExpr(a).value) && !Settled(a)
    requires Literals(ReadExpr(a).value).Some? && !HasField(a, "all") && !HasField(a, "any") && HasField(a, "not")
    ensures OtherOrder(a, b, y) && Variant(ReadExpr(a).value, y)
    decreases a, 0
  {
    var operand := Field(a, "not").value;
    var x := ReadExpr(operand).value;
    FieldIsGoValue(a, "not");
    var item, z;
    if !Settled(operand) {
      item, z := ChoiceMade(operand);
      NotVariant(x, z);
    } else {
      item, z := FrontOrder(operand);
      FrontNegated(x, z);
    }
    b := NotOrder(a, item, z);
    y := Not(z);
  }

  // ---------------------------------------------------------------- the exact condition

  /** Two conditions whose texts both parse or both do not, and mean the same. */
  ghost predicate SameText(a: Json, b: Json) {
    && a.Object? && b.Object? && ReadExpr(a).Ok? && ReadExpr(b).Ok?
    && var x, y := ParseBody(Emit(ReadExpr(a).value)), ParseBody(Emit(ReadExpr(b).value));
       x.Some? == y.Some? && (x.Some? ==> forall v: Valuation :: BodyHolds(x.value, v) == BodyHolds(y.value, v))
  }

  /** For a condition whose text is read, with distinct and printable tests, every order of its maps
      gives text with the same meaning exactly when it is settled. */
  lemma {:induction false} OrderShowsIff(a: Json)
    requires a.Object? && GoValue(a) && ReadExpr(a).Ok? && Literals(ReadExpr(a).value).Some?
    requires Tight(ReadExpr(a).value) && Distinct(TestsOf(ReadExpr(a).value)) && PrintableTests(ReadExpr(a).value)
    ensures Settled(a) <==> forall b :: SameUpToOrder(a, b) ==> SameText(a, b)
  {
    if Settled(a) {
      forall b | SameUpToOrder(a, b) ensures SameText(a, b) {
        forall v: Valuation { OrderIrrelevant(a, b, v); }
        OrderIrrelevant(a, b, t => true);
      }
    } else {
      var b, y := ChoiceMade(a);
      var x := ReadExpr(a).value;
      LiteralTests(x);
      var v := DifferSeparates(Literals(x).value, Literals(y).value);
      ParseWhole(x);
      ParseWhole(y);
      assert !SameText(a, b);
    }
  }
}
