/**
 What the emitted text means, compared with what the policy author wrote.

 The compiler conjoins the branches of `any` and negates only the first line below `not`
 (internal/policy/compiler/expression.go:145-161).  `Faithful` is the syntactic condition under
 which that is harmless; for expressions with pairwise distinct tests it is also necessary.
 */
module ExpressionMeaning {
  import opened Text
  import opened Expressions

  /** Every `any` has one branch, and below each `any` and `not` there is one un-negated literal. */
  predicate Faithful(e: Expr) {
    match e
    case All(items) => forall i :: 0 <= i < |items| ==> Faithful(items[i])
    case Any(items) => |items| == 1 && Faithful(items[0]) && Sole(Literals(items[0]))
    case Not(item) => Faithful(item) && Sole(Literals(item))
    case Tests(_) => true
    case NotIn(_) => true
  }

  /** Like Faithful, but an `any` outside `not` may have several single-literal branches. */
  predicate OneWay(e: Expr) {
    match e
    case All(items) => forall i :: 0 <= i < |items| ==> OneWay(items[i])
    case Any(items) => items != [] && forall i :: 0 <= i < |items| ==> Tight(items[i]) && Sole(Literals(items[i]))
    case Not(_) => Faithful(e)
    case Tests(_) => true
    case NotIn(_) => true
  }

  /** The emitted text parses and has the author's meaning under every truth assignment. */
  ghost predicate Exact(e: Expr) {
    var body := ParseLines(Emit(e));
    body.Some? && forall v: Valuation :: BodyHolds(body.value, v) == Holds(e, v)
  }

  // ---------------------------------------------------------------- lists of sub-expressions

  lemma {:induction false} LinesSome(items: seq<Expr>)
    requires LineLiterals(items).Some?
    ensures forall i :: 0 <= i < |items| ==> Literals(items[i]).Some?
  {
    if items != [] {
      LinesSome(items[1..]);
      forall i | 0 <= i < |items| ensures Literals(items[i]).Some? {
        if i > 0 { assert items[i] == items[1..][i - 1]; }
      }
    }
  }

  lemma {:induction false} LinesDefined(items: seq<Expr>)
    requires forall i :: 0 <= i < |items| ==> Literals(items[i]).Some?
    ensures LineLiterals(items).Some?
  {
    if items != [] { LinesDefined(items[1..]); }
  }

  lemma {:induction false} LinesHold(items: seq<Expr>, v: Valuation)
    requires LineLiterals(items).Some?
    ensures forall i :: 0 <= i < |items| ==> Literals(items[i]).Some?
    ensures BodyHolds(LineLiterals(items).value, v)
       <==> forall i :: 0 <= i < |items| ==> BodyHolds(Literals(items[i]).value, v)
  {
    LinesSome(items);
    if items != [] {
      var first, rest := Literals(items[0]).value, LineLiterals(items[1..]).value;
      LinesHold(items[1..], v);
      BodyAppend(first, rest, v);
      if BodyHolds(first + rest, v) {
        forall i | 0 <= i < |items| ensures BodyHolds(Literals(items[i]).value, v) {
          if i > 0 { assert items[i] == items[1..][i - 1]; }
        }
      }
    }
  }

  lemma {:induction false} BodyAppend(a: seq<Literal>, b: seq<Literal>, v: Valuation)
    ensures BodyHolds(a + b, v) <==> BodyHolds(a, v) && BodyHolds(b, v)
  {
    if BodyHolds(a + b, v) {
      forall i | 0 <= i < |a| ensures LiteralHolds(a[i], v) { assert (a + b)[i] == a[i]; }
      forall i | 0 <= i < |b| ensures LiteralHolds(b[i], v) { assert (a + b)[|a| + i] == b[i]; }
    }
  }

  /** A parsed `any` holds one un-negated literal for each branch. */
  lemma {:induction false} BranchShape(items: seq<Expr>)
    requires BranchLiterals(items).Some?
    ensures |BranchLiterals(items).value| == |items|
    ensures forall i :: 0 <= i < |items| ==>
              Sole(Literals(items[i])) && BranchLiterals(items).value[i] == Literals(items[i]).value[0]
  {
    if items != [] {
      BranchShape(items[1..]);
      forall i | 0 <= i < |items|
        ensures Sole(Literals(items[i])) && BranchLiterals(items).value[i] == Literals(items[i]).value[0]
      {
        if i > 0 { assert items[i] == items[1..][i - 1]; }
      }
    }
  }

  lemma {:induction false} BranchesDefined(items: seq<Expr>)
    requires forall i :: 0 <= i < |items| ==> Sole(Literals(items[i]))
    ensures BranchLiterals(items).Some?
  {
    if items != [] { BranchesDefined(items[1..]); }
  }

  // ---------------------------------------------------------------- sufficient: faithful is exact

  lemma {:induction false} FaithfulIsTight(e: Expr)
    requires Faithful(e)
    ensures Tight(e)
  {
    match e
    case All(items) => forall i | 0 <= i < |items| ensures Tight(items[i]) { FaithfulIsTight(items[i]); }
    case Any(items) => FaithfulIsTight(items[0]); ParseWhole(items[0]);
    case Not(item) => FaithfulIsTight(item); ParseWhole(item);
    case Tests(_) =>
    case NotIn(_) =>
  }

  lemma {:induction false} FaithfulReading(e: Expr, v: Valuation)
    requires Faithful(e)
    ensures Literals(e).Some? && BodyHolds(Literals(e).value, v) == Holds(e, v)
  {
    match e
    case All(items) =>
      forall i | 0 <= i < |items|
        ensures Literals(items[i]).Some? && BodyHolds(Literals(items[i]).value, v) == Holds(items[i], v)
      {
        FaithfulReading(items[i], v);
      }
      LinesDefined(items);
      LinesHold(items, v);
    case Any(items) =>
      FaithfulReading(items[0], v);
      BranchesDefined(items);
      BranchShape(items);
      assert BranchLiterals(items).value == Literals(items[0]).value;
    case Not(item) =>
      FaithfulReading(item, v);
      OneLiteral(Literals(item).value[0], v);
      OneLiteral(Literal(true, Literals(item).value[0].test), v);
      assert Literals(item).value == [Literals(item).value[0]];
      assert Literals(e).value == [Literal(true, Literals(item).value[0].test)];
    case Tests(tests) => PositivesHold(tests, v);
    case NotIn(test) => OneLiteral(Literal(true, test), v);
  }

  lemma {:induction false} OneLiteral(l: Literal, v: Valuation)
    ensures BodyHolds([l], v) == LiteralHolds(l, v)
  {
    assert [l][0] == l;
  }

  lemma {:induction false} PositivesHold(tests: seq<Test>, v: Valuation)
    ensures BodyHolds(Positives(tests), v) == forall i :: 0 <= i < |tests| ==> v(tests[i])
  {
    forall i | 0 <= i < |tests| ensures LiteralHolds(Positives(tests)[i], v) == v(tests[i]) {}
  }

  /** The rule body Rego reads from a faithful expression's text is true iff the expression is. */
  lemma {:induction false} FaithfulIsExact(e: Expr, v: Valuation)
    requires Faithful(e) && Emit(e) != []
    ensures ParseBody(Emit(e)).Some?
    ensures BodyHolds(ParseBody(Emit(e)).value, v) <==> Holds(e, v)
  {
    FaithfulIsTight(e);
    ParseWhole(e);
    FaithfulReading(e, v);
  }

  // ---------------------------------------------------------------- one direction for `any`

  lemma {:induction false} SilentHolds(e: Expr, v: Valuation)
    requires Tight(e) && Literals(e) == Some([])
    ensures Holds(e, v)
  {
    match e
    case All(items) => SilentLines(items, v);
    case Any(items) => BranchShape(items);
    case Not(_) =>
    case Tests(tests) => assert |Positives(tests)| == |tests|;
    case NotIn(_) =>
  }

  lemma {:induction false} SilentLines(items: seq<Expr>, v: Valuation)
    requires forall i :: 0 <= i < |items| ==> Tight(items[i])
    requires LineLiterals(items) == Some([])
    ensures forall i :: 0 <= i < |items| ==> Holds(items[i], v)
  {
    if items != [] {
      SilentHolds(items[0], v);
      SilentLines(items[1..], v);
      forall i | 0 <= i < |items| ensures Holds(items[i], v) {
        if i > 0 { assert items[i] == items[1..][i - 1]; }
      }
    }
  }

  /** An expression that emits one un-negated literal means that literal. */
  lemma {:induction false} SoleMeans(e: Expr, v: Valuation)
    requires Tight(e) && Sole(Literals(e))
    ensures Holds(e, v) == v(Literals(e).value[0].test)
  {
    match e
    case All(items) => SoleLines(items, v);
    case Any(items) =>
      BranchShape(items);
      SoleMeans(items[0], v);
    case Not(_) =>
    case Tests(tests) => assert |Positives(tests)| == |tests|;
    case NotIn(_) =>
  }

  lemma {:induction false} SoleLines(items: seq<Expr>, v: Valuation)
    requires forall i :: 0 <= i < |items| ==> Tight(items[i])
    requires Sole(LineLiterals(items))
    ensures (forall i :: 0 <= i < |items| ==> Holds(items[i], v)) == v(LineLiterals(items).value[0].test)
  {
    var rest := items[1..];
    assert forall i :: 0 < i < |items| ==> items[i] == rest[i - 1];
    assert forall i :: 0 <= i < |rest| ==> rest[i] == items[i + 1];
    if Literals(items[0]).value == [] {
      SilentHolds(items[0], v);
      SoleLines(rest, v);
      assert LineLiterals(items).value == LineLiterals(rest).value;
    } else {
      SoleMeans(items[0], v);
      SilentLines(rest, v);
    }
  }

  lemma {:induction false} OneWayIsTight(e: Expr)
    requires OneWay(e)
    ensures Tight(e)
  {
    match e
    case All(items) => forall i | 0 <= i < |items| ensures Tight(items[i]) { OneWayIsTight(items[i]); }
    case Any(items) =>
      forall i | 0 <= i < |items| ensures Tight(items[i]) && Emit(items[i]) != [] { ParseWhole(items[i]); }
    case Not(_) => FaithfulIsTight(e);
    case Tests(_) =>
    case NotIn(_) =>
  }

  /** With several single-literal branches the body still parses, and can only be too strict. */
  lemma {:induction false} OneWaySound(e: Expr, v: Valuation)
    requires OneWay(e)
    ensures Literals(e).Some?
    ensures BodyHolds(Literals(e).value, v) ==> Holds(e, v)
  {
    match e
    case All(items) =>
      forall i | 0 <= i < |items|
        ensures Literals(items[i]).Some? && (BodyHolds(Literals(items[i]).value, v) ==> Holds(items[i], v))
      {
        OneWaySound(items[i], v);
      }
      LinesDefined(items);
      LinesHold(items, v);
    case Any(items) =>
      BranchesDefined(items);
      BranchShape(items);
      SoleMeans(items[0], v);
    case Not(_) => FaithfulReading(e, v);
    case Tests(tests) => PositivesHold(tests, v);
    case NotIn(test) => OneLiteral(Literal(true, test), v);
  }

  lemma {:induction false} FaithfulIsOneWay(e: Expr)
    requires Faithful(e)
    ensures OneWay(e)
  {
    match e
    case All(items) =>
      forall i | 0 <= i < |items| ensures OneWay(items[i]) { FaithfulIsOneWay(items[i]); }
    case Any(items) => FaithfulIsTight(items[0]);
    case _ =>
  }

  /** Truth of the emitted body implies truth of the source when every `any` branch is one literal. */
  lemma {:induction false} AnyIsOnlyTooStrict(e: Expr, v: Valuation)
    requires OneWay(e) && Emit(e) != []
    ensures ParseBody(Emit(e)).Some?
    ensures BodyHolds(ParseBody(Emit(e)).value, v) ==> Holds(e, v)
  {
    OneWayIsTight(e);
    ParseWhole(e);
    OneWaySound(e, v);
  }

  // ---------------------------------------------------------------- necessary: exact is faithful

  function TestsOf(e: Expr): seq<Test>
    decreases e, 0
  {
    match e
    case All(items) => Gather(items)
    case Any(items) => Gather(items)
    case Not(item) => TestsOf(item)
    case Tests(tests) => tests
    case NotIn(test) => [test]
  }

  function Gather(items: seq<Expr>): seq<Test> {
    if items == [] then [] else TestsOf(items[0]) + Gather(items[1..])
  }

  predicate Distinct(tests: seq<Test>) {
    forall i, j :: 0 <= i < j < |tests| ==> tests[i] != tests[j]
  }

  function TestsIn(body: seq<Literal>): seq<Test> {
    seq(|body|, i requires 0 <= i < |body| => body[i].test)
  }

  lemma {:induction false} LiteralTests(e: Expr)
    requires Literals(e).Some?
    ensures TestsIn(Literals(e).value) == TestsOf(e)
    decreases e, 0
  {
    match e
    case All(items) => LineTests(items);
    case Any(items) => BranchTests(items);
    case Not(item) =>
      LiteralTests(item);
      var body := Literals(item).value;
      assert TestsIn(Literals(e).value) == TestsIn(body);
    case Tests(_) =>
    case NotIn(_) =>
  }

  lemma {:induction false} LineTests(items: seq<Expr>)
    requires LineLiterals(items).Some?
    ensures TestsIn(LineLiterals(items).value) == Gather(items)
  {
    if items != [] {
      LiteralTests(items[0]);
      LineTests(items[1..]);
      var a, b := Literals(items[0]).value, LineLiterals(items[1..]).value;
      assert TestsIn(a + b) == TestsIn(a) + TestsIn(b);
    }
  }

  lemma {:induction false} BranchTests(items: seq<Expr>)
    requires BranchLiterals(items).Some?
    ensures TestsIn(BranchLiterals(items).value) == Gather(items)
  {
    if items != [] {
      LiteralTests(items[0]);
      BranchTests(items[1..]);
      var a, b := Literals(items[0]).value, BranchLiterals(items[1..]).value;
      assert TestsIn(a + b) == TestsIn(a) + TestsIn(b);
    }
  }

  /** Distinct tests: each sub-expression's are distinct and no two sub-expressions share one. */
  lemma {:induction false} GatherParts(items: seq<Expr>, i: int, t: Test)
    requires Distinct(Gather(items)) && 0 <= i < |items|
    ensures Distinct(TestsOf(items[i]))
    ensures t in TestsOf(items[i]) ==> t in Gather(items)
    ensures t in TestsOf(items[i]) ==> forall j :: 0 <= j < |items| && j != i ==> t !in TestsOf(items[j])
  {
    var first, rest := TestsOf(items[0]), Gather(items[1..]);
    assert forall k :: 0 <= k < |rest| ==> rest[k] == (first + rest)[|first| + k];
    assert forall k :: 0 <= k < |first| ==> first[k] == (first + rest)[k];
    assert Distinct(rest) && Distinct(first);
    assert t in first ==> t !in rest;
    if i == 0 {
      forall j | 0 < j < |items| && t in first ensures t !in TestsOf(items[j]) {
        assert items[j] == items[1..][j - 1];
        GatherParts(items[1..], j - 1, t);
      }
    } else {
      assert items[i] == items[1..][i - 1];
      GatherParts(items[1..], i - 1, t);
      forall j | 0 <= j < |items| && j != i && t in TestsOf(items[i]) ensures t !in TestsOf(items[j]) {
        if j > 0 { assert items[j] == items[1..][j - 1]; }
      }
    }
  }

  lemma {:induction false} GatherMember(items: seq<Expr>, i: int, t: Test)
    requires 0 <= i < |items| && t in TestsOf(items[i])
    ensures t in Gather(items)
  {
    if i > 0 {
      assert items[i] == items[1..][i - 1];
      GatherMember(items[1..], i - 1, t);
    }
  }

  /** Meaning depends only on the tests that occur. */
  lemma {:induction false} HoldsLocal(e: Expr, v: Valuation, w: Valuation)
    requires forall t :: t in TestsOf(e) ==> v(t) == w(t)
    ensures Holds(e, v) == Holds(e, w)
  {
    match e
    case All(items) =>
      forall i | 0 <= i < |items| ensures Holds(items[i], v) == Holds(items[i], w) {
        forall t | t in TestsOf(items[i]) ensures v(t) == w(t) { GatherMember(items, i, t); }
        HoldsLocal(items[i], v, w);
      }
    case Any(items) =>
      forall i | 0 <= i < |items| ensures Holds(items[i], v) == Holds(items[i], w) {
        forall t | t in TestsOf(items[i]) ensures v(t) == w(t) { GatherMember(items, i, t); }
        HoldsLocal(items[i], v, w);
      }
    case Not(item) => HoldsLocal(item, v, w);
    case Tests(_) =>
    case NotIn(_) =>
  }

  lemma {:induction false} BodyLocal(body: seq<Literal>, v: Valuation, w: Valuation)
    requires forall t :: t in TestsIn(body) ==> v(t) == w(t)
    ensures BodyHolds(body, v) == BodyHolds(body, w)
  {
    forall i | 0 <= i < |body| ensures LiteralHolds(body[i], v) == LiteralHolds(body[i], w) {
      assert TestsIn(body)[i] in TestsIn(body);
    }
  }

  /** The assignment that makes every literal of a body with distinct tests true. */
  function Satisfying(body: seq<Literal>): Valuation {
    t => Literal(false, t) in body
  }

  lemma {:induction false} SatisfyingHolds(body: seq<Literal>)
    requires Distinct(TestsIn(body))
    ensures BodyHolds(body, Satisfying(body))
  {
    forall i | 0 <= i < |body| && body[i].negated ensures Literal(false, body[i].test) !in body {
      forall j | 0 <= j < |body| ensures body[j] != Literal(false, body[i].test) {
        assert TestsIn(body)[j] == body[j].test && TestsIn(body)[i] == body[i].test;
      }
    }
  }

  /** `not` over several lines never means the negation: only its first line is negated. */
  lemma {:induction false} FirstNegationFails(e: Expr) returns (v: Valuation)
    requires Tight(e) && Distinct(TestsOf(e))
    requires Literals(e).Some? && |Literals(e).value| >= 2 && !Literals(e).value[0].negated
    ensures BodyHolds(NegateFirst(Literals(e)).value, v) != !Holds(e, v)
    decreases e
  {
    var body := NegateFirst(Literals(e)).value;
    LiteralTests(e);
    assert TestsIn(body) == TestsIn(Literals(e).value);
    v := Satisfying(body);
    SatisfyingHolds(body);
    if !Holds(e, v) {
      match e
      case All(items) => v := ConjunctFails(items, body);
      case Any(items) =>
        BranchShape(items);
        assert LiteralHolds(body[1], v);
        SoleMeans(items[1], v);
      case Tests(tests) =>
        v := t => false;
        assert !v(tests[0]);
        assert !LiteralHolds(body[1], v);
    }
  }

  /** The `all` case: one false conjunct decides, so a literal outside it can be flipped. */
  lemma {:induction false} ConjunctFails(items: seq<Expr>, body: seq<Literal>) returns (v: Valuation)
    requires Tight(All(items)) && Distinct(Gather(items))
    requires LineLiterals(items).Some? && |LineLiterals(items).value| >= 2 && !LineLiterals(items).value[0].negated
    requires body == NegateFirst(LineLiterals(items)).value
    requires TestsIn(body) == Gather(items) && BodyHolds(body, Satisfying(body))
    requires !Holds(All(items), Satisfying(body))
    ensures BodyHolds(body, v) != !Holds(All(items), v)
    decreases items, 0
  {
    var sat := Satisfying(body);
    LinesSome(items);
    var c :| 0 <= c < |items| && !Holds(items[c], sat);
    if k :| 0 <= k < |body| && body[k].test !in TestsOf(items[c]) {
      v := t => if t == body[k].test then !sat(t) else sat(t);
      HoldsLocal(items[c], v, sat);
      assert !LiteralHolds(body[k], v);
    } else {
      forall j | 0 <= j < |items| && j != c ensures Literals(items[j]) == Some([]) {
        LiteralTests(items[j]);
        if Literals(items[j]).value != [] {
          var t := TestsOf(items[j])[0];
          GatherMember(items, j, t);
          var k :| 0 <= k < |body| && TestsIn(body)[k] == t;
          assert t in TestsOf(items[c]);
          GatherParts(items, j, t);
        }
      }
      OnlyLine(items, c);
      GatherParts(items, c, body[0].test);
      v := FirstNegationFails(items[c]);
      forall j | 0 <= j < |items| && j != c ensures Holds(items[j], v) { SilentHolds(items[j], v); }
    }
  }

  lemma {:induction false} OnlyLine(items: seq<Expr>, c: int)
    requires 0 <= c < |items| && Literals(items[c]).Some?
    requires forall j :: 0 <= j < |items| && j != c ==> Literals(items[j]) == Some([])
    ensures LineLiterals(items) == Literals(items[c])
  {
    var rest := items[1..];
    assert forall j :: 0 <= j < |rest| ==> rest[j] == items[j + 1];
    if c == 0 {
      NoLines(rest);
      assert Literals(items[0]).value + [] == Literals(items[0]).value;
    } else {
      OnlyLine(rest, c - 1);
      assert [] + Literals(items[c]).value == Literals(items[c]).value;
    }
  }

  lemma {:induction false} NoLines(items: seq<Expr>)
    requires forall j :: 0 <= j < |items| ==> Literals(items[j]) == Some([])
    ensures LineLiterals(items) == Some([])
  {
    if items != [] {
      NoLines(items[1..]);
      assert Literals(items[0]).value + LineLiterals(items[1..]).value == [];
    }
  }

  /** `v` on the tests of `e`, `base` elsewhere. */
  function Splice(e: Expr, v: Valuation, base: Valuation): Valuation {
    t => if t in TestsOf(e) then v(t) else base(t)
  }

  lemma {:induction false} SpliceLocal(items: seq<Expr>, i: int, j: int, v: Valuation, base: Valuation, u: Valuation)
    requires Distinct(Gather(items)) && 0 <= i < |items| && 0 <= j < |items| && Literals(items[j]).Some?
    requires u == if j == i then v else base
    ensures var w := Splice(items[i], v, base);
      && BodyHolds(Literals(items[j]).value, w) == BodyHolds(Literals(items[j]).value, u)
      && Holds(items[j], w) == Holds(items[j], u)
  {
    var w := Splice(items[i], v, base);
    LiteralTests(items[j]);
    forall t | t in TestsOf(items[j]) ensures w(t) == u(t) {
      if j != i { GatherParts(items, j, t); }
    }
    BodyLocal(Literals(items[j]).value, w, u);
    HoldsLocal(items[j], w, u);
  }

  /** If a conjunction is read exactly, so is each conjunct. */
  lemma {:induction false} ConjunctsExact(items: seq<Expr>, i: int, v: Valuation, base: Valuation)
    requires Distinct(Gather(items)) && LineLiterals(items).Some? && 0 <= i < |items|
    requires BodyHolds(LineLiterals(items).value, base) && Holds(All(items), base)
    requires var w := Splice(items[i], v, base); BodyHolds(LineLiterals(items).value, w) == Holds(All(items), w)
    ensures Literals(items[i]).Some?
    ensures BodyHolds(Literals(items[i]).value, v) == Holds(items[i], v)
  {
    var w := Splice(items[i], v, base);
    LinesHold(items, base);
    LinesHold(items, w);
    forall j | 0 <= j < |items|
      ensures j != i ==> BodyHolds(Literals(items[j]).value, w) && Holds(items[j], w)
    {
      if j != i { SpliceLocal(items, i, j, v, base, base); }
    }
    SpliceLocal(items, i, i, v, base, v);
  }

  lemma {:induction false} ExactIsFaithful(e: Expr)
    requires Tight(e) && Distinct(TestsOf(e))
    requires Literals(e).Some?
    requires forall v: Valuation :: BodyHolds(Literals(e).value, v) == Holds(e, v)
    ensures Faithful(e)
  {
    match e
    case All(items) =>
      var sat := Satisfying(Literals(e).value);
      LiteralTests(e);
      SatisfyingHolds(Literals(e).value);
      assert Holds(e, sat);
      forall i | 0 <= i < |items| ensures Faithful(items[i]) {
        LinesSome(items);
        forall v: Valuation ensures BodyHolds(Literals(items[i]).value, v) == Holds(items[i], v) {
          assert var w := Splice(items[i], v, sat); BodyHolds(Literals(e).value, w) == Holds(e, w);
          ConjunctsExact(items, i, v, sat);
        }
        if TestsOf(items[i]) != [] { GatherParts(items, i, TestsOf(items[i])[0]); }
        ExactIsFaithful(items[i]);
      }
    case Any(items) =>
      BranchShape(items);
      var body := BranchLiterals(items).value;
      LiteralTests(e);
      if |items| >= 2 {
        var v: Valuation := t => t == body[0].test;
        SoleMeans(items[0], v);
        assert TestsIn(body)[0] != TestsIn(body)[1];
        assert !LiteralHolds(body[1], v);
        assert Holds(e, v);
      }
      assert body == Literals(items[0]).value;
      assert Gather(items) == TestsOf(items[0]) + [];
      forall v: Valuation ensures Holds(e, v) == Holds(items[0], v) {}
      ExactIsFaithful(items[0]);
    case Not(item) =>
      if |Literals(item).value| >= 2 {
        var v := FirstNegationFails(item);
      }
      var l := Literals(item).value[0];
      assert Literals(item).value == [l];
      forall v: Valuation ensures BodyHolds([l], v) == Holds(item, v) {
        OneLiteral(l, v);
        OneLiteral(Literal(true, l.test), v);
        assert Literals(e).value == [Literal(true, l.test)];
        assert BodyHolds(Literals(e).value, v) == Holds(e, v);
      }
      ExactIsFaithful(item);
    case Tests(_) =>
    case NotIn(_) =>
  }

  /** For tight expressions with pairwise distinct tests, faithful is exactly when the compiler is right. */
  lemma {:induction false} TightFaithfulIffExact(e: Expr)
    requires Tight(e) && Distinct(TestsOf(e))
    ensures Faithful(e) <==> Exact(e)
  {
    ParseWhole(e);
    if Faithful(e) {
      forall v: Valuation ensures Literals(e).Some? && BodyHolds(Literals(e).value, v) == Holds(e, v) {
        FaithfulReading(e, v);
      }
      FaithfulReading(e, t => true);
    }
    if Exact(e) {
      ExactIsFaithful(e);
    }
  }

  /** Hence a multi-branch `any` always rejects some input that the author meant to match. */
  lemma {:induction false} AnyIsTooStrict(e: Expr) returns (v: Valuation)
    requires OneWay(e) && !Faithful(e) && Distinct(TestsOf(e))
    ensures Literals(e).Some? && Holds(e, v) && !BodyHolds(Literals(e).value, v)
  {
    OneWayIsTight(e);
    TightFaithfulIffExact(e);
    ParseWhole(e);
    OneWaySound(e, t => true);
    v :| BodyHolds(Literals(e).value, v) != Holds(e, v);
    OneWaySound(e, v);
  }

  /** A `not` whose operand writes nothing negates the line after it: neither conjunct means what was
      written, though the text parses.  Tight expressions exclude this. */
  lemma {:induction false} DanglingNegation(t: Test)
    ensures var e := All([Not(All([])), Tests([t])]);
      && !Tight(e)
      && ParseBody(Emit(e)) == Some([Literal(true, t)])
      && (forall v: Valuation :: !Holds(e, v))
  {
    var e := All([Not(All([])), Tests([t])]);
    var first, second := e.items[0], e.items[1];
    assert Emit(All([])) == [] && Emit(first) == [NotKeyword] && Emit(second) == [Check(t)];
    assert e.items[1..] == [second] && [second][1..] == [];
    assert EmitLines([second]) == [Check(t)];
    var ts := [NotKeyword, Check(t)];
    assert Emit(e) == ts;
    assert ts[1..] == [Check(t)] && [Check(t)][1..] == [];
    assert ParseGroup([Check(t)]) == Some(Group(t, []));
    assert ParseLines([]) == Some([]);
    assert [Literal(true, t)] + [] == [Literal(true, t)];
    assert !Tight(first);
    forall v: Valuation ensures !Holds(e, v) {
      assert Holds(All([]), v);
      assert !Holds(first, v);
    }
  }
}
