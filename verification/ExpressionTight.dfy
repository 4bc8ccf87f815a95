/**
 The exact condition for every expression: text in which a `not` or an `any` is left without an operand
 never has the author's meaning, so that faithful expressions are all that compile correctly.
 */
module ExpressionTight {
  import opened Text
  import opened Expressions
  import opened ExpressionMeaning

  // ---------------------------------------------------------------- the parser as an automaton

  /** Before a group at some depth, with a `not` waiting or not, or behind a test with parentheses to close. */
  datatype Mode = At(depth: nat, pending: bool) | Behind(depth: nat)

  datatype Scan = Scan(mode: Mode, body: seq<Literal>)

  /** Where a group that began at a depth leads to. */
  function Down(depth: nat): Mode {
    if depth == 0 then At(0, false) else Behind(depth)
  }

  function Step(m: Mode, t: Token): Option<Scan> {
    match m
    case At(d, p) => (
      match t
      case NotKeyword => if d == 0 && !p then Some(Scan(At(0, true), [])) else None
      case Open => Some(Scan(At(d + 1, p), []))
      case Check(test) => Some(Scan(Down(d), [Literal(p, test)]))
      case Close => None)
    case Behind(d) => if t == Close && d > 0 then Some(Scan(Down(d - 1), [])) else None
  }

  function Prefix(front: seq<Literal>, r: Option<Scan>): Option<Scan> {
    if r.None? then None else Some(Scan(r.value.mode, front + r.value.body))
  }

  function Run(ts: seq<Token>, m: Mode): Option<Scan> {
    if ts == [] then Some(Scan(m, []))
    else
      var s := Step(m, ts[0]);
      if s.None? then None else Prefix(s.value.body, Run(ts[1..], s.value.mode))
  }

  lemma {:induction false} PrefixTwice(a: seq<Literal>, b: seq<Literal>, r: Option<Scan>)
    ensures Prefix(a, Prefix(b, r)) == Prefix(a + b, r)
  {
    if r.Some? { assert a + (b + r.value.body) == a + b + r.value.body; }
  }

  lemma {:induction false} PrefixNothing(r: Option<Scan>)
    ensures Prefix([], r) == r
  {
    if r.Some? { assert [] + r.value.body == r.value.body; }
  }

  lemma {:induction false} RunAppend(a: seq<Token>, b: seq<Token>, m: Mode)
    ensures Run(a + b, m) == if Run(a, m).None? then None else Prefix(Run(a, m).value.body, Run(b, Run(a, m).value.mode))
  {
    if a == [] {
      assert a + b == b;
      PrefixNothing(Run(b, m));
    } else {
      assert (a + b)[1..] == a[1..] + b;
      var s := Step(m, a[0]);
      if s.Some? {
        RunAppend(a[1..], b, s.value.mode);
        var r := Run(a[1..], s.value.mode);
        if r.Some? { PrefixTwice(s.value.body, r.value.body, Run(b, r.value.mode)); }
      }
    }
  }

  /** ParseGroup reads what the automaton reads until the group is closed. */
  lemma {:induction false} GroupRuns(ts: seq<Token>, d: nat, p: bool)
    requires ParseGroup(ts).Some?
    ensures Run(ts, At(d, p)) == Prefix([Literal(p, ParseGroup(ts).value.test)], Run(ParseGroup(ts).value.rest, Down(d)))
  {
    if ts[0] == Open {
      var inner := ParseGroup(ts[1..]).value;
      GroupRuns(ts[1..], d + 1, p);
      PrefixNothing(Run(ts[1..], At(d + 1, p)));
      PrefixNothing(Run(inner.rest[1..], Down(d)));
    }
  }

  lemma {:induction false} ParseIsRun(ts: seq<Token>)
    requires ParseLines(ts).Some?
    ensures Run(ts, At(0, false)) == Some(Scan(At(0, false), ParseLines(ts).value))
    decreases |ts|
  {
    if ts != [] {
      var negated := ts[0] == NotKeyword;
      var text := if negated then ts[1..] else ts;
      var g := ParseGroup(text).value;
      GroupRuns(text, 0, negated);
      PrefixNothing(Run(text, At(0, negated)));
      ParseIsRun(g.rest);
    }
  }

  // ---------------------------------------------------------------- tests in the text

  function CheckOf(t: Token): seq<Test> {
    if t.Check? then [t.test] else []
  }

  function ChecksIn(ts: seq<Token>): seq<Test> {
    if ts == [] then [] else CheckOf(ts[0]) + ChecksIn(ts[1..])
  }

  lemma {:induction false} ChecksAppend(a: seq<Token>, b: seq<Token>)
    ensures ChecksIn(a + b) == ChecksIn(a) + ChecksIn(b)
  {
    if a == [] {
      assert a + b == b && ChecksIn(a) + ChecksIn(b) == ChecksIn(b);
    } else {
      var head := CheckOf(a[0]);
      assert (a + b)[1..] == a[1..] + b && (a + b)[0] == a[0];
      ChecksAppend(a[1..], b);
      assert head + (ChecksIn(a[1..]) + ChecksIn(b)) == head + ChecksIn(a[1..]) + ChecksIn(b);
    }
  }

  lemma {:induction false} EmitChecks(e: Expr)
    ensures ChecksIn(Emit(e)) == TestsOf(e)
    decreases e, 0
  {
    match e
    case All(items) => LineChecks(items);
    case Any(items) => BranchChecks(items);
    case Not(item) =>
      EmitChecks(item);
      assert Emit(e)[1..] == Emit(item);
    case Tests(tests) => TestChecks(tests);
    case NotIn(test) =>
      assert Emit(e)[1..] == [Check(test)] && [Check(test)][1..] == [];
      assert ChecksIn([Check(test)]) == [test];
  }

  lemma {:induction false} TestChecks(tests: seq<Test>)
    ensures ChecksIn(Checks(tests)) == tests
  {
    if tests != [] {
      assert Checks(tests)[1..] == Checks(tests[1..]);
      TestChecks(tests[1..]);
    }
  }

  lemma {:induction false} LineChecks(items: seq<Expr>)
    ensures ChecksIn(EmitLines(items)) == Gather(items)
  {
    if items != [] {
      EmitChecks(items[0]);
      LineChecks(items[1..]);
      ChecksAppend(Emit(items[0]), EmitLines(items[1..]));
    }
  }

  lemma {:induction false} BranchChecks(items: seq<Expr>)
    ensures ChecksIn(EmitBranches(items)) == Gather(items)
  {
    if items != [] {
      EmitChecks(items[0]);
      BranchChecks(items[1..]);
      BranchSplits(items);
      ChecksAppend(Emit(items[0]), [Close] + EmitBranches(items[1..]));
      assert ([Close] + EmitBranches(items[1..]))[1..] == EmitBranches(items[1..]);
      assert EmitBranches(items)[1..] == Emit(items[0]) + ([Close] + EmitBranches(items[1..]));
    }
  }

  lemma {:induction false} BranchSplits(items: seq<Expr>)
    requires items != []
    ensures EmitBranches(items) == [Open] + (Emit(items[0]) + ([Close] + EmitBranches(items[1..])))
  {
  }

  lemma {:induction false} TestsJoin(a: seq<Literal>, b: seq<Literal>)
    ensures TestsIn(a + b) == TestsIn(a) + TestsIn(b)
  {
  }

  lemma {:induction false} StepTests(m: Mode, t: Token)
    requires Step(m, t).Some?
    ensures TestsIn(Step(m, t).value.body) == CheckOf(t)
  {
  }

  lemma {:induction false} RunTests(ts: seq<Token>, m: Mode)
    requires Run(ts, m).Some?
    ensures TestsIn(Run(ts, m).value.body) == ChecksIn(ts)
  {
    if ts != [] {
      var s := Step(m, ts[0]).value;
      RunTests(ts[1..], s.mode);
      StepTests(m, ts[0]);
      TestsJoin(s.body, Run(ts[1..], s.mode).value.body);
    }
  }

  // ---------------------------------------------------------------- reading an expression's text

  /** The text of `e`, read with or without a `not` waiting, gives these literals and leaves a `not`
      waiting or not. */
  predicate Reads(e: Expr, p: bool, q: bool, body: seq<Literal>) {
    Run(Emit(e), At(0, p)) == Some(Scan(At(0, q), body))
  }

  lemma {:induction false} ReadsTests(e: Expr, p: bool, q: bool, body: seq<Literal>)
    requires Reads(e, p, q, body)
    ensures TestsIn(body) == TestsOf(e) && |body| == |TestsOf(e)|
  {
    RunTests(Emit(e), At(0, p));
    EmitChecks(e);
    assert |TestsIn(body)| == |body|;
  }

  /** No text begins with a closing parenthesis. */
  lemma {:induction false} EmitStart(e: Expr)
    ensures Emit(e) != [] ==> Emit(e)[0] != Close
  {
    match e
    case All(items) => LinesStart(items);
    case _ =>
  }

  lemma {:induction false} LinesStart(items: seq<Expr>)
    ensures EmitLines(items) != [] ==> EmitLines(items)[0] != Close
  {
    if items != [] {
      EmitStart(items[0]);
      LinesStart(items[1..]);
    }
  }

  lemma {:induction false} NothingBehind(ts: seq<Token>, d: nat)
    requires ts != [] && ts[0] != Close
    ensures Run(ts, Behind(d)).None?
  {
  }

  /** One test, with this sign, wherever the text stands. */
  ghost predicate OneTest(ts: seq<Token>, p: bool, body: seq<Literal>) {
    && ts != [] && ts[0] != NotKeyword && |body| == 1 && body[0].negated == p
    && forall d: nat :: Run(ts, At(d, p)) == Some(Scan(Down(d), body))
  }

  /** Inside parentheses a text is empty or one test without a `not`. */
  lemma {:induction false} InParens(e: Expr, d: nat, p: bool)
    requires d >= 1 && Run(Emit(e), At(d, p)).Some?
    ensures Emit(e) == [] || OneTest(Emit(e), p, Run(Emit(e), At(d, p)).value.body)
    decreases e, 0
  {
    match e
    case All(items) => LinesInParens(items, d, p);
    case Any(items) => if items != [] { BranchesInParens(items, d, p); }
    case Not(_) =>
    case Tests(tests) => TestsInParens(tests, d, p);
    case NotIn(_) =>
  }

  lemma {:induction false} SingleCheck(t: Test, p: bool)
    ensures OneTest([Check(t)], p, [Literal(p, t)])
  {
    assert [Check(t)][1..] == [];
    forall d: nat ensures Run([Check(t)], At(d, p)) == Some(Scan(Down(d), [Literal(p, t)])) {
      assert Run([], Down(d)) == Some(Scan(Down(d), []));
      assert [Literal(p, t)] + [] == [Literal(p, t)];
    }
  }

  lemma {:induction false} TestsInParens(tests: seq<Test>, d: nat, p: bool)
    requires d >= 1 && Run(Checks(tests), At(d, p)).Some?
    ensures Checks(tests) == [] || OneTest(Checks(tests), p, Run(Checks(tests), At(d, p)).value.body)
  {
    if tests != [] {
      var rest := Checks(tests)[1..];
      if rest != [] {
        NothingBehind(rest, d);
      } else {
        assert Checks(tests) == [Check(tests[0])];
        SingleCheck(tests[0], p);
      }
    }
  }

  lemma {:induction false} LinesInParens(items: seq<Expr>, d: nat, p: bool)
    requires d >= 1 && Run(EmitLines(items), At(d, p)).Some?
    ensures EmitLines(items) == [] || OneTest(EmitLines(items), p, Run(EmitLines(items), At(d, p)).value.body)
  {
    if items != [] {
      var first, rest := Emit(items[0]), EmitLines(items[1..]);
      RunAppend(first, rest, At(d, p));
      if first == [] {
        assert first + rest == rest;
        LinesInParens(items[1..], d, p);
      } else {
        InParens(items[0], d, p);
        LinesStart(items[1..]);
        if rest != [] {
          NothingBehind(rest, d);
        } else {
          assert first + rest == first;
        }
      }
    }
  }

  lemma {:induction false} WrappedAt(ts: seq<Token>, p: bool, body: seq<Literal>, d: nat)
    requires Run(ts, At(d + 1, p)) == Some(Scan(Behind(d + 1), body))
    ensures Run([Open] + (ts + [Close]), At(d, p)) == Some(Scan(Down(d), body))
  {
    var text := [Open] + (ts + [Close]);
    assert text[0] == Open && text[1..] == ts + [Close];
    RunAppend(ts, [Close], At(d + 1, p));
    CloseRuns(d);
    assert body + [] == body;
    PrefixNothing(Run(ts + [Close], At(d + 1, p)));
  }

  lemma {:induction false} CloseRuns(d: nat)
    ensures Run([Close], Behind(d + 1)) == Some(Scan(Down(d), []))
  {
    assert [Close][1..] == [];
    assert Run([], Down(d)) == Some(Scan(Down(d), []));
    PrefixNothing(Run([], Down(d)));
  }

  /** Parentheses around one test are that test. */
  lemma {:induction false} Wrapped(ts: seq<Token>, p: bool, body: seq<Literal>)
    requires OneTest(ts, p, body)
    ensures OneTest([Open] + (ts + [Close]), p, body)
  {
    forall d: nat ensures Run([Open] + (ts + [Close]), At(d, p)) == Some(Scan(Down(d), body)) {
      assert Run(ts, At(d + 1, p)) == Some(Scan(Down(d + 1), body));
      WrappedAt(ts, p, body, d);
    }
  }

  lemma {:induction false} BranchesInParens(items: seq<Expr>, d: nat, p: bool)
    requires items != [] && d >= 1 && Run(EmitBranches(items), At(d, p)).Some?
    ensures OneTest(EmitBranches(items), p, Run(EmitBranches(items), At(d, p)).value.body)
    decreases items, 1
  {
    var body := FirstBranch(items, d, p);
    var group, rest := FirstGroup(items), EmitBranches(items[1..]);
    Wrapped(Emit(items[0]), p, body);
    assert Run(group, At(d, p)) == Some(Scan(Down(d), body));
    GroupSplits(items);
    RunAppend(group, rest, At(d, p));
    if items[1..] != [] {
      NothingBehind(rest, d);
    } else {
      assert group + rest == group;
    }
  }

  function FirstGroup(items: seq<Expr>): seq<Token>
    requires items != []
  {
    [Open] + (Emit(items[0]) + [Close])
  }

  lemma {:induction false} GroupSplits(items: seq<Expr>)
    requires items != []
    ensures EmitBranches(items) == FirstGroup(items) + EmitBranches(items[1..])
  {
  }

  /** The first branch of an `any` that is read is one test. */
  lemma {:induction false} FirstBranch(items: seq<Expr>, d: nat, p: bool) returns (body: seq<Literal>)
    requires items != [] && Run(EmitBranches(items), At(d, p)).Some?
    ensures OneTest(Emit(items[0]), p, body)
    decreases items, 0
  {
    var inner, after := Emit(items[0]), [Close] + EmitBranches(items[1..]);
    BranchSplits(items);
    assert EmitBranches(items)[1..] == inner + after;
    RunAppend(inner, after, At(d + 1, p));
    InParens(items[0], d + 1, p);
    body := Run(inner, At(d + 1, p)).value.body;
  }

  // ---------------------------------------------------------------- conjunctions of independent parts

  /** The literals say that `e` has this truth value. */
  ghost predicate Says(e: Expr, o: bool, body: seq<Literal>) {
    forall v: Valuation :: Holds(e, v) == o <==> BodyHolds(body, v)
  }

  ghost predicate SayBoth(x: Expr, y: Expr, o: bool, body: seq<Literal>) {
    forall v: Valuation :: (Holds(x, v) == o && Holds(y, v) == o) <==> BodyHolds(body, v)
  }

  ghost predicate SayNotBoth(x: Expr, y: Expr, o: bool, body: seq<Literal>) {
    forall v: Valuation :: !(Holds(x, v) == o && Holds(y, v) == o) <==> BodyHolds(body, v)
  }

  ghost predicate Always(e: Expr, o: bool) {
    forall v: Valuation :: Holds(e, v) == o
  }

  /** `v` on these tests, `w` on the others. */
  function Mix(tests: seq<Test>, v: Valuation, w: Valuation): Valuation {
    t => if t in tests then v(t) else w(t)
  }

  /** Two parts that share no test, and the literals read from each. */
  predicate Independent(x: Expr, y: Expr, a: seq<Literal>, b: seq<Literal>) {
    && TestsIn(a) == TestsOf(x) && TestsIn(b) == TestsOf(y)
    && Distinct(TestsIn(a + b)) && forall t :: t in TestsIn(a) ==> t !in TestsIn(b)
  }

  lemma {:induction false} SatisfyBoth(a: seq<Literal>, b: seq<Literal>) returns (v: Valuation)
    requires Distinct(TestsIn(a + b))
    ensures BodyHolds(a, v) && BodyHolds(b, v)
  {
    v := Satisfying(a + b);
    SatisfyingHolds(a + b);
    BodyAppend(a, b, v);
  }

  /** On a mixture the first part sees `v` and the second `w`. */
  lemma {:induction false} Mixture(x: Expr, y: Expr, a: seq<Literal>, b: seq<Literal>, v: Valuation, w: Valuation)
    requires Independent(x, y, a, b)
    ensures var u := Mix(TestsIn(a), v, w);
      && Holds(x, u) == Holds(x, v) && Holds(y, u) == Holds(y, w)
      && BodyHolds(a, u) == BodyHolds(a, v) && BodyHolds(b, u) == BodyHolds(b, w)
      && (BodyHolds(a + b, u) <==> BodyHolds(a, v) && BodyHolds(b, w))
  {
    var u := Mix(TestsIn(a), v, w);
    BodyLocal(a, u, v);
    BodyLocal(b, u, w);
    HoldsLocal(x, u, v);
    HoldsLocal(y, u, w);
    BodyAppend(a, b, u);
  }

  /** If together they say their literals, each says its own. */
  lemma {:induction false} AndSplit(x: Expr, y: Expr, o: bool, a: seq<Literal>, b: seq<Literal>)
    requires Independent(x, y, a, b) && SayBoth(x, y, o, a + b)
    ensures Says(x, o, a) && Says(y, o, b)
  {
    var sat := SatisfyBoth(a, b);
    BodyAppend(a, b, sat);
    assert Holds(x, sat) == o && Holds(y, sat) == o;
    forall v: Valuation ensures (Holds(x, v) == o <==> BodyHolds(a, v)) && (Holds(y, v) == o <==> BodyHolds(b, v)) {
      Mixture(x, y, a, b, v, sat);
      Mixture(x, y, a, b, sat, v);
    }
  }

  lemma {:induction false} Falsify(body: seq<Literal>) returns (v: Valuation)
    requires body != []
    ensures !BodyHolds(body, v)
  {
    v := t => body[0].negated;
    assert !LiteralHolds(body[0], v);
  }

  /** If the failure of one of them says the literals, all literals are of one part and the other
      part never fails. */
  lemma {:induction false} NandSplit(x: Expr, y: Expr, o: bool, a: seq<Literal>, b: seq<Literal>)
    requires Independent(x, y, a, b) && a + b != [] && SayNotBoth(x, y, o, a + b)
    ensures (a == [] && Always(x, o) && Says(y, !o, b)) || (b == [] && Always(y, o) && Says(x, !o, a))
  {
    var sat := SatisfyBoth(a, b);
    BodyAppend(a, b, sat);
    if Holds(y, sat) != o {
      NandEmpty(x, y, o, a, b, sat);
      NandRest(x, y, o, a, b);
    } else {
      NandEmptyBack(x, y, o, a, b, sat);
      NandRestBack(x, y, o, a, b);
    }
  }

  lemma {:induction false} NandEmpty(x: Expr, y: Expr, o: bool, a: seq<Literal>, b: seq<Literal>, sat: Valuation)
    requires Independent(x, y, a, b) && SayNotBoth(x, y, o, a + b) && Holds(y, sat) != o
    ensures a == []
  {
    if a != [] {
      var w := Falsify(a);
      Mixture(x, y, a, b, w, sat);
    }
  }

  lemma {:induction false} NandEmptyBack(x: Expr, y: Expr, o: bool, a: seq<Literal>, b: seq<Literal>, sat: Valuation)
    requires Independent(x, y, a, b) && SayNotBoth(x, y, o, a + b) && Holds(x, sat) != o
    ensures b == []
  {
    if b != [] {
      var w := Falsify(b);
      Mixture(x, y, a, b, sat, w);
    }
  }

  lemma {:induction false} NandRest(x: Expr, y: Expr, o: bool, a: seq<Literal>, b: seq<Literal>)
    requires Independent(x, y, a, b) && a == [] && b != [] && SayNotBoth(x, y, o, a + b)
    ensures Always(x, o) && Says(y, !o, b)
  {
    assert a + b == b;
    var w := Falsify(b);
    forall v: Valuation ensures Holds(x, v) == o {
      Mixture(x, y, a, b, v, w);
    }
  }

  lemma {:induction false} NandRestBack(x: Expr, y: Expr, o: bool, a: seq<Literal>, b: seq<Literal>)
    requires Independent(x, y, a, b) && b == [] && a != [] && SayNotBoth(x, y, o, a + b)
    ensures Always(y, o) && Says(x, !o, a)
  {
    assert a + b == a;
    var w := Falsify(a);
    forall v: Valuation ensures Holds(y, v) == o {
      Mixture(x, y, a, b, w, v);
    }
  }

  // ---------------------------------------------------------------- text without tests

  lemma {:induction false} DepthStays(ts: seq<Token>, d: nat, p: bool)
    requires Run(ts, At(d, p)).Some? && Run(ts, At(d, p)).value.body == []
    ensures var m := Run(ts, At(d, p)).value.mode; m.At? && m.depth >= d
  {
    if ts != [] {
      var s := Step(At(d, p), ts[0]).value;
      PrefixNothing(Run(ts[1..], s.mode));
      DepthStays(ts[1..], s.mode.depth, s.mode.pending);
    }
  }

  /** Text that is read without a test is nothing, or a `not` left waiting. */
  lemma {:induction false} Untested(ts: seq<Token>, p: bool, q: bool)
    requires Run(ts, At(0, p)) == Some(Scan(At(0, q), []))
    ensures (ts == [] && q == p) || (ts == [NotKeyword] && !p && q)
  {
    if ts != [] {
      var s := Step(At(0, p), ts[0]).value;
      PrefixNothing(Run(ts[1..], s.mode));
      if ts[0] == Open {
        DepthStays(ts[1..], 1, p);
      } else {
        Untested(ts[1..], true, q);
        assert ts == [ts[0]] + ts[1..];
      }
    }
  }

  /** An expression that writes nothing and can hold is tight. */
  lemma {:induction false} SilentTight(e: Expr, v: Valuation)
    requires Emit(e) == [] && Holds(e, v)
    ensures Tight(e)
  {
    match e
    case All(items) =>
      forall i | 0 <= i < |items| ensures Tight(items[i]) {
        SilentItem(items, i);
        SilentTight(items[i], v);
      }
    case _ =>
  }

  lemma {:induction false} SilentItem(items: seq<Expr>, i: int)
    requires EmitLines(items) == [] && 0 <= i < |items|
    ensures Emit(items[i]) == []
  {
    if i > 0 {
      assert items[i] == items[1..][i - 1];
      SilentItem(items[1..], i - 1);
    }
  }

  // ---------------------------------------------------------------- the parts of an expression

  /** The text of `all`, taken apart. */
  lemma {:induction false} LinesRead(items: seq<Expr>, p: bool, q: bool, body: seq<Literal>)
      returns (mid: bool, first: seq<Literal>, rest: seq<Literal>)
    requires items != [] && Reads(All(items), p, q, body)
    ensures body == first + rest && Reads(items[0], p, mid, first) && Reads(All(items[1..]), mid, q, rest)
  {
    assert Emit(All(items)) == Emit(items[0]) + EmitLines(items[1..]);
    RunAppend(Emit(items[0]), EmitLines(items[1..]), At(0, p));
    var r := Run(Emit(items[0]), At(0, p)).value;
    EmitBalanced(items[0]);
    LevelAgain(Emit(items[0]), At(0, p), 0);
    mid, first, rest := r.mode.pending, r.body, Run(EmitLines(items[1..]), r.mode).value.body;
  }

  function Depth(m: Mode): nat {
    m.depth
  }

  /** Balanced text ends at the depth it began at. */
  lemma {:induction false} LevelAgain(ts: seq<Token>, m: Mode, extra: nat)
    requires Balanced(ts, extra) && Run(ts, m).Some? && Depth(m) >= extra && (m.Behind? ==> m.depth > 0)
    ensures Depth(Run(ts, m).value.mode) == Depth(m) - extra
    ensures Run(ts, m).value.mode.Behind? ==> Run(ts, m).value.mode.depth > 0
  {
    if ts != [] {
      var s := Step(m, ts[0]).value;
      LevelAgain(ts[1..], s.mode, extra + (if ts[0] == Open then 1 else if ts[0] == Close then -1 else 0));
    }
  }

  /** The text of `any`, taken apart. */
  lemma {:induction false} BranchesRead(items: seq<Expr>, p: bool, q: bool, body: seq<Literal>)
      returns (first: seq<Literal>, rest: seq<Literal>)
    requires items != [] && Reads(Any(items), p, q, body)
    ensures body == first + rest && first != [] && Reads(items[0], p, false, first) && Reads(Any(items[1..]), false, q, rest)
    ensures OneTest(Emit(items[0]), p, first)
  {
    first := FirstBranch(items, 0, p);
    Wrapped(Emit(items[0]), p, first);
    assert Run(FirstGroup(items), At(0, p)) == Some(Scan(Down(0), first));
    assert Run(Emit(items[0]), At(0, p)) == Some(Scan(Down(0), first));
    GroupSplits(items);
    RunAppend(FirstGroup(items), EmitBranches(items[1..]), At(0, p));
    rest := Run(EmitBranches(items[1..]), At(0, false)).value.body;
  }

  lemma {:induction false} DistinctParts(s: seq<Test>, t: seq<Test>)
    requires Distinct(s + t)
    ensures Distinct(s) && Distinct(t) && forall x :: x in s ==> x !in t
  {
    assert forall k :: 0 <= k < |t| ==> t[k] == (s + t)[|s| + k];
    assert forall k :: 0 <= k < |s| ==> s[k] == (s + t)[k];
  }

  lemma {:induction false} PartsIndependent(items: seq<Expr>, x: Expr, rest: Expr, a: seq<Literal>, b: seq<Literal>)
    requires items != [] && x == items[0] && rest in {All(items[1..]), Any(items[1..])} && Distinct(Gather(items))
    requires TestsIn(a) == TestsOf(x) && TestsIn(b) == TestsOf(rest)
    ensures Independent(x, rest, a, b) && Distinct(TestsOf(x)) && Distinct(Gather(items[1..]))
  {
    DistinctParts(TestsOf(x), Gather(items[1..]));
    TestsJoin(a, b);
  }

  // ---------------------------------------------------------------- orientation decides the reading

  /** Literals that say the expression were not read behind a `not`, and nothing in it dangles unless a
      `not` is left waiting. */
  lemma {:induction false} SaidPlainly(e: Expr, p: bool, q: bool, body: seq<Literal>)
    requires Distinct(TestsOf(e)) && Reads(e, p, q, body) && body != [] && Says(e, true, body)
    ensures !p && (Tight(e) || q)
    decreases e, 0
  {
    ReadsTests(e, p, q, body);
    match e
    case All(items) => PlainLines(items, p, q, body);
    case Any(items) => PlainBranches(items, p, q, body);
    case Not(item) =>
      NotRead(item, p, q, body);
      assert Says(item, false, body);
      SaidNegated(item, true, q, body);
    case Tests(tests) =>
      TestsRead(tests, p, q, body);
      var v: Valuation := t => true;
      assert Holds(e, v) && LiteralHolds(body[0], v);
    case NotIn(test) =>
  }

  /** Literals that say its negation were read behind a `not`, waiting or the first of its text. */
  lemma {:induction false} SaidNegated(e: Expr, p: bool, q: bool, body: seq<Literal>)
    requires Distinct(TestsOf(e)) && Reads(e, p, q, body) && body != [] && Says(e, false, body)
    ensures if p then Tight(e) || q else Emit(e) != [] && Emit(e)[0] == NotKeyword
    decreases e, 0
  {
    ReadsTests(e, p, q, body);
    match e
    case All(items) => NegatedLines(items, p, q, body);
    case Any(items) => NegatedBranches(items, p, q, body);
    case Not(item) => NotRead(item, p, q, body);
    case Tests(tests) =>
      TestsRead(tests, p, q, body);
      var v: Valuation := t => true;
      assert Holds(e, v) && !BodyHolds(body, v);
      if !p { AllPositive(tests, body, v); }
    case NotIn(test) =>
  }

  lemma {:induction false} NotRead(item: Expr, p: bool, q: bool, body: seq<Literal>)
    requires Reads(Not(item), p, q, body)
    ensures !p && Reads(item, true, q, body)
  {
    assert Emit(Not(item))[1..] == Emit(item);
    PrefixNothing(Run(Emit(item), At(0, true)));
  }

  /** A field map's lines: the first takes the waiting `not`. */
  lemma {:induction false} TestsRead(tests: seq<Test>, p: bool, q: bool, body: seq<Literal>)
    requires Reads(Tests(tests), p, q, body)
    ensures |body| == |tests| && forall i :: 0 <= i < |body| ==> body[i] == Literal(p && i == 0, tests[i])
  {
    if tests != [] {
      assert Checks(tests)[1..] == Checks(tests[1..]);
      var rest := Run(Checks(tests[1..]), At(0, false)).value;
      assert body == [Literal(p, tests[0])] + rest.body;
      TestsRead(tests[1..], false, q, rest.body);
    }
  }

  lemma {:induction false} AllPositive(tests: seq<Test>, body: seq<Literal>, v: Valuation)
    requires |body| == |tests| && forall i :: 0 <= i < |body| ==> body[i] == Literal(false, tests[i])
    requires forall t: Test :: v(t)
    ensures BodyHolds(body, v)
  {
  }

  lemma {:induction false} TightLines(items: seq<Expr>)
    requires items != [] && Tight(items[0]) && Tight(All(items[1..]))
    ensures Tight(All(items))
  {
    forall i | 0 <= i < |items| ensures Tight(items[i]) {
      if i > 0 { assert items[i] == items[1..][i - 1]; }
    }
  }

  lemma {:induction false} HoldsLines(items: seq<Expr>, v: Valuation)
    requires items != []
    ensures Holds(All(items), v) <==> Holds(items[0], v) && Holds(All(items[1..]), v)
    ensures Holds(Any(items), v) <==> Holds(items[0], v) || Holds(Any(items[1..]), v)
  {
    var rest := items[1..];
    assert forall i :: 0 <= i < |rest| ==> rest[i] == items[i + 1];
    if Holds(All(items[1..]), v) && Holds(items[0], v) {
      forall i | 0 <= i < |items| ensures Holds(items[i], v) { if i > 0 { assert Holds(rest[i - 1], v); } }
    }
    if Holds(Any(items), v) {
      var i :| 0 <= i < |items| && Holds(items[i], v);
      if i > 0 { assert Holds(rest[i - 1], v); }
    }
  }

  /** What literals say of a list they say of its first item and the rest. */
  lemma {:induction false} LinesSay(items: seq<Expr>, body: seq<Literal>)
    requires items != []
    ensures Says(All(items), true, body) ==> SayBoth(items[0], All(items[1..]), true, body)
    ensures Says(All(items), false, body) ==> SayNotBoth(items[0], All(items[1..]), true, body)
    ensures Says(Any(items), true, body) ==> SayNotBoth(items[0], Any(items[1..]), false, body)
    ensures Says(Any(items), false, body) ==> SayBoth(items[0], Any(items[1..]), false, body)
  {
    forall v: Valuation
      ensures Holds(All(items), v) <==> Holds(items[0], v) && Holds(All(items[1..]), v)
      ensures Holds(Any(items), v) <==> Holds(items[0], v) || Holds(Any(items[1..]), v)
    {
      HoldsLines(items, v);
    }
  }

  lemma {:induction false} PlainLines(items: seq<Expr>, p: bool, q: bool, body: seq<Literal>)
    requires Distinct(Gather(items)) && Reads(All(items), p, q, body) && body != [] && Says(All(items), true, body)
    ensures !p && (Tight(All(items)) || q)
    decreases items, 1
  {
    if items != [] {
      var mid, a, b := LinesRead(items, p, q, body);
      var x, rest := items[0], All(items[1..]);
      ReadsTests(x, p, mid, a);
      ReadsTests(rest, mid, q, b);
      PartsIndependent(items, x, rest, a, b);
      LinesSay(items, body);
      AndSplit(x, rest, true, a, b);
      if a != [] { SaidPlainly(x, p, mid, a); } else { SilentPart(x, p, mid); }
      if b != [] { PlainLines(items[1..], mid, q, b); } else { SilentPart(rest, mid, q); }
      if Tight(x) && Tight(rest) { TightLines(items); }
    }
  }

  /** A part without tests that always holds is tight, or leaves a `not` waiting. */
  lemma {:induction false} SilentPart(e: Expr, p: bool, q: bool)
    requires Reads(e, p, q, []) && Says(e, true, [])
    ensures (Tight(e) && q == p && Emit(e) == []) || (!p && q && Emit(e) == [NotKeyword])
  {
    Untested(Emit(e), p, q);
    var v: Valuation := t => true;
    assert BodyHolds([], v);
    if Emit(e) == [] { SilentTight(e, v); }
  }

  lemma {:induction false} NegatedLines(items: seq<Expr>, p: bool, q: bool, body: seq<Literal>)
    requires Distinct(Gather(items)) && Reads(All(items), p, q, body) && body != [] && Says(All(items), false, body)
    ensures if p then Tight(All(items)) || q else EmitLines(items) != [] && EmitLines(items)[0] == NotKeyword
    decreases items, 1
  {
    if items != [] {
      var mid, a, b := LinesRead(items, p, q, body);
      var x, rest := items[0], All(items[1..]);
      ReadsTests(x, p, mid, a);
      ReadsTests(rest, mid, q, b);
      PartsIndependent(items, x, rest, a, b);
      LinesSay(items, body);
      NandSplit(x, rest, true, a, b);
      if a == [] {
        SilentPart(x, p, mid);
        NegatedLines(items[1..], mid, q, b);
      } else {
        SaidNegated(x, p, mid, a);
        SilentPart(rest, mid, q);
      }
      if Tight(x) && Tight(rest) { TightLines(items); }
    }
  }

  /** The branches of an `any` that is read: the first, and the rest. */
  lemma {:induction false} BranchParts(items: seq<Expr>, p: bool, q: bool, body: seq<Literal>)
      returns (a: seq<Literal>, b: seq<Literal>)
    requires items != [] && Distinct(Gather(items)) && Reads(Any(items), p, q, body)
    ensures body == a + b && a != [] && Reads(items[0], p, false, a) && Reads(Any(items[1..]), false, q, b)
    ensures Independent(items[0], Any(items[1..]), a, b) && Distinct(TestsOf(items[0])) && Distinct(Gather(items[1..]))
    ensures Emit(items[0]) != [] && Emit(items[0])[0] != NotKeyword
    ensures items[1..] != [] ==> b != []
  {
    a, b := BranchesRead(items, p, q, body);
    ReadsTests(items[0], p, false, a);
    ReadsTests(Any(items[1..]), false, q, b);
    PartsIndependent(items, items[0], Any(items[1..]), a, b);
    if items[1..] != [] { MoreBranches(items[1..], q, b); }
  }

  lemma {:induction false} MoreBranches(items: seq<Expr>, q: bool, body: seq<Literal>)
    requires items != [] && Reads(Any(items), false, q, body)
    ensures body != []
  {
    var a, b := BranchesRead(items, false, q, body);
  }

  lemma {:induction false} PlainBranches(items: seq<Expr>, p: bool, q: bool, body: seq<Literal>)
    requires Distinct(Gather(items)) && Reads(Any(items), p, q, body) && body != [] && Says(Any(items), true, body)
    ensures !p && Tight(Any(items))
    decreases items, 1
  {
    if items != [] {
      var a, b := BranchParts(items, p, q, body);
      LinesSay(items, body);
      NandSplit(items[0], Any(items[1..]), false, a, b);
      SaidPlainly(items[0], p, false, a);
      assert items == [items[0]];
    }
  }

  lemma {:induction false} NegatedBranches(items: seq<Expr>, p: bool, q: bool, body: seq<Literal>)
    requires Distinct(Gather(items)) && Reads(Any(items), p, q, body) && body != [] && Says(Any(items), false, body)
    ensures p && Tight(Any(items))
    decreases items, 1
  {
    if items != [] {
      var a, b := BranchParts(items, p, q, body);
      LinesSay(items, body);
      AndSplit(items[0], Any(items[1..]), false, a, b);
      SaidNegated(items[0], p, false, a);
      if items[1..] != [] {
        NegatedBranches(items[1..], false, q, b);
      }
      assert items == [items[0]];
    }
  }

  // ---------------------------------------------------------------- every expression

  /** Only tight expressions have text with the author's meaning. */
  lemma {:induction false} ExactIsTight(e: Expr)
    requires Distinct(TestsOf(e)) && Exact(e)
    ensures Tight(e)
  {
    var body := ParseLines(Emit(e)).value;
    ParseIsRun(Emit(e));
    assert Says(e, true, body);
    if body == [] {
      SilentPart(e, false, false);
    } else {
      SaidPlainly(e, false, false, body);
    }
  }

  /** For every expression with pairwise distinct tests, faithful is exactly when the compiler is right. */
  lemma {:induction false} FaithfulIffExact(e: Expr)
    requires Distinct(TestsOf(e))
    ensures Faithful(e) <==> Exact(e)
  {
    if Faithful(e) { FaithfulIsTight(e); }
    if Exact(e) { ExactIsTight(e); }
    if Tight(e) { TightFaithfulIffExact(e); }
  }
}
