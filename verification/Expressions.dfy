/**
 The expression compiler (internal/policy/compiler/expression.go).

 `Emit` gives the text the compiler writes, as the tokens Rego's scanner would see (comments and
 indentation carry no token).  `ParseBody` is Rego's reading of that text: newline-separated
 literals are conjoined, `not` negates the one expression that follows it, and parentheses hold
 exactly one un-negated expression.
 */
module Expressions {
  import opened Text
  import opened Json

  datatype Operator =
    | Equals | NotEquals | Greater | GreaterEq | Less | LessEq
    | Contains | StartsWith | EndsWith | Matches | In

  /** One un-negated comparison of an input field with a literal. */
  datatype Test = Test(path: string, op: Operator, value: Json)

  /** A condition, as the compiler's case distinction understands it. */
  datatype Expr =
    | All(items: seq<Expr>)
    | Any(items: seq<Expr>)
    | Not(item: Expr)
    | Tests(tests: seq<Test>)  // one line per entry of a field map, or a single comparison
    | NotIn(test: Test)        // the `not_in` operator, emitted with its own `not`

  /** The truth of each test on the input at hand. */
  type Valuation = Test -> bool

  /** What the policy author wrote: `all`, `any` and `not` mean conjunction, disjunction, negation. */
  predicate Holds(e: Expr, v: Valuation) {
    match e
    case All(items) => forall i :: 0 <= i < |items| ==> Holds(items[i], v)
    case Any(items) => exists i :: 0 <= i < |items| && Holds(items[i], v)
    case Not(item) => !Holds(item, v)
    case Tests(tests) => forall i :: 0 <= i < |tests| ==> v(tests[i])
    case NotIn(test) => !v(test)
  }

  // ---------------------------------------------------------------- emitted text

  datatype Token = NotKeyword | Open | Close | Check(test: Test)

  function Emit(e: Expr): seq<Token>
    decreases e, 0
  {
    match e
    case All(items) => EmitLines(items)
    case Any(items) => EmitBranches(items)
    case Not(item) => [NotKeyword] + Emit(item)
    case Tests(tests) => Checks(tests)
    case NotIn(test) => [NotKeyword, Check(test)]
  }

  function EmitLines(items: seq<Expr>): seq<Token> {
    if items == [] then [] else Emit(items[0]) + EmitLines(items[1..])
  }

  function EmitBranches(items: seq<Expr>): seq<Token> {
    if items == [] then [] else [Open] + Emit(items[0]) + [Close] + EmitBranches(items[1..])
  }

  function Checks(tests: seq<Test>): seq<Token> {
    seq(|tests|, i requires 0 <= i < |tests| => Check(tests[i]))
  }

  // ---------------------------------------------------------------- Rego's reading

  datatype Literal = Literal(negated: bool, test: Test)

  predicate LiteralHolds(l: Literal, v: Valuation) {
    if l.negated then !v(l.test) else v(l.test)
  }

  predicate BodyHolds(body: seq<Literal>, v: Valuation) {
    forall i :: 0 <= i < |body| ==> LiteralHolds(body[i], v)
  }

  datatype Group = Group(test: Test, rest: seq<Token>)

  function ParseGroup(ts: seq<Token>): (g: Option<Group>)
    ensures g.Some? ==> |g.value.rest| < |ts|
  {
    if ts == [] then None
    else match ts[0]
      case Check(test) => Some(Group(test, ts[1..]))
      case Open =>
        var inner := ParseGroup(ts[1..]);
        if inner.Some? && inner.value.rest != [] && inner.value.rest[0] == Close
        then Some(Group(inner.value.test, inner.value.rest[1..]))
        else None
      case _ => None
  }

  function ParseLines(ts: seq<Token>): Option<seq<Literal>>
    decreases |ts|
  {
    if ts == [] then Some([])
    else
      var negated := ts[0] == NotKeyword;
      var g := ParseGroup(if negated then ts[1..] else ts);
      if g.None? then None
      else Prepend([Literal(negated, g.value.test)], ParseLines(g.value.rest))
  }

  function Prepend(front: seq<Literal>, back: Option<seq<Literal>>): Option<seq<Literal>> {
    if back.None? then None else Some(front + back.value)
  }

  /** A rule body must hold at least one literal. */
  function ParseBody(ts: seq<Token>): Option<seq<Literal>> {
    var lines := ParseLines(ts);
    if lines == Some([]) then None else lines
  }

  // ---------------------------------------------------------------- reading an expression's text

  /** The literals an expression contributes, by structure; None when its text does not parse. */
  function Literals(e: Expr): Option<seq<Literal>>
    decreases e, 0
  {
    match e
    case All(items) => LineLiterals(items)
    case Any(items) => BranchLiterals(items)
    case Not(item) => NegateFirst(Literals(item))
    case Tests(tests) => Some(Positives(tests))
    case NotIn(test) => Some([Literal(true, test)])
  }

  function LineLiterals(items: seq<Expr>): Option<seq<Literal>> {
    if items == [] then Some([])
    else
      var first := Literals(items[0]);
      if first.None? then None else Prepend(first.value, LineLiterals(items[1..]))
  }

  function BranchLiterals(items: seq<Expr>): Option<seq<Literal>> {
    if items == [] then Some([])
    else
      var first := Literals(items[0]);
      if Sole(first) then Prepend(first.value, BranchLiterals(items[1..])) else None
  }

  function Positives(tests: seq<Test>): seq<Literal> {
    seq(|tests|, i requires 0 <= i < |tests| => Literal(false, tests[i]))
  }

  function NegateFirst(body: Option<seq<Literal>>): Option<seq<Literal>> {
    if body.None? || body.value == [] || body.value[0].negated then None
    else Some([Literal(true, body.value[0].test)] + body.value[1..])
  }

  /** Exactly one literal, and that one not negated. */
  predicate Sole(body: Option<seq<Literal>>) {
    body.Some? && |body.value| == 1 && !body.value[0].negated
  }

  /** No `not` or `any` is left without text to apply to. */
  predicate Tight(e: Expr) {
    match e
    case All(items) => forall i :: 0 <= i < |items| ==> Tight(items[i])
    case Any(items) =>
      && items != []
      && forall i :: 0 <= i < |items| ==> Tight(items[i]) && Emit(items[i]) != []
    case Not(item) => Tight(item) && Emit(item) != []
    case Tests(_) => true
    case NotIn(_) => true
  }

  // ---------------------------------------------------------------- parentheses stay balanced

  /** Reading `ts` at nesting depth `depth` never closes too much and ends at depth zero. */
  predicate Balanced(ts: seq<Token>, depth: int) {
    depth >= 0 &&
    if ts == [] then depth == 0
    else Balanced(ts[1..], depth + (if ts[0] == Open then 1 else if ts[0] == Close then -1 else 0))
  }

  lemma {:induction false} BalancedAppend(a: seq<Token>, b: seq<Token>, depth: int)
    requires Balanced(a, depth) && Balanced(b, 0)
    ensures Balanced(a + b, depth)
  {
    if a == [] {
      assert a + b == b;
    } else {
      assert (a + b)[1..] == a[1..] + b;
      BalancedAppend(a[1..], b, depth + (if a[0] == Open then 1 else if a[0] == Close then -1 else 0));
    }
  }

  lemma {:induction false} BalancedClose(a: seq<Token>, depth: int)
    requires Balanced(a, depth)
    ensures Balanced(a + [Close], depth + 1)
  {
    if a == [] {
      assert (a + [Close])[1..] == [];
    } else {
      assert (a + [Close])[1..] == a[1..] + [Close];
      BalancedClose(a[1..], depth + (if a[0] == Open then 1 else if a[0] == Close then -1 else 0));
    }
  }

  lemma {:induction false} BalancedChecks(tests: seq<Test>)
    ensures Balanced(Checks(tests), 0)
  {
    if tests != [] {
      assert Checks(tests)[1..] == Checks(tests[1..]);
      BalancedChecks(tests[1..]);
    }
  }

  lemma {:induction false} EmitBalanced(e: Expr)
    ensures Balanced(Emit(e), 0)
    decreases e, 0
  {
    match e
    case All(items) => EmitLinesBalanced(items);
    case Any(items) => EmitBranchesBalanced(items);
    case Not(item) =>
      EmitBalanced(item);
      assert Emit(e)[1..] == Emit(item);
    case Tests(tests) => BalancedChecks(tests);
    case NotIn(test) =>
      assert Emit(e)[1..] == [Check(test)];
      assert [Check(test)][1..] == [];
  }

  lemma {:induction false} EmitLinesBalanced(items: seq<Expr>)
    ensures Balanced(EmitLines(items), 0)
  {
    if items != [] {
      EmitBalanced(items[0]);
      EmitLinesBalanced(items[1..]);
      BalancedAppend(Emit(items[0]), EmitLines(items[1..]), 0);
    }
  }

  lemma {:induction false} EmitBranchesBalanced(items: seq<Expr>)
    ensures Balanced(EmitBranches(items), 0)
  {
    if items != [] {
      var inner, rest := Emit(items[0]), EmitBranches(items[1..]);
      EmitBalanced(items[0]);
      EmitBranchesBalanced(items[1..]);
      BalancedClose(inner, 0);
      BalancedAppend(inner + [Close], rest, 1);
      assert EmitBranches(items)[1..] == inner + [Close] + rest;
    }
  }

  /** On balanced text ParseGroup never looks past the end, whatever follows. */
  lemma {:induction false} ParseGroupStays(a: seq<Token>, depth: int, rest: seq<Token>)
    requires Balanced(a, depth) && a != []
    ensures ParseGroup(a).Some? <==> ParseGroup(a + rest).Some?
    ensures ParseGroup(a).Some? ==>
              && ParseGroup(a + rest).value == Group(ParseGroup(a).value.test, ParseGroup(a).value.rest + rest)
              && Balanced(ParseGroup(a).value.rest, depth)
  {
    assert (a + rest)[1..] == a[1..] + rest;
    if a[0] == Open {
      ParseGroupStays(a[1..], depth + 1, rest);
      var g := ParseGroup(a[1..]);
      if g.Some? {
        assert (g.value.rest + rest)[1..] == g.value.rest[1..] + rest;
      }
    }
  }

  // ---------------------------------------------------------------- the parser meets the structure

  function Follow(body: Option<seq<Literal>>, rest: Option<seq<Literal>>): Option<seq<Literal>> {
    if body.None? then None else Prepend(body.value, rest)
  }

  lemma {:induction false} PrependAppend(front: seq<Literal>, middle: seq<Literal>, back: Option<seq<Literal>>)
    ensures Prepend(front, Prepend(middle, back)) == Prepend(front + middle, back)
  {
    if back.Some? {
      assert front + (middle + back.value) == front + middle + back.value;
    }
  }

  lemma {:induction false} PrependNothing(back: Option<seq<Literal>>)
    ensures Prepend([], back) == back
  {
    if back.Some? {
      assert [] + back.value == back.value;
    }
  }

  lemma {:induction false} PrependFollow(front: Option<seq<Literal>>, middle: Option<seq<Literal>>, back: Option<seq<Literal>>)
    ensures front.Some? ==> Prepend(front.value, Follow(middle, back)) == Follow(Prepend(front.value, middle), back)
  {
    if front.Some? && middle.Some? {
      PrependAppend(front.value, middle.value, back);
    }
  }

  /** The parsed text of a tight expression is its structural reading, in any context. */
  lemma {:induction false} ParseEmit(e: Expr, rest: seq<Token>)
    requires Tight(e)
    ensures ParseLines(Emit(e) + rest) == Follow(Literals(e), ParseLines(rest))
    decreases e, 0
  {
    match e
    case All(items) => ParseEmitLines(items, rest);
    case Any(items) => ParseEmitBranches(items, rest);
    case Not(item) =>
      var inner := Emit(item);
      assert (Emit(e) + rest)[1..] == inner + rest;
      ParseEmit(item, rest);
      ParseWhole(item);
      EmitBalanced(item);
      ParseGroupStays(inner, 0, rest);
      assert (inner + rest)[0] == inner[0];
      ParseNegated(inner, rest, Literals(item));
    case Tests(tests) => ParseChecks(tests, rest);
    case NotIn(test) =>
      assert (Emit(e) + rest)[1..] == [Check(test)] + rest;
      assert ([Check(test)] + rest)[1..] == rest;
  }

  /** Putting `not` before text that parses negates its first literal only. */
  lemma {:induction false} ParseNegated(inner: seq<Token>, rest: seq<Token>, body: Option<seq<Literal>>)
    requires inner != []
    requires ParseLines(inner + rest) == Follow(body, ParseLines(rest))
    requires body.Some? ==> body.value != [] && body.value[0].negated == (inner[0] == NotKeyword)
    requires body.None? ==> ParseLines(inner) == None
    requires ParseGroup(inner + rest).Some? ==> inner[0] != NotKeyword
    ensures ParseLines([NotKeyword] + inner + rest) == Follow(NegateFirst(body), ParseLines(rest))
  {
    var ts := [NotKeyword] + inner + rest;
    assert ts[1..] == inner + rest;
    var g := ParseGroup(inner + rest);
    if g.Some? && ParseLines(g.value.rest).Some? {
      var q := ParseLines(g.value.rest).value;
      assert ParseLines(inner + rest) == Some([Literal(false, g.value.test)] + q);
      assert body.Some? && ParseLines(rest).Some?;
      assert q == ([Literal(false, g.value.test)] + q)[1..] == body.value[1..] + ParseLines(rest).value;
      assert (body.value + ParseLines(rest).value)[0] == body.value[0] == Literal(false, g.value.test);
      assert Prepend(body.value[1..], ParseLines(rest)) == Some(q);
      PrependAppend([Literal(true, g.value.test)], body.value[1..], ParseLines(rest));
    }
  }

  lemma {:induction false} ParseWhole(e: Expr)
    requires Tight(e)
    ensures ParseLines(Emit(e)) == Literals(e)
    ensures Emit(e) != [] && Literals(e).Some? ==>
              && Literals(e).value != []
              && Literals(e).value[0].negated == (Emit(e)[0] == NotKeyword)
    decreases e, 1
  {
    ParseEmit(e, []);
    assert Emit(e) + [] == Emit(e);
    if Literals(e).Some? {
      assert Literals(e).value + [] == Literals(e).value;
    }
  }

  lemma {:induction false} ParseChecks(tests: seq<Test>, rest: seq<Token>)
    ensures ParseLines(Checks(tests) + rest) == Prepend(Positives(tests), ParseLines(rest))
  {
    if tests == [] {
      assert Checks(tests) + rest == rest;
      PrependNothing(ParseLines(rest));
      assert Positives(tests) == [];
    } else {
      assert (Checks(tests) + rest)[1..] == Checks(tests[1..]) + rest;
      ParseChecks(tests[1..], rest);
      assert Positives(tests) == [Literal(false, tests[0])] + Positives(tests[1..]);
      PrependAppend([Literal(false, tests[0])], Positives(tests[1..]), ParseLines(rest));
    }
  }

  lemma {:induction false} ParseEmitLines(items: seq<Expr>, rest: seq<Token>)
    requires forall i :: 0 <= i < |items| ==> Tight(items[i])
    ensures ParseLines(EmitLines(items) + rest) == Follow(LineLiterals(items), ParseLines(rest))
  {
    if items == [] {
      assert EmitLines(items) + rest == rest;
      PrependNothing(ParseLines(rest));
    } else {
      var more := EmitLines(items[1..]) + rest;
      assert EmitLines(items) + rest == Emit(items[0]) + more;
      ParseEmit(items[0], more);
      ParseEmitLines(items[1..], rest);
      PrependFollow(Literals(items[0]), LineLiterals(items[1..]), ParseLines(rest));
    }
  }

  /** Parentheses around one group. */
  lemma {:induction false} ParenthesisedGroup(inner: seq<Token>, more: seq<Token>, test: Test)
    requires ParseGroup(inner + ([Close] + more)) == Some(Group(test, [Close] + more))
    ensures ParseLines([Open] + inner + [Close] + more) == Prepend([Literal(false, test)], ParseLines(more))
  {
    var text := [Open] + inner + [Close] + more;
    assert text[1..] == inner + ([Close] + more) && text[0] == Open;
    assert ([Close] + more)[1..] == more;
    assert ParseGroup(text) == Some(Group(test, more));
  }

  /** Parentheses around something else. */
  lemma {:induction false} ParenthesisedOther(inner: seq<Token>, more: seq<Token>)
    requires var g := ParseGroup(inner + ([Close] + more)); g.None? || g.value.rest == [] || g.value.rest[0] != Close
    ensures ParseLines([Open] + inner + [Close] + more) == None
  {
    var text := [Open] + inner + [Close] + more;
    assert text[1..] == inner + ([Close] + more) && text[0] == Open;
  }

  /** A parenthesised branch parses exactly when its text is one un-negated literal. */
  lemma {:induction false} ParseBranch(e: Expr, more: seq<Token>)
    requires Tight(e) && Emit(e) != []
    ensures ParseLines([Open] + Emit(e) + [Close] + more)
         == if Sole(Literals(e)) then Prepend(Literals(e).value, ParseLines(more)) else None
    decreases e, 2
  {
    var inner := Emit(e);
    EmitBalanced(e);
    ParseGroupStays(inner, 0, [Close] + more);
    ParseWhole(e);
    var g := ParseGroup(inner);
    if g.Some? && g.value.rest == [] {
      assert g.value.rest + ([Close] + more) == [Close] + more;
      ParenthesisedGroup(inner, more, g.value.test);
      assert ParseLines(inner) == Prepend([Literal(false, g.value.test)], Some([]));
      assert [Literal(false, g.value.test)] + [] == [Literal(false, g.value.test)];
    } else {
      if g.Some? { assert (g.value.rest + ([Close] + more))[0] == g.value.rest[0] != Close; }
      ParenthesisedOther(inner, more);
      assert !Sole(ParseLines(inner));
    }
  }

  lemma {:induction false} ParseEmitBranches(items: seq<Expr>, rest: seq<Token>)
    requires forall i :: 0 <= i < |items| ==> Tight(items[i]) && Emit(items[i]) != []
    ensures ParseLines(EmitBranches(items) + rest) == Follow(BranchLiterals(items), ParseLines(rest))
  {
    if items == [] {
      assert EmitBranches(items) + rest == rest;
      PrependNothing(ParseLines(rest));
    } else {
      var more := EmitBranches(items[1..]) + rest;
      assert EmitBranches(items) + rest == [Open] + Emit(items[0]) + [Close] + more;
      ParseBranch(items[0], more);
      ParseEmitBranches(items[1..], rest);
      PrependFollow(Literals(items[0]), BranchLiterals(items[1..]), ParseLines(rest));
    }
  }
}
