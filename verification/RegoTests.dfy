/**
 Single comparisons: how each is written in Rego (internal/policy/compiler/expression.go:164-313)
 and what Rego makes of the result.  Undefined references and ill-typed builtin calls fail.
 */
module RegoTests {
  import opened Text
  import opened Json
  import opened Expressions

  /** The input document with Rego's regular expressions and its order on values. */
  datatype Env = Env(input: Json, regex: (string, string) -> bool, less: (Json, Json) -> bool)

  // ---------------------------------------------------------------- the author's reading

  /** A field path, with or without the `input.` prefix, looked up in the input. */
  function FieldValue(path: string, env: Env): Option<Json> {
    Navigate(env.input, Split(if HasPrefix(path, "input.") then path[6..] else path, '.'))
  }

  predicate TestHolds(t: Test, env: Env) {
    var field := FieldValue(t.path, env);
    field.Some? && Compares(t.op, field.value, t.value, env)
  }

  /** Which tests hold of the input. */
  function Truth(env: Env): Valuation {
    t => TestHolds(t, env)
  }

  /** The operator's meaning on a present field. */
  predicate Compares(op: Operator, field: Json, value: Json, env: Env) {
    match op
    case Equals => field == value
    case NotEquals => field != value
    case Greater => env.less(value, field)
    case GreaterEq => env.less(value, field) || field == value
    case Less => env.less(field, value)
    case LessEq => env.less(field, value) || field == value
    case Contains => field.String? && value.String? && HasSubstring(field.text, value.text)
    case StartsWith => field.String? && value.String? && HasPrefix(field.text, value.text)
    case EndsWith => field.String? && value.String? && HasSuffix(field.text, value.text)
    case Matches => field.String? && value.String? && env.regex(value.text, field.text)
    case In => value.Array? && field in value.items
  }

  // ---------------------------------------------------------------- the emitted expression

  /** `Pasted` is a path that is not a plain reference; the text is whatever the author wrote. */
  datatype Term = Reference(steps: seq<string>) | Constant(value: Json) | Pasted(text: string)

  datatype Symbol = EqualSign | NotEqualSign | GreaterSign | GreaterEqSign | LessSign | LessEqSign | InKeyword

  datatype Builtin = ContainsCall | StartsWithCall | EndsWithCall | RegexMatchCall

  datatype RegoExpr =
    | Infix(left: Term, symbol: Symbol, right: Term)
    | Call(builtin: Builtin, first: Term, second: Term)

  function FieldPathToRego(path: string): string {
    if HasPrefix(path, "input.") then path else "input." + path
  }

  /** The path is written as dot-separated identifiers, so that Rego reads it as the reference meant. */
  predicate PlainPath(path: string) {
    forall step :: step in Split(FieldPathToRego(path), '.') ==> IsIdentifier(step)
  }

  function PathTerm(path: string): Term {
    if PlainPath(path) then Reference(Split(FieldPathToRego(path), '.')) else Pasted(FieldPathToRego(path))
  }

  predicate IsWhole(r: real) { r.Floor as real == r }

  /** The nearest integer, ties to even. */
  function Nearest(r: real): int {
    var gap := r - r.Floor as real;
    if gap < 0.5 || (gap == 0.5 && r.Floor % 2 == 0) then r.Floor else r.Floor + 1
  }

  /** `%f` keeps six decimals. */
  function RoundToMillionths(r: real): real {
    Nearest(r * 1000000.0) as real / 1000000.0
  }

  function EmitNumber(r: real): real {
    if IsWhole(r) then r else RoundToMillionths(r)
  }

  /** The value that the printed literal denotes. */
  function EmitValue(v: Json): Json {
    match v
    case Number(n) => Number(EmitNumber(n))
    case Array(items) => Array(seq(|items|, i requires 0 <= i < |items| => EmitValue(items[i])))
    case _ => v
  }

  function Render(t: Test): RegoExpr {
    RenderOp(t.op, PathTerm(t.path), Constant(if t.op == In then t.value else EmitValue(t.value)))
  }

  /** The line written for each operator; lists are printed as they are. */
  function RenderOp(op: Operator, path: Term, literal: Term): RegoExpr {
    match op
    case Equals => Infix(path, EqualSign, literal)
    case NotEquals => Infix(path, NotEqualSign, literal)
    case Greater => Infix(path, GreaterSign, literal)
    case GreaterEq => Infix(path, GreaterEqSign, literal)
    case Less => Infix(path, LessSign, literal)
    case LessEq => Infix(path, LessEqSign, literal)
    case Contains => Call(ContainsCall, path, literal)
    case StartsWith => Call(StartsWithCall, path, literal)
    case EndsWith => Call(EndsWithCall, path, literal)
    case Matches => Call(RegexMatchCall, literal, path)
    case In => Infix(path, InKeyword, literal)
  }

  // ---------------------------------------------------------------- Rego's reading

  function TermValue(term: Term, env: Env): Option<Json> {
    match term
    case Constant(value) => Some(value)
    case Reference(steps) =>
      if steps != [] && steps[0] == "input" then Navigate(env.input, steps[1..]) else None
    case Pasted(_) => None
  }

  predicate RegoHolds(x: RegoExpr, env: Env) {
    match x
    case Infix(left, symbol, right) =>
      var a, b := TermValue(left, env), TermValue(right, env);
      a.Some? && b.Some? && InfixHolds(symbol, a.value, b.value, env)
    case Call(builtin, first, second) =>
      var a, b := TermValue(first, env), TermValue(second, env);
      a.Some? && b.Some? && CallHolds(builtin, a.value, b.value, env)
  }

  predicate InfixHolds(symbol: Symbol, a: Json, b: Json, env: Env) {
    match symbol
    case EqualSign => a == b
    case NotEqualSign => a != b
    case GreaterSign => env.less(b, a)
    case GreaterEqSign => env.less(b, a) || a == b
    case LessSign => env.less(a, b)
    case LessEqSign => env.less(a, b) || a == b
    case InKeyword => b.Array? && a in b.items
  }

  predicate CallHolds(builtin: Builtin, a: Json, b: Json, env: Env) {
    && a.String? && b.String?
    && match builtin
       case ContainsCall => HasSubstring(a.text, b.text)
       case StartsWithCall => HasPrefix(a.text, b.text)
       case EndsWithCall => HasSuffix(a.text, b.text)
       case RegexMatchCall => env.regex(a.text, b.text)
  }

  // ---------------------------------------------------------------- what the parser accepts

  /** `map[...]`, the print of an object, is not Rego. */
  predicate Printable(v: Json) {
    match v
    case Object(_) => false
    case Array(items) => forall i :: 0 <= i < |items| ==> Printable(items[i])
    case _ => true
  }

  // ---------------------------------------------------------------- agreement

  /** Printable, and every number survives printing with six decimals. */
  predicate ExactLiteral(v: Json) {
    match v
    case Object(_) => false
    case Array(items) => forall i :: 0 <= i < |items| ==> ExactLiteral(items[i])
    case Number(n) => IsWhole(n * 1000000.0)
    case _ => true
  }

  lemma EmitNumberExact(r: real)
    ensures EmitNumber(r) == r <==> IsWhole(r * 1000000.0)
  {
    if IsWhole(r) {
      WholeScaled(r.Floor);
    } else {
      NearestWhole(r * 1000000.0);
    }
  }

  lemma WholeScaled(n: int)
    ensures IsWhole(n as real * 1000000.0)
  {
    var m := n * 1000000;
    assert m as real == n as real * 1000000.0;
    assert (m as real).Floor == m;
  }

  lemma NearestWhole(r: real)
    ensures Nearest(r) as real == r <==> IsWhole(r)
  {
  }

  /** A literal reaches Rego unchanged exactly when its numbers have at most six decimals. */
  lemma {:induction false} EmitValueExact(v: Json)
    requires Printable(v)
    ensures EmitValue(v) == v <==> ExactLiteral(v)
  {
    match v
    case Number(n) => EmitNumberExact(n);
    case Array(items) =>
      var printed := seq(|items|, i requires 0 <= i < |items| => EmitValue(items[i]));
      forall i | 0 <= i < |items| ensures printed[i] == items[i] <==> ExactLiteral(items[i]) {
        EmitValueExact(items[i]);
      }
      if ExactLiteral(v) { assert printed == items; }
    case _ =>
  }

  /** A plain path's reference finds what the path names. */
  lemma {:induction false} PathTermMeans(path: string, env: Env)
    requires PlainPath(path)
    ensures TermValue(PathTerm(path), env) == FieldValue(path, env)
  {
    var tail := if HasPrefix(path, "input.") then path[6..] else path;
    assert "input." == "input" + ['.'];
    assert FieldPathToRego(path) == "input" + ['.'] + tail;
    SplitFirst("input", '.', tail);
  }

  /** An emitted comparison holds of exactly the inputs the author's comparison holds of. */
  lemma {:induction false} RenderMeans(t: Test, env: Env)
    requires PlainPath(t.path) && ExactLiteral(t.value)
    ensures RegoHolds(Render(t), env) <==> TestHolds(t, env)
  {
    ExactIsPrintable(t.value);
    EmitValueExact(t.value);
    PathTermMeans(t.path, env);
    RenderedOp(t.op, PathTerm(t.path), t.value, env);
  }

  lemma {:induction false} RenderedOp(op: Operator, path: Term, value: Json, env: Env)
    ensures RegoHolds(RenderOp(op, path, Constant(value)), env) <==>
              TermValue(path, env).Some? && Compares(op, TermValue(path, env).value, value, env)
  {
  }

  /** A path of two plain steps. */
  lemma {:induction false} TwoSteps(path: string, section: string, key: string)
    requires path == section + "." + key && '.' !in section && '.' !in key && section != "input"
    ensures Split(FieldPathToRego(path), '.') == ["input", section, key]
    ensures forall env :: FieldValue(path, env) == Navigate(env.input, [section, key])
  {
    var tail := section + ['.'] + key;
    assert path == tail;
    PrefixSection(section, key);
    SplitFirst(section, '.', key);
    SplitWhole(key, '.');
    assert FieldPathToRego(path) == "input" + ['.'] + tail;
    SplitFirst("input", '.', tail);
  }

  lemma {:induction false} PrefixSection(section: string, key: string)
    requires '.' !in section
    ensures HasPrefix(section + ['.'] + key, "input.") ==> section == "input"
  {
    var s := section + ['.'] + key;
    if HasPrefix(s, "input.") {
      assert s[..6] == "input.";
      assert s[..6][5] == '.' && forall i :: 0 <= i < 5 ==> s[..6][i] == "input"[i];
      assert s[|section|] == '.';
      assert |section| == 5;
      assert section == s[..6][..5];
    }
  }

  lemma {:induction false} PlainTwoSteps(path: string, section: string, key: string)
    requires path == section + "." + key && IsIdentifier(section) && IsIdentifier(key) && IsIdentifier("input") && section != "input"
    ensures PlainPath(path)
    ensures forall env :: FieldValue(path, env) == Navigate(env.input, [section, key])
  {
    TwoSteps(path, section, key);
  }

  lemma {:induction false} ToolPath()
    ensures PlainPath("request.tool") && forall env :: FieldValue("request.tool", env) == Navigate(env.input, ["request", "tool"])
  {
    assert "request.tool" == "request" + "." + "tool";
    PlainTwoSteps("request.tool", "request", "tool");
  }

  lemma {:induction false} AgentPath()
    ensures PlainPath("agent.id") && forall env :: FieldValue("agent.id", env) == Navigate(env.input, ["agent", "id"])
  {
    assert "agent.id" == "agent" + "." + "id";
    PlainTwoSteps("agent.id", "agent", "id");
  }

  lemma {:induction false} CapabilitiesPath()
    ensures PlainPath("agent.capabilities")
    ensures forall env :: FieldValue("agent.capabilities", env) == Navigate(env.input, ["agent", "capabilities"])
  {
    assert "agent.capabilities" == "agent" + "." + "capabilities";
    PlainTwoSteps("agent.capabilities", "agent", "capabilities");
  }

  lemma {:induction false} DidPath()
    ensures PlainPath("identity.did") && forall env :: FieldValue("identity.did", env) == Navigate(env.input, ["identity", "did"])
  {
    assert "identity.did" == "identity" + "." + "did";
    PlainTwoSteps("identity.did", "identity", "did");
  }

  lemma {:induction false} CountPath()
    ensures PlainPath("session.request_count")
    ensures forall env :: FieldValue("session.request_count", env) == Navigate(env.input, ["session", "request_count"])
  {
    assert "session.request_count" == "session" + "." + "request_count";
    PlainTwoSteps("session.request_count", "session", "request_count");
  }

  lemma {:induction false} ExactIsPrintable(v: Json)
    requires ExactLiteral(v)
    ensures Printable(v)
  {
    if v.Array? {
      forall i | 0 <= i < |v.items| ensures Printable(v.items[i]) { ExactIsPrintable(v.items[i]); }
    }
  }

  /** Six decimals are needed: a smaller threshold is printed as zero. */
  lemma SmallThresholdLost()
    ensures EmitNumber(0.0000001) == 0.0
  {
    var r := 0.0000001;
    assert (r * 1000000.0).Floor == 0;
    assert r.Floor == 0;
  }
}
