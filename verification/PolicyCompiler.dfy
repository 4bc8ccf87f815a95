/**
 The policy compiler (internal/policy/compiler/compiler.go): validate, group the enabled rules by
 type, emit each group, and hand the text to Rego's parser.
 */
module PolicyCompiler {
  import opened Text
  import opened Json
  import opened Expressions
  import opened ExpressionReader
  import EM = ExpressionMeaning
  import opened RegoTests
  import opened RuleIds
  import opened Policy
  import opened M = RegoModule

  /** An emitted rule, before parsing: template lines, or the text of a custom condition. */
  datatype DraftBody = Lines(clauses: seq<Clause>) | ConditionText(tokens: seq<Token>)

  datatype Draft = Draft(head: Head, body: DraftBody)

  const MIN_INT64: int := -0x8000_0000_0000_0000
  const MAX_INT64: int := 0x7FFF_FFFF_FFFF_FFFF

  /** `int(val)` on a float64: truncation; out-of-range values as on amd64. */
  function TruncateToInt(r: real): int {
    var n := if r >= 0.0 then r.Floor else -((-r).Floor);
    if MIN_INT64 <= n <= MAX_INT64 then n else MIN_INT64
  }

  // ---------------------------------------------------------------- one rule

  function ToolClause(rule: Rule): Clause {
    M.Expr(Render(Test("request.tool", Equals, String(TextOf(rule, "tool")))))
  }

  /** The input field that a block list is compared with. */
  function BlockedField(rule: Rule): string {
    match TextOf(rule, "match_type")
    case "tool" => "request.tool"
    case "agent" => "agent.id"
    case _ => "identity.did"
  }

  function AgentClauses(rule: Rule): seq<Clause> {
    if TextOf(rule, "agent_pattern") != "" then
      [M.Expr(Render(Test("agent.id", Matches, String(TextOf(rule, "agent_pattern")))))]
    else if TextOf(rule, "agent_id") != "" then
      [M.Expr(Render(Test("agent.id", Equals, String(TextOf(rule, "agent_id")))))]
    else []
  }

  function RequestCountClause(limit: int): Clause {
    M.Expr(Render(Test("session.request_count", GreaterEq, Number(limit as real))))
  }

  function CompileRule(rule: Rule, text: Messages): Outcome<seq<Draft>> {
    match KindNamed(rule.kind)
    case None => Err(InvalidPolicy)
    case Some(kind) =>
      var helper := HelperName(rule.id, kind);
      var violation := Violation(text(rule));
      match kind
      case Capability =>
        if !HasText(rule, "tool") || !HasText(rule, "requires_capability") then Err(InvalidPolicy)
        else Ok([
          Draft(Name(helper), Lines([ToolClause(rule), SomeCapability(TextOf(rule, "requires_capability"))])),
          Draft(violation, Lines([ToolClause(rule), NotHelper(helper)]))])
      case Blocklist =>
        var values := Condition(rule, "values");
        if values.None? || !IsStringList(values.value) then Err(NotStringList)
        else Ok([
          Draft(Name(helper), Lines([M.Expr(Render(Test(BlockedField(rule), In, values.value)))])),
          Draft(Name("blocked"), Lines([Helper(helper)])),
          Draft(violation, Lines([Helper(helper)]))])
      case RateLimit =>
        var limit := Condition(rule, "limit");
        if limit.None? || !limit.value.Number? then Err(LimitNotNumber)
        else Ok([
          Draft(Name(helper), Lines(AgentClauses(rule) + [RequestCountClause(TruncateToInt(limit.value.number))])),
          Draft(Name("rate_limit_ok"), Lines([NotHelper(helper)])),
          Draft(violation, Lines([Helper(helper)]))])
      case Custom =>
        var e := ReadExpr(Object(rule.conditions));
        if !e.Ok? then Refail(e)
        else Ok([
          Draft(Name(helper), ConditionText(Emit(e.value))),
          Draft(if rule.action == "deny" then violation else Name("allow"), Lines([Helper(helper)]))])
  }

  // ---------------------------------------------------------------- grouping and concatenation

  function OfKind(rules: seq<Rule>, kind: string): seq<Rule> {
    if rules == [] then []
    else
      var last := rules[|rules| - 1];
      OfKind(rules[..|rules| - 1], kind) + (if IsEnabled(last) && last.kind == kind then [last] else [])
  }

  method GroupRulesByType(rules: seq<Rule>) returns (grouped: map<string, seq<Rule>>)
    ensures forall kind :: kind in grouped <==> OfKind(rules, kind) != []
    ensures forall kind :: kind in grouped ==> grouped[kind] == OfKind(rules, kind)
  {
    grouped := map[];
    for i := 0 to |rules|
      invariant forall kind :: kind in grouped <==> OfKind(rules[..i], kind) != []
      invariant forall kind :: kind in grouped ==> grouped[kind] == OfKind(rules[..i], kind)
    {
      var rule := rules[i];
      assert rules[..i + 1][..i] == rules[..i];
      if IsEnabled(rule) {
        var soFar := if rule.kind in grouped then grouped[rule.kind] else [];
        grouped := grouped[rule.kind := soFar + [rule]];
      }
    }
    assert rules[..|rules|] == rules;
  }

  function Both(a: Outcome<seq<Draft>>, b: Outcome<seq<Draft>>): Outcome<seq<Draft>> {
    if !a.Ok? then a else if !b.Ok? then b else Ok(a.value + b.value)
  }

  function CompileGroup(rules: seq<Rule>, text: Messages): Outcome<seq<Draft>> {
    if rules == [] then Ok([])
    else Both(CompileGroup(rules[..|rules| - 1], text), CompileRule(rules[|rules| - 1], text))
  }

  method CompileRules(rules: seq<Rule>, text: Messages) returns (r: Outcome<seq<Draft>>)
    ensures r == CompileGroup(rules, text)
  {
    var builder: seq<Draft> := [];
    for i := 0 to |rules|
      invariant CompileGroup(rules[..i], text) == Ok(builder)
    {
      assert rules[..i + 1][..i] == rules[..i];
      var rendered := CompileRule(rules[i], text);
      if !rendered.Ok? {
        GroupFails(rules, i + 1, text);
        return rendered;
      }
      builder := builder + rendered.value;
    }
    assert rules[..|rules|] == rules;
    return Ok(builder);
  }

  lemma {:induction false} GroupFails(rules: seq<Rule>, n: nat, text: Messages)
    requires n <= |rules| && !CompileGroup(rules[..n], text).Ok?
    ensures CompileGroup(rules, text) == CompileGroup(rules[..n], text)
    decreases |rules|
  {
    if n == |rules| {
      assert rules[..n] == rules;
    } else {
      assert rules[..|rules| - 1][..n] == rules[..n];
      GroupFails(rules[..|rules| - 1], n, text);
    }
  }

  // ---------------------------------------------------------------- text that is not quoted

  /** No string anywhere in the value has a line break. */
  predicate OneLine(v: Json) {
    match v
    case String(text) => '\n' !in text
    case Array(items) => forall i :: 0 <= i < |items| ==> OneLine(items[i])
    case Object(members) => forall i :: 0 <= i < |members| ==> '\n' !in members[i].key && OneLine(members[i].value)
    case _ => true
  }

  /** What a rule pastes into the module without quotes stays what the template takes it for: the text
      of its comment stays on the comment's line, and its field paths are references. */
  predicate PlainRule(rule: Rule) {
    match KindNamed(rule.kind)
    case Some(Capability) => '\n' !in TextOf(rule, "tool") && '\n' !in TextOf(rule, "requires_capability")
    case Some(Blocklist) => Condition(rule, "values").Some? ==> OneLine(Condition(rule, "values").value)
    case Some(Custom) =>
      var e := ReadExpr(Object(rule.conditions));
      OneLine(Object(rule.conditions)) && (e.Ok? ==> forall t :: t in EM.TestsOf(e.value) ==> PlainPath(t.path))
    case _ => true
  }

  predicate PlainPolicy(p: Policy) {
    '\n' !in p.description && forall rule :: rule in p.rules && IsEnabled(rule) ==> PlainRule(rule)
  }

  /** Rego's reading of modules into which something else was pasted: anything is possible. */
  type Reader = seq<Draft> -> Outcome<Module>

  // ---------------------------------------------------------------- Rego's parser

  function LoadLiteral(l: Literal): Clause {
    if l.negated then NotExpr(Render(l.test)) else M.Expr(Render(l.test))
  }

  function LoadBody(body: DraftBody): Option<seq<Clause>> {
    match body
    case Lines(clauses) => Some(clauses)
    case ConditionText(tokens) =>
      var literals := ParseBody(tokens);
      if literals.None? || exists i :: 0 <= i < |literals.value| && !Printable(literals.value[i].test.value) then None
      else Some(seq(|literals.value|, i requires 0 <= i < |literals.value| => LoadLiteral(literals.value[i])))
  }

  /** validateGeneratedRego on plain text: the module is kept only if every body parses. */
  function Load(drafts: seq<Draft>): Outcome<Module> {
    if exists i :: 0 <= i < |drafts| && LoadBody(drafts[i].body).None? then Err(RejectedByRego)
    else Ok(seq(|drafts|, i requires 0 <= i < |drafts| => LoadRule(drafts[i])))
  }

  function LoadRule(d: Draft): RegoRule {
    RegoRule(d.head, if LoadBody(d.body).Some? then LoadBody(d.body).value else [])
  }

  // ---------------------------------------------------------------- the whole policy

  /** The order in which Compile visits the groups. */
  const KINDS: seq<string> := ["capability", "blocklist", "rate_limit", "custom"]

  function Drafts(rules: seq<Rule>, kinds: seq<string>, text: Messages): Outcome<seq<Draft>> {
    if kinds == [] then Ok([])
    else Both(CompileGroup(OfKind(rules, kinds[0]), text), Drafts(rules, kinds[1..], text))
  }

  /** The module of a policy whose text is plain. */
  function Loaded(p: Policy, text: Messages): Outcome<Module> {
    if !ValidPolicy(p) then Err(InvalidPolicy)
    else
      var drafts := Drafts(p.rules, KINDS, text);
      if drafts.Ok? then Load(drafts.value) else Refail(drafts)
  }

  function Compiled(p: Policy, text: Messages, rego: Reader): Outcome<Module> {
    var drafts := Drafts(p.rules, KINDS, text);
    if ValidPolicy(p) && drafts.Ok? && !PlainPolicy(p) then rego(drafts.value) else Loaded(p, text)
  }

  method Compile(validator: Validator, p: Policy, text: Messages, rego: Reader) returns (r: Outcome<Module>)
    modifies validator
    ensures r == Compiled(p, text, rego)
  {
    var valid := validator.Validate(p);
    if !valid {
      return Err(InvalidPolicy);
    }
    var grouped := GroupRulesByType(p.rules);
    var builder: seq<Draft> := [];
    BothEmpty(Drafts(p.rules, KINDS, text));
    for i := 0 to |KINDS|
      invariant Both(Ok(builder), Drafts(p.rules, KINDS[i..], text)) == Drafts(p.rules, KINDS, text)
    {
      assert KINDS[i..][1..] == KINDS[i + 1..];
      BothAssociates(builder, CompileGroup(OfKind(p.rules, KINDS[i]), text), Drafts(p.rules, KINDS[i + 1..], text));
      if KINDS[i] in grouped {
        var content := CompileRules(grouped[KINDS[i]], text);
        if !content.Ok? {
          return Refail(content);
        }
        builder := builder + content.value;
      } else {
        assert builder + [] == builder;
      }
    }
    assert builder + [] == builder;
    return if PlainPolicy(p) then Load(builder) else rego(builder);
  }

  lemma BothAssociates(a: seq<Draft>, b: Outcome<seq<Draft>>, c: Outcome<seq<Draft>>)
    ensures Both(Ok(a), Both(b, c)) == Both(Both(Ok(a), b), c)
  {
    if b.Ok? && c.Ok? {
      assert a + b.value + c.value == a + (b.value + c.value);
    }
  }

  lemma BothEmpty(b: Outcome<seq<Draft>>)
    ensures Both(Ok([]), b) == b
  {
    if b.Ok? {
      assert [] + b.value == b.value;
    }
  }
}
