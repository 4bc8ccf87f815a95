/**
 Compiler correctness: the generated module raises the violations, and decides `blocked` and `allow`,
 exactly as the enabled rules of the JSON policy do when read directly.
 */
module PolicyCorrectness {
  import opened Text
  import opened Json
  import opened Expressions
  import opened ExpressionReader
  import opened EM = ExpressionMeaning
  import opened RegoTests
  import opened AuthorReading
  import opened Capabilities
  import opened RuleIds
  import opened Policy
  import opened M = RegoModule
  import opened PolicyCompiler

  // ---------------------------------------------------------------- side conditions

  /** The limit is a whole number in int64 range. */
  predicate ExactLimit(r: real) {
    IsWhole(r) && r.Floor <= MAX_INT64
  }

  /** Truncating the limit is harmless exactly when nothing is cut off: 0.5 would become 0. */
  lemma LimitTruncation(r: real)
    requires r > 0.0
    ensures (forall n: int :: Reaches(n, r) <==> Reaches(n, TruncateToInt(r) as real)) <==> ExactLimit(r)
  {
    var t := TruncateToInt(r);
    if !ExactLimit(r) {
      assert !Reaches(t, r) && Reaches(t, t as real);
    }
  }

  predicate Reaches(count: int, limit: real) {
    count as real >= limit
  }

  predicate PlainTests(e: Expr) {
    forall t :: t in TestsOf(e) ==> PlainPath(t.path)
  }

  predicate ExactTests(e: Expr) {
    forall t :: t in TestsOf(e) ==> ExactLiteral(t.value)
  }

  /** The rule's own text means what its JSON says. */
  predicate RuleExact(rule: Rule)
    requires ValidRule(rule)
  {
    && PlainRule(rule)
    && match KindNamed(rule.kind).value
       case RateLimit => ExactLimit(Condition(rule, "limit").value.number)
       case Custom =>
         var e := ReadExpr(Object(rule.conditions));
         e.Ok? ==> Faithful(e.value) && ExactTests(e.value)
       case _ => true
  }

  predicate RulesExact(p: Policy)
    requires ValidPolicy(p)
  {
    '\n' !in p.description && forall rule :: rule in p.rules && IsEnabled(rule) ==> RuleExact(rule)
  }

  // ---------------------------------------------------------------- where emitted rules come from

  lemma {:induction false} OfKindMember(rules: seq<Rule>, kind: string, rule: Rule)
    ensures rule in OfKind(rules, kind) <==> rule in rules && IsEnabled(rule) && rule.kind == kind
  {
    if rules != [] {
      var front, last := rules[..|rules| - 1], rules[|rules| - 1];
      assert rules == front + [last];
      OfKindMember(front, kind, rule);
    }
  }

  /** The emissions of several rules put together, or the first error. */
  function Concat(parts: seq<Outcome<seq<Draft>>>): Outcome<seq<Draft>> {
    if parts == [] then Ok([]) else Both(Concat(parts[..|parts| - 1]), parts[|parts| - 1])
  }

  function Emissions(rules: seq<Rule>, text: Messages): (parts: seq<Outcome<seq<Draft>>>)
    ensures |parts| == |rules|
  {
    seq(|rules|, i requires 0 <= i < |rules| => CompileRule(rules[i], text))
  }

  lemma {:induction false} GroupIsConcat(rules: seq<Rule>, text: Messages)
    ensures CompileGroup(rules, text) == Concat(Emissions(rules, text))
  {
    if rules != [] {
      GroupIsConcat(rules[..|rules| - 1], text);
      assert Emissions(rules, text)[..|rules| - 1] == Emissions(rules[..|rules| - 1], text);
    }
  }

  lemma {:induction false} ConcatMember(parts: seq<Outcome<seq<Draft>>>, d: Draft)
    requires Concat(parts).Ok?
    ensures forall i :: 0 <= i < |parts| ==> parts[i].Ok?
    ensures d in Concat(parts).value <==> exists i :: 0 <= i < |parts| && d in parts[i].value
  {
    if parts != [] {
      ConcatMember(parts[..|parts| - 1], d);
    }
  }

  lemma {:induction false} GroupMember(rules: seq<Rule>, text: Messages, d: Draft)
    requires CompileGroup(rules, text).Ok?
    ensures forall rule :: rule in rules ==> CompileRule(rule, text).Ok?
    ensures d in CompileGroup(rules, text).value <==> exists rule :: rule in rules && d in CompileRule(rule, text).value
  {
    var parts := Emissions(rules, text);
    GroupIsConcat(rules, text);
    ConcatMember(parts, d);
    forall rule | rule in rules ensures CompileRule(rule, text).Ok? {
      var i :| 0 <= i < |rules| && rules[i] == rule;
      assert parts[i].Ok?;
    }
    if d in Concat(parts).value {
      var i :| 0 <= i < |parts| && d in parts[i].value;
      assert rules[i] in rules;
    }
    if rule :| rule in rules && d in CompileRule(rule, text).value {
      var i :| 0 <= i < |rules| && rules[i] == rule;
      assert d in parts[i].value;
    }
  }

  lemma {:induction false} DraftMember(rules: seq<Rule>, kinds: seq<string>, text: Messages, d: Draft)
    requires Drafts(rules, kinds, text).Ok?
    ensures forall rule :: rule in rules && IsEnabled(rule) && rule.kind in kinds ==> CompileRule(rule, text).Ok?
    ensures d in Drafts(rules, kinds, text).value <==>
              exists rule :: rule in rules && IsEnabled(rule) && rule.kind in kinds && d in CompileRule(rule, text).value
  {
    if kinds != [] {
      var first, rest := kinds[0], kinds[1..];
      assert forall k :: k in kinds <==> k == first || k in rest;
      var group := OfKind(rules, first);
      GroupMember(group, text, d);
      DraftMember(rules, rest, text, d);
      forall rule ensures rule in group <==> rule in rules && IsEnabled(rule) && rule.kind == first {
        OfKindMember(rules, first, rule);
      }
    }
  }

  /** The loaded rules that one policy rule gives rise to. */
  function LoadedRules(rule: Rule, text: Messages): seq<RegoRule>
    requires CompileRule(rule, text).Ok?
  {
    var drafts := CompileRule(rule, text).value;
    seq(|drafts|, i requires 0 <= i < |drafts| => LoadRule(drafts[i]))
  }

  lemma LoadMember(drafts: seq<Draft>, r: RegoRule)
    requires Load(drafts).Ok?
    ensures r in Load(drafts).value <==> exists d :: d in drafts && LoadRule(d) == r
  {
    var m := Load(drafts).value;
    if r in m {
      var i :| 0 <= i < |m| && m[i] == r;
      assert drafts[i] in drafts && LoadRule(drafts[i]) == r;
    }
    if d :| d in drafts && LoadRule(d) == r {
      var i :| 0 <= i < |drafts| && drafts[i] == d;
      assert m[i] == r;
    }
  }

  lemma LoadedMember(rule: Rule, text: Messages, r: RegoRule)
    requires CompileRule(rule, text).Ok?
    ensures r in LoadedRules(rule, text) <==> exists d :: d in CompileRule(rule, text).value && LoadRule(d) == r
  {
    var drafts, m := CompileRule(rule, text).value, LoadedRules(rule, text);
    if r in m {
      var i :| 0 <= i < |m| && m[i] == r;
      assert drafts[i] in drafts && LoadRule(drafts[i]) == r;
    }
    if d :| d in drafts && LoadRule(d) == r {
      var i :| 0 <= i < |drafts| && drafts[i] == d;
      assert m[i] == r;
    }
  }

  lemma KnownKind(rule: Rule)
    requires ValidRule(rule)
    ensures rule.kind in KINDS
  {
    assert KINDS[0] == "capability" && KINDS[1] == "blocklist" && KINDS[2] == "rate_limit" && KINDS[3] == "custom";
  }

  /** A rule is in the module iff some enabled policy rule emitted it, regrouping notwithstanding. */
  lemma {:induction false} ModuleMember(p: Policy, text: Messages, r: RegoRule)
    requires Loaded(p, text).Ok?
    ensures forall rule :: rule in p.rules && IsEnabled(rule) ==> CompileRule(rule, text).Ok?
    ensures r in Loaded(p, text).value <==>
              exists rule :: rule in p.rules && IsEnabled(rule) && r in LoadedRules(rule, text)
  {
    var drafts := Drafts(p.rules, KINDS, text).value;
    LoadMember(drafts, r);
    forall rule | rule in p.rules ensures rule.kind in KINDS { KnownKind(rule); }
    DraftMember(p.rules, KINDS, text, Draft(r.head, Lines(r.body)));
    if r in Loaded(p, text).value {
      var d :| d in drafts && LoadRule(d) == r;
      DraftMember(p.rules, KINDS, text, d);
      var rule :| rule in p.rules && IsEnabled(rule) && d in CompileRule(rule, text).value;
      LoadedMember(rule, text, r);
    }
    if rule :| rule in p.rules && IsEnabled(rule) && r in LoadedRules(rule, text) {
      LoadedMember(rule, text, r);
      var d :| d in CompileRule(rule, text).value && LoadRule(d) == r;
      DraftMember(p.rules, KINDS, text, d);
    }
  }

  // ---------------------------------------------------------------- helpers mean their conditions

  function KindOf(rule: Rule): RuleType
    requires ValidRule(rule)
  {
    KindNamed(rule.kind).value
  }

  const OWN_NAMES: set<string> := {"blocked", "allow", "rate_limit_ok"}

  /** The first rule emitted defines the helper; the others define the module's own names. */
  lemma HelperFirst(rule: Rule, text: Messages)
    requires ValidRule(rule) && CompileRule(rule, text).Ok?
    ensures var rs := LoadedRules(rule, text);
      && |rs| >= 2 && rs[0].head == Name(HelperName(rule.id, KindOf(rule)))
      && forall i :: 0 < i < |rs| ==> rs[i].head.Violation? || rs[i].head.name in OWN_NAMES
  {
  }

  lemma TwoClauses(a: Clause, b: Clause, env: Env)
    ensures GroundBody([a, b], env) <==> GroundHolds(a, env) && GroundHolds(b, env)
  {
    assert [a, b][0] == a && [a, b][1] == b;
  }

  lemma OneClause(a: Clause, env: Env)
    ensures GroundBody([a], env) <==> GroundHolds(a, env)
  {
    assert [a][0] == a;
  }

  lemma {:induction false} TestClause(t: Test, env: Env)
    requires PlainPath(t.path) && ExactLiteral(t.value)
    ensures GroundHolds(M.Expr(Render(t)), env) <==> TestHolds(t, env)
  {
    RenderMeans(t, env);
  }

  lemma GroundAppend(a: seq<Clause>, b: Clause, env: Env)
    ensures GroundBody(a + [b], env) <==> GroundBody(a, env) && GroundHolds(b, env)
  {
    if GroundBody(a + [b], env) {
      forall i | 0 <= i < |a| ensures GroundHolds(a[i], env) { assert (a + [b])[i] == a[i]; }
      assert (a + [b])[|a|] == b;
    }
  }

  // ---------------------------------------------------------------- the direct reading in the compiler's terms

  lemma {:induction false} TestReads(path: string, name: string, op: Operator, value: Json, env: Env)
    requires OperatorNamed(name) == Some(Plain(op))
    ensures FieldSays(path, name, value, env) <==> TestHolds(Test(path, op, value), env)
  {
    TestSays(path, name, op, value, env);
  }

  lemma {:induction false} ToolReads(rule: Rule, env: Env)
    requires HasText(rule, "tool")
    ensures ToolIs(rule, env) <==> TestHolds(Test("request.tool", Equals, String(TextOf(rule, "tool"))), env)
  {
  }

  lemma {:induction false} CapabilityReads(rule: Rule, env: Env)
    requires ValidRule(rule) && rule.kind == "capability"
    ensures HasText(rule, "tool")
    ensures Triggers(rule, env) <==> ToolIs(rule, env) && AgentHolds(TextOf(rule, "requires_capability"), env)
  {
  }

  lemma {:induction false} BlocklistReads(rule: Rule, env: Env)
    requires ValidRule(rule) && rule.kind == "blocklist"
    ensures Triggers(rule, env) <==> TestHolds(Test(BlockedField(rule), In, Condition(rule, "values").value), env)
  {
    BlocklistPlace(rule, env);
    ThreeNames();
    TestReads(BlockedField(rule), "in", In, Condition(rule, "values").value, env);
  }

  lemma {:induction false} BlocklistPlace(rule: Rule, env: Env)
    requires ValidRule(rule) && rule.kind == "blocklist"
    ensures OnBlocklist(rule, env) <==> FieldSays(BlockedField(rule), "in", Condition(rule, "values").value, env)
  {
    if Blocks(rule, "tool") {
      assert BlockedField(rule) == "request.tool" && !Blocks(rule, "agent") && !Blocks(rule, "did");
    } else if Blocks(rule, "agent") {
      assert BlockedField(rule) == "agent.id" && !Blocks(rule, "did");
    } else {
      assert Blocks(rule, "did") && BlockedField(rule) == "identity.did";
    }
  }

  lemma {:induction false} SelectorReads(rule: Rule, env: Env)
    ensures LimitApplies(rule, env) <==>
      if TextOf(rule, "agent_pattern") != "" then TestHolds(Test("agent.id", Matches, String(TextOf(rule, "agent_pattern"))), env)
      else if TextOf(rule, "agent_id") != "" then TestHolds(Test("agent.id", Equals, String(TextOf(rule, "agent_id"))), env)
      else true
  {
    ThreeNames();
    TestReads("agent.id", "matches", Matches, String(TextOf(rule, "agent_pattern")), env);
    TestReads("agent.id", "eq", Equals, String(TextOf(rule, "agent_id")), env);
  }

  lemma {:induction false} LimitReads(rule: Rule, env: Env)
    requires ValidRule(rule) && rule.kind == "rate_limit"
    ensures Triggers(rule, env) <==>
      LimitApplies(rule, env) && TestHolds(Test("session.request_count", GreaterEq, Condition(rule, "limit").value), env)
  {
    TestReads("session.request_count", "gte", GreaterEq, Condition(rule, "limit").value, env);
  }

  lemma {:induction false} CustomReads(rule: Rule, env: Env)
    requires rule.kind == "custom" && ReadExpr(Object(rule.conditions)).Ok?
    ensures Triggers(rule, env) <==> Holds(ReadExpr(Object(rule.conditions)).value, Truth(env))
  {
    ReadMeans(Object(rule.conditions), env);
  }

  lemma {:induction false} ElementsInclude(held: Json, c: string)
    ensures Includes(held, String(c)) <==> exists i :: 0 <= i < |Elements(held)| && Elements(held)[i] == String(c)
  {
    if held.Array? {
      assert Elements(held) == held.items;
    } else if held.Object? {
      if m :| m in held.members && m.value == String(c) {
        var i :| 0 <= i < |held.members| && held.members[i] == m;
        assert Elements(held)[i] == String(c);
      }
      if i :| 0 <= i < |Elements(held)| && Elements(held)[i] == String(c) {
        assert held.members[i] in held.members;
      }
    }
  }

  lemma {:induction false} HeldPath(env: Env)
    ensures TermValue(Reference(["input", "agent", "capabilities"]), env) == FieldValue("agent.capabilities", env)
  {
    CapabilitiesPath();
    assert ["input", "agent", "capabilities"][1..] == ["agent", "capabilities"];
  }

  /** The emitted `some cap in` line finds what the agent holds. */
  lemma {:induction false} CapabilityClause(required: string, env: Env)
    ensures GroundHolds(SomeCapability(required), env) <==> AgentHolds(required, env)
  {
    HeldPath(env);
    var held := FieldValue("agent.capabilities", env);
    if held.Some? {
      GrantedIff(held.value, required);
    }
  }

  lemma {:induction false} GrantedIff(held: Json, required: string)
    ensures Granted(held, required) <==>
      exists i :: 0 <= i < |Elements(held)| && Elements(held)[i].String? && CapabilityMatches(Elements(held)[i].text, required)
  {
    if c: string :| Includes(held, String(c)) && Covers(c, required) {
      ElementsInclude(held, c);
      MatchesIff(c, required);
    }
    if i :| 0 <= i < |Elements(held)| && Elements(held)[i].String? && CapabilityMatches(Elements(held)[i].text, required) {
      ElementsInclude(held, Elements(held)[i].text);
      MatchesIff(Elements(held)[i].text, required);
    }
  }

  // ---------------------------------------------------------------- bodies mean their conditions

  lemma {:induction false} AgentBody(rule: Rule, env: Env)
    ensures GroundBody(AgentClauses(rule), env) <==> LimitApplies(rule, env)
  {
    var pattern, id := TextOf(rule, "agent_pattern"), TextOf(rule, "agent_id");
    SelectorReads(rule, env);
    AgentPath();
    TestClause(Test("agent.id", Matches, String(pattern)), env);
    TestClause(Test("agent.id", Equals, String(id)), env);
    OneClause(M.Expr(Render(Test("agent.id", Matches, String(pattern)))), env);
    OneClause(M.Expr(Render(Test("agent.id", Equals, String(id)))), env);
  }

  lemma {:induction false} CountClause(limit: real, env: Env)
    requires limit > 0.0 && ExactLimit(limit)
    ensures GroundHolds(RequestCountClause(TruncateToInt(limit)), env) <==>
              TestHolds(Test("session.request_count", GreaterEq, Number(limit)), env)
  {
    WholeLimit(limit);
    CountPath();
    TestClause(Test("session.request_count", GreaterEq, Number(limit)), env);
  }

  lemma {:induction false} WholeLimit(limit: real)
    requires limit > 0.0 && ExactLimit(limit)
    ensures TruncateToInt(limit) as real == limit && ExactLiteral(Number(limit))
  {
    WholeScaled(limit.Floor);
  }

  lemma {:induction false} LimitBody(rule: Rule, limit: real, env: Env)
    requires limit > 0.0 && ExactLimit(limit)
    ensures GroundBody(AgentClauses(rule) + [RequestCountClause(TruncateToInt(limit))], env) <==>
              LimitApplies(rule, env) && TestHolds(Test("session.request_count", GreaterEq, Number(limit)), env)
  {
    CountClause(limit, env);
    AgentBody(rule, env);
    GroundAppend(AgentClauses(rule), RequestCountClause(TruncateToInt(limit)), env);
  }

  /** A custom condition: parse, render and evaluate agree with the direct reading. */
  lemma {:induction false} ConditionBody(e: Expr, env: Env)
    requires Faithful(e) && ExactTests(e) && PlainTests(e) && LoadBody(ConditionText(Emit(e))).Some?
    ensures GroundBody(LoadBody(ConditionText(Emit(e))).value, env) <==> Holds(e, Truth(env))
  {
    var body := ParseBody(Emit(e)).value;
    var clauses := LoadBody(ConditionText(Emit(e))).value;
    var v := Truth(env);
    FaithfulIsTight(e);
    ParseWhole(e);
    LiteralTests(e);
    FaithfulReading(e, v);
    forall i | 0 <= i < |body| ensures GroundHolds(clauses[i], env) == LiteralHolds(body[i], v) {
      assert TestsIn(body)[i] == body[i].test && body[i].test in TestsOf(e);
      RenderMeans(body[i].test, env);
    }
  }

  lemma {:induction false} HelperBodyMeans(rule: Rule, text: Messages, env: Env)
    requires ValidRule(rule) && RuleExact(rule)
    requires CompileRule(rule, text).Ok? && LoadBody(CompileRule(rule, text).value[0].body).Some?
    ensures GroundBody(LoadedRules(rule, text)[0].body, env) <==> Triggers(rule, env)
  {
    CapabilityKind(rule);
    match KindOf(rule)
    case Capability => CapabilityBody(rule, env);
    case Blocklist => BlocklistBody(rule, env);
    case RateLimit =>
      LimitReads(rule, env);
      LimitBody(rule, Condition(rule, "limit").value.number, env);
    case Custom =>
      CustomReads(rule, env);
      ConditionBody(ReadExpr(Object(rule.conditions)).value, env);
  }

  lemma {:induction false} ToolClauseMeans(rule: Rule, env: Env)
    requires HasText(rule, "tool")
    ensures GroundHolds(ToolClause(rule), env) <==> ToolIs(rule, env)
  {
    ToolPath();
    ToolReads(rule, env);
    TestClause(Test("request.tool", Equals, String(TextOf(rule, "tool"))), env);
  }

  lemma {:induction false} CapabilityBody(rule: Rule, env: Env)
    requires ValidRule(rule) && rule.kind == "capability"
    ensures GroundBody([ToolClause(rule), SomeCapability(TextOf(rule, "requires_capability"))], env) <==> Triggers(rule, env)
  {
    CapabilityReads(rule, env);
    ToolClauseMeans(rule, env);
    CapabilityClause(TextOf(rule, "requires_capability"), env);
    TwoClauses(ToolClause(rule), SomeCapability(TextOf(rule, "requires_capability")), env);
  }

  lemma {:induction false} PlainBlockedField(rule: Rule)
    ensures PlainPath(BlockedField(rule))
  {
    ToolPath();
    AgentPath();
    DidPath();
  }

  lemma {:induction false} ListIsExact(v: Json)
    requires IsStringList(v)
    ensures ExactLiteral(v)
  {
  }

  lemma {:induction false} BlocklistBody(rule: Rule, env: Env)
    requires ValidRule(rule) && rule.kind == "blocklist"
    ensures GroundBody([M.Expr(Render(Test(BlockedField(rule), In, Condition(rule, "values").value)))], env) <==> Triggers(rule, env)
  {
    var t := Test(BlockedField(rule), In, Condition(rule, "values").value);
    BlocklistReads(rule, env);
    PlainBlockedField(rule);
    ListIsExact(t.value);
    TestClause(t, env);
    OneClause(M.Expr(Render(t)), env);
  }

  lemma KindNameDecides(a: Rule, b: Rule)
    requires ValidRule(a) && ValidRule(b) && KindOf(a) == KindOf(b)
    ensures a.kind == b.kind
  {
  }

  lemma CapabilityKind(rule: Rule)
    requires ValidRule(rule)
    ensures KindOf(rule) == Capability <==> rule.kind == "capability"
    ensures KindOf(rule) == Blocklist <==> rule.kind == "blocklist"
    ensures KindOf(rule) == RateLimit <==> rule.kind == "rate_limit"
    ensures KindOf(rule) == Custom <==> rule.kind == "custom"
  {
  }

  /** A compiled policy's helper bodies all parsed. */
  lemma {:induction false} HelperLoads(p: Policy, text: Messages, rule: Rule)
    requires Loaded(p, text).Ok? && rule in p.rules && IsEnabled(rule) && CompileRule(rule, text).Ok?
    requires CompileRule(rule, text).value != []
    ensures LoadBody(CompileRule(rule, text).value[0].body).Some?
  {
    var d := CompileRule(rule, text).value[0];
    var drafts := Drafts(p.rules, KINDS, text).value;
    KnownKind(rule);
    DraftMember(p.rules, KINDS, text, d);
    var i :| 0 <= i < |drafts| && drafts[i] == d;
  }

  /** A loaded rule with the head of some rule's helper is the helper of a twin. */
  lemma {:induction false} HelperOwner(text: Messages, rule: Rule, other: Rule, r: RegoRule)
    requires ValidRule(rule) && ValidRule(other) && CompileRule(other, text).Ok?
    requires r in LoadedRules(other, text) && r.head == Name(HelperName(rule.id, KindOf(rule)))
    ensures Twins(rule, other) && r == LoadedRules(other, text)[0]
  {
    var rs := LoadedRules(other, text);
    var i :| 0 <= i < |rs| && rs[i] == r;
    HelperFirst(other, text);
    HelperNamesFresh(rule.id, KindOf(rule));
    assert i == 0;
    HelperNamesCollide(rule.id, other.id, KindOf(rule), KindOf(other));
    KindNameDecides(rule, other);
  }

  // ---------------------------------------------------------------- rules that share a helper

  /** Rules of one type whose ids differ at most by hyphens and underscores write one helper. */
  predicate Twins(a: Rule, b: Rule) {
    a.kind == b.kind && SameUpToHyphens(a.id, b.id)
  }

  /** The helper called `capability_check` is true by default. */
  predicate Defaulted(rule: Rule) {
    rule.kind == "capability" && rule.id == "capability"
  }

  /** What a rule's helper says in the whole module: some twin's condition, or the default. */
  ghost predicate Merged(p: Policy, rule: Rule, env: Env)
    requires ValidPolicy(p)
  {
    Defaulted(rule) || exists b :: b in p.rules && b.enabled != Some(false) && Twins(rule, b) && Triggers(b, env)
  }

  /** Fires, with the merged condition in place of the rule's own. */
  ghost predicate MergedFires(p: Policy, rule: Rule, env: Env)
    requires ValidPolicy(p)
  {
    if rule.kind == "capability" then ToolIs(rule, env) && !Merged(p, rule, env)
    else if rule.kind == "custom" then rule.action == "deny" && Merged(p, rule, env)
    else Merged(p, rule, env)
  }

  ghost function MergedViolations(p: Policy, text: Messages, env: Env): set<string>
    requires ValidPolicy(p)
  {
    set rule | rule in p.rules && rule.enabled != Some(false) && MergedFires(p, rule, env) :: text(rule)
  }

  ghost predicate MergedAllowed(p: Policy, env: Env)
    requires ValidPolicy(p)
  {
    exists rule :: rule in p.rules && rule.enabled != Some(false) && Decides(rule, "allow") && Merged(p, rule, env)
  }

  predicate Decides(rule: Rule, name: string) {
    if name == "blocked" then rule.kind == "blocklist" else rule.kind == "custom" && rule.action != "deny"
  }

  lemma {:induction false} HelperHoldsWhenTriggered(p: Policy, text: Messages, b: Rule, env: Env)
    requires Loaded(p, text).Ok? && b in p.rules && IsEnabled(b) && RuleExact(b) && Triggers(b, env)
    ensures HelperHolds(Loaded(p, text).value, HelperName(b.id, KindOf(b)), env)
  {
    var i := OwnHelper(p, text, b);
    HelperLoads(p, text, b);
    HelperBodyMeans(b, text, env);
  }

  /** The helper that an enabled rule has written is in the module. */
  lemma {:induction false} OwnHelper(p: Policy, text: Messages, b: Rule) returns (i: nat)
    requires Loaded(p, text).Ok? && b in p.rules && IsEnabled(b)
    ensures CompileRule(b, text).Ok? && CompileRule(b, text).value != []
    ensures i < |Loaded(p, text).value| && Loaded(p, text).value[i] == LoadedRules(b, text)[0]
    ensures Loaded(p, text).value[i].head == Name(HelperName(b.id, KindOf(b)))
  {
    var m := Loaded(p, text).value;
    ModuleMember(p, text, RegoRule(Name(""), []));
    HelperFirst(b, text);
    var own := LoadedRules(b, text)[0];
    assert own in LoadedRules(b, text);
    ModuleMember(p, text, own);
    i :| 0 <= i < |m| && m[i] == own;
  }

  /** A rule's helper is true only when a twin's condition is, or by default. */
  lemma {:induction false} HelperSound(p: Policy, text: Messages, rule: Rule, env: Env)
    requires Loaded(p, text).Ok? && RulesSound(p) && rule in p.rules && IsEnabled(rule)
    requires HelperHolds(Loaded(p, text).value, HelperName(rule.id, KindOf(rule)), env)
    ensures Merged(p, rule, env)
  {
    var m, name := Loaded(p, text).value, HelperName(rule.id, KindOf(rule));
    HelperNamesFresh(rule.id, KindOf(rule));
    CapabilityKind(rule);
    if !Defaulted(rule) {
      var i :| 0 <= i < |m| && m[i].head == Name(name) && GroundBody(m[i].body, env);
      var other := HelperTwin(p, text, rule, m[i]);
      HelperBodySound(other, text, env);
    }
  }

  /** The twin that wrote a rule with this rule's helper as its head. */
  lemma {:induction false} HelperTwin(p: Policy, text: Messages, rule: Rule, r: RegoRule) returns (other: Rule)
    requires Loaded(p, text).Ok? && rule in p.rules && r in Loaded(p, text).value && r.head == Name(HelperName(rule.id, KindOf(rule)))
    ensures other in p.rules && IsEnabled(other) && Twins(rule, other) && CompileRule(other, text).Ok?
    ensures CompileRule(other, text).value != [] && r == LoadedRules(other, text)[0]
    ensures LoadBody(CompileRule(other, text).value[0].body).Some?
  {
    ModuleMember(p, text, r);
    other :| other in p.rules && IsEnabled(other) && r in LoadedRules(other, text);
    HelperOwner(text, rule, other, r);
    HelperLoads(p, text, other);
  }

  /** And it is true whenever a twin with exact text triggers, or by default. */
  lemma {:induction false} HelperComplete(p: Policy, text: Messages, rule: Rule, env: Env)
    requires Loaded(p, text).Ok? && rule in p.rules && IsEnabled(rule) && Merged(p, rule, env)
    requires forall b :: b in p.rules && IsEnabled(b) && Twins(rule, b) ==> RuleExact(b)
    ensures HelperHolds(Loaded(p, text).value, HelperName(rule.id, KindOf(rule)), env)
  {
    CapabilityKind(rule);
    HelperNamesFresh(rule.id, KindOf(rule));
    if !Defaulted(rule) {
      var b :| b in p.rules && IsEnabled(b) && Twins(rule, b) && Triggers(b, env);
      HelperHoldsWhenTriggered(p, text, b, env);
      HelperNamesCollide(rule.id, b.id, KindOf(rule), KindOf(b));
    }
  }

  /** In the whole module a rule's helper is true exactly when some twin's condition is, or by default. */
  lemma {:induction false} HelperMeans(p: Policy, text: Messages, rule: Rule, env: Env)
    requires Loaded(p, text).Ok? && RulesExact(p) && rule in p.rules && IsEnabled(rule)
    ensures HelperHolds(Loaded(p, text).value, HelperName(rule.id, KindOf(rule)), env) <==> Merged(p, rule, env)
  {
    ExactIsSound(p);
    if HelperHolds(Loaded(p, text).value, HelperName(rule.id, KindOf(rule)), env) {
      HelperSound(p, text, rule, env);
    }
    if Merged(p, rule, env) {
      HelperComplete(p, text, rule, env);
    }
  }

  // ---------------------------------------------------------------- conditions with multi-branch `any`

  /** Like RuleExact, with multi-branch `any` in custom conditions. */
  predicate RuleSound(rule: Rule)
    requires ValidRule(rule)
  {
    if rule.kind == "custom" then
      var e := ReadExpr(Object(rule.conditions));
      PlainRule(rule) && (e.Ok? ==> OneWay(e.value) && ExactTests(e.value))
    else RuleExact(rule)
  }

  predicate RulesSound(p: Policy)
    requires ValidPolicy(p)
  {
    '\n' !in p.description && forall rule :: rule in p.rules && IsEnabled(rule) ==> RuleSound(rule)
  }

  lemma {:induction false} ExactIsSound(p: Policy)
    requires ValidPolicy(p) && RulesExact(p)
    ensures RulesSound(p)
  {
    forall rule | rule in p.rules && IsEnabled(rule) ensures RuleSound(rule) {
      CapabilityKind(rule);
      var e := ReadExpr(Object(rule.conditions));
      if rule.kind == "custom" && e.Ok? {
        FaithfulIsOneWay(e.value);
      }
    }
  }

  lemma {:induction false} SoundIsPlain(p: Policy)
    requires ValidPolicy(p) && RulesSound(p)
    ensures PlainPolicy(p)
  {
    forall rule | rule in p.rules && IsEnabled(rule) ensures PlainRule(rule) {
      assert RuleSound(rule);
    }
  }

  lemma {:induction false} ConditionSound(e: Expr, env: Env)
    requires OneWay(e) && ExactTests(e) && PlainTests(e) && LoadBody(ConditionText(Emit(e))).Some?
    requires GroundBody(LoadBody(ConditionText(Emit(e))).value, env)
    ensures Holds(e, Truth(env))
  {
    var body := ParseBody(Emit(e)).value;
    var clauses := LoadBody(ConditionText(Emit(e))).value;
    var v := Truth(env);
    OneWayIsTight(e);
    ParseWhole(e);
    LiteralTests(e);
    forall i | 0 <= i < |body| ensures LiteralHolds(body[i], v) {
      assert GroundHolds(clauses[i], env);
      assert TestsIn(body)[i] == body[i].test && body[i].test in TestsOf(e);
      RenderMeans(body[i].test, env);
    }
    OneWaySound(e, v);
  }

  lemma {:induction false} HelperBodySound(rule: Rule, text: Messages, env: Env)
    requires ValidRule(rule) && RuleSound(rule)
    requires CompileRule(rule, text).Ok? && LoadBody(CompileRule(rule, text).value[0].body).Some?
    requires GroundBody(LoadedRules(rule, text)[0].body, env)
    ensures Triggers(rule, env)
  {
    CapabilityKind(rule);
    if rule.kind == "custom" {
      CustomReads(rule, env);
      ConditionSound(ReadExpr(Object(rule.conditions)).value, env);
    } else {
      HelperBodyMeans(rule, text, env);
    }
  }

  // ---------------------------------------------------------------- the whole module

  lemma OneTopClause(m: Module, a: Clause, env: Env)
    ensures M.BodyHolds(m, [a], env) <==> ClauseHolds(m, a, env)
  {
    assert [a][0] == a;
  }

  lemma TwoTopClauses(m: Module, a: Clause, b: Clause, env: Env)
    ensures M.BodyHolds(m, [a, b], env) <==> ClauseHolds(m, a, env) && ClauseHolds(m, b, env)
  {
    assert [a, b][0] == a && [a, b][1] == b;
  }

  /** What each emitted rule other than the helper looks like. */
  lemma {:induction false} EffectShape(rule: Rule, text: Messages, r: RegoRule)
    requires ValidRule(rule) && CompileRule(rule, text).Ok? && r in LoadedRules(rule, text)
    ensures var helper := HelperName(rule.id, KindOf(rule));
      && (r.head.Violation? ==>
            && r.head.message == text(rule) && (KindOf(rule) == Custom ==> rule.action == "deny")
            && r.body == if KindOf(rule) == Capability then [ToolClause(rule), NotHelper(helper)] else [Helper(helper)])
      && (r.head == Name("blocked") ==> rule.kind == "blocklist" && r.body == [Helper(helper)])
      && (r.head == Name("allow") ==> rule.kind == "custom" && rule.action != "deny" && r.body == [Helper(helper)])
  {
    HelperFirst(rule, text);
    HelperNamesFresh(rule.id, KindOf(rule));
    CapabilityKind(rule);
    var k :| 0 <= k < |LoadedRules(rule, text)| && LoadedRules(rule, text)[k] == r;
  }

  /** Twins of a rule that is not custom are exact. */
  lemma {:induction false} TwinsExact(p: Policy, rule: Rule)
    requires ValidPolicy(p) && RulesSound(p) && (rule.kind != "custom" || RulesExact(p))
    ensures forall b :: b in p.rules && IsEnabled(b) && Twins(rule, b) ==> RuleExact(b)
  {
    forall b | b in p.rules && IsEnabled(b) && Twins(rule, b) ensures RuleExact(b) {
      assert RuleSound(b);
    }
  }

  /** A rule other than a helper is true only when the policy rule has its effect. */
  lemma {:induction false} EffectSound(p: Policy, text: Messages, rule: Rule, r: RegoRule, env: Env)
    requires Loaded(p, text).Ok? && RulesSound(p) && rule in p.rules && IsEnabled(rule) && CompileRule(rule, text).Ok?
    requires r in LoadedRules(rule, text) && M.BodyHolds(Loaded(p, text).value, r.body, env)
    ensures r.head.Violation? ==> MergedFires(p, rule, env)
    ensures r.head == Name("blocked") || r.head == Name("allow") ==> Merged(p, rule, env)
  {
    var m, helper := Loaded(p, text).value, HelperName(rule.id, KindOf(rule));
    EffectShape(rule, text, r);
    CapabilityKind(rule);
    if r.head.Violation? && rule.kind == "capability" {
      CapabilityReads(rule, env);
      ToolClauseMeans(rule, env);
      TwoTopClauses(m, ToolClause(rule), NotHelper(helper), env);
      TwinsExact(p, rule);
      if Merged(p, rule, env) { HelperComplete(p, text, rule, env); }
    } else if r.head.Violation? || r.head == Name("blocked") || r.head == Name("allow") {
      OneTopClause(m, Helper(helper), env);
      HelperSound(p, text, rule, env);
    }
  }

  lemma {:induction false} CapabilityComplete(p: Policy, text: Messages, rule: Rule, env: Env)
    requires Loaded(p, text).Ok? && RulesSound(p) && rule in p.rules && IsEnabled(rule)
    requires rule.kind == "capability" && MergedFires(p, rule, env)
    ensures M.BodyHolds(Loaded(p, text).value, [ToolClause(rule), NotHelper(HelperName(rule.id, KindOf(rule)))], env)
  {
    var m, helper := Loaded(p, text).value, HelperName(rule.id, KindOf(rule));
    CapabilityReads(rule, env);
    ToolClauseMeans(rule, env);
    TwoTopClauses(m, ToolClause(rule), NotHelper(helper), env);
    if HelperHolds(m, helper, env) { HelperSound(p, text, rule, env); }
  }

  /** And it is true whenever the policy rule has its effect and its twins' texts are exact. */
  lemma {:induction false} EffectComplete(p: Policy, text: Messages, rule: Rule, r: RegoRule, env: Env)
    requires Loaded(p, text).Ok? && RulesSound(p) && (rule.kind != "custom" || RulesExact(p))
    requires rule in p.rules && IsEnabled(rule) && CompileRule(rule, text).Ok? && r in LoadedRules(rule, text)
    requires r.head.Violation? || r.head == Name("blocked") || r.head == Name("allow")
    requires if r.head.Violation? then MergedFires(p, rule, env) else Merged(p, rule, env)
    ensures M.BodyHolds(Loaded(p, text).value, r.body, env)
  {
    EffectShape(rule, text, r);
    CapabilityKind(rule);
    if r.head.Violation? && rule.kind == "capability" {
      CapabilityComplete(p, text, rule, env);
    } else {
      TwinsExact(p, rule);
      OneTopClause(Loaded(p, text).value, Helper(HelperName(rule.id, KindOf(rule))), env);
      HelperComplete(p, text, rule, env);
    }
  }

  /** A rule with an effect has emitted the rule that carries it. */
  lemma {:induction false} EffectEmitted(rule: Rule, text: Messages)
    requires ValidRule(rule) && CompileRule(rule, text).Ok?
    ensures KindOf(rule) != Custom || rule.action == "deny" ==>
              exists r :: r in LoadedRules(rule, text) && r.head == Violation(text(rule))
    ensures rule.kind == "blocklist" ==> exists r :: r in LoadedRules(rule, text) && r.head == Name("blocked")
    ensures rule.kind == "custom" && rule.action != "deny" ==>
              exists r :: r in LoadedRules(rule, text) && r.head == Name("allow")
  {
    var rs := LoadedRules(rule, text);
    CapabilityKind(rule);
    assert rs[|rs| - 1] in rs && rs[1] in rs;
  }

  lemma {:induction false} ViolationSound(p: Policy, text: Messages, env: Env, msg: string)
    requires Loaded(p, text).Ok? && RulesSound(p) && msg in Violations(Loaded(p, text).value, env)
    ensures msg in MergedViolations(p, text, env)
  {
    var m := Loaded(p, text).value;
    var r :| r in m && r.head == Violation(msg) && M.BodyHolds(m, r.body, env);
    ModuleMember(p, text, r);
    var rule :| rule in p.rules && IsEnabled(rule) && r in LoadedRules(rule, text);
    EffectShape(rule, text, r);
    EffectSound(p, text, rule, r, env);
  }

  lemma {:induction false} ViolationComplete(p: Policy, text: Messages, env: Env, msg: string)
    requires Loaded(p, text).Ok? && RulesExact(p) && msg in MergedViolations(p, text, env)
    ensures msg in Violations(Loaded(p, text).value, env)
  {
    ExactIsSound(p);
    var rule :| rule in p.rules && IsEnabled(rule) && MergedFires(p, rule, env) && text(rule) == msg;
    ModuleMember(p, text, RegoRule(Violation(msg), []));
    CapabilityKind(rule);
    EffectEmitted(rule, text);
    var r :| r in LoadedRules(rule, text) && r.head == Violation(msg);
    ModuleMember(p, text, r);
    EffectComplete(p, text, rule, r, env);
  }

  lemma {:induction false} NameSound(p: Policy, text: Messages, env: Env, name: string) returns (rule: Rule)
    requires Loaded(p, text).Ok? && RulesSound(p) && name in {"blocked", "allow"}
    requires NameHolds(Loaded(p, text).value, name, env)
    ensures rule in p.rules && IsEnabled(rule) && Merged(p, rule, env) && Decides(rule, name)
  {
    var m := Loaded(p, text).value;
    var r :| r in m && r.head == Name(name) && M.BodyHolds(m, r.body, env);
    ModuleMember(p, text, r);
    rule :| rule in p.rules && IsEnabled(rule) && r in LoadedRules(rule, text);
    EffectShape(rule, text, r);
    EffectSound(p, text, rule, r, env);
  }

  lemma {:induction false} NameComplete(p: Policy, text: Messages, env: Env, name: string, rule: Rule)
    requires Loaded(p, text).Ok? && RulesSound(p) && name in {"blocked", "allow"} && (name == "blocked" || RulesExact(p))
    requires rule in p.rules && IsEnabled(rule) && Merged(p, rule, env) && Decides(rule, name)
    ensures NameHolds(Loaded(p, text).value, name, env)
  {
    ModuleMember(p, text, RegoRule(Name(name), []));
    EffectEmitted(rule, text);
    var r :| r in LoadedRules(rule, text) && r.head == Name(name);
    ModuleMember(p, text, r);
    EffectComplete(p, text, rule, r, env);
  }

  lemma {:induction false} OwnTwin(p: Policy, rule: Rule, env: Env)
    requires ValidPolicy(p) && rule in p.rules && IsEnabled(rule) && Triggers(rule, env)
    ensures Merged(p, rule, env)
  {
    assert Twins(rule, rule);
  }

  lemma {:induction false} MergedFrom(p: Policy, rule: Rule, env: Env) returns (b: Rule)
    requires ValidPolicy(p) && Merged(p, rule, env) && !Defaulted(rule)
    ensures b in p.rules && IsEnabled(b) && Twins(rule, b) && Triggers(b, env)
  {
    b :| b in p.rules && b.enabled != Some(false) && Twins(rule, b) && Triggers(b, env);
  }

  /** Merging never changes whether something is blocked. */
  lemma {:induction false} BlockedMerges(p: Policy, env: Env)
    requires ValidPolicy(p)
    ensures DirectlyBlocked(p, env) <==>
              exists rule :: rule in p.rules && IsEnabled(rule) && Decides(rule, "blocked") && Merged(p, rule, env)
  {
    if DirectlyBlocked(p, env) {
      var rule :| rule in p.rules && IsEnabled(rule) && rule.kind == "blocklist" && Triggers(rule, env);
      OwnTwin(p, rule, env);
    }
    if rule :| rule in p.rules && IsEnabled(rule) && Decides(rule, "blocked") && Merged(p, rule, env) {
      var b := MergedFrom(p, rule, env);
    }
  }

  lemma {:induction false} BlockedExact(p: Policy, text: Messages, env: Env)
    requires Loaded(p, text).Ok? && RulesSound(p)
    ensures NameHolds(Loaded(p, text).value, "blocked", env) <==> DirectlyBlocked(p, env)
  {
    BlockedMerges(p, env);
    if NameHolds(Loaded(p, text).value, "blocked", env) {
      var rule := NameSound(p, text, env, "blocked");
    }
    if DirectlyBlocked(p, env) {
      var rule :| rule in p.rules && IsEnabled(rule) && Decides(rule, "blocked") && Merged(p, rule, env);
      NameComplete(p, text, env, "blocked", rule);
    }
  }

  lemma {:induction false} AllowMerged(p: Policy, text: Messages, env: Env)
    requires Loaded(p, text).Ok? && RulesExact(p)
    ensures NameHolds(Loaded(p, text).value, "allow", env) <==> MergedAllowed(p, env)
  {
    ExactIsSound(p);
    if NameHolds(Loaded(p, text).value, "allow", env) {
      var rule := NameSound(p, text, env, "allow");
    }
    if MergedAllowed(p, env) {
      var rule :| rule in p.rules && IsEnabled(rule) && Decides(rule, "allow") && Merged(p, rule, env);
      NameComplete(p, text, env, "allow", rule);
    }
  }

  lemma {:induction false} ViolationsMean(p: Policy, text: Messages, env: Env)
    requires Loaded(p, text).Ok? && RulesExact(p)
    ensures Violations(Loaded(p, text).value, env) == MergedViolations(p, text, env)
  {
    ExactIsSound(p);
    var mine, merged := Violations(Loaded(p, text).value, env), MergedViolations(p, text, env);
    forall msg ensures msg in mine <==> msg in merged {
      if msg in mine { ViolationSound(p, text, env, msg); }
      if msg in merged { ViolationComplete(p, text, env, msg); }
    }
  }

  /** The whole module, for every validated policy whose rules' own texts are exact: each rule speaks
      for all its twins, violations and `allow` follow from that, and `blocked` is exact. */
  lemma {:induction false} CompiledPolicyMeans(p: Policy, text: Messages, rego: Reader, env: Env)
    requires ValidPolicy(p) && RulesExact(p) && Compiled(p, text, rego).Ok?
    ensures Violations(Compiled(p, text, rego).value, env) == MergedViolations(p, text, env)
    ensures NameHolds(Compiled(p, text, rego).value, "blocked", env) <==> DirectlyBlocked(p, env)
    ensures NameHolds(Compiled(p, text, rego).value, "allow", env) <==> MergedAllowed(p, env)
  {
    ExactIsSound(p);
    SoundIsPlain(p);
    assert Compiled(p, text, rego) == Loaded(p, text);
    ViolationsMean(p, text, env);
    BlockedExact(p, text, env);
    AllowMerged(p, text, env);
  }

  /** With multi-branch `any` in custom rules the module may miss violations and allowances, but it
      reports and allows nothing that the merged policy does not, and `blocked` stays exact. */
  lemma {:induction false} CompiledPolicyIsSound(p: Policy, text: Messages, rego: Reader, env: Env)
    requires ValidPolicy(p) && RulesSound(p) && Compiled(p, text, rego).Ok?
    ensures Violations(Compiled(p, text, rego).value, env) <= MergedViolations(p, text, env)
    ensures NameHolds(Compiled(p, text, rego).value, "allow", env) ==> MergedAllowed(p, env)
    ensures NameHolds(Compiled(p, text, rego).value, "blocked", env) <==> DirectlyBlocked(p, env)
  {
    SoundIsPlain(p);
    forall msg | msg in Violations(Loaded(p, text).value, env) ensures msg in MergedViolations(p, text, env) {
      ViolationSound(p, text, env, msg);
    }
    BlockedExact(p, text, env);
    if NameHolds(Loaded(p, text).value, "allow", env) {
      var rule := NameSound(p, text, env, "allow");
    }
  }

  /** The two-level reading is complete: bodies refer only to rules defined on the input. */
  lemma {:induction false} CompiledIsStratified(p: Policy, text: Messages)
    requires Loaded(p, text).Ok?
    ensures Stratified(Loaded(p, text).value)
  {
    var m := Loaded(p, text).value;
    forall r, c, h | r in m && c in r.body && h in m && !Ground(c) && h.head == Name(c.name)
      ensures forall i :: 0 <= i < |h.body| ==> Ground(h.body[i])
    {
      ModuleMember(p, text, r);
      ModuleMember(p, text, h);
      var rule :| rule in p.rules && IsEnabled(rule) && r in LoadedRules(rule, text);
      var other :| other in p.rules && IsEnabled(other) && h in LoadedRules(other, text);
      RefersToOwnHelper(rule, text, r, c);
      HelperOwner(text, rule, other, h);
      HelperBodyGround(other, text);
    }
  }

  /** The names a body refers to are the helper's. */
  predicate RefersOnlyTo(body: seq<Clause>, helper: string) {
    forall i :: 0 <= i < |body| && !Ground(body[i]) ==> body[i].name == helper
  }

  lemma {:induction false} EffectRefers(rule: Rule, text: Messages, k: nat)
    requires ValidRule(rule) && CompileRule(rule, text).Ok? && 0 < k < |LoadedRules(rule, text)|
    ensures RefersOnlyTo(LoadedRules(rule, text)[k].body, HelperName(rule.id, KindOf(rule)))
  {
  }

  lemma {:induction false} RefersToOwnHelper(rule: Rule, text: Messages, r: RegoRule, c: Clause)
    requires ValidRule(rule) && CompileRule(rule, text).Ok? && r in LoadedRules(rule, text)
    requires c in r.body && !Ground(c)
    ensures c.name == HelperName(rule.id, KindOf(rule))
  {
    var rs := LoadedRules(rule, text);
    var k :| 0 <= k < |rs| && rs[k] == r;
    var i :| 0 <= i < |r.body| && r.body[i] == c;
    if k == 0 {
      HelperBodyGround(rule, text);
    } else {
      EffectRefers(rule, text, k);
    }
  }

  lemma {:induction false} HelperBodyGround(rule: Rule, text: Messages)
    requires ValidRule(rule) && CompileRule(rule, text).Ok?
    ensures forall i :: 0 <= i < |LoadedRules(rule, text)[0].body| ==> Ground(LoadedRules(rule, text)[0].body[i])
  {
  }
}
