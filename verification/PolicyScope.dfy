/**
 Which policies compile, and which of their rules count (internal/policy/compiler/schema.go:26-31 and
 compiler.go:25-119): an absent flag means enabled, a disabled rule leaves no trace, and a policy
 compiles exactly when its enabled custom conditions can be read and parsed.
 */
module PolicyScope {
  import opened Text
  import opened Json
  import opened Expressions
  import opened ExpressionReader
  import opened ExpressionMeaning
  import opened RegoTests
  import opened AuthorReading
  import opened Policy
  import M = RegoModule
  import opened PolicyCompiler
  import opened PolicyCorrectness
  import opened PolicyTwins

  // ---------------------------------------------------------------- when a policy compiles

  lemma {:induction false} CompileRuleOk(rule: Rule, text: Messages)
    requires ValidRule(rule)
    ensures CompileRule(rule, text).Ok? <==> (rule.kind == "custom" ==> Readable(Object(rule.conditions)))
  {
    CapabilityKind(rule);
    if rule.kind == "custom" { ReadIff(Object(rule.conditions)); }
  }

  lemma {:induction false} GroupOk(rules: seq<Rule>, text: Messages)
    requires forall rule :: rule in rules ==> CompileRule(rule, text).Ok?
    ensures CompileGroup(rules, text).Ok?
  {
    if rules != [] { GroupOk(rules[..|rules| - 1], text); }
  }

  lemma {:induction false} DraftsOk(rules: seq<Rule>, kinds: seq<string>, text: Messages)
    requires forall rule :: rule in rules && IsEnabled(rule) ==> CompileRule(rule, text).Ok?
    ensures Drafts(rules, kinds, text).Ok?
  {
    if kinds != [] {
      forall rule | rule in OfKind(rules, kinds[0]) ensures CompileRule(rule, text).Ok? { OfKindMember(rules, kinds[0], rule); }
      GroupOk(OfKind(rules, kinds[0]), text);
      DraftsOk(rules, kinds[1..], text);
    }
  }

  /** The text of a readable condition is a Rego body. */
  predicate Parses(e: Json)
    requires e.Object? && ReadExpr(e).Ok?
  {
    LoadBody(ConditionText(Emit(ReadExpr(e).value))).Some?
  }

  lemma {:induction false} TemplateLines(rule: Rule, text: Messages)
    requires ValidRule(rule) && CompileRule(rule, text).Ok? && rule.kind != "custom"
    ensures forall i :: 0 <= i < |CompileRule(rule, text).value| ==> CompileRule(rule, text).value[i].body.Lines?
  {
    CapabilityKind(rule);
  }

  lemma {:induction false} CustomLines(rule: Rule, text: Messages)
    requires rule.kind == "custom" && CompileRule(rule, text).Ok?
    ensures ReadExpr(Object(rule.conditions)).Ok?
    ensures var drafts := CompileRule(rule, text).value;
      |drafts| == 2 && drafts[0].body == ConditionText(Emit(ReadExpr(Object(rule.conditions)).value)) && drafts[1].body.Lines?
  {
  }

  /** Every body that a valid rule emits loads, but for the text of a custom condition. */
  lemma {:induction false} BodiesLoad(rule: Rule, text: Messages)
    requires ValidRule(rule) && CompileRule(rule, text).Ok?
    ensures rule.kind == "custom" ==> ReadExpr(Object(rule.conditions)).Ok?
    ensures (forall d :: d in CompileRule(rule, text).value ==> LoadBody(d.body).Some?) <==>
              (rule.kind == "custom" ==> Parses(Object(rule.conditions)))
  {
    if rule.kind == "custom" {
      CustomLines(rule, text);
      assert CompileRule(rule, text).value[0] in CompileRule(rule, text).value;
    } else {
      TemplateLines(rule, text);
    }
  }

  predicate Compiles(rule: Rule) {
    rule.kind == "custom" ==>
      Readable(Object(rule.conditions)) && ReadExpr(Object(rule.conditions)).Ok? && Parses(Object(rule.conditions))
  }

  lemma {:induction false} RuleCompiles(rule: Rule, text: Messages)
    requires ValidRule(rule)
    ensures Compiles(rule) <==> CompileRule(rule, text).Ok? && forall d :: d in CompileRule(rule, text).value ==> LoadBody(d.body).Some?
  {
    CompileRuleOk(rule, text);
    if CompileRule(rule, text).Ok? { BodiesLoad(rule, text); }
  }

  /** A policy with plain text compiles exactly when it is valid and the condition of every rule that is
      custom and not disabled can be read and parsed. */
  lemma {:induction false} CompilesIff(p: Policy, text: Messages, rego: Reader)
    requires PlainPolicy(p)
    ensures Compiled(p, text, rego).Ok? <==>
              ValidPolicy(p) && forall rule :: rule in p.rules && rule.enabled != Some(false) ==> Compiles(rule)
  {
    if ValidPolicy(p) {
      assert Compiled(p, text, rego) == Loaded(p, text);
      if Loaded(p, text).Ok? {
        forall rule | rule in p.rules && IsEnabled(rule) ensures Compiles(rule) { LoadedCompiles(p, text, rule); }
      } else if forall rule :: rule in p.rules && rule.enabled != Some(false) ==> Compiles(rule) {
        CompilesLoads(p, text);
      }
    }
  }

  lemma {:induction false} LoadedCompiles(p: Policy, text: Messages, rule: Rule)
    requires Loaded(p, text).Ok? && rule in p.rules && IsEnabled(rule)
    ensures Compiles(rule)
  {
    var drafts := Drafts(p.rules, KINDS, text).value;
    KnownKind(rule);
    DraftMember(p.rules, KINDS, text, Draft(M.Name(""), Lines([])));
    forall d | d in CompileRule(rule, text).value ensures LoadBody(d.body).Some? {
      DraftMember(p.rules, KINDS, text, d);
      var i :| 0 <= i < |drafts| && drafts[i] == d;
    }
    RuleCompiles(rule, text);
  }

  lemma {:induction false} CompilesLoads(p: Policy, text: Messages)
    requires ValidPolicy(p) && forall rule :: rule in p.rules && IsEnabled(rule) ==> Compiles(rule)
    ensures Loaded(p, text).Ok?
  {
    forall rule | rule in p.rules && IsEnabled(rule) ensures CompileRule(rule, text).Ok? { RuleCompiles(rule, text); }
    DraftsOk(p.rules, KINDS, text);
    var drafts := Drafts(p.rules, KINDS, text).value;
    forall i | 0 <= i < |drafts| ensures LoadBody(drafts[i].body).Some? {
      DraftMember(p.rules, KINDS, text, drafts[i]);
      var rule :| rule in p.rules && IsEnabled(rule) && rule.kind in KINDS && drafts[i] in CompileRule(rule, text).value;
      RuleCompiles(rule, text);
    }
  }

  /** A faithful condition with exact literals parses exactly when it compares something. */
  lemma {:induction false} FaithfulParses(e: Json)
    requires e.Object? && ReadExpr(e).Ok? && Faithful(ReadExpr(e).value) && ExactTests(ReadExpr(e).value)
    ensures Parses(e) <==> TestsOf(ReadExpr(e).value) != []
  {
    var x := ReadExpr(e).value;
    FaithfulIsTight(x);
    FaithfulReading(x, t => true);
    ParseWhole(x);
    LiteralTests(x);
    var body := Literals(x).value;
    forall i | 0 <= i < |body| ensures Printable(body[i].test.value) {
      assert TestsIn(body)[i] == body[i].test && body[i].test in TestsOf(x);
      ExactIsPrintable(body[i].test.value);
    }
    assert |TestsIn(body)| == |body|;
  }

  /** A policy with exact rule texts compiles exactly when its custom conditions can be read and each
      compares something. */
  lemma {:induction false} ExactCompilesIff(p: Policy, text: Messages, rego: Reader)
    requires ValidPolicy(p) && RulesExact(p)
    ensures Compiled(p, text, rego).Ok? <==>
      forall rule :: rule in p.rules && rule.enabled != Some(false) && rule.kind == "custom" ==>
        && Readable(Object(rule.conditions)) && ReadExpr(Object(rule.conditions)).Ok?
        && TestsOf(ReadExpr(Object(rule.conditions)).value) != []
  {
    ExactIsSound(p);
    SoundIsPlain(p);
    CompilesIff(p, text, rego);
    forall rule | rule in p.rules && IsEnabled(rule) && rule.kind == "custom" && ReadExpr(Object(rule.conditions)).Ok?
      ensures Parses(Object(rule.conditions)) <==> TestsOf(ReadExpr(Object(rule.conditions)).value) != []
    {
      CapabilityKind(rule);
      assert RuleExact(rule);
      FaithfulParses(Object(rule.conditions));
    }
  }

  // ---------------------------------------------------------------- which rules count

  function Unflagged(rule: Rule): Rule {
    rule.(enabled := None)
  }

  /** The rules that are not disabled, without their flags. */
  function Live(rules: seq<Rule>): seq<Rule> {
    if rules == [] then []
    else
      var last := rules[|rules| - 1];
      Live(rules[..|rules| - 1]) + if last.enabled == Some(false) then [] else [Unflagged(last)]
  }

  /** Messages do not mention the flag. */
  ghost predicate FlagBlind(text: Messages) {
    forall rule: Rule :: text(Unflagged(rule)) == text(rule)
  }

  lemma {:induction false} FlagUnread(rule: Rule, key: string)
    ensures Condition(Unflagged(rule), key) == Condition(rule, key) && TextOf(Unflagged(rule), key) == TextOf(rule, key)
  {
  }

  lemma {:induction false} ClausesIgnoreFlag(rule: Rule)
    ensures ToolClause(Unflagged(rule)) == ToolClause(rule) && AgentClauses(Unflagged(rule)) == AgentClauses(rule)
    ensures BlockedField(Unflagged(rule)) == BlockedField(rule)
  {
    FlagUnread(rule, "tool");
    FlagUnread(rule, "agent_pattern");
    FlagUnread(rule, "agent_id");
    FlagUnread(rule, "match_type");
  }

  lemma {:induction false} CompileIgnoresFlag(rule: Rule, text: Messages)
    requires FlagBlind(text)
    ensures CompileRule(Unflagged(rule), text) == CompileRule(rule, text)
  {
    ClausesIgnoreFlag(rule);
    assert text(Unflagged(rule)) == text(rule);
    match KindNamed(rule.kind)
    case None =>
    case Some(Capability) => FlagUnread(rule, "requires_capability");
    case Some(Blocklist) => FlagUnread(rule, "values");
    case Some(RateLimit) => FlagUnread(rule, "limit");
    case Some(Custom) =>
  }

  lemma {:induction false} PlainIgnoresFlag(rule: Rule)
    ensures PlainRule(Unflagged(rule)) <==> PlainRule(rule)
  {
    forall key: string { FlagUnread(rule, key); }
  }

  function AllUnflagged(rules: seq<Rule>): (r: seq<Rule>)
    ensures |r| == |rules|
  {
    seq(|rules|, i requires 0 <= i < |rules| => Unflagged(rules[i]))
  }

  /** The groups of the live rules are the groups without their flags. */
  lemma {:induction false} LiveOfKind(rules: seq<Rule>, kind: string)
    ensures OfKind(Live(rules), kind) == AllUnflagged(OfKind(rules, kind))
  {
    if rules != [] {
      var front, last := rules[..|rules| - 1], rules[|rules| - 1];
      LiveOfKind(front, kind);
      if last.enabled == Some(false) {
        assert Live(rules) == Live(front) && OfKind(rules, kind) == OfKind(front, kind);
      } else {
        assert Live(rules)[..|Live(front)|] == Live(front);
      }
    }
  }

  lemma {:induction false} GroupIgnoresFlags(rules: seq<Rule>, text: Messages)
    requires FlagBlind(text)
    ensures CompileGroup(AllUnflagged(rules), text) == CompileGroup(rules, text)
  {
    if rules != [] {
      assert AllUnflagged(rules)[..|rules| - 1] == AllUnflagged(rules[..|rules| - 1]);
      GroupIgnoresFlags(rules[..|rules| - 1], text);
      CompileIgnoresFlag(rules[|rules| - 1], text);
    }
  }

  lemma {:induction false} DraftsOfLive(rules: seq<Rule>, kinds: seq<string>, text: Messages)
    requires FlagBlind(text)
    ensures Drafts(rules, kinds, text) == Drafts(Live(rules), kinds, text)
  {
    if kinds != [] {
      LiveOfKind(rules, kinds[0]);
      GroupIgnoresFlags(OfKind(rules, kinds[0]), text);
      DraftsOfLive(rules, kinds[1..], text);
    }
  }

  lemma {:induction false} PlainOfLive(rules: seq<Rule>)
    ensures (forall rule :: rule in rules && IsEnabled(rule) ==> PlainRule(rule)) <==> (forall rule :: rule in Live(rules) ==> PlainRule(rule))
  {
    if rules != [] {
      var front, last := rules[..|rules| - 1], rules[|rules| - 1];
      PlainOfLive(front);
      PlainIgnoresFlag(last);
      assert forall rule :: rule in rules <==> rule in front || rule == last;
      assert forall rule :: rule in Live(rules) <==> rule in Live(front) || (last.enabled != Some(false) && rule == Unflagged(last));
    }
  }

  /** The module depends on the live rules alone: an absent flag is as good as a true one, and disabled
      rules leave no trace. */
  lemma {:induction false} LiveRulesDecide(p: Policy, q: Policy, text: Messages, rego: Reader)
    requires ValidPolicy(p) && ValidPolicy(q) && p.description == q.description && Live(p.rules) == Live(q.rules) && FlagBlind(text)
    ensures Compiled(p, text, rego) == Compiled(q, text, rego)
  {
    DraftsOfLive(p.rules, KINDS, text);
    DraftsOfLive(q.rules, KINDS, text);
    PlainOfLive(p.rules);
    PlainOfLive(q.rules);
  }

  function Flagged(rules: seq<Rule>): seq<Rule> {
    seq(|rules|, i requires 0 <= i < |rules| => if rules[i].enabled.None? then rules[i].(enabled := Some(true)) else rules[i])
  }

  lemma {:induction false} LiveFlagged(rules: seq<Rule>)
    ensures Live(Flagged(rules)) == Live(rules)
  {
    if rules != [] {
      LiveFlagged(rules[..|rules| - 1]);
      assert Flagged(rules)[..|rules| - 1] == Flagged(rules[..|rules| - 1]);
    }
  }

  lemma {:induction false} ValidIgnoresFlag(rule: Rule, flag: Option<bool>)
    ensures ValidRule(rule.(enabled := flag)) <==> ValidRule(rule)
  {
    var r := rule.(enabled := flag);
    forall key: string ensures Condition(r, key) == Condition(rule, key) && TextOf(r, key) == TextOf(rule, key) { }
  }

  /** Writing `"enabled": true` where the flag is absent changes nothing. */
  lemma {:induction false} AbsentFlagIsTrue(p: Policy, text: Messages, rego: Reader)
    requires FlagBlind(text)
    ensures Compiled(p.(rules := Flagged(p.rules)), text, rego) == Compiled(p, text, rego)
  {
    var q := p.(rules := Flagged(p.rules));
    forall i | 0 <= i < |q.rules| ensures ValidRule(q.rules[i]) == ValidRule(p.rules[i]) && q.rules[i].id == p.rules[i].id {
      ValidIgnoresFlag(p.rules[i], Some(true));
    }
    LiveFlagged(p.rules);
    if ValidPolicy(p) {
      LiveRulesDecide(p, q, text, rego);
    }
  }

  /** The rules that are not disabled, as they are. */
  function Enabled(rules: seq<Rule>): seq<Rule> {
    if rules == [] then []
    else
      var last := rules[|rules| - 1];
      Enabled(rules[..|rules| - 1]) + if last.enabled == Some(false) then [] else [last]
  }

  predicate ValidRules(rules: seq<Rule>) {
    && (forall i :: 0 <= i < |rules| ==> ValidRule(rules[i]))
    && (forall i, j :: 0 <= i < j < |rules| ==> rules[i].id != rules[j].id)
  }

  lemma {:induction false} EnabledKept(rules: seq<Rule>)
    ensures Live(Enabled(rules)) == Live(rules)
    ensures forall rule :: rule in Enabled(rules) ==> rule in rules
    ensures ValidRules(rules) ==> ValidRules(Enabled(rules))
  {
    if rules != [] {
      var front, last := rules[..|rules| - 1], rules[|rules| - 1];
      EnabledKept(front);
      assert rules == front + [last];
      if last.enabled == Some(false) {
        assert Enabled(rules) == Enabled(front) && Live(rules) == Live(front);
        assert ValidRules(rules) ==> ValidRules(front);
      } else {
        assert Enabled(rules)[..|Enabled(front)|] == Enabled(front);
        if ValidRules(rules) { AppendValid(front, Enabled(front), last); }
      }
    }
  }

  lemma {:induction false} AppendValid(front: seq<Rule>, kept: seq<Rule>, last: Rule)
    requires ValidRules(front + [last]) && (ValidRules(front) ==> ValidRules(kept)) && forall rule :: rule in kept ==> rule in front
    ensures ValidRules(kept + [last])
  {
    var rules := front + [last];
    assert forall i :: 0 <= i < |front| ==> rules[i] == front[i];
    assert rules[|front|] == last;
    assert ValidRules(front);
    forall i | 0 <= i < |kept| ensures kept[i].id != last.id {
      assert kept[i] in front;
      var k :| 0 <= k < |front| && front[k] == kept[i];
      assert rules[k].id != rules[|front|].id;
    }
  }

  lemma {:induction false} NothingLive(rules: seq<Rule>, kinds: seq<string>, text: Messages)
    requires Live(rules) == []
    ensures Drafts(rules, kinds, text) == Ok([])
  {
    if kinds != [] {
      LiveOfKind(rules, kinds[0]);
      assert OfKind([], kinds[0]) == [];
      assert OfKind(rules, kinds[0]) == [];
      NothingLive(rules, kinds[1..], text);
      BothEmpty(Drafts(rules, kinds[1..], text));
    }
  }

  /** Deleting the disabled rules changes nothing, as long as some rule is left; otherwise the module was empty. */
  lemma {:induction false} DisabledRulesVanish(p: Policy, text: Messages, rego: Reader)
    requires ValidPolicy(p) && FlagBlind(text)
    ensures Enabled(p.rules) != [] ==> Compiled(p.(rules := Enabled(p.rules)), text, rego) == Compiled(p, text, rego)
    ensures Enabled(p.rules) == [] && '\n' !in p.description ==> Compiled(p, text, rego) == Ok([])
  {
    EnabledKept(p.rules);
    assert ValidRules(p.rules);
    if Enabled(p.rules) != [] {
      LiveRulesDecide(p, p.(rules := Enabled(p.rules)), text, rego);
    } else {
      assert Live([]) == [];
      NothingLive(p.rules, KINDS, text);
      PlainOfLive(p.rules);
      if '\n' !in p.description { assert Loaded(p, text) == Load([]) && Load([]).value == []; }
    }
  }

  /** A rule without a flag that fires is reported. */
  lemma {:induction false} UnflaggedRuleReports(p: Policy, text: Messages, rego: Reader, rule: Rule, env: Env)
    requires ValidPolicy(p) && RulesExact(p) && TwinsHarmless(p) && Orders(env) && Compiled(p, text, rego).Ok?
    requires rule in p.rules && rule.enabled == None && Fires(rule, env)
    ensures text(rule) in M.Violations(Compiled(p, text, rego).value, env)
  {
    CompiledPolicyIsCorrect(p, text, rego, env);
    assert text(rule) in DirectViolations(p, text, env);
  }
}
