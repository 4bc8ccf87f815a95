/**
 Rules whose ids differ only by hyphens and underscores share a helper (internal/policy/compiler
 capability.go and templates.go).  This file says exactly when that makes the generated module report
 something other than the policy does.
 */
module PolicyTwins {
  import opened Text
  import opened Json
  import opened Expressions
  import opened RegoTests
  import opened RuleIds
  import opened Policy
  import opened RegoModule
  import opened PolicyCompiler
  import opened PolicyCorrectness
  import opened Capabilities

  // ---------------------------------------------------------------- on one input

  /** Another enabled rule with the same helper has its condition met. */
  ghost predicate TwinTriggers(p: Policy, rule: Rule, env: Env)
    requires ValidPolicy(p)
  {
    exists b :: b in p.rules && b.enabled != Some(false) && b != rule && Twins(rule, b) && Triggers(b, env)
  }

  /** The module reports the rule's violation and the policy does not, or the other way round. */
  ghost predicate Misreported(p: Policy, rule: Rule, env: Env)
    requires ValidPolicy(p) && ValidRule(rule)
  {
    MergedFires(p, rule, env) != Fires(rule, env)
  }

  lemma {:induction false} MergedSplits(p: Policy, rule: Rule, env: Env)
    requires ValidPolicy(p) && rule in p.rules && IsEnabled(rule)
    ensures Merged(p, rule, env) <==> Defaulted(rule) || Triggers(rule, env) || TwinTriggers(p, rule, env)
  {
    assert Twins(rule, rule);
  }

  /** A capability rule is wrongly silent when a twin is satisfied, or always if its id is `capability`;
      any other rule that reports is wrongly loud when a twin triggers and it does not. */
  lemma {:induction false} MisreportedIff(p: Policy, rule: Rule, env: Env)
    requires ValidPolicy(p) && rule in p.rules && IsEnabled(rule)
    ensures Misreported(p, rule, env) <==>
      if rule.kind == "capability" then Fires(rule, env) && (Defaulted(rule) || TwinTriggers(p, rule, env))
      else (rule.kind == "custom" ==> rule.action == "deny") && !Triggers(rule, env) && TwinTriggers(p, rule, env)
  {
    MergedSplits(p, rule, env);
    CapabilityKind(rule);
  }

  predicate DistinctMessages(p: Policy, text: Messages) {
    forall a, b | a in p.rules && b in p.rules && IsEnabled(a) && IsEnabled(b) :: text(a) == text(b) ==> a == b
  }

  /** On one input the module's violations are the policy's exactly when no enabled rule is misreported. */
  lemma {:induction false} ViolationsRightIff(p: Policy, text: Messages, rego: Reader, env: Env)
    requires ValidPolicy(p) && RulesExact(p) && DistinctMessages(p, text) && Compiled(p, text, rego).Ok?
    ensures Violations(Compiled(p, text, rego).value, env) == DirectViolations(p, text, env) <==>
              forall rule :: rule in p.rules && IsEnabled(rule) ==> !Misreported(p, rule, env)
  {
    CompiledPolicyMeans(p, text, rego, env);
    var merged, direct := MergedViolations(p, text, env), DirectViolations(p, text, env);
    if merged == direct {
      forall rule | rule in p.rules && IsEnabled(rule) ensures !Misreported(p, rule, env) {
        MessageTells(p, text, rule, env);
      }
    } else if forall rule :: rule in p.rules && IsEnabled(rule) ==> !Misreported(p, rule, env) {
      SameFires(p, text, env);
    }
  }

  lemma {:induction false} SameFires(p: Policy, text: Messages, env: Env)
    requires ValidPolicy(p) && forall rule :: rule in p.rules && IsEnabled(rule) ==> !Misreported(p, rule, env)
    ensures MergedViolations(p, text, env) == DirectViolations(p, text, env)
  {
  }

  lemma {:induction false} MessageTells(p: Policy, text: Messages, rule: Rule, env: Env)
    requires ValidPolicy(p) && DistinctMessages(p, text) && rule in p.rules && IsEnabled(rule)
    ensures text(rule) in MergedViolations(p, text, env) <==> MergedFires(p, rule, env)
    ensures text(rule) in DirectViolations(p, text, env) <==> Fires(rule, env)
  {
  }

  /** `allow` is wrong exactly when no allowing rule triggers but a twin of one does. */
  lemma {:induction false} AllowRightIff(p: Policy, text: Messages, rego: Reader, env: Env)
    requires ValidPolicy(p) && RulesExact(p) && Compiled(p, text, rego).Ok?
    ensures (NameHolds(Compiled(p, text, rego).value, "allow", env) <==> DirectlyAllowed(p, env)) <==>
              (DirectlyAllowed(p, env) ||
               forall rule :: rule in p.rules && IsEnabled(rule) && Decides(rule, "allow") ==> !TwinTriggers(p, rule, env))
  {
    CompiledPolicyMeans(p, text, rego, env);
    forall rule | rule in p.rules && IsEnabled(rule) && Decides(rule, "allow")
      ensures Merged(p, rule, env) <==> Triggers(rule, env) || TwinTriggers(p, rule, env)
    {
      MergedSplits(p, rule, env);
    }
  }

  // ---------------------------------------------------------------- on every input

  /** Rego's order: numbers by size, and all on the same side of any other value. */
  ghost predicate Orders(env: Env) {
    && (forall x, y :: env.less(Number(x), Number(y)) <==> x < y)
    && (forall x, y, v: Json :: !v.Number? ==> (env.less(Number(x), v) <==> env.less(Number(y), v)))
  }

  datatype Selector = Everyone | ByPattern(pattern: string) | ById(id: string)

  /** The agents a rate limit is for. */
  function SelectorOf(rule: Rule): Selector {
    if TextOf(rule, "agent_pattern") != "" then ByPattern(TextOf(rule, "agent_pattern"))
    else if TextOf(rule, "agent_id") != "" then ById(TextOf(rule, "agent_id"))
    else Everyone
  }

  function ToolOf(rule: Rule): string {
    TextOf(rule, "tool")
  }

  function NeedOf(rule: Rule): string {
    TextOf(rule, "requires_capability")
  }

  function ValuesOf(rule: Rule): seq<Json>
    requires ValidRule(rule) && rule.kind == "blocklist"
  {
    Condition(rule, "values").value.items
  }

  function LimitOf(rule: Rule): real
    requires ValidRule(rule) && rule.kind == "rate_limit"
  {
    Condition(rule, "limit").value.number
  }

  ghost predicate HarmlessCapability(a: Rule, b: Rule) {
    ToolOf(a) != ToolOf(b) || Covers(NeedOf(b), NeedOf(a))
  }

  predicate HarmlessBlocklist(a: Rule, b: Rule)
    requires ValidRule(a) && ValidRule(b) && a.kind == "blocklist" && b.kind == "blocklist"
  {
    && Condition(a, "match_type") == Condition(b, "match_type")
    && forall v :: v in ValuesOf(b) ==> v in ValuesOf(a)
  }

  predicate HarmlessLimit(a: Rule, b: Rule)
    requires ValidRule(a) && ValidRule(b) && a.kind == "rate_limit" && b.kind == "rate_limit"
  {
    && (SelectorOf(a) == Everyone || SelectorOf(a) == SelectorOf(b))
    && LimitOf(a) <= LimitOf(b)
  }

  /** The twin `b` can never make the module misreport `a`; for custom rules that is implication itself. */
  ghost predicate Harmless(a: Rule, b: Rule)
    requires ValidRule(a) && ValidRule(b) && a.kind == b.kind
  {
    match KindOf(a)
    case Capability => HarmlessCapability(a, b)
    case Blocklist => HarmlessBlocklist(a, b)
    case RateLimit => HarmlessLimit(a, b)
    case Custom => a.action == "deny" ==> forall env | Orders(env) :: Triggers(b, env) ==> Triggers(a, env)
  }

  /** The twin `b` misleads the module about `a` on this input. */
  ghost predicate Misleads(a: Rule, b: Rule, env: Env)
    requires ValidRule(a) && ValidRule(b) && a.kind == b.kind
  {
    if a.kind == "capability" then Fires(a, env) && Triggers(b, env)
    else (a.kind == "custom" ==> a.action == "deny") && !Triggers(a, env) && Triggers(b, env)
  }

  // ---------------------------------------------------------------- harmless twins never mislead

  lemma {:induction false} GrantedMore(held: Json, stronger: string, weaker: string)
    requires Granted(held, stronger) && Covers(stronger, weaker)
    ensures Granted(held, weaker)
  {
    var c: string :| Includes(held, String(c)) && Covers(c, stronger);
    CoversMore(c, stronger, weaker);
  }

  lemma {:induction false} CapabilityTriggers(rule: Rule, env: Env)
    requires ValidRule(rule) && rule.kind == "capability"
    ensures Triggers(rule, env) <==> ToolIs(rule, env) && AgentHolds(NeedOf(rule), env)
    ensures Fires(rule, env) <==> ToolIs(rule, env) && !Triggers(rule, env)
  {
    CapabilityReads(rule, env);
  }

  lemma {:induction false} ToolMeans(rule: Rule, env: Env)
    requires ValidRule(rule) && rule.kind == "capability"
    ensures ToolIs(rule, env) <==> FieldValue("request.tool", env) == Some(String(ToolOf(rule)))
  {
    CapabilityReads(rule, env);
  }

  lemma {:induction false} HoldsMore(stronger: string, weaker: string, env: Env)
    requires AgentHolds(stronger, env) && Covers(stronger, weaker)
    ensures AgentHolds(weaker, env)
  {
    GrantedMore(FieldValue("agent.capabilities", env).value, stronger, weaker);
  }

  lemma {:induction false} CapabilityHarmless(a: Rule, b: Rule, env: Env)
    requires ValidRule(a) && ValidRule(b) && a.kind == "capability" && b.kind == "capability" && HarmlessCapability(a, b)
    ensures ToolIs(a, env) && Triggers(b, env) ==> Triggers(a, env)
  {
    CapabilityTriggers(a, env);
    CapabilityTriggers(b, env);
    ToolMeans(a, env);
    ToolMeans(b, env);
    if ToolIs(a, env) && Triggers(b, env) {
      HoldsMore(NeedOf(b), NeedOf(a), env);
    }
  }

  lemma {:induction false} InTest(path: string, items: seq<Json>, env: Env)
    ensures TestHolds(Test(path, In, Array(items)), env) <==> FieldValue(path, env).Some? && FieldValue(path, env).value in items
  {
  }

  lemma {:induction false} ValuesListed(rule: Rule)
    requires ValidRule(rule) && rule.kind == "blocklist"
    ensures Condition(rule, "values") == Some(Array(ValuesOf(rule))) && ValuesOf(rule) != []
  {
  }

  lemma {:induction false} BlocklistTriggers(rule: Rule, env: Env)
    requires ValidRule(rule) && rule.kind == "blocklist"
    ensures ValuesOf(rule) != []
    ensures Triggers(rule, env) <==>
      FieldValue(BlockedField(rule), env).Some? && FieldValue(BlockedField(rule), env).value in ValuesOf(rule)
  {
    BlocklistReads(rule, env);
    ValuesListed(rule);
    InTest(BlockedField(rule), ValuesOf(rule), env);
  }

  lemma {:induction false} BlocklistHarmless(a: Rule, b: Rule, env: Env)
    requires ValidRule(a) && ValidRule(b) && a.kind == "blocklist" && b.kind == "blocklist" && HarmlessBlocklist(a, b)
    ensures Triggers(b, env) ==> Triggers(a, env)
  {
    BlocklistTriggers(a, env);
    BlocklistTriggers(b, env);
    assert BlockedField(a) == BlockedField(b);
  }

  /** The selector picks the agent whose id is at `path`. */
  predicate Selects(s: Selector, path: string, env: Env) {
    match s
    case Everyone => true
    case ByPattern(pattern) => TestHolds(Test(path, Matches, String(pattern)), env)
    case ById(id) => TestHolds(Test(path, Equals, String(id)), env)
  }

  lemma {:induction false} SelectorMeans(rule: Rule, env: Env)
    ensures LimitApplies(rule, env) <==> Selects(SelectorOf(rule), "agent.id", env)
  {
    SelectorReads(rule, env);
  }

  lemma {:induction false} LimitTriggers(rule: Rule, env: Env)
    requires ValidRule(rule) && rule.kind == "rate_limit"
    ensures Triggers(rule, env) <==>
      LimitApplies(rule, env) && TestHolds(Test("session.request_count", GreaterEq, Number(LimitOf(rule))), env)
  {
    LimitReads(rule, env);
  }

  lemma {:induction false} LimitHarmless(a: Rule, b: Rule, env: Env)
    requires ValidRule(a) && ValidRule(b) && a.kind == "rate_limit" && b.kind == "rate_limit" && HarmlessLimit(a, b) && Orders(env)
    ensures Triggers(b, env) ==> Triggers(a, env)
  {
    SelectorMeans(a, env);
    SelectorMeans(b, env);
    LimitTriggers(a, env);
    LimitTriggers(b, env);
    if Triggers(b, env) {
      ReachesLower(LimitOf(a), LimitOf(b), FieldValue("session.request_count", env).value, env);
    }
  }

  lemma {:induction false} ReachesLower(low: real, high: real, count: Json, env: Env)
    requires Orders(env) && low <= high && Compares(GreaterEq, count, Number(high), env)
    ensures Compares(GreaterEq, count, Number(low), env)
  {
    if count.Number? {
      assert env.less(Number(low), Number(count.number)) <==> low < count.number;
      assert env.less(Number(high), Number(count.number)) <==> high < count.number;
    }
  }

  lemma {:induction false} HarmlessNeverMisleads(a: Rule, b: Rule, env: Env)
    requires ValidRule(a) && ValidRule(b) && a.kind == b.kind && Harmless(a, b) && Orders(env)
    ensures !Misleads(a, b, env)
  {
    CapabilityKind(a);
    CapabilityKind(b);
    match KindOf(a)
    case Capability => CapabilityHarmless(a, b, env);
    case Blocklist => BlocklistHarmless(a, b, env);
    case RateLimit => LimitHarmless(a, b, env);
    case Custom =>
  }

  // ---------------------------------------------------------------- other twins do on some input

  /** An input document of two sections with one member each. */
  function Document(section1: string, key1: string, value1: Json, section2: string, key2: string, value2: Json): Json {
    Object([Member(section1, Object([Member(key1, value1)])), Member(section2, Object([Member(key2, value2)]))])
  }

  lemma {:induction false} OneStep(d: Json, section: string, key: string)
    requires d.Object?
    ensures Navigate(d, [section, key]) ==
      if !HasField(d, section) || !Field(d, section).value.Object? then None else Field(Field(d, section).value, key)
  {
    assert [section, key][1..] == [key] && [key][1..] == [];
    if HasField(d, section) && Field(d, section).value.Object? {
      var inner := Field(d, section).value;
      assert Navigate(inner, [key]) == Field(inner, key);
    }
  }

  lemma {:induction false} DocumentFields(section1: string, key1: string, value1: Json, section2: string, key2: string, value2: Json)
    requires section1 != section2
    ensures var d := Document(section1, key1, value1, section2, key2, value2);
      && Navigate(d, [section1, key1]) == Some(value1) && Navigate(d, [section2, key2]) == Some(value2)
      && forall section, key :: section != section1 && section != section2 ==> Navigate(d, [section, key]) == None
  {
    var x, y := Object([Member(key1, value1)]), Object([Member(key2, value2)]);
    var m, n := Member(section1, x), Member(section2, y);
    var d := Document(section1, key1, value1, section2, key2, value2);
    assert [m, n][1..] == [n] && [n][1..] == [];
    assert Field(x, key1) == Some(value1) && Field(y, key2) == Some(value2);
    assert Field(d, section1) == Some(x) && Field(d, section2) == Some(y);
    OneStep(d, section1, key1);
    OneStep(d, section2, key2);
    forall section, key | section != section1 && section != section2 ensures Navigate(d, [section, key]) == None {
      OneStep(d, section, key);
    }
  }

  /** Numbers by size, nothing else ordered. */
  function SizeOrder(a: Json, b: Json): bool {
    a.Number? && b.Number? && a.number < b.number
  }

  lemma {:induction false} SizeOrders(input: Json, regex: (string, string) -> bool)
    ensures Orders(Env(input, regex, SizeOrder))
  {
  }

  /** An input with one value at each of two paths. */
  lemma {:induction false} TwoFieldInput(path1: string, section1: string, key1: string, value1: Json,
                                         path2: string, section2: string, key2: string, value2: Json,
                                         regex: (string, string) -> bool) returns (env: Env)
    requires section1 != section2
    requires forall e :: FieldValue(path1, e) == Navigate(e.input, [section1, key1])
    requires forall e :: FieldValue(path2, e) == Navigate(e.input, [section2, key2])
    ensures Orders(env) && env.regex == regex
    ensures env.input == Document(section1, key1, value1, section2, key2, value2)
    ensures FieldValue(path1, env) == Some(value1) && FieldValue(path2, env) == Some(value2)
  {
    env := Env(Document(section1, key1, value1, section2, key2, value2), regex, SizeOrder);
    SizeOrders(env.input, env.regex);
    DocumentFields(section1, key1, value1, section2, key2, value2);
  }

  /** An input with this tool and these capabilities. */
  lemma {:induction false} ToolInput(tool: string, held: seq<Json>) returns (env: Env)
    ensures Orders(env)
    ensures FieldValue("request.tool", env) == Some(String(tool)) && FieldValue("agent.capabilities", env) == Some(Array(held))
  {
    ToolPath();
    CapabilitiesPath();
    assert |"request"| != |"agent"|;
    env := TwoFieldInput("request.tool", "request", "tool", String(tool),
                         "agent.capabilities", "agent", "capabilities", Array(held), (p, t) => false);
  }

  lemma {:induction false} HeldMeans(need: string, held: seq<Json>, env: Env)
    requires FieldValue("agent.capabilities", env) == Some(Array(held))
    ensures AgentHolds(need, env) <==> Granted(Array(held), need)
  {
  }

  lemma {:induction false} GrantedByOne(one: string, need: string)
    ensures Granted(Array([String(one)]), need) <==> Covers(one, need)
  {
    assert Includes(Array([String(one)]), String(one));
  }

  lemma {:induction false} CapabilityMisled(a: Rule, b: Rule) returns (env: Env)
    requires ValidRule(a) && ValidRule(b) && a.kind == "capability" && b.kind == "capability" && !HarmlessCapability(a, b)
    ensures Orders(env) && Fires(a, env) && Triggers(b, env)
  {
    env := ToolInput(ToolOf(a), [String(NeedOf(b))]);
    ToolMeans(a, env);
    ToolMeans(b, env);
    HeldMeans(NeedOf(a), [String(NeedOf(b))], env);
    HeldMeans(NeedOf(b), [String(NeedOf(b))], env);
    GrantedByOne(NeedOf(b), NeedOf(a));
    GrantedByOne(NeedOf(b), NeedOf(b));
    CapabilityTriggers(a, env);
    CapabilityTriggers(b, env);
  }

  /** A rule with id `capability` fires on some input and is never reported. */
  lemma {:induction false} DefaultedMisled(a: Rule) returns (env: Env)
    requires ValidRule(a) && a.kind == "capability"
    ensures Orders(env) && Fires(a, env)
  {
    env := ToolInput(ToolOf(a), []);
    ToolMeans(a, env);
    HeldMeans(NeedOf(a), [], env);
    CapabilityTriggers(a, env);
  }

  /** Where a blocklist looks. */
  datatype Place = ToolPlace | AgentPlace | DidPlace

  function PlaceOf(rule: Rule): Place {
    match TextOf(rule, "match_type")
    case "tool" => ToolPlace
    case "agent" => AgentPlace
    case _ => DidPlace
  }

  function PathOf(place: Place): string {
    match place
    case ToolPlace => "request.tool"
    case AgentPlace => "agent.id"
    case DidPlace => "identity.did"
  }

  lemma {:induction false} PlaceDecides(a: Rule, b: Rule)
    requires ValidRule(a) && ValidRule(b) && a.kind == "blocklist" && b.kind == "blocklist"
    ensures BlockedField(a) == PathOf(PlaceOf(a))
    ensures Condition(a, "match_type") == Condition(b, "match_type") <==> PlaceOf(a) == PlaceOf(b)
  {
  }

  /** An input with a value at one path and none at two others. */
  lemma {:induction false} OneFieldInput(path1: string, section1: string, key1: string, value: Json,
                                         path2: string, section2: string, key2: string,
                                         path3: string, section3: string, key3: string) returns (env: Env)
    requires section1 != section2 && section1 != section3
    requires forall e :: FieldValue(path1, e) == Navigate(e.input, [section1, key1])
    requires forall e :: FieldValue(path2, e) == Navigate(e.input, [section2, key2])
    requires forall e :: FieldValue(path3, e) == Navigate(e.input, [section3, key3])
    ensures Orders(env)
    ensures FieldValue(path1, env) == Some(value) && FieldValue(path2, env) == None && FieldValue(path3, env) == None
  {
    var inner := Object([Member(key1, value)]);
    var d := Object([Member(section1, inner)]);
    env := Env(d, (p, t) => false, SizeOrder);
    SizeOrders(env.input, env.regex);
    assert [Member(section1, inner)][1..] == [];
    assert Field(d, section1) == Some(inner) && Field(d, section2) == None && Field(d, section3) == None;
    assert Field(inner, key1) == Some(value);
    OneStep(d, section1, key1);
    OneStep(d, section2, key2);
    OneStep(d, section3, key3);
  }

  lemma {:induction false} SectionsDiffer()
    ensures "request" != "agent" && "request" != "identity" && "agent" != "identity"
  {
    assert |"request"| == 7 && |"agent"| == 5 && |"identity"| == 8;
  }

  /** An input with this value in one of the three places and nothing in the others. */
  lemma {:induction false} PlaceInput(place: Place, value: Json) returns (env: Env)
    ensures Orders(env)
    ensures FieldValue(PathOf(ToolPlace), env) == if place == ToolPlace then Some(value) else None
    ensures FieldValue(PathOf(AgentPlace), env) == if place == AgentPlace then Some(value) else None
    ensures FieldValue(PathOf(DidPlace), env) == if place == DidPlace then Some(value) else None
  {
    ToolPath();
    AgentPath();
    DidPath();
    SectionsDiffer();
    match place
    case ToolPlace =>
      env := OneFieldInput("request.tool", "request", "tool", value, "agent.id", "agent", "id", "identity.did", "identity", "did");
    case AgentPlace =>
      env := OneFieldInput("agent.id", "agent", "id", value, "request.tool", "request", "tool", "identity.did", "identity", "did");
    case DidPlace =>
      env := OneFieldInput("identity.did", "identity", "did", value, "agent.id", "agent", "id", "request.tool", "request", "tool");
  }

  lemma {:induction false} BlocklistMisled(a: Rule, b: Rule) returns (env: Env)
    requires ValidRule(a) && ValidRule(b) && a.kind == "blocklist" && b.kind == "blocklist" && !HarmlessBlocklist(a, b)
    ensures Orders(env) && !Triggers(a, env) && Triggers(b, env)
  {
    PlaceDecides(a, b);
    PlaceDecides(b, a);
    var v :| v in ValuesOf(b) && (PlaceOf(a) == PlaceOf(b) ==> v !in ValuesOf(a)) by {
      if PlaceOf(a) != PlaceOf(b) {
        BlocklistTriggers(b, Env(Null, (p, t) => false, SizeOrder));
        assert ValuesOf(b)[0] in ValuesOf(b);
      }
    }
    env := PlaceInput(PlaceOf(b), v);
    BlocklistTriggers(a, env);
    BlocklistTriggers(b, env);
  }

  /** An agent that the second selector picks and the first, if it differs, does not. */
  function Outsider(a: Selector, b: Selector): string {
    if b.ById? then b.id else if a.ById? then a.id + "x" else ""
  }

  predicate Picks(s: Selector, agent: string, pattern: Selector) {
    match s
    case Everyone => true
    case ByPattern(_) => pattern == s
    case ById(id) => id == agent
  }

  lemma {:induction false} OutsiderPicked(a: Selector, b: Selector)
    ensures Picks(b, Outsider(a, b), b)
    ensures a != Everyone && a != b ==> !Picks(a, Outsider(a, b), b)
  {
    if a.ById? {
      assert |a.id + "x"| == |a.id| + 1;
    }
  }

  /** An input with this agent and request count, where exactly one pattern matches anything. */
  lemma {:induction false} CountInput(agent: string, count: real, pattern: Selector) returns (env: Env)
    ensures Orders(env)
    ensures FieldValue("agent.id", env) == Some(String(agent)) && FieldValue("session.request_count", env) == Some(Number(count))
    ensures forall p :: env.regex(p, agent) <==> pattern == ByPattern(p)
  {
    AgentPath();
    CountPath();
    assert |"agent"| != |"session"|;
    env := TwoFieldInput("agent.id", "agent", "id", String(agent), "session.request_count", "session", "request_count",
                         Number(count), (p: string, t: string) => pattern == ByPattern(p));
  }

  lemma {:induction false} SelectorPicks(s: Selector, path: string, agent: string, pattern: Selector, env: Env)
    requires FieldValue(path, env) == Some(String(agent))
    requires forall p :: env.regex(p, agent) <==> pattern == ByPattern(p)
    ensures Selects(s, path, env) <==> Picks(s, agent, pattern)
  {
  }

  lemma {:induction false} TestAt(path: string, op: Operator, value: Json, field: Json, env: Env)
    requires FieldValue(path, env) == Some(field)
    ensures TestHolds(Test(path, op, value), env) <==> Compares(op, field, value, env)
  {
  }

  lemma {:induction false} LimitMisled(a: Rule, b: Rule) returns (env: Env)
    requires ValidRule(a) && ValidRule(b) && a.kind == "rate_limit" && b.kind == "rate_limit" && !HarmlessLimit(a, b)
    ensures Orders(env) && !Triggers(a, env) && Triggers(b, env)
  {
    var mine, theirs := SelectorOf(a), SelectorOf(b);
    var agent := Outsider(mine, theirs);
    env := CountInput(agent, LimitOf(b), theirs);
    OutsiderPicked(mine, theirs);
    SelectorPicks(mine, "agent.id", agent, theirs, env);
    SelectorPicks(theirs, "agent.id", agent, theirs, env);
    SelectorMeans(a, env);
    SelectorMeans(b, env);
    LimitTriggers(a, env);
    LimitTriggers(b, env);
    CountReaches(LimitOf(b), LimitOf(a), env);
    CountReaches(LimitOf(b), LimitOf(b), env);
  }

  lemma {:induction false} CountReaches(count: real, limit: real, env: Env)
    requires Orders(env) && FieldValue("session.request_count", env) == Some(Number(count))
    ensures TestHolds(Test("session.request_count", GreaterEq, Number(limit)), env) <==> count >= limit
  {
    TestAt("session.request_count", GreaterEq, Number(limit), Number(count), env);
    assert env.less(Number(limit), Number(count)) <==> limit < count;
  }

  lemma {:induction false} HarmfulMisleads(a: Rule, b: Rule) returns (env: Env)
    requires ValidRule(a) && ValidRule(b) && a.kind == b.kind && !Harmless(a, b)
    ensures Orders(env) && Misleads(a, b, env)
  {
    CapabilityKind(a);
    CapabilityKind(b);
    match KindOf(a)
    case Capability => env := CapabilityMisled(a, b);
    case Blocklist => env := BlocklistMisled(a, b);
    case RateLimit => env := LimitMisled(a, b);
    case Custom => env :| Orders(env) && Triggers(b, env) && !Triggers(a, env);
  }

  // ---------------------------------------------------------------- the exact condition

  /** What a policy author can check: no capability rule called `capability`, and every pair of twins
      harmless. */
  ghost predicate TwinsHarmless(p: Policy)
    requires ValidPolicy(p)
  {
    forall a :: a in p.rules && IsEnabled(a) ==> RuleUndisturbed(p, a)
  }

  ghost predicate RuleUndisturbed(p: Policy, a: Rule)
    requires ValidPolicy(p) && ValidRule(a)
  {
    !Defaulted(a) && forall b :: b in p.rules && IsEnabled(b) && b != a && Twins(a, b) ==> Harmless(a, b)
  }

  /** A rule is reported rightly on every input exactly when it is undisturbed. */
  lemma {:induction false} AlwaysRightIff(p: Policy, rule: Rule)
    requires ValidPolicy(p) && rule in p.rules && IsEnabled(rule)
    ensures (forall env | Orders(env) :: !Misreported(p, rule, env)) <==> RuleUndisturbed(p, rule)
  {
    if RuleUndisturbed(p, rule) {
      forall env | Orders(env) ensures !Misreported(p, rule, env) {
        UndisturbedIsRight(p, rule, env);
      }
    } else if Defaulted(rule) {
      var env := DefaultedMisled(rule);
      MisreportedIff(p, rule, env);
      assert Misreported(p, rule, env);
    } else {
      var b :| b in p.rules && IsEnabled(b) && b != rule && Twins(rule, b) && !Harmless(rule, b);
      var env := HarmfulMisleads(rule, b);
      MisreportedIff(p, rule, env);
      assert TwinTriggers(p, rule, env);
      assert Misreported(p, rule, env);
    }
  }

  lemma {:induction false} UndisturbedIsRight(p: Policy, rule: Rule, env: Env)
    requires ValidPolicy(p) && rule in p.rules && IsEnabled(rule) && RuleUndisturbed(p, rule) && Orders(env)
    ensures !Misreported(p, rule, env)
  {
    MisreportedIff(p, rule, env);
    if TwinTriggers(p, rule, env) {
      var b :| b in p.rules && IsEnabled(b) && b != rule && Twins(rule, b) && Triggers(b, env);
      HarmlessNeverMisleads(rule, b, env);
    }
  }

  /** Whole-policy correctness with its exact condition: for a validated policy whose rules' texts are
      exact and whose messages differ, the module raises the policy's violations on every input if and
      only if no capability rule is called `capability` and all twins are harmless. */
  lemma {:induction false} CompiledPolicyCorrectIff(p: Policy, text: Messages, rego: Reader)
    requires ValidPolicy(p) && RulesExact(p) && DistinctMessages(p, text) && Compiled(p, text, rego).Ok?
    ensures (forall env | Orders(env) :: Violations(Compiled(p, text, rego).value, env) == DirectViolations(p, text, env)) <==>
              TwinsHarmless(p)
  {
    if TwinsHarmless(p) {
      forall env | Orders(env) ensures Violations(Compiled(p, text, rego).value, env) == DirectViolations(p, text, env) {
        CompiledPolicyIsCorrect(p, text, rego, env);
      }
    } else {
      var rule :| rule in p.rules && IsEnabled(rule) && !RuleUndisturbed(p, rule);
      AlwaysRightIff(p, rule);
      var env :| Orders(env) && Misreported(p, rule, env);
      ViolationsRightIff(p, text, rego, env);
    }
  }

  /** Whole-policy correctness: with harmless twins the violations are those of the rules that fire,
      and `blocked` and, when no allowing rule has a twin, `allow` are as the policy says. */
  lemma {:induction false} CompiledPolicyIsCorrect(p: Policy, text: Messages, rego: Reader, env: Env)
    requires ValidPolicy(p) && RulesExact(p) && TwinsHarmless(p) && Orders(env) && Compiled(p, text, rego).Ok?
    ensures Violations(Compiled(p, text, rego).value, env) == DirectViolations(p, text, env)
    ensures NameHolds(Compiled(p, text, rego).value, "blocked", env) <==> DirectlyBlocked(p, env)
    ensures (forall a, b | a in p.rules && b in p.rules && IsEnabled(a) && IsEnabled(b) ::
               Decides(a, "allow") && Twins(a, b) ==> a == b) ==>
            (NameHolds(Compiled(p, text, rego).value, "allow", env) <==> DirectlyAllowed(p, env))
  {
    CompiledPolicyMeans(p, text, rego, env);
    forall rule | rule in p.rules && IsEnabled(rule) ensures !Misreported(p, rule, env) {
      UndisturbedIsRight(p, rule, env);
    }
    SameFires(p, text, env);
    AllowRightIff(p, text, rego, env);
  }

  // ---------------------------------------------------------------- a limit that is cut off

  lemma {:induction false} TruncatedBelow(limit: real)
    requires limit > 0.0 && !ExactLimit(limit)
    ensures TruncateToInt(limit) as real < limit
  {
  }

  /** The text of a rate limit's helper holds from the truncated limit on. */
  lemma {:induction false} TruncatedHelper(rule: Rule, text: Messages, env: Env)
    requires ValidRule(rule) && rule.kind == "rate_limit" && CompileRule(rule, text).Ok? && LoadedRules(rule, text) != []
    requires LimitApplies(rule, env) && Orders(env)
    requires FieldValue("session.request_count", env) == Some(Number(TruncateToInt(LimitOf(rule)) as real))
    ensures GroundBody(LoadedRules(rule, text)[0].body, env)
  {
    var n := TruncateToInt(LimitOf(rule));
    AgentBody(rule, env);
    CountClauseHolds(n, env);
    GroundAppend(AgentClauses(rule), RequestCountClause(n), env);
    TruncatedBody(rule, text);
  }

  lemma {:induction false} WholeLiteral(n: int)
    ensures ExactLiteral(Number(n as real))
  {
    WholeScaled(n);
  }

  lemma {:induction false} CountClauseHolds(n: int, env: Env)
    requires Orders(env) && FieldValue("session.request_count", env) == Some(Number(n as real))
    ensures GroundHolds(RequestCountClause(n), env)
  {
    WholeLiteral(n);
    CountPath();
    CountReaches(n as real, n as real, env);
    TestClause(Test("session.request_count", GreaterEq, Number(n as real)), env);
  }

  lemma {:induction false} TruncatedBody(rule: Rule, text: Messages)
    requires ValidRule(rule) && rule.kind == "rate_limit" && CompileRule(rule, text).Ok? && LoadedRules(rule, text) != []
    ensures LoadedRules(rule, text)[0].body == AgentClauses(rule) + [RequestCountClause(TruncateToInt(LimitOf(rule)))]
  {
  }

  /** A rule whose helper body holds raises its message, for any type but capability and allowing rules. */
  lemma {:induction false} HelperRaises(p: Policy, text: Messages, rule: Rule, env: Env)
    requires Loaded(p, text).Ok? && rule in p.rules && IsEnabled(rule) && rule.kind == "rate_limit" && CompileRule(rule, text).Ok?
    requires LoadedRules(rule, text) != [] && GroundBody(LoadedRules(rule, text)[0].body, env)
    ensures text(rule) in Violations(Loaded(p, text).value, env)
  {
    var m := Loaded(p, text).value;
    CapabilityKind(rule);
    var i := OwnHelper(p, text, rule);
    EffectEmitted(rule, text);
    var r :| r in LoadedRules(rule, text) && r.head == Violation(text(rule));
    ModuleMember(p, text, r);
    EffectShape(rule, text, r);
    OneTopClause(m, Helper(HelperName(rule.id, KindOf(rule))), env);
  }

  /** In every policy with plain text, whatever its other rules, an enabled rate limit that is not a
      whole number in int64 range makes the module report it on an input where the policy does not. */
  lemma {:induction false} CutLimitMisreported(p: Policy, text: Messages, rego: Reader, rule: Rule) returns (env: Env)
    requires ValidPolicy(p) && PlainPolicy(p) && DistinctMessages(p, text) && Compiled(p, text, rego).Ok?
    requires rule in p.rules && IsEnabled(rule) && rule.kind == "rate_limit" && !ExactLimit(LimitOf(rule))
    ensures Orders(env)
    ensures text(rule) in Violations(Compiled(p, text, rego).value, env) && text(rule) !in DirectViolations(p, text, env)
  {
    var selector, n := SelectorOf(rule), TruncateToInt(LimitOf(rule));
    var agent := Outsider(Everyone, selector);
    env := CountInput(agent, n as real, selector);
    OutsiderPicked(Everyone, selector);
    SelectorPicks(selector, "agent.id", agent, selector, env);
    SelectorMeans(rule, env);
    LimitIsPositive(rule);
    TruncatedBelow(LimitOf(rule));
    CountReaches(n as real, LimitOf(rule), env);
    LimitTriggers(rule, env);
    CapabilityKind(rule);
    MessageTells(p, text, rule, env);
    ModuleMember(p, text, RegoRule(Name(""), []));
    HelperFirst(rule, text);
    TruncatedHelper(rule, text, env);
    HelperRaises(p, text, rule, env);
  }

  lemma {:induction false} LimitIsPositive(rule: Rule)
    requires ValidRule(rule) && rule.kind == "rate_limit"
    ensures LimitOf(rule) > 0.0
  {
  }
}
