/**
 Policy definitions (internal/policy/compiler/schema.go), their validation
 (internal/policy/compiler/validation.go) and what they say when the JSON is read directly.
 */
module Policy {
  import opened Text
  import opened Json
  import opened ExpressionReader
  import opened RegoTests
  import opened AuthorReading
  import opened RuleIds
  import opened Capabilities

  datatype Rule = Rule(id: string, kind: string, enabled: Option<bool>, conditions: seq<Member>, action: string)

  datatype Policy = Policy(version: string, name: string, description: string, rules: seq<Rule>)

  /** The text of a rule's violation message. */
  type Messages = Rule -> string

  predicate IsEnabled(rule: Rule) {
    rule.enabled.None? || rule.enabled.value
  }

  function KindNamed(kind: string): Option<RuleType> {
    match kind
    case "capability" => Some(Capability)
    case "blocklist" => Some(Blocklist)
    case "rate_limit" => Some(RateLimit)
    case "custom" => Some(Custom)
    case _ => None
  }

  function Condition(rule: Rule, key: string): Option<Json> {
    Field(Object(rule.conditions), key)
  }

  predicate HasText(rule: Rule, key: string) {
    HasString(Object(rule.conditions), key)
  }

  /** `rule.Conditions[key].(string)`, with the empty string when absent or of another type. */
  function TextOf(rule: Rule, key: string): string {
    if HasText(rule, key) then Condition(rule, key).value.text else ""
  }

  // ---------------------------------------------------------------- validation

  predicate ValidConditions(rule: Rule) {
    var kind := KindNamed(rule.kind);
    kind.Some? &&
    match kind.value
    case Capability => HasText(rule, "tool") && HasText(rule, "requires_capability")
    case Blocklist =>
      && TextOf(rule, "match_type") in {"tool", "agent", "did"}
      && Condition(rule, "values").Some?
      && IsStringList(Condition(rule, "values").value)
      && Condition(rule, "values").value.items != []
    case RateLimit =>
      && Condition(rule, "limit").Some? && Condition(rule, "limit").value.Number?
      && Condition(rule, "limit").value.number > 0.0
      && (Condition(rule, "window").Some? ==> TextOf(rule, "window") in {"session", "minute", "hour"})
    case Custom => rule.conditions != [] && ValidExpression(Object(rule.conditions))
  }

  predicate ValidRule(rule: Rule) {
    IsValidId(rule.id) && ValidConditions(rule)
  }

  predicate ValidPolicy(p: Policy) {
    && p.version != "" && IsValidId(p.name) && p.rules != []
    && (forall i :: 0 <= i < |p.rules| ==> ValidRule(p.rules[i]))
    && (forall i, j :: 0 <= i < j < |p.rules| ==> p.rules[i].id != p.rules[j].id)
  }

  class Validator {
    var ruleIDs: set<string>

    constructor ()
      ensures ruleIDs == {}
    {
      ruleIDs := {};
    }

    method ValidateRule(rule: Rule) returns (ok: bool)
      modifies this
      ensures ok <==> ValidRule(rule) && rule.id !in old(ruleIDs)
      ensures ok ==> ruleIDs == old(ruleIDs) + {rule.id}
    {
      if !IsValidId(rule.id) || rule.id in ruleIDs {
        return false;
      }
      ruleIDs := ruleIDs + {rule.id};
      return ValidConditions(rule);
    }

    /** Accepts exactly the valid policies, whatever the previous validation left behind. */
    method Validate(p: Policy) returns (ok: bool)
      modifies this
      ensures ok <==> ValidPolicy(p)
      ensures ok ==> ruleIDs == set i | 0 <= i < |p.rules| :: p.rules[i].id
    {
      ruleIDs := {};
      if p.version == "" || p.name == "" || !IsValidId(p.name) || |p.rules| == 0 {
        return false;
      }
      for i := 0 to |p.rules|
        invariant ruleIDs == set k | 0 <= k < i :: p.rules[k].id
        invariant forall k :: 0 <= k < i ==> ValidRule(p.rules[k])
        invariant forall j, k :: 0 <= j < k < i ==> p.rules[j].id != p.rules[k].id
      {
        var valid := ValidateRule(p.rules[i]);
        if !valid {
          return false;
        }
      }
      return true;
    }
  }

  // ---------------------------------------------------------------- what validation accepts

  predicate DistinctKeys(members: seq<Member>) {
    forall i, j :: 0 <= i < j < |members| ==> members[i].key != members[j].key
  }

  /** The conditions have this member. */
  predicate Has(rule: Rule, key: string, value: Json) {
    Member(key, value) in rule.conditions
  }

  lemma {:induction false} FindIff(members: seq<Member>, key: string, value: Json)
    requires DistinctKeys(members)
    ensures FindMember(members, key) == Some(value) <==> Member(key, value) in members
  {
    if members != [] {
      FindIff(members[1..], key, value);
      assert forall m :: m in members <==> m == members[0] || m in members[1..];
    }
  }

  lemma {:induction false} HasIff(rule: Rule, key: string, value: Json)
    requires DistinctKeys(rule.conditions)
    ensures Condition(rule, key) == Some(value) <==> Has(rule, key, value)
  {
    FindIff(rule.conditions, key, value);
  }

  /** A list of strings with at least one entry. */
  predicate NonEmptyList(v: Json) {
    v.Array? && |v.items| > 0 && forall i :: 0 <= i < |v.items| ==> v.items[i].String?
  }

  /** Conditions of each type that a policy author may write. */
  ghost predicate WellWritten(rule: Rule) {
    match rule.kind
    case "capability" =>
      (exists tool: string :: Has(rule, "tool", String(tool))) && exists need: string :: Has(rule, "requires_capability", String(need))
    case "blocklist" =>
      && (exists place: string :: Has(rule, "match_type", String(place)) && place in {"tool", "agent", "did"})
      && exists list: Json :: Has(rule, "values", list) && NonEmptyList(list)
    case "rate_limit" =>
      && (exists limit: real :: Has(rule, "limit", Number(limit)) && limit > 0.0)
      && forall window: Json :: Has(rule, "window", window) ==> window in {String("session"), String("minute"), String("hour")}
    case "custom" => rule.conditions != [] && ValidExpression(Object(rule.conditions))
    case _ => false
  }

  lemma {:induction false} CapabilityWritten(rule: Rule)
    requires DistinctKeys(rule.conditions) && rule.kind == "capability"
    ensures ValidConditions(rule) <==> WellWritten(rule)
  {
    forall key: string, v: Json { HasIff(rule, key, v); }
  }

  lemma {:induction false} BlocklistWritten(rule: Rule)
    requires DistinctKeys(rule.conditions) && rule.kind == "blocklist"
    ensures ValidConditions(rule) <==> WellWritten(rule)
  {
    forall key: string, v: Json { HasIff(rule, key, v); }
  }

  lemma {:induction false} RateLimitWritten(rule: Rule)
    requires DistinctKeys(rule.conditions) && rule.kind == "rate_limit"
    ensures ValidConditions(rule) <==> WellWritten(rule)
  {
    forall key: string, v: Json { HasIff(rule, key, v); }
  }

  /** A letter, then letters, digits, underscores and hyphens. */
  predicate IsPlainId(id: string) {
    && |id| > 0 && ('a' <= id[0] <= 'z' || 'A' <= id[0] <= 'Z')
    && forall c :: c in id ==> 'a' <= c <= 'z' || 'A' <= c <= 'Z' || '0' <= c <= '9' || c in {'_', '-'}
  }

  lemma {:induction false} IdIff(id: string)
    ensures IsValidId(id) <==> IsPlainId(id)
  {
    forall i | 0 <= i < |id| ensures id[i] in id { }
  }

  /** Validation accepts exactly the rules with a valid id and well-written conditions. */
  lemma {:induction false} ValidRuleIff(rule: Rule)
    requires DistinctKeys(rule.conditions)
    ensures ValidRule(rule) <==> IsPlainId(rule.id) && WellWritten(rule)
  {
    IdIff(rule.id);
    if rule.kind == "capability" { CapabilityWritten(rule); }
    else if rule.kind == "blocklist" { BlocklistWritten(rule); }
    else if rule.kind == "rate_limit" { RateLimitWritten(rule); }
  }

  // ---------------------------------------------------------------- direct reading

  /** Something that `some cap in` finds: an item of an array or a value of an object. */
  predicate Includes(collection: Json, v: Json) {
    || (collection.Array? && v in collection.items)
    || (collection.Object? && exists m :: m in collection.members && m.value == v)
  }

  ghost predicate Granted(held: Json, required: string) {
    exists c: string :: Includes(held, String(c)) && Covers(c, required)
  }

  ghost predicate AgentHolds(required: string, env: Env) {
    var capabilities := FieldValue("agent.capabilities", env);
    capabilities.Some? && Granted(capabilities.value, required)
  }

  /** Every capability of one agent is granted by some capability of the other. */
  ghost predicate Outranks(stronger: Json, weaker: Json) {
    forall c: string :: Includes(weaker, String(c)) ==> Granted(stronger, c)
  }

  lemma {:induction false} CoversMore(a: string, b: string, c: string)
    requires Covers(a, b) && Covers(b, c)
    ensures Covers(a, c)
  {
    MatchesIff(a, b);
    MatchesIff(b, c);
    MatchesIff(a, c);
    MatchesTransitive(a, b, c);
  }

  /** An agent with more or stronger capabilities holds whatever the weaker one holds. */
  lemma {:induction false} StrongerAgentHolds(required: string, weak: Env, strong: Env)
    requires AgentHolds(required, weak) && FieldValue("agent.capabilities", strong).Some?
    requires Outranks(FieldValue("agent.capabilities", strong).value, FieldValue("agent.capabilities", weak).value)
    ensures AgentHolds(required, strong)
  {
    var a, b := FieldValue("agent.capabilities", weak).value, FieldValue("agent.capabilities", strong).value;
    var c: string :| Includes(a, String(c)) && Covers(c, required);
    var d: string :| Includes(b, String(d)) && Covers(d, c);
    CoversMore(d, c, required);
  }

  predicate ToolIs(rule: Rule, env: Env) {
    Condition(rule, "tool").Some? && FieldValue("request.tool", env) == Condition(rule, "tool")
  }

  /** The condition names something: a string that is not empty. */
  predicate Names(rule: Rule, key: string) {
    var v := Condition(rule, key);
    v.Some? && v.value.String? && v.value.text != ""
  }

  /** Which agents a rate limit is for: a pattern wins over an id, and neither means everyone. */
  ghost predicate LimitApplies(rule: Rule, env: Env) {
    if Names(rule, "agent_pattern") then FieldSays("agent.id", "matches", Condition(rule, "agent_pattern").value, env)
    else if Names(rule, "agent_id") then FieldSays("agent.id", "eq", Condition(rule, "agent_id").value, env)
    else true
  }

  /** Where a block list looks. */
  predicate Blocks(rule: Rule, place: string) {
    Condition(rule, "match_type") == Some(String(place))
  }

  ghost predicate OnBlocklist(rule: Rule, env: Env) {
    var values := Condition(rule, "values");
    values.Some? &&
    (|| (Blocks(rule, "tool") && FieldSays("request.tool", "in", values.value, env))
     || (Blocks(rule, "agent") && FieldSays("agent.id", "in", values.value, env))
     || (Blocks(rule, "did") && FieldSays("identity.did", "in", values.value, env)))
  }

  /** The condition the rule speaks about, read off the JSON. */
  ghost predicate Triggers(rule: Rule, env: Env) {
    match rule.kind
    case "capability" =>
      var need := Condition(rule, "requires_capability");
      ToolIs(rule, env) && need.Some? && need.value.String? && AgentHolds(need.value.text, env)
    case "blocklist" => OnBlocklist(rule, env)
    case "rate_limit" =>
      var limit := Condition(rule, "limit");
      LimitApplies(rule, env) && limit.Some? && FieldSays("session.request_count", "gte", limit.value, env)
    case "custom" => JsonHolds(Object(rule.conditions), env)
    case _ => false
  }

  /** Whether the rule raises a violation. */
  ghost predicate Fires(rule: Rule, env: Env) {
    match rule.kind
    case "capability" => ToolIs(rule, env) && !Triggers(rule, env)
    case "custom" => rule.action == "deny" && Triggers(rule, env)
    case _ => Triggers(rule, env)
  }

  ghost function DirectViolations(p: Policy, text: Messages, env: Env): set<string> {
    set rule | rule in p.rules && rule.enabled != Some(false) && Fires(rule, env) :: text(rule)
  }

  ghost predicate DirectlyBlocked(p: Policy, env: Env) {
    exists rule :: rule in p.rules && rule.enabled != Some(false) && rule.kind == "blocklist" && Triggers(rule, env)
  }

  ghost predicate DirectlyAllowed(p: Policy, env: Env) {
    exists rule :: rule in p.rules && rule.enabled != Some(false) && rule.kind == "custom" && rule.action != "deny" && Triggers(rule, env)
  }
}
