/** The shipped policy (policies/main.rego, capability.rego, rate_limit.rego, blocklist.rego). */
module ShippedPolicy {
  import opened Capabilities

  /** A configured limit.  `false` is the one JSON value that `not data.rate_limits[x]` takes for absent. */
  datatype Limit = Requests(count: int) | FalseLiteral

  datatype Data = Data(
    toolCapabilities: map<string, string>,
    rateLimits: map<string, Limit>,
    blockedTools: seq<string>,
    blockedAgents: seq<string>,
    blockedDids: seq<string>)

  datatype Input = Input(
    agent: string,
    capabilities: seq<string>,
    tool: string,
    requestCount: int,
    verified: bool,
    did: string)

  // ---------------------------------------------------------------- capability.rego

  predicate CapabilityCheck(i: Input, d: Data) {
    || i.tool !in d.toolCapabilities
    || exists c :: c in i.capabilities && CapabilityMatches(c, d.toolCapabilities[i.tool])
  }

  // ---------------------------------------------------------------- rate_limit.rego

  /** `not data.rate_limits[key]` */
  predicate NoLimit(d: Data, key: string) {
    key !in d.rateLimits || d.rateLimits[key].FalseLiteral?
  }

  /** Every value some clause of `get_rate_limit` gives. */
  function RateLimits(d: Data, agent: string): set<Limit> {
    (if agent in d.rateLimits then {d.rateLimits[agent]} else {}) +
    (if NoLimit(d, agent) && "default" in d.rateLimits then {d.rateLimits["default"]} else {}) +
    (if NoLimit(d, agent) && NoLimit(d, "default") then {Requests(1000)} else {})
  }

  /** The clauses agree on exactly one value. */
  predicate SingleValued(d: Data, agent: string) {
    RateLimits(d, agent) != {} && forall x, y :: x in RateLimits(d, agent) && y in RateLimits(d, agent) ==> x == y
  }

  /** The entry that decides the limit is not the literal `false`. */
  predicate NoFalseLimit(d: Data, agent: string) {
    var key := if agent in d.rateLimits then agent else "default";
    key in d.rateLimits ==> d.rateLimits[key].Requests?
  }

  /** `get_rate_limit` is single-valued exactly when no `false` stands where a limit is looked up. */
  lemma RateLimitSingleValued(d: Data, agent: string)
    ensures SingleValued(d, agent) <==> NoFalseLimit(d, agent)
    ensures NoFalseLimit(d, agent) ==> RateLimits(d, agent) == {Requests(RateLimit(d, agent))}
  {
    var limits := RateLimits(d, agent);
    if agent in d.rateLimits {
      assert d.rateLimits[agent] in limits;
      if d.rateLimits[agent].FalseLiteral? {
        if "default" in d.rateLimits { assert d.rateLimits["default"] in limits; }
        if NoLimit(d, "default") { assert Requests(1000) in limits; }
      }
    } else if "default" in d.rateLimits {
      assert d.rateLimits["default"] in limits;
      if NoLimit(d, "default") { assert Requests(1000) in limits; }
    } else {
      assert Requests(1000) in limits;
    }
  }

  /** The limit, read directly: the agent's own, else the default, else 1000. */
  function RateLimit(d: Data, agent: string): int
    requires NoFalseLimit(d, agent)
  {
    if agent in d.rateLimits then d.rateLimits[agent].count
    else if "default" in d.rateLimits then d.rateLimits["default"].count
    else 1000
  }

  predicate RateLimitOk(i: Input, d: Data) {
    forall limit :: limit in RateLimits(d, i.agent) ==> limit.Requests? && i.requestCount < limit.count
  }

  // ---------------------------------------------------------------- blocklist.rego

  predicate Blocked(i: Input, d: Data) {
    || i.tool in d.blockedTools
    || i.agent in d.blockedAgents
    || (i.verified && i.did in d.blockedDids)
  }

  // ---------------------------------------------------------------- violations and decision

  datatype Message =
    | LacksCapability(agent: string, required: string, tool: string)
    | ExceededRateLimit(agent: string, count: int, limit: Limit)
    | ToolBlocked(tool: string)
    | AgentBlocked(agent: string)
    | DidBlocked(did: string)

  function Violations(i: Input, d: Data): set<Message> {
    (if i.tool in d.toolCapabilities && !CapabilityCheck(i, d)
     then {LacksCapability(i.agent, d.toolCapabilities[i.tool], i.tool)} else {}) +
    (if !RateLimitOk(i, d)
     then set limit | limit in RateLimits(d, i.agent) :: ExceededRateLimit(i.agent, i.requestCount, limit) else {}) +
    (if i.tool in d.blockedTools then {ToolBlocked(i.tool)} else {}) +
    (if i.agent in d.blockedAgents then {AgentBlocked(i.agent)} else {}) +
    (if i.verified && i.did in d.blockedDids then {DidBlocked(i.did)} else {})
  }

  predicate Allow(i: Input, d: Data) {
    CapabilityCheck(i, d) && RateLimitOk(i, d) && !Blocked(i, d)
  }

  function MatchedRule(i: Input, d: Data): string {
    if Blocked(i, d) then "blocked"
    else if !RateLimitOk(i, d) then "rate_limit_exceeded"
    else if !CapabilityCheck(i, d) then "missing_capability"
    else if Allow(i, d) then "allowed"
    else "default_deny"
  }

  /** The parts of the decision agree: allowed, without violations and matched as "allowed" are the
      same thing, and the final `else` is never reached. */
  lemma DecisionCoherent(i: Input, d: Data)
    ensures Allow(i, d) <==> Violations(i, d) == {}
    ensures Allow(i, d) <==> MatchedRule(i, d) == "allowed"
    ensures MatchedRule(i, d) != "default_deny"
  {
    var v := Violations(i, d);
    if i.tool in d.toolCapabilities && !CapabilityCheck(i, d) {
      assert LacksCapability(i.agent, d.toolCapabilities[i.tool], i.tool) in v;
    }
    if !RateLimitOk(i, d) {
      var limit :| limit in RateLimits(d, i.agent) && !(limit.Requests? && i.requestCount < limit.count);
      assert ExceededRateLimit(i.agent, i.requestCount, limit) in v;
    }
    if i.tool in d.blockedTools { assert ToolBlocked(i.tool) in v; }
    if i.agent in d.blockedAgents { assert AgentBlocked(i.agent) in v; }
    if i.verified && i.did in d.blockedDids { assert DidBlocked(i.did) in v; }
  }

  predicate IsBlock(m: Message) {
    m.ToolBlocked? || m.AgentBlocked? || m.DidBlocked?
  }

  /** The matched rule names the gravest violation reported: a block, else an exceeded limit, else a
      missing capability. */
  lemma MatchedRuleNamesViolation(i: Input, d: Data)
    ensures var v := Violations(i, d);
      && (MatchedRule(i, d) == "blocked" <==> exists m :: m in v && IsBlock(m))
      && (MatchedRule(i, d) == "rate_limit_exceeded" <==>
            (exists m :: m in v && m.ExceededRateLimit?) && forall m :: m in v ==> !IsBlock(m))
      && (MatchedRule(i, d) == "missing_capability" <==> v != {} && forall m :: m in v ==> m.LacksCapability?)
  {
    var v := Violations(i, d);
    DecisionCoherent(i, d);
    if i.tool in d.blockedTools { assert ToolBlocked(i.tool) in v; }
    if i.agent in d.blockedAgents { assert AgentBlocked(i.agent) in v; }
    if i.verified && i.did in d.blockedDids { assert DidBlocked(i.did) in v; }
    if !RateLimitOk(i, d) {
      var limit :| limit in RateLimits(d, i.agent) && !(limit.Requests? && i.requestCount < limit.count);
      assert ExceededRateLimit(i.agent, i.requestCount, limit) in v;
    }
    if !CapabilityCheck(i, d) {
      assert LacksCapability(i.agent, d.toolCapabilities[i.tool], i.tool) in v;
    }
  }

  /** The whole decision against a direct reading of the data. */
  lemma AllowMeans(i: Input, d: Data)
    requires NoFalseLimit(d, i.agent)
    ensures Allow(i, d) <==>
              && (i.tool in d.toolCapabilities ==>
                    exists c :: c in i.capabilities && Covers(c, d.toolCapabilities[i.tool]))
              && i.requestCount < RateLimit(d, i.agent)
              && i.tool !in d.blockedTools && i.agent !in d.blockedAgents
              && (i.verified ==> i.did !in d.blockedDids)
  {
    RateLimitSingleValued(d, i.agent);
    assert Requests(RateLimit(d, i.agent)) in RateLimits(d, i.agent);
    CheckMeans(i, d);
  }

  lemma {:induction false} CheckMeans(i: Input, d: Data)
    ensures CapabilityCheck(i, d) <==>
      (i.tool in d.toolCapabilities ==> exists c :: c in i.capabilities && Covers(c, d.toolCapabilities[i.tool]))
  {
    if i.tool in d.toolCapabilities {
      forall c { MatchesIff(c, d.toolCapabilities[i.tool]); }
    }
  }

  /** The violations reported, each read off data and input. */
  lemma {:induction false} ViolationsMean(i: Input, d: Data, m: Message)
    requires NoFalseLimit(d, i.agent)
    ensures m in Violations(i, d) <==>
      match m
      case LacksCapability(agent, required, tool) =>
        && agent == i.agent && tool == i.tool && tool in d.toolCapabilities && required == d.toolCapabilities[tool]
        && forall c :: c in i.capabilities ==> !Covers(c, required)
      case ExceededRateLimit(agent, count, limit) =>
        && agent == i.agent && count == i.requestCount
        && limit == Requests(RateLimit(d, agent)) && count >= RateLimit(d, agent)
      case ToolBlocked(tool) => tool == i.tool && tool in d.blockedTools
      case AgentBlocked(agent) => agent == i.agent && agent in d.blockedAgents
      case DidBlocked(did) => did == i.did && i.verified && did in d.blockedDids
  {
    RateLimitSingleValued(d, i.agent);
    assert Requests(RateLimit(d, i.agent)) in RateLimits(d, i.agent);
    CheckMeans(i, d);
  }

  /** Every capability of `weaker` is granted by one of `stronger`. */
  predicate Strengthens(stronger: seq<string>, weaker: seq<string>) {
    forall c :: c in weaker ==> exists s :: s in stronger && CapabilityMatches(s, c)
  }

  /** Adding or strengthening capabilities, making fewer requests and shortening the block lists
      never turn an allow into a deny. */
  lemma AllowIsMonotone(i: Input, d: Data, j: Input, e: Data)
    requires Allow(i, d)
    requires j == i.(capabilities := j.capabilities, requestCount := j.requestCount)
    requires e == d.(blockedTools := e.blockedTools, blockedAgents := e.blockedAgents, blockedDids := e.blockedDids)
    requires Strengthens(j.capabilities, i.capabilities) && j.requestCount <= i.requestCount
    requires forall t :: t in e.blockedTools ==> t in d.blockedTools
    requires forall a :: a in e.blockedAgents ==> a in d.blockedAgents
    requires forall x :: x in e.blockedDids ==> x in d.blockedDids
    ensures Allow(j, e)
  {
    if i.tool in d.toolCapabilities {
      var required := d.toolCapabilities[i.tool];
      var c :| c in i.capabilities && CapabilityMatches(c, required);
      var s :| s in j.capabilities && CapabilityMatches(s, c);
      MatchesTransitive(s, c, required);
    }
    assert RateLimits(e, j.agent) == RateLimits(d, i.agent);
  }

  /** The decision is not a function of agent, tool and capabilities, the parts of the cache key: the
      request count alone turns an allow into a deny. */
  lemma CountOverturnsAllow(i: Input, d: Data)
    requires Allow(i, d) && NoFalseLimit(d, i.agent)
    ensures var j := i.(requestCount := RateLimit(d, i.agent));
      !Allow(j, d) && MatchedRule(j, d) == "rate_limit_exceeded"
  {
    RateLimitSingleValued(d, i.agent);
    var j := i.(requestCount := RateLimit(d, i.agent));
    AllowMeans(j, d);
    DecisionCoherent(j, d);
    assert !Blocked(j, d);
  }
}
