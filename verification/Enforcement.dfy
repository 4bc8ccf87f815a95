/**
 The whole path of an enforced request (cmd/proxy/main.go:246-274): the router's evaluator asks the
 policy engine, which answers from its cache or from the shipped policy.
 */
module Enforcement {
  import opened Text
  import opened Json
  import opened Routing
  import E = PolicyEngine
  import R = EngineRuns
  import K = CacheKey
  import C = DecisionCache
  import opened ShippedPolicy
  import opened Capabilities

  /** A deployed proxy: the engine's configuration, the policy mode, and the encoding of the policy's
      input and data as JSON. */
  datatype Site = Site(
    config: E.Config,
    mode: string,
    encode: Input -> Json,
    input: Json -> Input,
    data: Json -> ShippedPolicy.Data,
    texts: (Input, ShippedPolicy.Data) -> seq<string>,
    hash: string -> string)

  /** What the shipped policy decides, or an error when its rate limit has two values. */
  function Shipped(site: Site, query: E.Query, json: Json): Option<C.Decision> {
    var i, d := site.input(json), site.data(query.data);
    if NoFalseLimit(d, i.agent) then Some(C.Decision(Allow(i, d), site.texts(i, d), MatchedRule(i, d))) else None
  }

  /** OPA runs the shipped policy, and the cache key is the engine's. */
  ghost predicate Runs(site: Site) {
    && K.IsHash(site.hash)
    && (forall i :: site.input(site.encode(i)) == i)
    && (forall q, j :: site.config.opa.answer(q, j) == Shipped(site, q, j))
    && (forall j :: site.config.opa.key(j) ==
          K.ComputeKey(site.input(j).agent, site.input(j).tool, site.input(j).capabilities, site.hash))
  }

  /** The policy input built for a request; the wiring leaves the identity unset. */
  function InputFor(job: Job, info: Info, count: int): Input {
    Input(job.agentId, job.capabilities, info.tool, count, false, "")
  }

  /** The evaluator given to the router, with the engine in state `s`. */
  function Evaluator(site: Site, s: E.Shared, job: Job, count: int): View -> Evaluation {
    (view: View) =>
      var r := E.Result(site.config, s, site.encode(InputFor(job, view.info, count)));
      if r.None? then EvaluationFailed(None)
      else Evaluated(Routing.Decision(r.value.allow, r.value.violations, r.value.matchedRule, site.mode))
  }

  function Wired(site: Site, s: E.Shared, job: Job, count: int): Job {
    job.(evaluator := Some(Evaluator(site, s, job, count)))
  }

  lemma {:induction false} WiringKeepsRequest(site: Site, s: E.Shared, job: Job, count: int)
    ensures var w := Wired(site, s, job, count);
      RequestOf(w) == RequestOf(job) && ExtractionOf(w) == ExtractionOf(job) && VerdictOf(w) == VerdictOf(job) && Routed(w) == Routed(job)
  {
  }

  /** The request reaches the enforcing handler. */
  predicate Enforced(job: Job) {
    Routed(job) && RequestOf(job).methodName in ENFORCED_METHODS
  }

  // ---------------------------------------------------------------- reasons that the key contains

  /** Denied for the agent, the tool or the capabilities alone. */
  predicate KeyDenied(i: Input, d: ShippedPolicy.Data) {
    i.tool in d.blockedTools || i.agent in d.blockedAgents || !CapabilityCheck(i, d)
  }

  predicate SameKeyParts(i: Input, j: Input) {
    i.agent == j.agent && i.tool == j.tool && multiset(i.capabilities) == multiset(j.capabilities)
  }

  lemma {:induction false} SamePartsDeny(i: Input, j: Input, d: ShippedPolicy.Data)
    requires SameKeyParts(i, j) && KeyDenied(i, d)
    ensures KeyDenied(j, d) && !Allow(j, d)
  {
    forall c | c in j.capabilities ensures c in i.capabilities {
      assert c in multiset(j.capabilities);
    }
  }

  /** No cached entry under the request's key belongs to another agent, tool or capability set. */
  predicate Unmixed(site: Site, s: E.Shared, json: Json) {
    var key := site.config.opa.key(json);
    key in s.entries && key in s.origin ==> SameKeyParts(site.input(json), site.input(s.origin[key].input))
  }

  /** Nothing that could make the keys of two inputs collide. */
  predicate KeysApart(site: Site, i: Input, j: Input)
    requires |site.hash(K.Join(K.Sort(i.capabilities), ','))| >= 8 && |site.hash(K.Join(K.Sort(j.capabilities), ','))| >= 8
  {
    var a, b := K.Join(K.Sort(i.capabilities), ','), K.Join(K.Sort(j.capabilities), ',');
    && ':' !in i.agent && ':' !in j.agent && K.Plain(i.capabilities) && K.Plain(j.capabilities)
    && (site.hash(a)[..8] == site.hash(b)[..8] ==> a == b)
  }

  /** Keys do not mix when agents have no colon, capabilities no comma, and the hash does not collide. */
  lemma {:induction false} KeysUnmixed(site: Site, s: E.State, json: Json)
    requires Runs(site) && E.Recorded(site.config, s)
    requires var key := site.config.opa.key(json);
      key in s.shared.origin ==> KeysApart(site, site.input(json), site.input(s.shared.origin[key].input))
    ensures Unmixed(site, s.shared, json)
  {
    var key := site.config.opa.key(json);
    if key in s.shared.entries {
      assert E.FromOrigin(site.config, s.shared, key);
      var i, j := site.input(json), site.input(s.shared.origin[key].input);
      K.KeyIsInjective(i.agent, i.tool, i.capabilities, j.agent, j.tool, j.capabilities, site.hash);
    }
  }

  /** In a current state the engine never allows what is denied for a reason in the key, cached or not. */
  lemma {:induction false} EngineDenies(site: Site, s: E.State, json: Json)
    requires Runs(site) && site.config.enabled && E.Recorded(site.config, s) && E.Current(s)
    requires Unmixed(site, s.shared, json) && KeyDenied(site.input(json), site.data(s.shared.query.data))
    ensures var r := E.Result(site.config, s.shared, json); r.Some? ==> !r.value.allow
  {
    var i, d, key := site.input(json), site.data(s.shared.query.data), site.config.opa.key(json);
    assert SameKeyParts(i, i);
    SamePartsDeny(i, i, d);
    if E.Hit(site.config, s.shared, json).Some? {
      assert E.FromOrigin(site.config, s.shared, key);
      var o := s.shared.origin[key];
      assert o.query == s.shared.query;
      SamePartsDeny(i, site.input(o.input), d);
    }
  }

  /** Only what the policy allows reaches the upstream in enforce mode: if the outcome of an enforced
      method depends on the upstream, the request was well formed and, in a current state, the policy
      installed now allows an input with the same key. */
  lemma {:induction false} OnlyAllowedReachUpstream(site: Site, s: E.State, job: Job, count: int, other: Option<string -> Try<string>>)
    requires Runs(site) && site.config.enabled && site.mode == "enforce" && E.Recorded(site.config, s) && E.Current(s)
    requires RequestOf(job).methodName in ENFORCED_METHODS
    requires var w := Wired(site, s.shared, job, count); RouteFresh(w) != RouteFresh(w.(sender := other))
    ensures Routed(job)
    ensures exists j: Json ::
      && site.config.opa.key(j) == site.config.opa.key(site.encode(InputFor(job, ExtractionOf(job).info, count)))
      && Allow(site.input(j), site.data(s.shared.query.data))
  {
    var w := Wired(site, s.shared, job, count);
    WiringKeepsRequest(site, s.shared, job, count);
    if !Routed(w) {
      RefusedEarly(w, w.evaluator, other);
    } else if Judged(w).None? {
      FailedIsSealed(w, other);
    } else if !Judged(w).value.allow {
      DeniedIsSealed(w, other);
    }
    AllowedSource(site, s, site.encode(InputFor(job, ExtractionOf(job).info, count)));
  }

  /** Whatever a current engine allows, the policy allows for some input with that key. */
  lemma {:induction false} AllowedSource(site: Site, s: E.State, json: Json)
    requires Runs(site) && site.config.enabled && E.Recorded(site.config, s) && E.Current(s)
    requires var r := E.Result(site.config, s.shared, json); r.Some? && r.value.allow
    ensures exists j: Json ::
      site.config.opa.key(j) == site.config.opa.key(json) && Allow(site.input(j), site.data(s.shared.query.data))
  {
    var key := site.config.opa.key(json);
    if E.Hit(site.config, s.shared, json).Some? {
      assert E.FromOrigin(site.config, s.shared, key);
      var o := s.shared.origin[key];
      assert Allow(site.input(o.input), site.data(s.shared.query.data));
    } else {
      assert Allow(site.input(json), site.data(s.shared.query.data));
    }
  }

  /** A request that the shipped policy denies for its agent, tool or capabilities never reaches the
      upstream in enforce mode: in every current state of the engine, whatever its cache holds, the
      reply is a refusal and does not depend on the upstream. */
  lemma {:induction false} DeniedNeverReachesUpstream(site: Site, s: E.State, job: Job, count: int, other: Option<string -> Try<string>>)
    requires Runs(site) && site.config.enabled && site.mode == "enforce" && E.Recorded(site.config, s) && E.Current(s)
    requires Enforced(job)
    requires var i := InputFor(job, ExtractionOf(job).info, count);
      Unmixed(site, s.shared, site.encode(i)) && KeyDenied(i, site.data(s.shared.query.data))
    ensures var w := Wired(site, s.shared, job, count);
      && RouteFresh(w) == RouteFresh(w.(sender := other))
      && RouteFresh(w).reply.Failure? && RouteFresh(w).reply.code in {POLICY_VIOLATION, INTERNAL_ERROR}
      && (job.audits ==> RouteFresh(w).audit.Some? && RouteFresh(w).audit.value.reply == RouteFresh(w).reply)
  {
    var w := Wired(site, s.shared, job, count);
    WiringKeepsRequest(site, s.shared, job, count);
    EngineDenies(site, s, site.encode(InputFor(job, ExtractionOf(job).info, count)));
    if w.audits { EnforcedIsAudited(w); }
    if Judged(w).Some? {
      DeniedIsSealed(w, other);
    } else {
      FailedIsSealed(w, other);
    }
  }

  // ---------------------------------------------------------------- tool calls

  /** The message is a tool call by this name that reaches its handler. */
  predicate Calls(job: Job, tool: string) {
    && Routed(job) && RequestOf(job).methodName == "tools/call" && RequestOf(job).params.Some?
    && job.decodeToolCall(RequestOf(job).params.value).Done?
    && job.decodeToolCall(RequestOf(job).params.value).value.name == tool
  }

  /** What the policy should be asked about. */
  function Asked(job: Job, tool: string, count: int): Input {
    Input(job.agentId, job.capabilities, tool, count, false, "")
  }

  /** The agent has a capability for the tool, read off the data. */
  ghost predicate Capable(job: Job, tool: string, d: ShippedPolicy.Data) {
    tool in d.toolCapabilities ==> exists c :: c in job.capabilities && Covers(c, d.toolCapabilities[tool])
  }

  lemma {:induction false} CallAsks(job: Job, tool: string, count: int)
    requires Calls(job, tool)
    ensures Enforced(job) && InputFor(job, ExtractionOf(job).info, count) == Asked(job, tool, count)
  {
    ViewDescribesRequest(job);
  }

  /** A tool call that is not answered from the cache is forwarded exactly when the tool and the agent
      are not blocked, the agent has a capability for the tool, and the count is below the limit;
      otherwise it is refused under its own id, whatever the upstream is. */
  lemma {:induction false} ToolCallDecided(site: Site, s: E.Shared, job: Job, tool: string, count: int, other: Option<string -> Try<string>>)
    requires Runs(site) && site.config.enabled && site.mode == "enforce" && Calls(job, tool)
    requires NoFalseLimit(site.data(s.query.data), job.agentId)
    requires E.Hit(site.config, s, site.encode(Asked(job, tool, count))).None?
    ensures var d := site.data(s.query.data);
      var w := Wired(site, s, job, count);
      if tool !in d.blockedTools && job.agentId !in d.blockedAgents && Capable(job, tool, d) && count < RateLimit(d, job.agentId)
      then
        RouteFresh(w).reply ==
          if Upstream(job).Done? then Answer(Upstream(job).value)
          else Failure(RequestOf(job).id, UPSTREAM_ERROR, Upstream(job).error, None)
      else
        && RouteFresh(w) == RouteFresh(w.(sender := other))
        && RouteFresh(w).reply.Failure? && RouteFresh(w).reply.code == POLICY_VIOLATION && RouteFresh(w).reply.id == RequestOf(job).id
        && RouteFresh(w).reply.data ==
             Some(ViolationData(job.requestId, job.agentId, tool, job.capabilities, site.texts(Asked(job, tool, count), d), "enforce"))
  {
    var i, d, w := Asked(job, tool, count), site.data(s.query.data), Wired(site, s, job, count);
    CallAsks(job, tool, count);
    AllowMeans(i, d);
    WiringKeepsRequest(site, s, job, count);
    assert site.input(site.encode(i)) == i;
    CallJudged(site, s, job, tool, count);
    ViewDescribesRequest(job);
    if Allow(i, d) { UndeniedIsForwarded(w); } else { DeniedIsSealed(w, other); }
  }

  /** A tool call that is not answered from the cache is judged, and audited, by what the policy says
      about its agent, tool, capabilities and count. */
  lemma {:induction false} CallJudged(site: Site, s: E.Shared, job: Job, tool: string, count: int)
    requires Runs(site) && site.config.enabled && Calls(job, tool) && NoFalseLimit(site.data(s.query.data), job.agentId)
    requires E.Hit(site.config, s, site.encode(Asked(job, tool, count))).None?
    ensures var w := Wired(site, s, job, count);
      var i, d := Asked(job, tool, count), site.data(s.query.data);
      && Judged(w) == Some(Routing.Decision(Allow(i, d), site.texts(i, d), MatchedRule(i, d), site.mode))
      && (job.audits ==> RouteFresh(w).audit.Some? && RouteFresh(w).audit.value.decision == Judged(w))
  {
    CallAsks(job, tool, count);
    WiringKeepsRequest(site, s, job, count);
    var i := Asked(job, tool, count);
    assert site.input(site.encode(i)) == i;
    if job.audits { EnforcedIsAudited(Wired(site, s, job, count)); }
  }

  /** In any other mode than enforce, or with the engine disabled, whatever can be evaluated is
      forwarded, and a disabled engine can evaluate everything. */
  lemma {:induction false} PermissiveForwards(site: Site, s: E.Shared, job: Job, count: int)
    requires Enforced(job) && (site.mode != "enforce" || !site.config.enabled)
    requires site.config.enabled ==>
      E.Result(site.config, s, site.encode(InputFor(job, ExtractionOf(job).info, count))).Some?
    ensures RouteFresh(Wired(site, s, job, count)).reply ==
      if Upstream(job).Done? then Answer(Upstream(job).value)
      else Failure(RequestOf(job).id, UPSTREAM_ERROR, Upstream(job).error, None)
  {
    WiringKeepsRequest(site, s, job, count);
    JudgedByEngine(site, s, job, count);
    UndeniedIsForwarded(Wired(site, s, job, count));
  }

  /** The decision that an enforced request is judged by is the engine's. */
  lemma {:induction false} JudgedByEngine(site: Site, s: E.Shared, job: Job, count: int)
    requires Enforced(job)
    ensures var r := E.Result(site.config, s, site.encode(InputFor(job, ExtractionOf(job).info, count)));
      Judged(Wired(site, s, job, count)) ==
        if r.None? then None else Some(Routing.Decision(r.value.allow, r.value.violations, r.value.matchedRule, site.mode))
  {
    WiringKeepsRequest(site, s, job, count);
  }

  /** Blocked tools, blocked agents and missing capabilities are refused from the cache too, in every
      current state. */
  lemma {:induction false} ToolCallRefused(site: Site, s: E.State, job: Job, tool: string, count: int, other: Option<string -> Try<string>>)
    requires Runs(site) && site.config.enabled && site.mode == "enforce" && E.Recorded(site.config, s) && E.Current(s)
    requires Calls(job, tool) && Unmixed(site, s.shared, site.encode(Asked(job, tool, count)))
    requires var d := site.data(s.shared.query.data);
      tool in d.blockedTools || job.agentId in d.blockedAgents || !Capable(job, tool, d)
    ensures var w := Wired(site, s.shared, job, count);
      && RouteFresh(w) == RouteFresh(w.(sender := other))
      && RouteFresh(w).reply.Failure? && RouteFresh(w).reply.code in {POLICY_VIOLATION, INTERNAL_ERROR}
      && (job.audits ==> RouteFresh(w).audit.Some? && RouteFresh(w).audit.value.reply == RouteFresh(w).reply)
  {
    CallAsks(job, tool, count);
    CheckMeans(Asked(job, tool, count), site.data(s.shared.query.data));
    DeniedNeverReachesUpstream(site, s, job, count, other);
  }

  // ---------------------------------------------------------------- reasons that it does not

  /** The cache forwards requests over the rate limit: once an allowed request is stored, the same agent,
      tool and capabilities pass at any count until the entry expires. */
  lemma {:induction false} OverLimitIsForwarded(site: Site, s: E.Shared, job: Job, low: int, count: int)
    requires Runs(site) && site.config.enabled && site.config.caching && site.config.ttl > 0 && Enforced(job)
    requires var i, d := InputFor(job, ExtractionOf(job).info, low), site.data(s.query.data);
      NoFalseLimit(d, i.agent) && Allow(i, d) && count >= RateLimit(d, i.agent)
    ensures var i, d := InputFor(job, ExtractionOf(job).info, count), site.data(s.query.data); !Allow(i, d)
    ensures var json := site.encode(InputFor(job, ExtractionOf(job).info, low));
      var warm := R.After(site.config, s, json, s.query, Shipped(site, s.query, json).value);
      E.Hit(site.config, s, json).None? ==> R.Evaluated(site.config, s, json, warm)
    ensures var d := site.data(s.query.data);
      var json := site.encode(InputFor(job, ExtractionOf(job).info, low));
      var warm := R.After(site.config, s, json, s.query, Shipped(site, s.query, json).value);
      var answer := Upstream(job);
      RouteFresh(Wired(site, warm, job, count)).reply ==
        if answer.Done? then Answer(answer.value) else Failure(RequestOf(job).id, UPSTREAM_ERROR, answer.error, None)
  {
    var i, j, d := InputFor(job, ExtractionOf(job).info, low), InputFor(job, ExtractionOf(job).info, count), site.data(s.query.data);
    AllowMeans(j, d);
    var json := site.encode(i);
    assert site.input(json) == i && site.input(site.encode(j)) == j;
    var warm := R.After(site.config, s, json, s.query, Shipped(site, s.query, json).value);
    assert site.config.opa.key(site.encode(j)) == site.config.opa.key(json);
    assert E.Hit(site.config, warm, site.encode(j)) == Shipped(site, s.query, json);
    assert C.Stored(s.entries, site.config.opa.key(json), C.Entry(Shipped(site, s.query, json).value, s.now + site.config.ttl), warm.entries);
    var w := Wired(site, warm, job, count);
    WiringKeepsRequest(site, warm, job, count);
    UndeniedIsForwarded(w);
  }

  /** A policy that allows anything at all does not answer by the key alone. */
  lemma {:induction false} ShippedIsNotKeyed(site: Site, query: E.Query, i: Input)
    requires Runs(site) && NoFalseLimit(site.data(query.data), i.agent) && Allow(i, site.data(query.data))
    ensures !E.KeyDecides(site.config.opa, query)
  {
    var d := site.data(query.data);
    var j := i.(requestCount := RateLimit(d, i.agent));
    CountOverturnsAllow(i, d);
    var a, b := site.encode(i), site.encode(j);
    assert site.input(a) == i && site.input(b) == j;
    assert site.config.opa.key(a) == site.config.opa.key(b);
    assert site.config.opa.answer(query, a) == Shipped(site, query, a) && site.config.opa.answer(query, b) == Shipped(site, query, b);
  }

  /** So its cache shows: some current state that the engine reaches answers an input differently than
      the policy would. */
  lemma {:induction false} ShippedCacheShows(site: Site, query: E.Query, i: Input)
    requires Runs(site) && NoFalseLimit(site.data(query.data), i.agent) && Allow(i, site.data(query.data))
    requires site.config.enabled && site.config.caching && site.config.ttl > 0 && site.config.opa.compiles(query)
    ensures exists s :: R.Reachable(site.config, s) && E.Current(s) && s.shared.query == query && !E.Transparent(site.config, s.shared)
  {
    ShippedIsNotKeyed(site, query, i);
    R.TransparentIff(site.config, query);
  }
}
