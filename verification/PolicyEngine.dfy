/**
 The policy engine (internal/policy/engine.go): a prepared query behind the decision cache.  OPA is an
 uninterpreted answer and the clock an input.  Calls interleave: a step is what a call does between two
 points where it holds no lock, so Evaluate looks up, asks and stores in three steps, and SetPolicyData
 sets the data, empties the cache and installs the new query in separate ones.
 */
module PolicyEngine {
  import opened Text
  import opened Json
  import opened DecisionCache

  type Modules = map<string, string>

  /** A query as PrepareForEval leaves it: the modules and the data it was compiled from. */
  datatype Query = Query(modules: Modules, data: Json)

  /** The foreign parts: whether a query compiles, what it answers, and the cache key of an input. */
  datatype Opa = Opa(
    compiles: Query -> bool,
    answer: (Query, Json) -> Option<Decision>,  // None is an evaluation error
    key: Json -> string)

  /** What the engine is configured with. */
  datatype Config = Config(opa: Opa, enabled: bool, caching: bool, ttl: int)

  /** Where a cached decision came from. */
  datatype Origin = Origin(query: Query, input: Json, at: int)

  /** The engine's fields; `origin` is a record of the last store under each key. */
  datatype Shared = Shared(
    query: Query,
    modules: Modules,
    data: Json,
    entries: Entries,
    origin: map<string, Origin>,
    now: int)

  const DISABLED := Decision(true, [], "policy_disabled")

  // ---------------------------------------------------------------- what calls do to the fields

  function Hit(c: Config, s: Shared, input: Json): Option<Decision> {
    if c.caching then Lookup(s.entries, c.opa.key(input), s.now) else None
  }

  /** What Evaluate returns, run alone: the cached decision on a hit, the query's answer otherwise. */
  function Result(c: Config, s: Shared, input: Json): Option<Decision> {
    if !c.enabled then Some(DISABLED)
    else if Hit(c, s, input).Some? then Hit(c, s, input)
    else c.opa.answer(s.query, input)
  }

  /** What an engine without a cache would return. */
  function Uncached(c: Config, s: Shared, input: Json): Option<Decision> {
    if !c.enabled then Some(DISABLED) else c.opa.answer(s.query, input)
  }

  /** cache.Set: other entries may be evicted. */
  predicate Puts(c: Config, s: Shared, input: Json, query: Query, decision: Decision, t: Shared) {
    var key := c.opa.key(input);
    if !c.caching then t == s
    else
      && t == s.(entries := t.entries, origin := s.origin[key := Origin(query, input, s.now)])
      && Stored(s.entries, key, Entry(decision, s.now + c.ttl), t.entries)
  }

  function Invalidate(c: Config, s: Shared): Shared {
    if c.caching then s.(entries := map[]) else s
  }

  /** compileWithData: a query that does not compile leaves the old one in place. */
  function Install(c: Config, s: Shared, query: Query): Shared {
    if c.opa.compiles(query) then s.(query := query) else s
  }

  // ---------------------------------------------------------------- interleaved calls

  /** Where a call is. */
  datatype Pc =
    | Idle
    | Missed(input: Json)                                     // Evaluate: not in the cache
    | Answered(input: Json, query: Query, decision: Decision) // Evaluate: answered, not stored
    | DataSet                                                 // SetPolicyData: cache not yet emptied
    | Emptied                                                 // SetPolicyData: query not yet compiled
    | Compiling(query: Query)                                 // holds the engine's mutex

  datatype State = State(shared: Shared, pcs: seq<Pc>)

  datatype Turn =
    | Evaluate(thread: nat, input: Json)
    | Ask(thread: nat)
    | Put(thread: nat)
    | SetData(thread: nat, data: Json)
    | Empty(thread: nat)
    | Recompile(thread: nat)
    | Load(thread: nat, modules: Modules)
    | Finish(thread: nat)
    | Cleanup
    | Tick(to: int)

  predicate MutexHeld(pcs: seq<Pc>) {
    exists t :: 0 <= t < |pcs| && pcs[t].Compiling?
  }

  /** Thread `t` moves to `pc` and the fields change to `shared`. */
  predicate Moves(s: State, t: nat, pc: Pc, shared: Shared, s': State)
    requires t < |s.pcs|
  {
    s' == State(shared, s.pcs[t := pc])
  }

  predicate NextEvaluate(c: Config, s: State, turn: Turn, t: nat, s': State)
    requires t < |s.pcs|
  {
    var e, pc := s.shared, s.pcs[t];
    match turn
    case Evaluate(_, input) =>
      && pc.Idle?
      && Moves(s, t, if !c.enabled || Hit(c, e, input).Some? then Idle else Missed(input), e, s')
    case Ask(_) =>
      && pc.Missed? && !MutexHeld(s.pcs)
      && var answer := c.opa.answer(e.query, pc.input);
         Moves(s, t, if answer.None? then Idle else Answered(pc.input, e.query, answer.value), e, s')
    case Put(_) =>
      && pc.Answered? && Puts(c, e, pc.input, pc.query, pc.decision, s'.shared)
      && Moves(s, t, Idle, s'.shared, s')
    case _ => false
  }

  predicate NextAdmin(c: Config, s: State, turn: Turn, t: nat, s': State)
    requires t < |s.pcs|
  {
    var e, pc := s.shared, s.pcs[t];
    match turn
    case SetData(_, data) => pc.Idle? && Moves(s, t, DataSet, e.(data := data), s')
    case Empty(_) => pc.DataSet? && Moves(s, t, Emptied, Invalidate(c, e), s')
    case Recompile(_) =>
      && pc.Emptied? && !MutexHeld(s.pcs)
      && Moves(s, t, if e.modules == map[] then Idle else Compiling(Query(e.modules, e.data)), e, s')
    case Load(_, modules) =>
      && pc.Idle? && !MutexHeld(s.pcs)
      && Moves(s, t, Compiling(Query(modules, e.data)), e.(modules := modules), s')
    case Finish(_) => pc.Compiling? && Moves(s, t, Idle, Install(c, e, pc.query), s')
    case _ => false
  }

  predicate OfThread(turn: Turn) {
    !turn.Cleanup? && !turn.Tick?
  }

  predicate Next(c: Config, s: State, turn: Turn, s': State) {
    match turn
    case Cleanup => s' == s.(shared := s.shared.(entries := Unexpired(s.shared.entries, s.shared.now)))
    case Tick(to) => s.shared.now <= to && s' == s.(shared := s.shared.(now := to))
    case _ =>
      && turn.thread < |s.pcs|
      && (NextEvaluate(c, s, turn, turn.thread, s') || NextAdmin(c, s, turn, turn.thread, s'))
  }

  /** A new engine: nothing loaded, nothing cached, any number of callers. */
  predicate Initial(s: State) {
    && s.shared.entries == map[] && s.shared.origin == map[] && s.shared.modules == map[]
    && forall t :: 0 <= t < |s.pcs| ==> s.pcs[t] == Idle
  }

  predicate IsPath(c: Config, states: seq<State>, turns: seq<Turn>) {
    && |states| == |turns| + 1
    && forall i :: 0 <= i < |turns| ==> Next(c, states[i], turns[i], states[i + 1])
  }

  predicate IsRun(c: Config, states: seq<State>, turns: seq<Turn>) {
    IsPath(c, states, turns) && Initial(states[0])
  }

  // ---------------------------------------------------------------- what every entry is

  /** Every entry is the answer of the query it was asked of, to an input with that key, stamped with
      its expiry; every answer on its way to the cache is one, too. */
  predicate Recorded(c: Config, s: State) {
    && (forall key :: key in s.shared.entries ==> key in s.shared.origin && FromOrigin(c, s.shared, key))
    && (forall t :: 0 <= t < |s.pcs| && s.pcs[t].Answered? ==>
          c.opa.answer(s.pcs[t].query, s.pcs[t].input) == Some(s.pcs[t].decision))
    && (!c.caching ==> s.shared.entries == map[])
  }

  predicate FromOrigin(c: Config, s: Shared, key: string)
    requires key in s.entries && key in s.origin
  {
    var o := s.origin[key];
    && c.opa.key(o.input) == key
    && c.opa.answer(o.query, o.input) == Some(s.entries[key].decision)
    && s.entries[key].expiresAt == o.at + c.ttl && o.at <= s.now
  }

  lemma {:induction false} PutKeepsRecorded(c: Config, s: State, t: nat, s': State)
    requires Recorded(c, s) && t < |s.pcs| && NextEvaluate(c, s, Put(t), t, s')
    ensures Recorded(c, s')
  {
    var stored := c.opa.key(s.pcs[t].input);
    forall key | key in s'.shared.entries ensures key in s'.shared.origin && FromOrigin(c, s'.shared, key) {
      if key != stored { assert key in s'.shared.entries - {stored}; }
    }
  }

  lemma {:induction false} NextKeepsRecorded(c: Config, s: State, turn: Turn, s': State)
    requires Recorded(c, s) && Next(c, s, turn, s')
    ensures Recorded(c, s')
  {
    if turn.Put? {
      PutKeepsRecorded(c, s, turn.thread, s');
    } else {
      assert s'.shared.origin == s.shared.origin && s.shared.now <= s'.shared.now && Submap(s'.shared.entries, s.shared.entries);
      forall key | key in s'.shared.entries ensures key in s'.shared.origin && FromOrigin(c, s'.shared, key) {
        assert key in s.shared.entries && FromOrigin(c, s.shared, key);
      }
    }
  }

  lemma {:induction false} RunIsRecorded(c: Config, states: seq<State>, turns: seq<Turn>, n: nat)
    requires IsRun(c, states, turns) && n < |states|
    ensures Recorded(c, states[n])
  {
    if n > 0 {
      RunIsRecorded(c, states, turns, n - 1);
      NextKeepsRecorded(c, states[n - 1], turns[n - 1], states[n]);
    }
  }

  // ---------------------------------------------------------------- when the cache is current

  /** Every entry comes from the query installed now. */
  predicate Current(s: State) {
    forall key :: key in s.shared.entries ==> key in s.shared.origin && s.shared.origin[key].query == s.shared.query
  }

  /** The steps that leave an entry of another query: storing an answer that an older query gave, and
      installing a new query beside entries of the old one. */
  predicate Outdates(c: Config, s: State, turn: Turn) {
    || (turn.Put? && turn.thread < |s.pcs| && s.pcs[turn.thread].Answered?
        && c.caching && s.pcs[turn.thread].query != s.shared.query)
    || (turn.Finish? && turn.thread < |s.pcs| && s.pcs[turn.thread].Compiling?
        && Install(c, s.shared, s.pcs[turn.thread].query).query != s.shared.query && s.shared.entries != map[])
  }

  lemma {:induction false} OutdatesIff(c: Config, s: State, turn: Turn, s': State)
    requires Recorded(c, s) && Current(s) && Next(c, s, turn, s')
    ensures Current(s') <==> !Outdates(c, s, turn)
  {
    match turn
    case Put(t) => PutOutdates(c, s, t, s');
    case Finish(t) =>
      if Outdates(c, s, turn) {
        var key :| key in s.shared.entries;
        assert s.shared.origin[key].query == s.shared.query;
      }
    case _ =>
      assert s'.shared.origin == s.shared.origin && s'.shared.query == s.shared.query;
      assert Submap(s'.shared.entries, s.shared.entries);
  }

  lemma {:induction false} PutOutdates(c: Config, s: State, t: nat, s': State)
    requires Recorded(c, s) && Current(s) && Next(c, s, Put(t), s')
    ensures Current(s') <==> !Outdates(c, s, Put(t))
  {
    if c.caching {
      var stored := c.opa.key(s.pcs[t].input);
      assert stored in s'.shared.entries;
      forall key | key in s'.shared.entries && key != stored
        ensures key in s'.shared.origin && s'.shared.origin[key].query == s'.shared.query
      {
        assert key in s'.shared.entries - {stored};
      }
    }
  }

  /** In every run of any number of interleaved calls the cache is current throughout exactly when no
      step outdates it. */
  lemma {:induction false} CurrentIff(c: Config, states: seq<State>, turns: seq<Turn>)
    requires IsRun(c, states, turns)
    ensures (forall n :: 0 <= n < |states| ==> Current(states[n])) <==>
              (forall i :: 0 <= i < |turns| ==> !Outdates(c, states[i], turns[i]))
  {
    if forall n :: 0 <= n < |states| ==> Current(states[n]) {
      forall i | 0 <= i < |turns| ensures !Outdates(c, states[i], turns[i]) {
        RunIsRecorded(c, states, turns, i);
        OutdatesIff(c, states[i], turns[i], states[i + 1]);
      }
    }
    if forall i :: 0 <= i < |turns| ==> !Outdates(c, states[i], turns[i]) {
      forall n | 0 <= n < |states| ensures Current(states[n]) { CurrentUpTo(c, states, turns, n); }
    }
  }

  lemma {:induction false} CurrentUpTo(c: Config, states: seq<State>, turns: seq<Turn>, n: nat)
    requires IsRun(c, states, turns) && n < |states|
    requires forall i :: 0 <= i < n ==> !Outdates(c, states[i], turns[i])
    ensures Current(states[n])
  {
    if n > 0 {
      CurrentUpTo(c, states, turns, n - 1);
      RunIsRecorded(c, states, turns, n - 1);
      OutdatesIff(c, states[n - 1], turns[n - 1], states[n]);
    }
  }

  // ---------------------------------------------------------------- calls that keep out of each other's way

  /** A new query is on its way and the cache has been emptied for it. */
  predicate Pending(pc: Pc) {
    pc.Emptied? || pc.Compiling?
  }

  /** The caller's side: policies are loaded into an empty cache, nothing is stored while an
      installation is pending, and no stored answer is older than the installed query. */
  predicate Orderly(s: State, turn: Turn) {
    && (turn.Load? ==> s.shared.entries == map[])
    && (turn.Put? ==>
          && turn.thread < |s.pcs| && (s.pcs[turn.thread].Answered? ==> s.pcs[turn.thread].query == s.shared.query)
          && forall t :: 0 <= t < |s.pcs| ==> !Pending(s.pcs[t]))
  }

  predicate OrderlyRun(states: seq<State>, turns: seq<Turn>)
    requires |states| == |turns| + 1
  {
    forall i :: 0 <= i < |turns| ==> Orderly(states[i], turns[i])
  }

  predicate EmptyWhilePending(c: Config, s: State) {
    c.caching ==> (exists t :: 0 <= t < |s.pcs| && Pending(s.pcs[t])) ==> s.shared.entries == map[]
  }

  lemma {:induction false} OrderlyKeepsEmpty(c: Config, s: State, turn: Turn, s': State)
    requires Recorded(c, s) && EmptyWhilePending(c, s) && Next(c, s, turn, s') && Orderly(s, turn)
    ensures EmptyWhilePending(c, s')
  {
    if turn.Put? {
      assert forall t :: 0 <= t < |s'.pcs| ==> !Pending(s'.pcs[t]);
    } else if !turn.Load? && !turn.Empty? {
      assert forall t :: 0 <= t < |s'.pcs| && Pending(s'.pcs[t]) ==> Pending(s.pcs[t]);
      assert s.shared.entries == map[] ==> s'.shared.entries == map[];
    }
  }

  lemma {:induction false} OrderlyStays(c: Config, states: seq<State>, turns: seq<Turn>, n: nat)
    requires IsRun(c, states, turns) && OrderlyRun(states, turns) && n < |states|
    ensures EmptyWhilePending(c, states[n])
  {
    if n > 0 {
      OrderlyStays(c, states, turns, n - 1);
      RunIsRecorded(c, states, turns, n - 1);
      OrderlyKeepsEmpty(c, states[n - 1], turns[n - 1], states[n]);
    }
  }

  /** Orderly runs never outdate the cache. */
  lemma {:induction false} OrderlyIsCurrent(c: Config, states: seq<State>, turns: seq<Turn>, n: nat)
    requires IsRun(c, states, turns) && OrderlyRun(states, turns) && n < |states|
    ensures Current(states[n])
  {
    forall i | 0 <= i < |turns| ensures !Outdates(c, states[i], turns[i]) {
      OrderlyStays(c, states, turns, i);
      RunIsRecorded(c, states, turns, i);
      assert Orderly(states[i], turns[i]);
    }
    CurrentUpTo(c, states, turns, n);
  }

  // ---------------------------------------------------------------- calls one after another

  /** At most one call is under way. */
  predicate OneCall(s: State) {
    forall t, u | 0 <= t < |s.pcs| && 0 <= u < |s.pcs| :: s.pcs[t] != Idle && s.pcs[u] != Idle ==> t == u
  }

  predicate FreshAnswers(s: State) {
    forall t :: 0 <= t < |s.pcs| && s.pcs[t].Answered? ==> s.pcs[t].query == s.shared.query
  }

  lemma {:induction false} SerialKeepsFresh(c: Config, s: State, turn: Turn, s': State)
    requires OneCall(s) && FreshAnswers(s) && Next(c, s, turn, s')
    ensures FreshAnswers(s')
  {
    if turn.Finish? {
      assert forall t :: 0 <= t < |s.pcs| && t != turn.thread ==> s.pcs[t] == Idle;
    }
  }

  lemma {:induction false} SerialIsFresh(c: Config, states: seq<State>, turns: seq<Turn>, n: nat)
    requires IsRun(c, states, turns) && (forall i :: 0 <= i < |states| ==> OneCall(states[i])) && n < |states|
    ensures FreshAnswers(states[n])
  {
    if n > 0 {
      SerialIsFresh(c, states, turns, n - 1);
      SerialKeepsFresh(c, states[n - 1], turns[n - 1], states[n]);
    }
  }

  /** Calls one after another, with every LoadPolicies on an empty cache: the cache is current
      throughout. */
  lemma {:induction false} SerialIsCurrent(c: Config, states: seq<State>, turns: seq<Turn>, n: nat)
    requires IsRun(c, states, turns) && n < |states| && forall i :: 0 <= i < |states| ==> OneCall(states[i])
    requires forall i :: 0 <= i < |turns| && turns[i].Load? ==> states[i].shared.entries == map[]
    ensures Current(states[n])
  {
    forall i | 0 <= i < |turns| ensures Orderly(states[i], turns[i]) {
      SerialIsFresh(c, states, turns, i);
      assert Next(c, states[i], turns[i], states[i + 1]);
      if turns[i].Put? {
        assert states[i].pcs[turns[i].thread].Answered?;
        forall t | 0 <= t < |states[i].pcs| ensures !Pending(states[i].pcs[t]) {
          assert OneCall(states[i]);
        }
      }
    }
    OrderlyIsCurrent(c, states, turns, n);
  }

  // ---------------------------------------------------------------- what a current cache is worth

  /** Every hit in a current state is a decision that the query installed now gave to an input with the
      same key, stored less than one TTL ago. */
  lemma {:induction false} HitsAreCurrent(c: Config, s: State, input: Json)
    requires Recorded(c, s) && Current(s) && Hit(c, s.shared, input).Some?
    ensures exists o: Origin ::
      && c.opa.key(o.input) == c.opa.key(input) && c.opa.answer(s.shared.query, o.input) == Hit(c, s.shared, input)
      && o.at <= s.shared.now < o.at + c.ttl
  {
    var key := c.opa.key(input);
    assert FromOrigin(c, s.shared, key);
    var o := s.shared.origin[key];
    assert c.opa.answer(s.shared.query, o.input) == Hit(c, s.shared, input);
  }

  /** The query cannot tell apart inputs with equal keys. */
  ghost predicate KeyDecides(opa: Opa, query: Query) {
    forall i, j :: opa.key(i) == opa.key(j) ==> opa.answer(query, i) == opa.answer(query, j)
  }

  ghost predicate Transparent(c: Config, s: Shared) {
    forall input :: Result(c, s, input) == Uncached(c, s, input)
  }

  /** If the installed query cannot, a current cache is transparent: the engine returns what it would
      without one. */
  lemma {:induction false} CacheIsTransparent(c: Config, s: State)
    requires Recorded(c, s) && Current(s) && KeyDecides(c.opa, s.shared.query)
    ensures Transparent(c, s.shared)
  {
    forall input ensures Result(c, s.shared, input) == Uncached(c, s.shared, input) {
      if c.enabled && Hit(c, s.shared, input).Some? {
        HitsAreCurrent(c, s, input);
        var o: Origin :| c.opa.key(o.input) == c.opa.key(input) && c.opa.answer(s.shared.query, o.input) == Hit(c, s.shared, input);
        assert c.opa.answer(s.shared.query, o.input) == c.opa.answer(s.shared.query, input);
      }
    }
  }
}
