/**
 Runs of the policy engine (internal/policy/engine.go): two overlaps that serve an outdated decision,
 what uninterrupted calls do, and the engine object whose methods do it.
 */
module EngineRuns {
  import opened Text
  import opened Json
  import opened DecisionCache
  import opened PolicyEngine

  // ---------------------------------------------------------------- paths

  lemma {:induction false} Extend(c: Config, states: seq<State>, turns: seq<Turn>, turn: Turn, s: State)
    requires IsPath(c, states, turns) && Next(c, states[|turns|], turn, s)
    ensures IsPath(c, states + [s], turns + [turn])
  {
    var longer, more := states + [s], turns + [turn];
    forall i | 0 <= i < |more| ensures Next(c, longer[i], more[i], longer[i + 1]) {
      if i == |turns| {
        assert longer[i] == states[i] && longer[i + 1] == s && more[i] == turn;
      } else {
        assert Next(c, states[i], turns[i], states[i + 1]);
      }
    }
  }

  /** A path from `s`, for reachability. */
  ghost predicate Reaches(c: Config, s: State, s': State) {
    exists states, turns :: IsPath(c, states, turns) && states[0] == s && states[|turns|] == s'
  }

  lemma {:induction false} ReachesSelf(c: Config, s: State)
    ensures Reaches(c, s, s)
  {
    assert IsPath(c, [s], []);
  }

  lemma {:induction false} ReachesNext(c: Config, s: State, s': State, turn: Turn, s'': State)
    requires Reaches(c, s, s') && Next(c, s', turn, s'')
    ensures Reaches(c, s, s'')
  {
    var states, turns :| IsPath(c, states, turns) && states[0] == s && states[|turns|] == s';
    Extend(c, states, turns, turn, s'');
    assert (states + [s''])[0] == s && (states + [s''])[|turns + [turn]|] == s'';
  }

  // ---------------------------------------------------------------- steps of two callers

  /** Two callers. */
  function Two(s: Shared, a: Pc, b: Pc): State {
    State(s, [a, b])
  }

  /** One step of the first caller. */
  lemma {:induction false} First(c: Config, from: State, s: Shared, a: Pc, b: Pc, turn: Turn, s': Shared, a': Pc)
    requires Reaches(c, from, Two(s, a, b)) && OfThread(turn) && turn.thread == 0
    requires NextEvaluate(c, Two(s, a, b), turn, 0, Two(s', a', b)) || NextAdmin(c, Two(s, a, b), turn, 0, Two(s', a', b))
    ensures Reaches(c, from, Two(s', a', b))
  {
    ReachesNext(c, from, Two(s, a, b), turn, Two(s', a', b));
  }

  lemma {:induction false} FirstMoves(s: Shared, a: Pc, b: Pc, s': Shared, a': Pc)
    ensures Moves(Two(s, a, b), 0, a', s', Two(s', a', b))
  {
    assert [a, b][0 := a'] == [a', b];
  }

  lemma {:induction false} SecondMoves(s: Shared, a: Pc, b: Pc, s': Shared, b': Pc)
    ensures Moves(Two(s, a, b), 1, b', s', Two(s', a, b'))
  {
    assert [a, b][1 := b'] == [a, b'];
  }

  lemma {:induction false} Second(c: Config, from: State, s: Shared, a: Pc, b: Pc, turn: Turn, s': Shared, b': Pc)
    requires Reaches(c, from, Two(s, a, b)) && OfThread(turn) && turn.thread == 1
    requires NextEvaluate(c, Two(s, a, b), turn, 1, Two(s', a, b')) || NextAdmin(c, Two(s, a, b), turn, 1, Two(s', a, b'))
    ensures Reaches(c, from, Two(s', a, b'))
  {
    ReachesNext(c, from, Two(s, a, b), turn, Two(s', a, b'));
  }

  /** The first caller misses and gets the installed query's answer. */
  lemma {:induction false} Asks(c: Config, from: State, s: Shared, b: Pc, input: Json, decision: Decision)
    requires Reaches(c, from, Two(s, Idle, b)) && !b.Compiling?
    requires c.enabled && Hit(c, s, input).None? && c.opa.answer(s.query, input) == Some(decision)
    ensures Reaches(c, from, Two(s, Answered(input, s.query, decision), b))
  {
    FirstMoves(s, Idle, b, s, Missed(input));
    First(c, from, s, Idle, b, Evaluate(0, input), s, Missed(input));
    FirstMoves(s, Missed(input), b, s, Answered(input, s.query, decision));
    First(c, from, s, Missed(input), b, Ask(0), s, Answered(input, s.query, decision));
  }

  /** The fields after the first caller has stored its answer without eviction. */
  function After(c: Config, s: Shared, input: Json, query: Query, decision: Decision): Shared {
    var key := c.opa.key(input);
    s.(entries := s.entries[key := Entry(decision, s.now + c.ttl)], origin := s.origin[key := Origin(query, input, s.now)])
  }

  lemma {:induction false} Stores(c: Config, from: State, s: Shared, b: Pc, input: Json, query: Query, decision: Decision)
    requires Reaches(c, from, Two(s, Answered(input, query, decision), b)) && c.caching
    ensures Reaches(c, from, Two(After(c, s, input, query, decision), Idle, b))
  {
    var s' := After(c, s, input, query, decision);
    assert Stored(s.entries, c.opa.key(input), Entry(decision, s.now + c.ttl), s'.entries);
    FirstMoves(s, Answered(input, query, decision), b, s', Idle);
    First(c, from, s, Answered(input, query, decision), b, Put(0), s', Idle);
  }

  /** The second caller sets data and empties the cache. */
  lemma {:induction false} Empties(c: Config, from: State, s: Shared, a: Pc, data: Json)
    requires Reaches(c, from, Two(s, a, Idle))
    ensures Reaches(c, from, Two(Invalidate(c, s.(data := data)), a, Emptied))
  {
    var s1 := s.(data := data);
    SecondMoves(s, a, Idle, s1, DataSet);
    Second(c, from, s, a, Idle, SetData(1, data), s1, DataSet);
    SecondMoves(s1, a, DataSet, Invalidate(c, s1), Emptied);
    Second(c, from, s1, a, DataSet, Empty(1), Invalidate(c, s1), Emptied);
  }

  /** The second caller compiles and installs. */
  lemma {:induction false} Installs(c: Config, from: State, s: Shared, a: Pc)
    requires Reaches(c, from, Two(s, a, Emptied)) && !a.Compiling? && s.modules != map[]
    ensures Reaches(c, from, Two(Install(c, s, Query(s.modules, s.data)), a, Idle))
  {
    var q := Query(s.modules, s.data);
    SecondMoves(s, a, Emptied, s, Compiling(q));
    Second(c, from, s, a, Emptied, Recompile(1), s, Compiling(q));
    SecondMoves(s, a, Compiling(q), Install(c, s, q), Idle);
    Second(c, from, s, a, Compiling(q), Finish(1), Install(c, s, q), Idle);
  }

  /** The second caller loads policies. */
  lemma {:induction false} Loads(c: Config, from: State, s: Shared, modules: Modules)
    requires Reaches(c, from, Two(s, Idle, Idle))
    ensures Reaches(c, from, Two(Install(c, s.(modules := modules), Query(modules, s.data)), Idle, Idle))
  {
    var q, s1 := Query(modules, s.data), s.(modules := modules);
    SecondMoves(s, Idle, Idle, s1, Compiling(q));
    Second(c, from, s, Idle, Idle, Load(1, modules), s1, Compiling(q));
    SecondMoves(s1, Idle, Compiling(q), Install(c, s1, q), Idle);
    Second(c, from, s1, Idle, Compiling(q), Finish(1), Install(c, s1, q), Idle);
  }

  // ---------------------------------------------------------------- outdated decisions are served

  /** A working engine, and new data under which it decides `input` differently. */
  predicate Sensitive(c: Config, s: Shared, modules: Modules, data: Json, input: Json, decision: Decision) {
    && c.enabled && c.caching && c.ttl > 0 && modules != map[] && s.entries == map[]
    && c.opa.compiles(Query(modules, s.data)) && c.opa.compiles(Query(modules, data))
    && c.opa.answer(Query(modules, s.data), input) == Some(decision)
    && c.opa.answer(Query(modules, data), input) != Some(decision)
  }

  /** The cache serves the outdated decision. */
  predicate ServesStale(c: Config, s: Shared, input: Json, decision: Decision) {
    Result(c, s, input) == Some(decision) && Uncached(c, s, input) != Some(decision)
  }

  /** From every new engine: an evaluation asks the old query, SetPolicyData runs to its end, and the
      answer is stored after it. */
  lemma {:induction false} OverlapServesStale(c: Config, s: Shared, modules: Modules, data: Json, input: Json, decision: Decision)
      returns (end: State)
    requires Initial(Two(s, Idle, Idle)) && Sensitive(c, s, modules, data, input, decision)
    ensures Reaches(c, Two(s, Idle, Idle), end) && ServesStale(c, end.shared, input, decision)
  {
    var from := Two(s, Idle, Idle);
    ReachesSelf(c, from);
    Loads(c, from, s, modules);
    var s1 := Install(c, s.(modules := modules), Query(modules, s.data));
    Asks(c, from, s1, Idle, input, decision);
    var answered := Answered(input, s1.query, decision);
    Empties(c, from, s1, answered, data);
    var s2 := Invalidate(c, s1.(data := data));
    Installs(c, from, s2, answered);
    var s3 := Install(c, s2, Query(s2.modules, s2.data));
    Stores(c, from, s3, Idle, input, s1.query, decision);
    end := Two(After(c, s3, input, s1.query, decision), Idle, Idle);
  }

  /** From every new engine: SetPolicyData has emptied the cache and not yet installed its query, and a
      whole evaluation takes place in between. */
  lemma {:induction false} WindowServesStale(c: Config, s: Shared, modules: Modules, data: Json, input: Json, decision: Decision)
      returns (end: State)
    requires Initial(Two(s, Idle, Idle)) && Sensitive(c, s, modules, data, input, decision)
    ensures Reaches(c, Two(s, Idle, Idle), end) && ServesStale(c, end.shared, input, decision)
  {
    var from := Two(s, Idle, Idle);
    ReachesSelf(c, from);
    Loads(c, from, s, modules);
    var s1 := Install(c, s.(modules := modules), Query(modules, s.data));
    Empties(c, from, s1, Idle, data);
    var s2 := Invalidate(c, s1.(data := data));
    Asks(c, from, s2, Emptied, input, decision);
    Stores(c, from, s2, Emptied, input, s2.query, decision);
    var s3 := After(c, s2, input, s2.query, decision);
    Installs(c, from, s3, Idle);
    end := Two(Install(c, s3, Query(s3.modules, s3.data)), Idle, Idle);
  }

  /** From every new engine: LoadPolicies on a warm cache, with nothing overlapping. */
  lemma {:induction false} ReloadServesStale(c: Config, s: Shared, modules: Modules, later: Modules, input: Json, decision: Decision)
      returns (end: State)
    requires Initial(Two(s, Idle, Idle)) && c.enabled && c.caching && c.ttl > 0
    requires c.opa.compiles(Query(modules, s.data)) && c.opa.compiles(Query(later, s.data))
    requires c.opa.answer(Query(modules, s.data), input) == Some(decision) != c.opa.answer(Query(later, s.data), input)
    ensures Reaches(c, Two(s, Idle, Idle), end) && ServesStale(c, end.shared, input, decision)
  {
    var from := Two(s, Idle, Idle);
    ReachesSelf(c, from);
    Loads(c, from, s, modules);
    var s1 := Install(c, s.(modules := modules), Query(modules, s.data));
    Asks(c, from, s1, Idle, input, decision);
    Stores(c, from, s1, Idle, input, s1.query, decision);
    var s2 := After(c, s1, input, s1.query, decision);
    Loads(c, from, s2, later);
    end := Two(Install(c, s2.(modules := later), Query(later, s2.data)), Idle, Idle);
  }

  // ---------------------------------------------------------------- when the cache can be seen

  /** A state that some run of a new engine passes through. */
  ghost predicate Reachable(c: Config, s: State) {
    exists from :: Initial(from) && Reaches(c, from, s)
  }

  lemma {:induction false} ReachableIsRecorded(c: Config, s: State)
    requires Reachable(c, s)
    ensures Recorded(c, s)
  {
    var from :| Initial(from) && Reaches(c, from, s);
    var states, turns :| IsPath(c, states, turns) && states[0] == from && states[|turns|] == s;
    RunIsRecorded(c, states, turns, |turns|);
  }

  /** From a new engine: load the query, evaluate one input, and look at another with its key. */
  lemma {:induction false} KeySharesAnswer(c: Config, query: Query, i: Json, j: Json, decision: Decision) returns (end: State)
    requires c.enabled && c.caching && c.ttl > 0 && c.opa.compiles(query) && c.opa.key(i) == c.opa.key(j)
    requires c.opa.answer(query, i) == Some(decision) != c.opa.answer(query, j)
    ensures Reachable(c, end) && Current(end) && end.shared.query == query && ServesStale(c, end.shared, j, decision)
  {
    var s := Shared(query, map[], query.data, map[], map[], 0);
    var from := Two(s, Idle, Idle);
    ReachesSelf(c, from);
    Loads(c, from, s, query.modules);
    var s1 := Install(c, s.(modules := query.modules), Query(query.modules, s.data));
    Asks(c, from, s1, Idle, i, decision);
    Stores(c, from, s1, Idle, i, s1.query, decision);
    end := Two(After(c, s1, i, s1.query, decision), Idle, Idle);
    assert Initial(from);
  }

  /** The cache never shows, in any reachable current state with the query installed, exactly when the
      query answers by the key alone. */
  lemma {:induction false} TransparentIff(c: Config, query: Query)
    requires c.enabled && c.caching && c.ttl > 0 && c.opa.compiles(query)
    ensures (forall s | Reachable(c, s) && Current(s) && s.shared.query == query :: Transparent(c, s.shared)) <==>
              KeyDecides(c.opa, query)
  {
    if KeyDecides(c.opa, query) {
      forall s | Reachable(c, s) && Current(s) && s.shared.query == query ensures Transparent(c, s.shared) {
        ReachableIsRecorded(c, s);
        CacheIsTransparent(c, s);
      }
    } else {
      var i, j :| c.opa.key(i) == c.opa.key(j) && c.opa.answer(query, i) != c.opa.answer(query, j);
      var a, b := if c.opa.answer(query, i).Some? then i else j, if c.opa.answer(query, i).Some? then j else i;
      var end := KeySharesAnswer(c, query, a, b, c.opa.answer(query, a).value);
      assert Result(c, end.shared, b) != Uncached(c, end.shared, b);
      assert !Transparent(c, end.shared);
    }
  }

  // ---------------------------------------------------------------- uninterrupted calls

  /** The fields after a whole SetPolicyData. */
  function WithData(c: Config, s: Shared, data: Json): Shared {
    var emptied := Invalidate(c, s.(data := data));
    if s.modules == map[] then emptied else Install(c, emptied, Query(s.modules, data))
  }

  /** The fields after a whole LoadPolicies. */
  function WithModules(c: Config, s: Shared, modules: Modules): Shared {
    Install(c, s.(modules := modules), Query(modules, s.data))
  }

  /** The fields after a whole Evaluate. */
  predicate Evaluated(c: Config, s: Shared, input: Json, t: Shared) {
    if !c.enabled || Hit(c, s, input).Some? || c.opa.answer(s.query, input).None? then t == s
    else Puts(c, s, input, s.query, c.opa.answer(s.query, input).value, t)
  }

  /** Right after a SetPolicyData that compiles, every answer is the one that the modules give with the
      new data; after one that does not, the old query's, and nothing cached is left either way. */
  lemma {:induction false} NewDataDecides(c: Config, s: Shared, data: Json, input: Json)
    requires c.enabled && s.modules != map[] && (!c.caching ==> s.entries == map[])
    ensures var t := WithData(c, s, data);
      && Result(c, t, input) == c.opa.answer(if c.opa.compiles(Query(s.modules, data)) then Query(s.modules, data) else s.query, input)
      && t.data == data && t.entries == map[]
  {
  }

  /** Right after a LoadPolicies on an empty cache every answer is the one that the new modules give with
      the data set before, or the old query's if they do not compile. */
  lemma {:induction false} NewModulesDecide(c: Config, s: Shared, modules: Modules, input: Json)
    requires c.enabled && s.entries == map[]
    ensures Result(c, WithModules(c, s, modules), input) ==
      c.opa.answer(if c.opa.compiles(Query(modules, s.data)) then Query(modules, s.data) else s.query, input)
  {
  }

  /** An interleaved Evaluate ends at its look-up, changing nothing, exactly when the engine is disabled
      or an entry under the input's key has not expired; otherwise it goes on to ask. */
  lemma {:induction false} LookUpEnds(c: Config, s: State, t: nat, input: Json, s': State)
    requires t < |s.pcs| && Next(c, s, Evaluate(t, input), s')
    ensures s'.shared == s.shared && s'.pcs[t] in {Idle, Missed(input)}
    ensures s'.pcs[t] == Idle <==>
      || !c.enabled
      || (c.caching && c.opa.key(input) in s.shared.entries && s.shared.now < s.shared.entries[c.opa.key(input)].expiresAt)
  {
  }

  /** A caching engine with a positive lifetime answers from the cache until the entry expires: the same
      key gets the first answer, whatever the input, and at the expiry it is asked again. */
  lemma {:induction false} AnswerIsKept(c: Config, s: Shared, first: Json, t: Shared, later: int, input: Json)
    requires c.enabled && c.caching && Hit(c, s, first).None? && c.opa.answer(s.query, first).Some?
    requires Evaluated(c, s, first, t) && c.opa.key(input) == c.opa.key(first) && s.now <= later
    ensures Result(c, t.(now := later), input) ==
      if later < s.now + c.ttl then c.opa.answer(s.query, first) else c.opa.answer(s.query, input)
  {
  }

  /** All calls but `t` are over or waiting outside the mutex. */
  predicate Alone(s: State, t: nat) {
    t < |s.pcs| && s.pcs[t] == Idle && !MutexHeld(s.pcs)
  }

  lemma {:induction false} StillFree(pcs: seq<Pc>, t: nat, pc: Pc)
    requires t < |pcs| && !MutexHeld(pcs) && !pc.Compiling?
    ensures !MutexHeld(pcs[t := pc])
  {
  }

  lemma {:induction false} SetDataAlone(c: Config, s: State, t: nat, data: Json)
    requires Alone(s, t)
    ensures Reaches(c, s, s.(shared := WithData(c, s.shared, data)))
  {
    ReachesSelf(c, s);
    var e1 := s.shared.(data := data);
    var s1 := State(e1, s.pcs[t := DataSet]);
    ReachesNext(c, s, s, SetData(t, data), s1);
    var e2 := Invalidate(c, e1);
    var s2 := State(e2, s.pcs[t := Emptied]);
    assert s1.pcs[t := Emptied] == s2.pcs;
    ReachesNext(c, s, s1, Empty(t), s2);
    StillFree(s.pcs, t, Emptied);
    assert s2.pcs[t := Idle] == s.pcs;
    if e2.modules == map[] {
      ReachesNext(c, s, s2, Recompile(t), State(e2, s.pcs));
    } else {
      CompileAlone(c, s, s2, t, Query(e2.modules, e2.data), Recompile(t));
    }
  }

  /** Taking the mutex for a compilation, and installing. */
  lemma {:induction false} CompileAlone(c: Config, from: State, s: State, t: nat, q: Query, turn: Turn)
    requires Reaches(c, from, s) && t < |s.pcs|
    requires OfThread(turn) && turn.thread == t
    requires turn.Recompile? && NextAdmin(c, s, turn, t, State(s.shared, s.pcs[t := Compiling(q)]))
    ensures Reaches(c, from, State(Install(c, s.shared, q), s.pcs[t := Idle]))
  {
    var s1 := State(s.shared, s.pcs[t := Compiling(q)]);
    ReachesNext(c, from, s, turn, s1);
    FinishAlone(c, from, s1, t);
    assert s1.pcs[t := Idle] == s.pcs[t := Idle];
  }

  lemma {:induction false} FinishAlone(c: Config, from: State, s: State, t: nat)
    requires Reaches(c, from, s) && t < |s.pcs| && s.pcs[t].Compiling?
    ensures Reaches(c, from, State(Install(c, s.shared, s.pcs[t].query), s.pcs[t := Idle]))
  {
    ReachesNext(c, from, s, Finish(t), State(Install(c, s.shared, s.pcs[t].query), s.pcs[t := Idle]));
  }

  lemma {:induction false} LoadAlone(c: Config, s: State, t: nat, modules: Modules)
    requires Alone(s, t)
    ensures Reaches(c, s, s.(shared := WithModules(c, s.shared, modules)))
  {
    ReachesSelf(c, s);
    var q := Query(modules, s.shared.data);
    var s1 := State(s.shared.(modules := modules), s.pcs[t := Compiling(q)]);
    ReachesNext(c, s, s, Load(t, modules), s1);
    FinishAlone(c, s, s1, t);
    assert s1.pcs[t := Idle] == s.pcs;
  }

  lemma {:induction false} EvaluateAlone(c: Config, s: State, t: nat, input: Json, after: Shared)
    requires Alone(s, t) && Evaluated(c, s.shared, input, after)
    ensures Reaches(c, s, s.(shared := after))
  {
    ReachesSelf(c, s);
    if c.enabled && Hit(c, s.shared, input).None? {
      var e, s1 := s.shared, State(s.shared, s.pcs[t := Missed(input)]);
      ReachesNext(c, s, s, Evaluate(t, input), s1);
      StillFree(s.pcs, t, Missed(input));
      var answer := c.opa.answer(e.query, input);
      assert s1.pcs[t := Idle] == s.pcs;
      if answer.None? {
        ReachesNext(c, s, s1, Ask(t), s);
      } else {
        var s2 := State(e, s1.pcs[t := Answered(input, e.query, answer.value)]);
        ReachesNext(c, s, s1, Ask(t), s2);
        assert s2.pcs[t := Idle] == s.pcs;
        ReachesNext(c, s, s2, Put(t), State(after, s.pcs));
      }
    }
  }

  // ---------------------------------------------------------------- the engine object

  class Engine {
    const config: Config
    const cache: Cache
    var query: Query
    var modules: Modules
    var data: Json
    var evaluations: nat
    var evalErrors: nat
    ghost var origin: map<string, Origin>

    ghost predicate Valid()
      reads this, cache
    {
      cache.Valid() && cache.enabled == config.caching && cache.ttl == config.ttl
    }

    /** The fields at a given time. */
    ghost function Model(now: int): Shared
      reads this, cache
    {
      Shared(query, modules, data, cache.entries, origin, now)
    }

    constructor (config: Config, cache: Cache, query: Query, data: Json)
      requires cache.Valid() && cache.enabled == config.caching && cache.ttl == config.ttl && cache.entries == map[]
      ensures Valid() && this.config == config && this.cache == cache
      ensures forall now :: Model(now) == Shared(query, map[], data, map[], map[], now)
    {
      this.config := config;
      this.cache := cache;
      this.query, this.modules, this.data := query, map[], data;
      evaluations, evalErrors := 0, 0;
      origin := map[];
    }

    method CompileWithData() returns (ok: bool)
      modifies this`query
      ensures ok == config.opa.compiles(Query(modules, data))
      ensures forall now :: Model(now) == Install(config, old(Model(now)), Query(modules, data))
    {
      ok := config.opa.compiles(Query(modules, data));
      if ok {
        query := Query(modules, data);
      }
    }

    method LoadPolicies(modules: Modules) returns (ok: bool)
      requires Valid()
      modifies this`query, this`modules
      ensures Valid()
      ensures forall now :: Model(now) == WithModules(config, old(Model(now)), modules)
      ensures ok == config.opa.compiles(Query(modules, data))
    {
      this.modules := modules;
      ok := CompileWithData();
    }

    method SetPolicyData(data: Json) returns (ok: bool)
      requires Valid()
      modifies this`query, this`data, cache
      ensures Valid()
      ensures forall now :: Model(now) == WithData(config, old(Model(now)), data)
      ensures ok == (modules == map[] || config.opa.compiles(Query(modules, data)))
    {
      this.data := data;
      cache.Invalidate();
      if |modules| > 0 {
        ok := CompileWithData();
      } else {
        ok := true;
      }
    }

    method Evaluate(input: Json, now: int) returns (decision: Option<Decision>)
      requires Valid()
      modifies this`evaluations, this`evalErrors, this`origin, cache
      ensures Valid()
      ensures decision == Result(config, old(Model(now)), input)
      ensures Evaluated(config, old(Model(now)), input, Model(now))
    {
      if !config.enabled {
        return Some(DISABLED);
      }
      var key := config.opa.key(input);
      var cached := cache.Get(key, now);
      if cached.Some? {
        return cached;
      }
      decision := config.opa.answer(query, input);
      if decision.None? {
        evalErrors := evalErrors + 1;
        return;
      }
      evaluations := evaluations + 1;
      cache.Set(key, decision.value, now);
      if config.caching {
        origin := origin[key := Origin(query, input, now)];
      }
    }
  }
}
