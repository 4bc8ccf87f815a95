/**
 Generated Rego modules: rules with a head and a body.  A body is the conjunction of its clauses, a
 head is true when one of its bodies is, and `not` is negation of a name.  Helper rules look only at
 the input; the other rules may also look at helpers, so two levels of evaluation suffice.
 */
module RegoModule {
  import opened Json
  import opened RegoTests
  import Capabilities

  datatype Head = Name(name: string) | Violation(message: string)

  datatype Clause =
    | Expr(x: RegoExpr)
    | NotExpr(x: RegoExpr)
    | SomeCapability(required: string)  // some cap in input.agent.capabilities; capability_matches(cap, required)
    | Helper(name: string)
    | NotHelper(name: string)

  datatype RegoRule = RegoRule(head: Head, body: seq<Clause>)

  type Module = seq<RegoRule>

  /** Names with a `default ... := true` in every generated module. */
  const DEFAULT_TRUE: set<string> := {"capability_check", "rate_limit_ok"}

  predicate Ground(c: Clause) { c.Expr? || c.NotExpr? || c.SomeCapability? }

  /** What `some cap in` ranges over: the items of an array or the values of an object. */
  function Elements(v: Json): seq<Json> {
    match v
    case Array(items) => items
    case Object(members) => seq(|members|, i requires 0 <= i < |members| => members[i].value)
    case _ => []
  }

  predicate SomeMatches(required: string, env: Env) {
    var held := TermValue(Reference(["input", "agent", "capabilities"]), env);
    held.Some? &&
    exists i :: 0 <= i < |Elements(held.value)| && Elements(held.value)[i].String? &&
      Capabilities.CapabilityMatches(Elements(held.value)[i].text, required)
  }

  predicate GroundHolds(c: Clause, env: Env) {
    match c
    case Expr(x) => RegoHolds(x, env)
    case NotExpr(x) => !RegoHolds(x, env)
    case SomeCapability(required) => SomeMatches(required, env)
    case _ => false
  }

  predicate GroundBody(body: seq<Clause>, env: Env) {
    forall i :: 0 <= i < |body| ==> GroundHolds(body[i], env)
  }

  predicate HelperHolds(m: Module, name: string, env: Env) {
    || name in DEFAULT_TRUE
    || exists i :: 0 <= i < |m| && m[i].head == Name(name) && GroundBody(m[i].body, env)
  }

  predicate ClauseHolds(m: Module, c: Clause, env: Env) {
    match c
    case Helper(name) => HelperHolds(m, name, env)
    case NotHelper(name) => !HelperHolds(m, name, env)
    case _ => GroundHolds(c, env)
  }

  predicate BodyHolds(m: Module, body: seq<Clause>, env: Env) {
    forall i :: 0 <= i < |body| ==> ClauseHolds(m, body[i], env)
  }

  /** The messages of the module's `violations`. */
  function Violations(m: Module, env: Env): set<string> {
    set r | r in m && r.head.Violation? && BodyHolds(m, r.body, env) :: r.head.message
  }

  /** Truth of a rule that is not a helper and has no default, or the default false. */
  predicate NameHolds(m: Module, name: string, env: Env) {
    exists r :: r in m && r.head == Name(name) && BodyHolds(m, r.body, env)
  }

  /** Whatever a body refers to is defined on the input alone. */
  predicate Stratified(m: Module) {
    forall r, c, h :: r in m && c in r.body && h in m && !Ground(c) && h.head == Name(c.name) ==>
      forall i :: 0 <= i < |h.body| ==> Ground(h.body[i])
  }
}
