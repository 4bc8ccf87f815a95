/**
 Route with pooled objects (internal/router/types.go, parser.go and router.go): any number of calls
 interleave, each reading and writing its Request and RequestContext in the shared heap, one step
 between two points where another call can be seen.
 */
module RouterPool {
  import opened Text
  import opened Routing
  import opened ObjectPool

  /** A RequestContext: its pointer to the Request and the rest. */
  datatype Slot = Slot(request: Option<Ref>, info: Info)

  const NEW_SLOT := Slot(None, Info("", "", "", "", None, Config(Passthrough, LogNone), 0, ""))

  /** Where a call is, with the pointers in its local variables. */
  datatype Pc =
    | Start
    | Got(r: Ref)                                                            // from the request pool, not yet reset
    | Clean(r: Ref)
    | Filled(r: Ref, error: Option<string>)                                  // unmarshalled
    | Parsed(r: Ref)
    | Holding(r: Ref, c: Ref)                                                // context from its pool, not yet set
    | Prepared(r: Ref, c: Ref)
    | Detailed(r: Ref, c: Ref)                                               // details extracted
    | Decided(r: Ref, c: Ref, deliberation: Deliberation)
    | Replied(r: Ref, c: Ref, decision: Option<Decision>, reply: Reply)
    | Releasing(r: Ref, c: Ref, result: Result)                              // deferred Release
    | HalfReleased(c: Ref, result: Result)                                   // Request returned
    | Finished(result: Result)

  datatype State = State(requests: Pool<Request>, contexts: Pool<Slot>, pcs: seq<Pc>)

  function HeldRequest(pc: Pc): Option<Ref> {
    if pc.Start? || pc.HalfReleased? || pc.Finished? then None else Some(pc.r)
  }

  function HeldContext(pc: Pc): Option<Ref> {
    if pc.Holding? || pc.Prepared? || pc.Detailed? || pc.Decided? || pc.Replied? || pc.Releasing? || pc.HalfReleased?
    then Some(pc.c) else None
  }

  function Requests(pcs: seq<Pc>): seq<Option<Ref>> {
    seq(|pcs|, k requires 0 <= k < |pcs| => HeldRequest(pcs[k]))
  }

  function Contexts(pcs: seq<Pc>): seq<Option<Ref>> {
    seq(|pcs|, k requires 0 <= k < |pcs| => HeldContext(pcs[k]))
  }

  /** PutRequest's last writes. */
  function Cleared(req: Request): Request {
    req.(id := None, params := None)
  }

  // ---------------------------------------------------------------- one step of a call

  /** Steps that take from a pool; `x` is the object the pool hands out. */
  function TakeStep(job: Job, s: State, k: nat, x: Ref): Option<State>
    requires k < |s.pcs|
  {
    match s.pcs[k]
    case Start =>
      if job.message == "" then Some(s.(pcs := s.pcs[k := Finished(Rejected(Rejection(PARSE_ERROR, "Empty message"), None))]))
      else if !CanTake(s.requests, x) then None
      else Some(s.(requests := Take(s.requests, x, BLANK), pcs := s.pcs[k := Got(x)]))
    case Parsed(r) =>
      if !CanTake(s.contexts, x) then None
      else Some(s.(contexts := Take(s.contexts, x, NEW_SLOT), pcs := s.pcs[k := Holding(r, x)]))
    case _ => None
  }

  /** Steps that fill and check the Request. */
  function RequestStep(job: Job, s: State, k: nat): Option<State>
    requires k < |s.pcs|
  {
    match s.pcs[k]
    case Got(r) =>
      if r !in s.requests.objects then None
      else Some(s.(requests := Update(s.requests, r, Request("", None, "", None)), pcs := s.pcs[k := Clean(r)]))
    case Clean(r) =>
      if r !in s.requests.objects then None
      else
        var d := job.decode(job.message);
        Some(s.(requests := Update(s.requests, r, Unmarshal(s.requests.objects[r], d)), pcs := s.pcs[k := Filled(r, d.error)]))
    case Filled(r, error) =>
      if r !in s.requests.objects then None
      else
        var req := s.requests.objects[r];
        var verdict := Verdict(req, error);
        if verdict.None? then Some(s.(pcs := s.pcs[k := Parsed(r)]))
        else Some(s.(requests := Give(s.requests, r, Cleared(req)), pcs := s.pcs[k := Finished(Rejected(verdict.value, None))]))
    case _ => None
  }

  /** Steps that fill and use the RequestContext. */
  function ContextStep(job: Job, s: State, k: nat): Option<State>
    requires k < |s.pcs|
  {
    var held := HeldRequest(s.pcs[k]);
    if held.None? || held.value !in s.requests.objects then None
    else
      var req := s.requests.objects[held.value];
      match s.pcs[k]
      case Holding(r, c) =>
        Some(s.(contexts := Update(s.contexts, c, Slot(Some(r), NewInfo(job, req.methodName))), pcs := s.pcs[k := Prepared(r, c)]))
      case Prepared(r, c) =>
        if c !in s.contexts.objects then None
        else (match Extract(job, req, s.contexts.objects[c].info)
              case Refused(why) => Some(s.(pcs := s.pcs[k := Releasing(r, c, Rejected(why, req.id))]))
              case Extracted(info) =>
                Some(s.(contexts := Update(s.contexts, c, s.contexts.objects[c].(info := info)), pcs := s.pcs[k := Detailed(r, c)])))
      case Detailed(r, c) =>
        if c !in s.contexts.objects then None
        else Some(s.(pcs := s.pcs[k := Decided(r, c, Deliberate(job, View(req, s.contexts.objects[c].info)))]))
      case Decided(r, c, d) =>
        if c !in s.contexts.objects then None
        else
          var view := View(req, s.contexts.objects[c].info);
          Some(s.(pcs := s.pcs[k := Replied(r, c, d.decision, Answered(job, view, d))]))
      case Replied(r, c, decision, reply) =>
        if c !in s.contexts.objects then None
        else
          var view := View(req, s.contexts.objects[c].info);
          Some(s.(pcs := s.pcs[k := Releasing(r, c, Conclude(job, view, decision, reply))]))
      case _ => None
  }

  /** Release: the Request the context points at goes back, then the context, both with their
      references cleared. */
  function ReleaseStep(s: State, k: nat): Option<State>
    requires k < |s.pcs|
  {
    match s.pcs[k]
    case Releasing(_, c, result) =>
      if c !in s.contexts.objects then None
      else (match s.contexts.objects[c].request
            case None => Some(s.(pcs := s.pcs[k := HalfReleased(c, result)]))
            case Some(r) =>
              if r !in s.requests.objects then None
              else Some(s.(requests := Give(s.requests, r, Cleared(s.requests.objects[r])), pcs := s.pcs[k := HalfReleased(c, result)])))
    case HalfReleased(c, result) =>
      if c !in s.contexts.objects then None
      else
        var slot := s.contexts.objects[c];
        Some(s.(contexts := Give(s.contexts, c, Slot(None, slot.info.(arguments := None))), pcs := s.pcs[k := Finished(result)]))
    case _ => None
  }

  /** A call's step, or the collector discarding a pooled object. */
  datatype Turn = Go(call: nat, x: Ref) | DropRequest(r: Ref) | DropContext(r: Ref)

  function CallStep(job: Job, s: State, k: nat, x: Ref): Option<State>
    requires k < |s.pcs|
  {
    match s.pcs[k]
    case Start => TakeStep(job, s, k, x)
    case Parsed(_) => TakeStep(job, s, k, x)
    case Got(_) => RequestStep(job, s, k)
    case Clean(_) => RequestStep(job, s, k)
    case Filled(_, _) => RequestStep(job, s, k)
    case Releasing(_, _, _) => ReleaseStep(s, k)
    case HalfReleased(_, _) => ReleaseStep(s, k)
    case Finished(_) => None
    case _ => ContextStep(job, s, k)
  }

  function Apply(jobs: seq<Job>, s: State, turn: Turn): Option<State>
    requires |jobs| == |s.pcs|
  {
    match turn
    case Go(k, x) => if k < |jobs| then CallStep(jobs[k], s, k, x) else None
    case DropRequest(r) => if r in s.requests.free then Some(s.(requests := Discard(s.requests, r))) else None
    case DropContext(r) => if r in s.contexts.free then Some(s.(contexts := Discard(s.contexts, r))) else None
  }

  function Exec(jobs: seq<Job>, s: State, trace: seq<Turn>): (r: Option<State>)
    requires |jobs| == |s.pcs|
    ensures r.Some? ==> |r.value.pcs| == |jobs|
  {
    if trace == [] then Some(s)
    else
      var before := Exec(jobs, s, trace[..|trace| - 1]);
      if before.None? then None else Apply(jobs, before.value, trace[|trace| - 1])
  }

  // ---------------------------------------------------------------- agreement with fresh objects

  function RequestAt(s: State, r: Ref): Option<Request> {
    if r in s.requests.objects then Some(s.requests.objects[r]) else None
  }

  function ContextAt(s: State, c: Ref): Option<Slot> {
    if c in s.contexts.objects then Some(s.contexts.objects[c]) else None
  }

  /** The request was accepted and is in object `r`. */
  predicate Accepted(job: Job, s: State, r: Ref) {
    VerdictOf(job).None? && RequestAt(s, r) == Some(RequestOf(job))
  }

  /** In addition its details were extracted and are in object `c`. */
  predicate Ready(job: Job, s: State, r: Ref, c: Ref) {
    && Accepted(job, s, r)
    && ExtractionOf(job).Extracted?
    && ContextAt(s, c) == Some(Slot(Some(r), ExtractionOf(job).info))
  }

  function ViewOf(job: Job): View
    requires ExtractionOf(job).Extracted?
  {
    View(RequestOf(job), ExtractionOf(job).info)
  }

  /** At every point a call is where the version with fresh objects would be. */
  predicate Fits(job: Job, s: State, pc: Pc) {
    match pc
    case Start => true
    case Got(r) => job.message != ""
    case Clean(r) => job.message != "" && RequestAt(s, r) == Some(BLANK)
    case Filled(r, error) =>
      job.message != "" && RequestAt(s, r) == Some(RequestOf(job)) && error == job.decode(job.message).error
    case Parsed(r) => Accepted(job, s, r)
    case Holding(r, _) => Accepted(job, s, r)
    case Prepared(r, c) => Accepted(job, s, r) && ContextAt(s, c) == Some(Slot(Some(r), InfoOf(job)))
    case Detailed(r, c) => Ready(job, s, r, c)
    case Decided(r, c, d) => Ready(job, s, r, c) && d == Deliberate(job, ViewOf(job))
    case Replied(r, c, decision, reply) =>
      && Ready(job, s, r, c)
      && decision == Deliberate(job, ViewOf(job)).decision
      && reply == Answered(job, ViewOf(job), Deliberate(job, ViewOf(job)))
    case Releasing(r, c, result) =>
      result == RouteFresh(job) && ContextAt(s, c).Some? && ContextAt(s, c).value.request == Some(r)
    case HalfReleased(_, result) => result == RouteFresh(job)
    case Finished(result) => result == RouteFresh(job)
  }

  ghost predicate Inv(jobs: seq<Job>, s: State) {
    && |jobs| == |s.pcs|
    && Sound(s.requests, Requests(s.pcs))
    && Sound(s.contexts, Contexts(s.pcs))
    && forall k :: 0 <= k < |jobs| ==> Fits(jobs[k], s, s.pcs[k])
  }

  lemma {:induction false} FitsKept(job: Job, s: State, s': State, pc: Pc)
    requires Fits(job, s, pc)
    requires HeldRequest(pc).Some? ==> RequestAt(s', HeldRequest(pc).value) == RequestAt(s, HeldRequest(pc).value)
    requires HeldContext(pc).Some? ==> ContextAt(s', HeldContext(pc).value) == ContextAt(s, HeldContext(pc).value)
    ensures Fits(job, s', pc)
  {
  }

  lemma {:induction false} HeldUpdates(pcs: seq<Pc>, k: nat, pc: Pc)
    requires k < |pcs|
    ensures Requests(pcs[k := pc]) == Requests(pcs)[k := HeldRequest(pc)]
    ensures Contexts(pcs[k := pc]) == Contexts(pcs)[k := HeldContext(pc)]
  {
  }

  /** What a step of call `k` must do to keep the invariant. */
  ghost predicate StepOk(job: Job, s: State, s': State, k: nat)
    requires k < |s.pcs|
  {
    && |s'.pcs| == |s.pcs| && s'.pcs == s.pcs[k := s'.pcs[k]]
    && Sound(s'.requests, Requests(s.pcs)[k := HeldRequest(s'.pcs[k])]) && Kept(s.requests, s'.requests, Requests(s.pcs), k)
    && Sound(s'.contexts, Contexts(s.pcs)[k := HeldContext(s'.pcs[k])]) && Kept(s.contexts, s'.contexts, Contexts(s.pcs), k)
    && Fits(job, s', s'.pcs[k])
  }

  lemma {:induction false} StepOkKeepsInv(jobs: seq<Job>, s: State, s': State, k: nat)
    requires Inv(jobs, s) && k < |jobs| && StepOk(jobs[k], s, s', k)
    ensures Inv(jobs, s')
  {
    HeldUpdates(s.pcs, k, s'.pcs[k]);
    forall j | 0 <= j < |jobs| ensures Fits(jobs[j], s', s'.pcs[j]) {
      if j != k {
        assert Requests(s.pcs)[j] == HeldRequest(s.pcs[j]) && Contexts(s.pcs)[j] == HeldContext(s.pcs[j]);
        FitsKept(jobs[j], s, s', s.pcs[j]);
      }
    }
  }

  lemma {:induction false} TakeRequestOk(jobs: seq<Job>, s: State, k: nat, x: Ref)
    requires Inv(jobs, s) && k < |jobs| && s.pcs[k].Start? && TakeStep(jobs[k], s, k, x).Some?
    ensures StepOk(jobs[k], s, TakeStep(jobs[k], s, k, x).value, k)
  {
    LeaveIsSound(s.contexts, Contexts(s.pcs), k);
    if jobs[k].message == "" {
      LeaveIsSound(s.requests, Requests(s.pcs), k);
    } else {
      TakeIsSound(s.requests, Requests(s.pcs), k, x, BLANK);
    }
  }

  lemma {:induction false} TakeContextOk(jobs: seq<Job>, s: State, k: nat, x: Ref)
    requires Inv(jobs, s) && k < |jobs| && s.pcs[k].Parsed? && CanTake(s.contexts, x)
    ensures StepOk(jobs[k], s, TakeStep(jobs[k], s, k, x).value, k)
  {
    LeaveIsSound(s.requests, Requests(s.pcs), k);
    assert Fits(jobs[k], s, s.pcs[k]);
    TakeIsSound(s.contexts, Contexts(s.pcs), k, x, NEW_SLOT);
  }

  lemma {:induction false} FillOk(jobs: seq<Job>, s: State, k: nat)
    requires Inv(jobs, s) && k < |jobs| && RequestStep(jobs[k], s, k).Some? && (s.pcs[k].Got? || s.pcs[k].Clean?)
    ensures StepOk(jobs[k], s, RequestStep(jobs[k], s, k).value, k)
  {
    var r, s' := s.pcs[k].r, RequestStep(jobs[k], s, k).value;
    LeaveIsSound(s.contexts, Contexts(s.pcs), k);
    assert Fits(jobs[k], s, s.pcs[k]);
    UpdateIsSound(s.requests, Requests(s.pcs), k, r, s'.requests.objects[r]);
  }

  lemma {:induction false} VerdictOk(jobs: seq<Job>, s: State, k: nat)
    requires Inv(jobs, s) && k < |jobs| && RequestStep(jobs[k], s, k).Some? && s.pcs[k].Filled?
    ensures StepOk(jobs[k], s, RequestStep(jobs[k], s, k).value, k)
  {
    var r, verdict := s.pcs[k].r, VerdictOf(jobs[k]);
    LeaveIsSound(s.contexts, Contexts(s.pcs), k);
    assert Fits(jobs[k], s, s.pcs[k]);
    assert verdict == Verdict(s.requests.objects[r], s.pcs[k].error);
    if verdict.Some? {
      GiveIsSound(s.requests, Requests(s.pcs), k, r, Cleared(s.requests.objects[r]));
    } else {
      LeaveIsSound(s.requests, Requests(s.pcs), k);
    }
  }

  lemma {:induction false} PrepareOk(jobs: seq<Job>, s: State, k: nat)
    requires Inv(jobs, s) && k < |jobs| && ContextStep(jobs[k], s, k).Some? && s.pcs[k].Holding?
    ensures StepOk(jobs[k], s, ContextStep(jobs[k], s, k).value, k)
  {
    var c, s' := s.pcs[k].c, ContextStep(jobs[k], s, k).value;
    LeaveIsSound(s.requests, Requests(s.pcs), k);
    assert Fits(jobs[k], s, s.pcs[k]);
    UpdateIsSound(s.contexts, Contexts(s.pcs), k, c, s'.contexts.objects[c]);
  }

  lemma {:induction false} ExtractOk(jobs: seq<Job>, s: State, k: nat)
    requires Inv(jobs, s) && k < |jobs| && ContextStep(jobs[k], s, k).Some? && s.pcs[k].Prepared?
    ensures StepOk(jobs[k], s, ContextStep(jobs[k], s, k).value, k)
  {
    var c, s' := s.pcs[k].c, ContextStep(jobs[k], s, k).value;
    LeaveIsSound(s.requests, Requests(s.pcs), k);
    assert Fits(jobs[k], s, s.pcs[k]);
    if s'.pcs[k].Detailed? {
      UpdateIsSound(s.contexts, Contexts(s.pcs), k, c, s'.contexts.objects[c]);
    } else {
      LeaveIsSound(s.contexts, Contexts(s.pcs), k);
    }
  }

  lemma {:induction false} ConcludeOk(jobs: seq<Job>, s: State, k: nat)
    requires Inv(jobs, s) && k < |jobs| && ContextStep(jobs[k], s, k).Some? && s.pcs[k].Replied?
    ensures StepOk(jobs[k], s, ContextStep(jobs[k], s, k).value, k)
  {
    LeaveIsSound(s.requests, Requests(s.pcs), k);
    LeaveIsSound(s.contexts, Contexts(s.pcs), k);
    assert Fits(jobs[k], s, s.pcs[k]);
  }

  lemma {:induction false} DecideOk(jobs: seq<Job>, s: State, k: nat)
    requires Inv(jobs, s) && k < |jobs| && ContextStep(jobs[k], s, k).Some? && s.pcs[k].Detailed?
    ensures StepOk(jobs[k], s, ContextStep(jobs[k], s, k).value, k)
  {
    LeaveIsSound(s.requests, Requests(s.pcs), k);
    LeaveIsSound(s.contexts, Contexts(s.pcs), k);
    assert Fits(jobs[k], s, s.pcs[k]);
  }

  lemma {:induction false} ReplyOk(jobs: seq<Job>, s: State, k: nat)
    requires Inv(jobs, s) && k < |jobs| && ContextStep(jobs[k], s, k).Some? && s.pcs[k].Decided?
    ensures StepOk(jobs[k], s, ContextStep(jobs[k], s, k).value, k)
  {
    LeaveIsSound(s.requests, Requests(s.pcs), k);
    LeaveIsSound(s.contexts, Contexts(s.pcs), k);
    assert Fits(jobs[k], s, s.pcs[k]);
  }

  lemma {:induction false} ReleaseOk(jobs: seq<Job>, s: State, k: nat)
    requires Inv(jobs, s) && k < |jobs| && ReleaseStep(s, k).Some?
    ensures StepOk(jobs[k], s, ReleaseStep(s, k).value, k)
  {
    var pc, s' := s.pcs[k], ReleaseStep(s, k).value;
    LeaveIsSound(s.requests, Requests(s.pcs), k);
    LeaveIsSound(s.contexts, Contexts(s.pcs), k);
    assert Fits(jobs[k], s, pc);
    if pc.Releasing? {
      GiveIsSound(s.requests, Requests(s.pcs), k, pc.r, Cleared(s.requests.objects[pc.r]));
    } else {
      GiveIsSound(s.contexts, Contexts(s.pcs), k, pc.c, s'.contexts.objects[pc.c]);
    }
  }

  lemma {:induction false} CallOk(jobs: seq<Job>, s: State, k: nat, x: Ref)
    requires Inv(jobs, s) && k < |jobs| && CallStep(jobs[k], s, k, x).Some?
    ensures StepOk(jobs[k], s, CallStep(jobs[k], s, k, x).value, k)
  {
    match s.pcs[k]
    case Start => TakeRequestOk(jobs, s, k, x);
    case Parsed(_) => TakeContextOk(jobs, s, k, x);
    case Got(_) => FillOk(jobs, s, k);
    case Clean(_) => FillOk(jobs, s, k);
    case Filled(_, _) => VerdictOk(jobs, s, k);
    case Releasing(_, _, _) => ReleaseOk(jobs, s, k);
    case HalfReleased(_, _) => ReleaseOk(jobs, s, k);
    case Holding(_, _) => PrepareOk(jobs, s, k);
    case Prepared(_, _) => ExtractOk(jobs, s, k);
    case Replied(_, _, _, _) => ConcludeOk(jobs, s, k);
    case Detailed(_, _) => DecideOk(jobs, s, k);
    case Decided(_, _, _) => ReplyOk(jobs, s, k);
    case Finished(_) =>
  }

  lemma {:induction false} DropKeepsInv(jobs: seq<Job>, s: State, s': State)
    requires Inv(jobs, s) && s'.pcs == s.pcs
    requires Sound(s'.requests, Requests(s.pcs)) && Kept(s.requests, s'.requests, Requests(s.pcs), -1)
    requires Sound(s'.contexts, Contexts(s.pcs)) && Kept(s.contexts, s'.contexts, Contexts(s.pcs), -1)
    ensures Inv(jobs, s')
  {
    forall j | 0 <= j < |jobs| ensures Fits(jobs[j], s', s'.pcs[j]) {
      assert Requests(s.pcs)[j] == HeldRequest(s.pcs[j]) && Contexts(s.pcs)[j] == HeldContext(s.pcs[j]);
      FitsKept(jobs[j], s, s', s.pcs[j]);
    }
  }

  lemma {:induction false} TurnKeepsInv(jobs: seq<Job>, s: State, turn: Turn)
    requires Inv(jobs, s) && Apply(jobs, s, turn).Some?
    ensures Inv(jobs, Apply(jobs, s, turn).value)
  {
    match turn
    case Go(k, x) =>
      CallOk(jobs, s, k, x);
      StepOkKeepsInv(jobs, s, CallStep(jobs[k], s, k, x).value, k);
    case DropRequest(r) =>
      DiscardIsSound(s.requests, Requests(s.pcs), r);
      DropKeepsInv(jobs, s, Apply(jobs, s, turn).value);
    case DropContext(r) =>
      DiscardIsSound(s.contexts, Contexts(s.pcs), r);
      DropKeepsInv(jobs, s, Apply(jobs, s, turn).value);
  }

  // ---------------------------------------------------------------- whole runs

  /** No call has begun; the pools hold any number of used objects with any contents. */
  ghost predicate Initial(jobs: seq<Job>, s: State) {
    && |s.pcs| == |jobs| && (forall k :: 0 <= k < |s.pcs| ==> s.pcs[k] == Start)
    && InPool(s.requests) && InPool(s.contexts)
  }

  ghost predicate InPool<T>(p: Pool<T>) {
    forall r: Ref :: p.free[r] == if r in p.objects then 1 else 0
  }

  lemma {:induction false} RunKeepsInv(jobs: seq<Job>, s: State, trace: seq<Turn>)
    requires Initial(jobs, s) && Exec(jobs, s, trace).Some?
    ensures Inv(jobs, Exec(jobs, s, trace).value)
  {
    if trace != [] {
      RunKeepsInv(jobs, s, trace[..|trace| - 1]);
      TurnKeepsInv(jobs, Exec(jobs, s, trace[..|trace| - 1]).value, trace[|trace| - 1]);
    }
  }

  /** Pooling is transparent: under every interleaving, whatever the pools held, a call that finishes
      has the result of a call with fresh objects. */
  lemma {:induction false} PoolingIsTransparent(jobs: seq<Job>, s: State, trace: seq<Turn>, k: nat)
    requires Initial(jobs, s) && Exec(jobs, s, trace).Some? && k < |jobs|
    requires Exec(jobs, s, trace).value.pcs[k].Finished?
    ensures Exec(jobs, s, trace).value.pcs[k].result == RouteFresh(jobs[k])
  {
    RunKeepsInv(jobs, s, trace);
    assert Fits(jobs[k], Exec(jobs, s, trace).value, Exec(jobs, s, trace).value.pcs[k]);
  }

  /** At no point do two calls hold one object, or a call one that lies in the pool. */
  lemma {:induction false} NeverShared(jobs: seq<Job>, s: State, trace: seq<Turn>, j: nat, k: nat)
    requires Initial(jobs, s) && Exec(jobs, s, trace).Some? && j < |jobs| && k < |jobs| && j != k
    ensures var s' := Exec(jobs, s, trace).value;
      var a, b := s'.pcs[j], s'.pcs[k];
      && (HeldRequest(a).Some? ==> HeldRequest(a) != HeldRequest(b) && HeldRequest(a).value !in s'.requests.free)
      && (HeldContext(a).Some? ==> HeldContext(a) != HeldContext(b) && HeldContext(a).value !in s'.contexts.free)
  {
    RunKeepsInv(jobs, s, trace);
    var s' := Exec(jobs, s, trace).value;
    assert Requests(s'.pcs)[j] == HeldRequest(s'.pcs[j]) && Requests(s'.pcs)[k] == HeldRequest(s'.pcs[k]);
    assert Contexts(s'.pcs)[j] == HeldContext(s'.pcs[j]) && Contexts(s'.pcs)[k] == HeldContext(s'.pcs[k]);
    if HeldRequest(s'.pcs[j]).Some? { NotFree(s'.requests, Requests(s'.pcs), j); }
    if HeldContext(s'.pcs[j]).Some? { NotFree(s'.contexts, Contexts(s'.pcs), j); }
  }

  /** When all calls have finished, on whatever paths, every object is back in its pool, once. */
  lemma {:induction false} AllReturned(jobs: seq<Job>, s: State, trace: seq<Turn>)
    requires Initial(jobs, s) && Exec(jobs, s, trace).Some?
    requires forall k :: 0 <= k < |jobs| ==> Exec(jobs, s, trace).value.pcs[k].Finished?
    ensures InPool(Exec(jobs, s, trace).value.requests) && InPool(Exec(jobs, s, trace).value.contexts)
  {
    RunKeepsInv(jobs, s, trace);
    var s' := Exec(jobs, s, trace).value;
    assert forall r: Ref :: !HeldBySome(Requests(s'.pcs), r) && !HeldBySome(Contexts(s'.pcs), r);
  }

  /** A call that has not finished can always take its next step. */
  lemma {:induction false} NeverBlocked(jobs: seq<Job>, s: State, k: nat, x: Ref)
    requires Inv(jobs, s) && k < |jobs| && !s.pcs[k].Finished?
    requires x !in s.requests.objects && x !in s.contexts.objects
    ensures Apply(jobs, s, Go(k, x)).Some?
  {
    var pc := s.pcs[k];
    assert Fits(jobs[k], s, pc);
    assert Requests(s.pcs)[k] == HeldRequest(pc) && Contexts(s.pcs)[k] == HeldContext(pc);
    if HeldRequest(pc).Some? { NotFree(s.requests, Requests(s.pcs), k); }
    if HeldContext(pc).Some? { NotFree(s.contexts, Contexts(s.pcs), k); }
  }
}
