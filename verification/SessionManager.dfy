/**
 The session manager (internal/session/manager.go) under any interleaving of its operations.  Each step
 is one access to the lock-free session map, one change of the counters under `mu`, or one check;
 `Create` holds `mu` throughout, `Delete` and `cleanup` take it only to decrement.
 */
module SessionManager {
  import opened Text

  type Thread = nat

  type SessionId = string

  /** Where a thread is inside an operation. */
  datatype Pc =
    | Idle
    | CreateChecked               // Create: limit checked, mu held
    | CreateStored                // Create: session stored, count not yet raised, mu held
    | CreateCounted               // Create: count raised, mu held
    | Loaded(id: SessionId)       // Get: session loaded, not yet checked
    | Deleting(id: SessionId)     // Delete: about to LoadAndDelete
    | Removed(id: SessionId)      // Delete: removed from the map, not yet closed
    | Visiting(id: SessionId)     // cleanup: session found due for removal
    | Unlinked                    // Delete or cleanup: gone from the map, mu not yet taken
    | Decrementing                // Delete or cleanup: mu held

  datatype State = State(
    sessions: set<SessionId>,
    closed: set<SessionId>,
    used: set<SessionId>,
    active: int,
    totalCreated: nat,
    holder: Option<Thread>,
    pc: map<Thread, Pc>,
    owing: set<Thread>,  // bookkeeping: threads that removed a session and have not lowered the count
    phantom: nat)        // bookkeeping: cleanup removals of sessions that were already gone

  function Init(): State {
    State({}, {}, {}, 0, 0, None, map[], {}, 0)
  }

  function PcOf(s: State, t: Thread): Pc {
    if t in s.pc then s.pc[t] else Idle
  }

  predicate Owes(pc: Pc) {
    pc.Removed? || pc.Unlinked? || pc.Decrementing?
  }

  function Goto(s: State, t: Thread, pc: Pc): State {
    s.(pc := s.pc[t := pc], owing := if Owes(pc) then s.owing + {t} else s.owing - {t})
  }

  datatype Step =
    | BeginCreate
    | Store(id: SessionId)
    | Count
    | FinishCreate
    | Load(id: SessionId)
    | CheckClosed
    | CallDelete(id: SessionId)
    | LoadAndDelete
    | Close
    | Lock
    | Decrement
    | Visit(id: SessionId)
    | Unlink
    | CloseElsewhere(id: SessionId)

  /** The state after thread `t` takes the step, or None when it cannot. */
  function Apply(max: int, s: State, t: Thread, step: Step): Option<State> {
    var pc := PcOf(s, t);
    match step
    case BeginCreate =>
      if pc != Idle || s.holder.Some? then None
      else if s.active >= max then Some(s)
      else Some(Goto(s.(holder := Some(t)), t, CreateChecked))
    case Store(id) =>
      if pc != CreateChecked || id in s.used then None
      else Some(Goto(s.(sessions := s.sessions + {id}, used := s.used + {id}), t, CreateStored))
    case Count =>
      if pc != CreateStored then None else Some(Goto(s.(active := s.active + 1), t, CreateCounted))
    case FinishCreate =>
      if pc != CreateCounted then None
      else Some(Goto(s.(totalCreated := s.totalCreated + 1, holder := None), t, Idle))
    case Load(id) =>
      if pc != Idle then None else if id in s.sessions then Some(Goto(s, t, Loaded(id))) else Some(s)
    case CheckClosed =>
      if !pc.Loaded? then None else Some(Goto(s, t, if pc.id in s.closed then Deleting(pc.id) else Idle))
    case CallDelete(id) =>
      if pc != Idle then None else Some(Goto(s, t, Deleting(id)))
    case LoadAndDelete =>
      if !pc.Deleting? then None
      else if pc.id in s.sessions then Some(Goto(s.(sessions := s.sessions - {pc.id}), t, Removed(pc.id)))
      else Some(Goto(s, t, Idle))
    case Close =>
      if !pc.Removed? then None else Some(Goto(s.(closed := s.closed + {pc.id}), t, Unlinked))
    case Lock =>
      if pc != Unlinked || s.holder.Some? then None else Some(Goto(s.(holder := Some(t)), t, Decrementing))
    case Decrement =>
      if pc != Decrementing then None else Some(Goto(s.(active := s.active - 1, holder := None), t, Idle))
    case Visit(id) =>
      if pc != Idle || id !in s.sessions then None
      else Some(Goto(s.(closed := s.closed + {id}), t, Visiting(id)))
    case Unlink =>
      if !pc.Visiting? then None
      else Some(Goto(s.(sessions := s.sessions - {pc.id},
                        phantom := s.phantom + if pc.id in s.sessions then 0 else 1), t, Unlinked))
    case CloseElsewhere(id) => Some(s.(closed := s.closed + {id}))
  }

  /** A step and the thread that takes it. */
  datatype Turn = Turn(thread: Thread, step: Step)

  /** The state after an interleaving of steps from `s`. */
  function Exec(max: int, s: State, trace: seq<Turn>): Option<State> {
    if trace == [] then Some(s)
    else
      var before := Exec(max, s, trace[..|trace| - 1]);
      var last := trace[|trace| - 1];
      if before.None? then None else Apply(max, before.value, last.thread, last.step)
  }

  // ---------------------------------------------------------------- accounting

  predicate Holds(pc: Pc) {
    pc.CreateChecked? || pc.CreateStored? || pc.CreateCounted? || pc.Decrementing?
  }

  function Uncounted(s: State): int {
    if s.holder.Some? && PcOf(s, s.holder.value).CreateStored? then 1 else 0
  }

  /** How many sessions a limit admits; a negative one admits none. */
  function Room(max: int): nat {
    if max < 0 then 0 else max
  }

  /** The mutex is held by the thread that is inside it, and a Create inside it still has room. */
  ghost predicate Control(max: int, s: State) {
    && s.active <= Room(max)
    && (forall t :: t in s.pc ==> (Holds(s.pc[t]) <==> s.holder == Some(t)))
    && (s.holder.Some? ==> s.holder.value in s.pc)
    && (s.holder.Some? ==>
          PcOf(s, s.holder.value).CreateChecked? || PcOf(s, s.holder.value).CreateStored? ==> s.active < max)
    && s.sessions <= s.used
    && (forall t :: t in s.owing <==> t in s.pc && Owes(s.pc[t]))
  }

  /** Sessions in the map and removals still to be counted balance the counter, the session between
      store and increment, and the removals that found nothing. */
  predicate Balance(s: State) {
    && |s.sessions| + |s.owing| == s.active + Uncounted(s) + s.phantom
    && |s.used| == s.totalCreated + Unreported(s)
  }

  ghost predicate Inv(max: int, s: State) {
    Control(max, s) && Balance(s)
  }

  /** A session stored but not yet in totalCreated. */
  function Unreported(s: State): int {
    if s.holder.Some? && (PcOf(s, s.holder.value).CreateStored? || PcOf(s, s.holder.value).CreateCounted?) then 1 else 0
  }

  predicate Removes(step: Step) {
    step.LoadAndDelete? || step.Unlink? || step.Lock? || step.Decrement?
  }

  predicate Creates(step: Step) {
    step.BeginCreate? || step.Store? || step.Count? || step.FinishCreate?
  }

  predicate Looks(step: Step) {
    step.Load? || step.CheckClosed? || step.CallDelete?
  }

  /** Taking, keeping or giving up the mutex along with the program counter keeps control. */
  lemma {:induction false} GotoKeepsControl(max: int, s: State, s1: State, t: Thread, pc: Pc)
    requires Control(max, s)
    requires s1.pc == s.pc && s1.owing == s.owing && s1.sessions <= s1.used && s1.active <= Room(max)
    requires s.holder == Some(t) || s.holder.None? || (s1.holder == s.holder && s1.active == s.active)
    requires s1.holder == Some(t) || s1.holder.None? || s1.holder == s.holder
    requires Holds(pc) <==> s1.holder == Some(t)
    requires pc.CreateChecked? || pc.CreateStored? ==> s1.active < max
    ensures Control(max, Goto(s1, t, pc))
  {
  }

  lemma {:induction false} CreatesKeepControl(max: int, s: State, t: Thread, step: Step)
    requires Control(max, s) && Apply(max, s, t, step).Some? && Creates(step)
    ensures Control(max, Apply(max, s, t, step).value)
  {
    match step
    case BeginCreate =>
      if s.active < max { GotoKeepsControl(max, s, s.(holder := Some(t)), t, CreateChecked); }
    case Store(id) =>
      GotoKeepsControl(max, s, s.(sessions := s.sessions + {id}, used := s.used + {id}), t, CreateStored);
    case Count => GotoKeepsControl(max, s, s.(active := s.active + 1), t, CreateCounted);
    case FinishCreate =>
      GotoKeepsControl(max, s, s.(totalCreated := s.totalCreated + 1, holder := None), t, Idle);
  }

  lemma {:induction false} RemovesKeepControl(max: int, s: State, t: Thread, step: Step)
    requires Control(max, s) && Apply(max, s, t, step).Some? && Removes(step)
    ensures Control(max, Apply(max, s, t, step).value)
  {
    var pc := PcOf(s, t);
    match step
    case LoadAndDelete =>
      GotoKeepsControl(max, s, s.(sessions := s.sessions - {pc.id}), t, Removed(pc.id));
      GotoKeepsControl(max, s, s, t, Idle);
    case Unlink =>
      var s1 := s.(sessions := s.sessions - {pc.id}, phantom := s.phantom + if pc.id in s.sessions then 0 else 1);
      GotoKeepsControl(max, s, s1, t, Unlinked);
    case Lock => GotoKeepsControl(max, s, s.(holder := Some(t)), t, Decrementing);
    case Decrement => GotoKeepsControl(max, s, s.(active := s.active - 1, holder := None), t, Idle);
  }

  lemma {:induction false} LooksKeepControl(max: int, s: State, t: Thread, step: Step)
    requires Control(max, s) && Apply(max, s, t, step).Some? && Looks(step)
    ensures Control(max, Apply(max, s, t, step).value)
  {
    var pc := PcOf(s, t);
    match step
    case Load(id) => GotoKeepsControl(max, s, s, t, Loaded(id));
    case CheckClosed => GotoKeepsControl(max, s, s, t, if pc.id in s.closed then Deleting(pc.id) else Idle);
    case CallDelete(id) => GotoKeepsControl(max, s, s, t, Deleting(id));
  }

  lemma {:induction false} ClosesKeepControl(max: int, s: State, t: Thread, step: Step)
    requires Control(max, s) && Apply(max, s, t, step).Some?
    requires !Creates(step) && !Removes(step) && !Looks(step)
    ensures Control(max, Apply(max, s, t, step).value)
  {
    match step
    case Close => GotoKeepsControl(max, s, s.(closed := s.closed + {PcOf(s, t).id}), t, Unlinked);
    case Visit(id) => GotoKeepsControl(max, s, s.(closed := s.closed + {id}), t, Visiting(id));
    case CloseElsewhere(id) =>
  }

  lemma {:induction false} StepKeepsControl(max: int, s: State, t: Thread, step: Step)
    requires Control(max, s) && Apply(max, s, t, step).Some?
    ensures Control(max, Apply(max, s, t, step).value)
  {
    if Creates(step) { CreatesKeepControl(max, s, t, step); }
    else if Removes(step) { RemovesKeepControl(max, s, t, step); }
    else if Looks(step) { LooksKeepControl(max, s, t, step); }
    else { ClosesKeepControl(max, s, t, step); }
  }

  /** Neither count changes when a step leaves the sessions, the debts and the creating thread alone. */
  lemma {:induction false} QuietStep(s: State, s': State)
    requires Balance(s)
    requires s'.sessions == s.sessions && s'.used == s.used && s'.totalCreated == s.totalCreated
    requires s'.active == s.active && s'.phantom == s.phantom && s'.owing == s.owing
    requires Uncounted(s') == Uncounted(s) && Unreported(s') == Unreported(s)
    ensures Balance(s')
  {
  }

  lemma {:induction false} BeginCreateStep(max: int, s: State, t: Thread)
    requires Control(max, s) && Balance(s) && Apply(max, s, t, BeginCreate).Some?
    ensures Balance(Apply(max, s, t, BeginCreate).value)
  {
    QuietStep(s, Apply(max, s, t, BeginCreate).value);
  }

  lemma {:induction false} StoreStep(max: int, s: State, t: Thread, id: SessionId)
    requires Control(max, s) && Balance(s) && Apply(max, s, t, Store(id)).Some?
    ensures Balance(Apply(max, s, t, Store(id)).value)
  {
    var s' := Apply(max, s, t, Store(id)).value;
    assert s.holder == Some(t) && s'.owing == s.owing;
    assert |s'.sessions| == |s.sessions| + 1 && |s'.used| == |s.used| + 1;
  }

  lemma {:induction false} CountStep(max: int, s: State, t: Thread)
    requires Control(max, s) && Balance(s) && Apply(max, s, t, Count).Some?
    ensures Balance(Apply(max, s, t, Count).value)
  {
    assert s.holder == Some(t) && Apply(max, s, t, Count).value.owing == s.owing;
  }

  lemma {:induction false} FinishCreateStep(max: int, s: State, t: Thread)
    requires Control(max, s) && Balance(s) && Apply(max, s, t, FinishCreate).Some?
    ensures Balance(Apply(max, s, t, FinishCreate).value)
  {
    assert s.holder == Some(t) && Apply(max, s, t, FinishCreate).value.owing == s.owing;
  }

  /** A thread outside the mutex moves without removing anything. */
  lemma {:induction false} MoveStep(max: int, s: State, t: Thread, pc: Pc, closed: set<SessionId>)
    requires Control(max, s) && Balance(s) && !Holds(PcOf(s, t)) && !Holds(pc)
    requires Owes(pc) <==> Owes(PcOf(s, t))
    ensures Balance(Goto(s.(closed := closed), t, pc))
  {
    QuietStep(s, Goto(s.(closed := closed), t, pc));
  }

  lemma {:induction false} LockStep(max: int, s: State, t: Thread)
    requires Control(max, s) && Balance(s) && Apply(max, s, t, Lock).Some?
    ensures Balance(Apply(max, s, t, Lock).value)
  {
    QuietStep(s, Apply(max, s, t, Lock).value);
  }

  /** A thread outside the mutex comes to owe a decrement. */
  lemma {:induction false} OweStep(max: int, s: State, t: Thread, pc: Pc, left: set<SessionId>, phantom: nat)
    requires Control(max, s) && Balance(s) && !Holds(PcOf(s, t)) && !Owes(PcOf(s, t)) && !Holds(pc) && Owes(pc)
    requires |s.sessions| - |left| == 1 - (phantom - s.phantom)
    ensures Balance(Goto(s.(sessions := left, phantom := phantom), t, pc))
  {
    var s' := Goto(s.(sessions := left, phantom := phantom), t, pc);
    assert s.holder != Some(t) && t !in s.owing && s'.owing == s.owing + {t};
    assert Uncounted(s') == Uncounted(s) && Unreported(s') == Unreported(s);
  }

  lemma {:induction false} LoadAndDeleteStep(max: int, s: State, t: Thread)
    requires Control(max, s) && Balance(s) && PcOf(s, t).Deleting? && PcOf(s, t).id in s.sessions
    ensures Balance(Apply(max, s, t, LoadAndDelete).value)
  {
    OweStep(max, s, t, Removed(PcOf(s, t).id), s.sessions - {PcOf(s, t).id}, s.phantom);
  }

  lemma {:induction false} UnlinkStep(max: int, s: State, t: Thread)
    requires Control(max, s) && Balance(s) && PcOf(s, t).Visiting?
    ensures Balance(Apply(max, s, t, Unlink).value)
  {
    var id := PcOf(s, t).id;
    var left := s.sessions - {id};
    assert id !in s.sessions ==> left == s.sessions;
    OweStep(max, s, t, Unlinked, left, s.phantom + if id in s.sessions then 0 else 1);
  }

  lemma {:induction false} DecrementStep(max: int, s: State, t: Thread)
    requires Control(max, s) && Balance(s) && Apply(max, s, t, Decrement).Some?
    ensures Balance(Apply(max, s, t, Decrement).value)
  {
    assert s.holder == Some(t) && t in s.owing;
    assert |Apply(max, s, t, Decrement).value.owing| == |s.owing| - 1;
  }

  lemma {:induction false} CreatesKeepBalance(max: int, s: State, t: Thread, step: Step)
    requires Control(max, s) && Balance(s) && Apply(max, s, t, step).Some? && Creates(step)
    ensures Balance(Apply(max, s, t, step).value)
  {
    match step
    case BeginCreate => BeginCreateStep(max, s, t);
    case Store(id) => StoreStep(max, s, t, id);
    case Count => CountStep(max, s, t);
    case FinishCreate => FinishCreateStep(max, s, t);
  }

  lemma {:induction false} RemovesKeepBalance(max: int, s: State, t: Thread, step: Step)
    requires Control(max, s) && Balance(s) && Apply(max, s, t, step).Some? && Removes(step)
    ensures Balance(Apply(max, s, t, step).value)
  {
    var pc := PcOf(s, t);
    match step
    case LoadAndDelete =>
      if pc.id in s.sessions { LoadAndDeleteStep(max, s, t); } else { MoveStep(max, s, t, Idle, s.closed); }
    case Unlink => UnlinkStep(max, s, t);
    case Lock => LockStep(max, s, t);
    case Decrement => DecrementStep(max, s, t);
  }

  lemma {:induction false} LooksKeepBalance(max: int, s: State, t: Thread, step: Step)
    requires Control(max, s) && Balance(s) && Apply(max, s, t, step).Some? && Looks(step)
    ensures Balance(Apply(max, s, t, step).value)
  {
    var pc := PcOf(s, t);
    match step
    case Load(id) => MoveStep(max, s, t, Loaded(id), s.closed);
    case CheckClosed => MoveStep(max, s, t, if pc.id in s.closed then Deleting(pc.id) else Idle, s.closed);
    case CallDelete(id) => MoveStep(max, s, t, Deleting(id), s.closed);
  }

  lemma {:induction false} ClosesKeepBalance(max: int, s: State, t: Thread, step: Step)
    requires Control(max, s) && Balance(s) && Apply(max, s, t, step).Some?
    requires !Creates(step) && !Removes(step) && !Looks(step)
    ensures Balance(Apply(max, s, t, step).value)
  {
    match step
    case Close => MoveStep(max, s, t, Unlinked, s.closed + {PcOf(s, t).id});
    case Visit(id) => MoveStep(max, s, t, Visiting(id), s.closed + {id});
    case CloseElsewhere(id) => QuietStep(s, s.(closed := s.closed + {id}));
  }

  /** Every step keeps the balance, including the steps of an interleaved cleanup. */
  lemma {:induction false} StepKeepsBalance(max: int, s: State, t: Thread, step: Step)
    requires Control(max, s) && Balance(s) && Apply(max, s, t, step).Some?
    ensures Balance(Apply(max, s, t, step).value)
  {
    if Creates(step) { CreatesKeepBalance(max, s, t, step); }
    else if Removes(step) { RemovesKeepBalance(max, s, t, step); }
    else if Looks(step) { LooksKeepBalance(max, s, t, step); }
    else { ClosesKeepBalance(max, s, t, step); }
  }

  lemma {:induction false} StepKeepsInv(max: int, s: State, t: Thread, step: Step)
    requires Inv(max, s) && Apply(max, s, t, step).Some?
    ensures Inv(max, Apply(max, s, t, step).value)
  {
    StepKeepsControl(max, s, t, step);
    StepKeepsBalance(max, s, t, step);
  }

  lemma {:induction false} RunKeepsInv(max: int, trace: seq<Turn>)
    requires Exec(max, Init(), trace).Some?
    ensures Inv(max, Exec(max, Init(), trace).value)
  {
    if trace != [] {
      var last := trace[|trace| - 1];
      RunKeepsInv(max, trace[..|trace| - 1]);
      StepKeepsInv(max, Exec(max, Init(), trace[..|trace| - 1]).value, last.thread, last.step);
    }
  }

  /** Under every interleaving of any number of threads the map exceeds the limit by no more than the
      number of removals in which cleanup found the session already gone. */
  lemma SessionLimit(max: int, trace: seq<Turn>)
    requires Exec(max, Init(), trace).Some?
    ensures var s := Exec(max, Init(), trace).value;
      && |s.sessions| <= Room(max) + s.phantom
      && |s.sessions| + |s.owing| == s.active + Uncounted(s) + s.phantom
  {
    RunKeepsInv(max, trace);
  }

  /** cleanup's check and removal with nothing in between. */
  predicate CleanupAtomic(trace: seq<Turn>) {
    forall i :: 0 <= i < |trace| && trace[i].step == Unlink ==>
      i > 0 && trace[i - 1].step.Visit? && trace[i - 1].thread == trace[i].thread
  }

  lemma {:induction false} AtomicCleanupFindsAll(max: int, trace: seq<Turn>)
    requires Exec(max, Init(), trace).Some? && CleanupAtomic(trace)
    ensures Exec(max, Init(), trace).value.phantom == 0
  {
    if trace != [] {
      var front, last := trace[..|trace| - 1], trace[|trace| - 1];
      AtomicCleanupFindsAll(max, front);
      if last.step == Unlink {
        var visit := front[|front| - 1];
        assert front[..|front| - 1] == trace[..|trace| - 2];
        assert trace[|trace| - 1 - 1] == visit;
      }
    }
  }

  /** Without cleanup, or with a cleanup that checks and removes in one step, the limit holds. */
  lemma SessionLimitExact(max: int, trace: seq<Turn>)
    requires Exec(max, Init(), trace).Some? && CleanupAtomic(trace)
    ensures |Exec(max, Init(), trace).value.sessions| <= Room(max)
  {
    SessionLimit(max, trace);
    AtomicCleanupFindsAll(max, trace);
  }
}
