/**
 Whole calls of the session manager (internal/session/manager.go) in the interleaved model: run without
 interruption, their steps change map, counters and closed sessions as the methods of SessionStore do.
 */
module SessionCalls {
  import opened Text
  import opened SessionManager

  /** What callers can see of the manager. */
  datatype Visible = Visible(sessions: set<SessionId>, closed: set<SessionId>, active: int, totalCreated: nat)

  function See(s: State): Visible {
    Visible(s.sessions, s.closed, s.active, s.totalCreated)
  }

  /** A session more. */
  function Created(v: Visible, id: SessionId): Visible {
    v.(sessions := v.sessions + {id}, active := v.active + 1, totalCreated := v.totalCreated + 1)
  }

  /** The session removed, closed and counted out, if it was there. */
  function Gone(v: Visible, id: SessionId): Visible {
    if id in v.sessions then Visible(v.sessions - {id}, v.closed + {id}, v.active - 1, v.totalCreated) else v
  }

  /** Thread `t` is idle and the mutex is free. */
  predicate Alone(s: State, t: Thread) {
    PcOf(s, t) == Idle && s.holder.None?
  }

  /** The first step of a call, or something outside the manager. */
  predicate Starts(step: Step) {
    step.BeginCreate? || step.Load? || step.CallDelete? || step.Visit? || step.CloseElsewhere?
  }

  /** The steps of one call of thread `t`, begun with `first`. */
  predicate OneCall(t: Thread, first: Step, trace: seq<Turn>) {
    && |trace| > 0 && trace[0] == Turn(t, first)
    && forall i :: 1 <= i < |trace| ==> trace[i].thread == t && !Starts(trace[i].step)
  }

  /** The call leads from `s` to a state where the thread is idle again. */
  predicate RunsTo(max: int, s: State, t: Thread, first: Step, trace: seq<Turn>, v: Visible) {
    && OneCall(t, first, trace) && Exec(max, s, trace).Some?
    && See(Exec(max, s, trace).value) == v && Alone(Exec(max, s, trace).value, t)
  }

  /** The call so far. */
  predicate IsAt(max: int, s: State, t: Thread, first: Step, trace: seq<Turn>, u: State) {
    OneCall(t, first, trace) && Exec(max, s, trace) == Some(u)
  }

  lemma {:induction false} Then(max: int, s: State, t: Thread, first: Step, trace: seq<Turn>, u: State, step: Step)
      returns (longer: seq<Turn>)
    requires IsAt(max, s, t, first, trace, u) && Apply(max, u, t, step).Some? && !Starts(step)
    ensures IsAt(max, s, t, first, longer, Apply(max, u, t, step).value)
  {
    longer := trace + [Turn(t, step)];
    assert longer[..|trace|] == trace;
  }

  lemma {:induction false} Start(max: int, s: State, t: Thread, first: Step) returns (trace: seq<Turn>)
    requires Apply(max, s, t, first).Some?
    ensures IsAt(max, s, t, first, trace, Apply(max, s, t, first).value)
  {
    trace := [Turn(t, first)];
    assert trace[..0] == [] && Exec(max, s, []) == Some(s);
  }

  function Stepped(max: int, s: State, t: Thread, step: Step): State {
    var u := Apply(max, s, t, step);
    if u.Some? then u.value else s
  }

  /** Create succeeds below the limit and then adds the session; at the limit it changes nothing. */
  lemma {:induction false} CreateAlone(max: int, s: State, t: Thread, id: SessionId) returns (trace: seq<Turn>)
    requires Alone(s, t) && id !in s.used
    ensures RunsTo(max, s, t, BeginCreate, trace, if s.active < max then Created(See(s), id) else See(s))
  {
    trace := Start(max, s, t, BeginCreate);
    if s.active < max {
      var s1 := Stepped(max, s, t, BeginCreate);
      trace := Then(max, s, t, BeginCreate, trace, s1, Store(id));
      var s2 := Stepped(max, s1, t, Store(id));
      trace := Then(max, s, t, BeginCreate, trace, s2, Count);
      trace := Then(max, s, t, BeginCreate, trace, Stepped(max, s2, t, Count), FinishCreate);
    }
  }

  /** The end of every removal: lock and lower the counter. */
  lemma {:induction false} CountOut(max: int, s: State, t: Thread, first: Step, trace: seq<Turn>, u: State) returns (longer: seq<Turn>)
    requires IsAt(max, s, t, first, trace, u) && PcOf(u, t) == Unlinked && u.holder.None?
    ensures RunsTo(max, s, t, first, longer, See(u).(active := u.active - 1))
  {
    longer := Then(max, s, t, first, trace, u, Lock);
    longer := Then(max, s, t, first, longer, Stepped(max, u, t, Lock), Decrement);
  }

  /** LoadAndDelete to the end. */
  lemma {:induction false} DeleteOn(max: int, s: State, t: Thread, first: Step, trace: seq<Turn>, u: State, id: SessionId)
      returns (longer: seq<Turn>)
    requires IsAt(max, s, t, first, trace, u) && PcOf(u, t) == Deleting(id) && u.holder.None?
    ensures RunsTo(max, s, t, first, longer, Gone(See(u), id))
  {
    longer := Then(max, s, t, first, trace, u, LoadAndDelete);
    if id in u.sessions {
      var u1 := Stepped(max, u, t, LoadAndDelete);
      longer := Then(max, s, t, first, longer, u1, Close);
      longer := CountOut(max, s, t, first, longer, Stepped(max, u1, t, Close));
    }
  }

  /** Delete removes, closes and counts out the session if it is there. */
  lemma {:induction false} DeleteAlone(max: int, s: State, t: Thread, id: SessionId) returns (trace: seq<Turn>)
    requires Alone(s, t)
    ensures RunsTo(max, s, t, CallDelete(id), trace, Gone(See(s), id))
  {
    trace := Start(max, s, t, CallDelete(id));
    trace := DeleteOn(max, s, t, CallDelete(id), trace, Stepped(max, s, t, CallDelete(id)), id);
  }

  /** Get removes a session that is closed and changes nothing otherwise. */
  lemma {:induction false} GetAlone(max: int, s: State, t: Thread, id: SessionId) returns (trace: seq<Turn>)
    requires Alone(s, t)
    ensures RunsTo(max, s, t, Load(id), trace, if id in s.closed then Gone(See(s), id) else See(s))
  {
    trace := Start(max, s, t, Load(id));
    if id in s.sessions {
      var s1 := Stepped(max, s, t, Load(id));
      trace := Then(max, s, t, Load(id), trace, s1, CheckClosed);
      if id in s.closed {
        trace := DeleteOn(max, s, t, Load(id), trace, Stepped(max, s1, t, CheckClosed), id);
      }
    }
  }

  /** cleanup removes, closes and counts out a session that it finds due. */
  lemma {:induction false} SweepAlone(max: int, s: State, t: Thread, id: SessionId) returns (trace: seq<Turn>)
    requires Alone(s, t) && id in s.sessions
    ensures RunsTo(max, s, t, Visit(id), trace, Gone(See(s), id))
  {
    trace := Start(max, s, t, Visit(id));
    var s1 := Stepped(max, s, t, Visit(id));
    trace := Then(max, s, t, Visit(id), trace, s1, Unlink);
    trace := CountOut(max, s, t, Visit(id), trace, Stepped(max, s1, t, Unlink));
  }
}
