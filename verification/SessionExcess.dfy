/**
 By how much the session map can exceed its limit (internal/session/manager.go): from every reachable
 state a run leads to as many sessions over the limit as removals have found their session gone.
 */
module SessionExcess {
  import opened Text
  import opened SessionManager

  // ---------------------------------------------------------------- traces

  lemma {:induction false} ExecJoins(max: int, s: State, first: seq<Turn>, second: seq<Turn>)
    requires Exec(max, s, first).Some? && Exec(max, Exec(max, s, first).value, second).Some?
    ensures Exec(max, s, first + second) == Exec(max, Exec(max, s, first).value, second)
  {
    if second == [] {
      assert first + second == first;
    } else {
      assert (first + second)[..|first + second| - 1] == first + second[..|second| - 1];
      ExecJoins(max, s, first, second[..|second| - 1]);
    }
  }

  lemma {:induction false} Extend(max: int, s: State, trace: seq<Turn>, t: Thread, step: Step) returns (longer: seq<Turn>)
    requires Exec(max, s, trace).Some?
    ensures Exec(max, s, longer) == Apply(max, Exec(max, s, trace).value, t, step)
  {
    longer := trace + [Turn(t, step)];
    assert longer[..|trace|] == trace;
  }

  /** `u` differs from `s` only by these fields and by thread `t` being idle. */
  ghost predicate IdleAfter(s: State, u: State, t: Thread) {
    && u.holder.None? && u.phantom == s.phantom
    && PcOf(u, t) == Idle && (forall i :: i != t ==> PcOf(u, i) == PcOf(s, i))
    && u.owing == s.owing - {t}
  }

  // ---------------------------------------------------------------- runs of one thread

  /** A thread that holds the mutex gives it up. */
  lemma {:induction false} FinishDecrement(max: int, s: State, t: Thread) returns (trace: seq<Turn>)
    requires PcOf(s, t) == Decrementing
    ensures Exec(max, s, trace).Some? && IdleAfter(s, Exec(max, s, trace).value, t)
    ensures var u := Exec(max, s, trace).value; u.sessions == s.sessions && u.used == s.used && u.active == s.active - 1
  {
    assert Exec(max, s, []) == Some(s);
    trace := Extend(max, s, [], t, Decrement);
  }

  lemma {:induction false} FinishCounted(max: int, s: State, t: Thread) returns (trace: seq<Turn>)
    requires PcOf(s, t) == CreateCounted
    ensures Exec(max, s, trace).Some? && IdleAfter(s, Exec(max, s, trace).value, t)
    ensures var u := Exec(max, s, trace).value; u.sessions == s.sessions && u.used == s.used && u.active == s.active
  {
    assert Exec(max, s, []) == Some(s);
    trace := Extend(max, s, [], t, FinishCreate);
  }

  lemma {:induction false} FinishStored(max: int, s: State, t: Thread) returns (trace: seq<Turn>)
    requires PcOf(s, t) == CreateStored
    ensures Exec(max, s, trace).Some? && IdleAfter(s, Exec(max, s, trace).value, t)
    ensures var u := Exec(max, s, trace).value; u.sessions == s.sessions && u.used == s.used && u.active == s.active + 1
  {
    assert Exec(max, s, []) == Some(s);
    trace := Extend(max, s, [], t, Count);
    var rest := FinishCounted(max, Exec(max, s, trace).value, t);
    ExecJoins(max, s, trace, rest);
    trace := trace + rest;
  }

  lemma {:induction false} FinishChecked(max: int, s: State, t: Thread, id: SessionId) returns (trace: seq<Turn>)
    requires PcOf(s, t) == CreateChecked && id !in s.used
    ensures Exec(max, s, trace).Some? && IdleAfter(s, Exec(max, s, trace).value, t)
    ensures var u := Exec(max, s, trace).value;
      u.sessions == s.sessions + {id} && u.used == s.used + {id} && u.active == s.active + 1
  {
    assert Exec(max, s, []) == Some(s);
    trace := Extend(max, s, [], t, Store(id));
    var rest := FinishStored(max, Exec(max, s, trace).value, t);
    ExecJoins(max, s, trace, rest);
    trace := trace + rest;
  }

  /** A whole Create. */
  lemma {:induction false} CreateRun(max: int, s: State, t: Thread, id: SessionId) returns (trace: seq<Turn>)
    requires PcOf(s, t) == Idle && s.holder.None? && s.active < max && id !in s.used
    ensures Exec(max, s, trace).Some? && IdleAfter(s, Exec(max, s, trace).value, t)
    ensures var u := Exec(max, s, trace).value;
      u.sessions == s.sessions + {id} && u.used == s.used + {id} && u.active == s.active + 1
  {
    assert Exec(max, s, []) == Some(s);
    trace := Extend(max, s, [], t, BeginCreate);
    var rest := FinishChecked(max, Exec(max, s, trace).value, t, id);
    ExecJoins(max, s, trace, rest);
    trace := trace + rest;
  }

  /** Lock and decrement. */
  lemma {:induction false} DecrementRun(max: int, s: State, t: Thread) returns (trace: seq<Turn>)
    requires PcOf(s, t) == Unlinked && s.holder.None?
    ensures Exec(max, s, trace).Some? && IdleAfter(s, Exec(max, s, trace).value, t)
    ensures var u := Exec(max, s, trace).value; u.sessions == s.sessions && u.used == s.used && u.active == s.active - 1
  {
    assert Exec(max, s, []) == Some(s);
    trace := Extend(max, s, [], t, Lock);
    var rest := FinishDecrement(max, Exec(max, s, trace).value, t);
    ExecJoins(max, s, trace, rest);
    trace := trace + rest;
  }

  /** Close, lock and decrement. */
  lemma {:induction false} CloseRun(max: int, s: State, t: Thread) returns (trace: seq<Turn>)
    requires PcOf(s, t).Removed? && s.holder.None?
    ensures Exec(max, s, trace).Some? && IdleAfter(s, Exec(max, s, trace).value, t)
    ensures var u := Exec(max, s, trace).value; u.sessions == s.sessions && u.used == s.used && u.active == s.active - 1
  {
    assert Exec(max, s, []) == Some(s);
    trace := Extend(max, s, [], t, Close);
    var rest := DecrementRun(max, Exec(max, s, trace).value, t);
    ExecJoins(max, s, trace, rest);
    trace := trace + rest;
  }

  // ---------------------------------------------------------------- settling a state

  lemma {:induction false} FreshThread(taken: set<Thread>) returns (t: Thread)
    ensures forall x :: x in taken ==> x < t
  {
    if taken == {} {
      t := 0;
    } else {
      var x :| x in taken;
      var u := FreshThread(taken - {x});
      t := u + x + 1;
      assert forall y :: y in taken ==> y == x || y in taken - {x};
    }
  }

  lemma {:induction false} FreshId(used: set<SessionId>) returns (id: SessionId)
    ensures forall x :: x in used ==> |x| < |id|
  {
    if used == {} {
      id := "";
    } else {
      var x :| x in used;
      var shorter := FreshId(used - {x});
      id := shorter + x + "a";
      assert forall y :: y in used ==> y == x || y in used - {x};
    }
  }

  lemma {:induction false} RunKeeps(max: int, s: State, trace: seq<Turn>)
    requires Inv(max, s) && Exec(max, s, trace).Some?
    ensures Inv(max, Exec(max, s, trace).value)
  {
    if trace != [] {
      var last := trace[|trace| - 1];
      RunKeeps(max, s, trace[..|trace| - 1]);
      StepKeepsInv(max, Exec(max, s, trace[..|trace| - 1]).value, last.thread, last.step);
    }
  }

  /** Whoever holds the mutex can finish. */
  lemma {:induction false} ReleaseMutex(max: int, s: State) returns (trace: seq<Turn>)
    requires Inv(max, s)
    ensures Exec(max, s, trace).Some?
    ensures var u := Exec(max, s, trace).value; Inv(max, u) && u.holder.None? && u.phantom == s.phantom
  {
    trace := [];
    assert Exec(max, s, trace) == Some(s);
    if s.holder.Some? {
      var t := s.holder.value;
      assert Holds(PcOf(s, t));
      match PcOf(s, t)
      case CreateChecked =>
        var id := FreshId(s.used);
        trace := FinishChecked(max, s, t, id);
      case CreateStored => trace := FinishStored(max, s, t);
      case CreateCounted => trace := FinishCounted(max, s, t);
      case Decrementing => trace := FinishDecrement(max, s, t);
    }
    RunKeeps(max, s, trace);
  }

  /** Every outstanding decrement can be made. */
  lemma {:induction false} PayDebts(max: int, s: State) returns (trace: seq<Turn>)
    requires Inv(max, s) && s.holder.None?
    ensures Exec(max, s, trace).Some?
    ensures var u := Exec(max, s, trace).value; Inv(max, u) && u.holder.None? && u.owing == {} && u.phantom == s.phantom
    decreases |s.owing|
  {
    trace := [];
    assert Exec(max, s, trace) == Some(s);
    if s.owing != {} {
      var t :| t in s.owing;
      assert Owes(PcOf(s, t)) && !PcOf(s, t).Decrementing?;
      if PcOf(s, t).Removed? {
        trace := CloseRun(max, s, t);
      } else {
        trace := DecrementRun(max, s, t);
      }
      var u := Exec(max, s, trace).value;
      RunKeeps(max, s, trace);
      var rest := PayDebts(max, u);
      ExecJoins(max, s, trace, rest);
      trace := trace + rest;
    }
  }

  /** Creates fill the map up to the limit that the counter knows. */
  lemma {:induction false} FillUp(max: nat, s: State) returns (trace: seq<Turn>)
    requires Inv(max, s) && s.holder.None? && s.owing == {}
    ensures Exec(max, s, trace).Some?
    ensures var u := Exec(max, s, trace).value; u.phantom == s.phantom && |u.sessions| == max + s.phantom
    decreases max - s.active
  {
    trace := [];
    assert Exec(max, s, trace) == Some(s);
    if s.active < max {
      var t := FreshThread(s.pc.Keys);
      var id := FreshId(s.used);
      assert t !in s.pc && id !in s.used;
      trace := CreateRun(max, s, t, id);
      RunKeeps(max, s, trace);
      var u := Exec(max, s, trace).value;
      assert u.owing == {};
      var rest := FillUp(max, u);
      ExecJoins(max, s, trace, rest);
      trace := trace + rest;
    }
  }

  // ---------------------------------------------------------------- the bound is attained

  /** From every reachable state a continuation in which every removal finds its session leads to the
      limit plus the removals that found none so far. */
  lemma {:induction false} ExcessIsReached(max: nat, trace: seq<Turn>) returns (more: seq<Turn>)
    requires Exec(max, Init(), trace).Some?
    ensures Exec(max, Init(), trace + more).Some?
    ensures var s, u := Exec(max, Init(), trace).value, Exec(max, Init(), trace + more).value;
      u.phantom == s.phantom && |u.sessions| == max + s.phantom
  {
    RunKeepsInv(max, trace);
    var s := Exec(max, Init(), trace).value;
    var a := ReleaseMutex(max, s);
    var s1 := Exec(max, s, a).value;
    var b := PayDebts(max, s1);
    var s2 := Exec(max, s1, b).value;
    var c := FillUp(max, s2);
    ExecJoins(max, s, a, b);
    ExecJoins(max, s, a + b, c);
    more := a + b + c;
    ExecJoins(max, Init(), trace, more);
  }

  /** The session limit survives a continuation `more` that adds no missed removal. */
  predicate LimitKept(max: nat, trace: seq<Turn>, more: seq<Turn>)
    requires Exec(max, Init(), trace).Some?
  {
    var u := Exec(max, Init(), trace + more);
    u.Some? && u.value.phantom == Exec(max, Init(), trace).value.phantom ==> |u.value.sessions| <= max
  }

  /** After any run the limit is safe, as long as no further removal misses, exactly when none has
      missed so far. */
  lemma {:induction false} LimitSafeIff(max: nat, trace: seq<Turn>)
    requires Exec(max, Init(), trace).Some?
    ensures Exec(max, Init(), trace).value.phantom == 0 <==> forall more :: LimitKept(max, trace, more)
  {
    var phantom := Exec(max, Init(), trace).value.phantom;
    if phantom == 0 {
      forall more ensures LimitKept(max, trace, more) {
        if Exec(max, Init(), trace + more).Some? {
          SessionLimit(max, trace + more);
        }
      }
    } else {
      var more := ExcessIsReached(max, trace);
      assert !LimitKept(max, trace, more);
    }
  }

  // ---------------------------------------------------------------- every excess arises

  /** All quiet: nothing in the map, the counter `n` below zero. */
  predicate Quiet(s: State, n: nat) {
    && s.sessions == {} && s.holder.None? && s.owing == {} && s.phantom == n && s.active + n == 0
    && PcOf(s, 0) == PcOf(s, 1) == PcOf(s, 2) == Idle
  }

  /** Thread 2's cleanup finds the session due. */
  lemma {:induction false} VisitRun(max: int, s: State, id: SessionId) returns (trace: seq<Turn>)
    requires PcOf(s, 2) == Idle && id in s.sessions && s.holder.None? && 2 !in s.owing
    ensures Exec(max, s, trace).Some?
    ensures var u := Exec(max, s, trace).value;
      && u.sessions == s.sessions && u.active == s.active && u.holder.None? && u.owing == s.owing && u.phantom == s.phantom
      && PcOf(u, 2) == Visiting(id) && forall i :: i != 2 ==> PcOf(u, i) == PcOf(s, i)
  {
    assert Exec(max, s, []) == Some(s);
    trace := Extend(max, s, [], 2, Visit(id));
  }

  /** Thread 1 deletes it and counts it out. */
  lemma {:induction false} DeleteRun(max: int, s: State, id: SessionId) returns (trace: seq<Turn>)
    requires PcOf(s, 1) == Idle && id in s.sessions && s.holder.None? && s.owing == {}
    ensures Exec(max, s, trace).Some?
    ensures var u := Exec(max, s, trace).value;
      u.sessions == s.sessions - {id} && u.active == s.active - 1 && IdleAfter(s, u, 1)
  {
    assert Exec(max, s, []) == Some(s);
    trace := Extend(max, s, [], 1, CallDelete(id));
    trace := Extend(max, s, trace, 1, LoadAndDelete);
    var u := Exec(max, s, trace).value;
    assert PcOf(u, 1) == Removed(id) && u.owing == {1};
    var rest := CloseRun(max, u, 1);
    ExecJoins(max, s, trace, rest);
    trace := trace + rest;
  }

  /** Thread 2 removes what is gone and counts it out again. */
  lemma {:induction false} MissRun(max: int, s: State, id: SessionId) returns (trace: seq<Turn>)
    requires PcOf(s, 2) == Visiting(id) && id !in s.sessions && s.holder.None? && s.owing == {}
    ensures Exec(max, s, trace).Some?
    ensures var u := Exec(max, s, trace).value;
      && u.sessions == s.sessions && u.active == s.active - 1 && u.phantom == s.phantom + 1
      && u.holder.None? && u.owing == {} && PcOf(u, 2) == Idle && forall i :: i != 2 ==> PcOf(u, i) == PcOf(s, i)
  {
    assert Exec(max, s, []) == Some(s);
    trace := Extend(max, s, [], 2, Unlink);
    var u := Exec(max, s, trace).value;
    assert u.sessions == s.sessions && u.owing == {2};
    var rest := DecrementRun(max, u, 2);
    ExecJoins(max, s, trace, rest);
    trace := trace + rest;
  }

  /** One race: a session is created, found due by cleanup, deleted, and removed again. */
  lemma {:induction false} RaceRun(max: nat, s: State, n: nat) returns (trace: seq<Turn>)
    requires max >= 1 && Quiet(s, n)
    ensures Exec(max, s, trace).Some? && Quiet(Exec(max, s, trace).value, n + 1)
  {
    var id := FreshId(s.used);
    assert id !in s.used;
    var a := CreateRun(max, s, 0, id);
    var s1 := Exec(max, s, a).value;
    var b := VisitRun(max, s1, id);
    var s2 := Exec(max, s1, b).value;
    var c := DeleteRun(max, s2, id);
    var s3 := Exec(max, s2, c).value;
    assert PcOf(s3, 2) == Visiting(id) && s3.sessions == {};
    var d := MissRun(max, s3, id);
    ExecJoins(max, s, a, b);
    ExecJoins(max, s, a + b, c);
    ExecJoins(max, s, a + b + c, d);
    trace := a + b + c + d;
  }

  lemma {:induction false} Races(max: nat, n: nat) returns (trace: seq<Turn>)
    requires max >= 1
    ensures Exec(max, Init(), trace).Some? && Quiet(Exec(max, Init(), trace).value, n)
  {
    trace := [];
    assert Exec(max, Init(), trace) == Some(Init());
    if n > 0 {
      trace := Races(max, n - 1);
      var rest := RaceRun(max, Exec(max, Init(), trace).value, n - 1);
      ExecJoins(max, Init(), trace, rest);
      trace := trace + rest;
    }
  }

  /** For every limit and every number, Deletes inside cleanup lead to that many sessions over the limit. */
  lemma {:induction false} CleanupRaceExceedsLimit(max: nat, n: nat) returns (trace: seq<Turn>)
    requires max >= 1
    ensures Exec(max, Init(), trace).Some? && |Exec(max, Init(), trace).value.sessions| == max + n
  {
    trace := Races(max, n);
    var more := ExcessIsReached(max, trace);
    trace := trace + more;
  }
}
