/**
 Deadlock and progress of the audit writer's two mutexes (internal/audit/writer.go).  Write and flush
 take `metricMu` last; Stats takes it first.
 */
module WriterLocks {
  import opened Text
  import opened AuditWriter
  import opened AuditRuns

  /** Some call is unfinished and no thread can move. */
  predicate Stuck(s: State) {
    !AllIdle(s) && forall t :: 0 <= t < |s.pcs| ==> !CanGo(s, t)
  }

  /** An overflowing Write holds bufferMu and waits for metricMu, which a Stats holds, waiting for bufferMu. */
  predicate CrossedAt(s: State, w: nat, r: nat) {
    w < |s.pcs| && r < |s.pcs| && s.pcs[w].Dropping? && s.pcs[r].StatsLocked?
  }

  ghost predicate Crossed(s: State) {
    exists w: nat, r: nat :: CrossedAt(s, w, r)
  }

  predicate Waiting(pc: Pc) {
    WantsBuffer(pc) || WantsMetric(pc)
  }

  lemma {:induction false} BlockedOnMetric(s: State)
    requires MetricHeld(s.pcs) && forall t :: 0 <= t < |s.pcs| ==> !CanGo(s, t)
    ensures Crossed(s)
  {
    var r :| 0 <= r < |s.pcs| && HoldsMetric(s.pcs[r]);
    assert !CanGo(s, r);
    assert s.pcs[r].StatsLocked? && BufferHeld(s.pcs);
    var w :| 0 <= w < |s.pcs| && HoldsBuffer(s.pcs[w]);
    assert !CanGo(s, w);
    assert CrossedAt(s, w, r);
  }

  lemma {:induction false} BlockedOnBuffer(s: State)
    requires BufferHeld(s.pcs) && forall t :: 0 <= t < |s.pcs| ==> !CanGo(s, t)
    ensures MetricHeld(s.pcs)
  {
    var w :| 0 <= w < |s.pcs| && HoldsBuffer(s.pcs[w]);
    assert !CanGo(s, w);
  }

  lemma {:induction false} StuckIsCrossed(s: State)
    requires Stuck(s)
    ensures Crossed(s) && forall t :: 0 <= t < |s.pcs| && s.pcs[t] != Idle ==> Waiting(s.pcs[t])
  {
    var t :| 0 <= t < |s.pcs| && s.pcs[t] != Idle;
    assert !CanGo(s, t);
    if BufferHeld(s.pcs) {
      BlockedOnBuffer(s);
    }
    BlockedOnMetric(s);
    forall u | 0 <= u < |s.pcs| && s.pcs[u] != Idle ensures Waiting(s.pcs[u]) {
      assert !CanGo(s, u);
    }
  }

  /** The writer is stuck exactly when a Write and a Stats have crossed and nobody else is outside a wait. */
  lemma {:induction false} StuckIffCrossed(s: State)
    ensures Stuck(s) <==> Crossed(s) && forall t :: 0 <= t < |s.pcs| && s.pcs[t] != Idle ==> Waiting(s.pcs[t])
  {
    if Stuck(s) {
      StuckIsCrossed(s);
    }
    if Crossed(s) {
      var w: nat, r: nat :| CrossedAt(s, w, r);
      assert HoldsBuffer(s.pcs[w]) && HoldsMetric(s.pcs[r]);
      assert BufferHeld(s.pcs) && MetricHeld(s.pcs);
    }
  }

  /** The two calls that crossed never move again, whatever the others do. */
  lemma {:induction false} CrossedForever(max: Size, s: State, w: nat, r: nat, trace: seq<Turn>)
    requires CrossedAt(s, w, r) && Exec(max, s, trace).Some?
    ensures CrossedAt(Exec(max, s, trace).value, w, r)
    ensures var s' := Exec(max, s, trace).value; s'.pcs[w] == s.pcs[w] && s'.pcs[r] == s.pcs[r]
  {
    if trace != [] {
      CrossedForever(max, s, w, r, trace[..|trace| - 1]);
      var s1 := Exec(max, s, trace[..|trace| - 1]).value;
      assert HoldsBuffer(s1.pcs[w]) && HoldsMetric(s1.pcs[r]);
      assert !CanGo(s1, w) && !CanGo(s1, r);
    }
  }

  // ---------------------------------------------------------------- without Stats

  predicate InStats(pc: Pc) {
    pc.WantStats? || pc.StatsLocked? || pc.StatsBoth? || pc.StatsDone?
  }

  predicate NoStats(trace: seq<Turn>) {
    forall i :: 0 <= i < |trace| && trace[i].Begin? ==> !trace[i].call.Stats?
  }

  predicate StatsFree(s: State) {
    forall t :: 0 <= t < |s.pcs| ==> !InStats(s.pcs[t])
  }

  lemma {:induction false} NoStatsRun(max: Size, s: State, trace: seq<Turn>)
    requires StatsFree(s) && NoStats(trace) && Exec(max, s, trace).Some?
    ensures StatsFree(Exec(max, s, trace).value)
  {
    if trace != [] {
      NoStatsRun(max, s, trace[..|trace| - 1]);
    }
  }

  lemma {:induction false} CrossingNeedsStats(s: State)
    ensures Crossed(s) ==> !StatsFree(s)
  {
    if w: nat, r: nat :| CrossedAt(s, w, r) {
      assert InStats(s.pcs[r]);
    }
  }

  /** Any number of Write and flush threads: some thread can always move until all have finished. */
  lemma {:induction false} WritersNeverStuck(max: Size, threads: nat, trace: seq<Turn>)
    requires NoStats(trace) && Exec(max, Init(threads), trace).Some?
    ensures !Stuck(Exec(max, Init(threads), trace).value)
  {
    NoStatsRun(max, Init(threads), trace);
    var s := Exec(max, Init(threads), trace).value;
    StuckIffCrossed(s);
    CrossingNeedsStats(s);
  }

  /** Steps a thread has left at most. */
  function Work(pc: Pc): nat {
    match pc
    case Idle => 0
    case WantWrite(_) => 5
    case Writing(_) => 4
    case Dropping(_) => 3
    case CountingDrop(_) => 2
    case Appending(_) => 1
    case WantFlush => 5
    case Flushing => 4
    case Inserting(_) => 3
    case Inserted(_) => 2
    case CountingInserted(_) => 1
    case Failed(_) => 2
    case CountingFailed(_) => 1
    case WantStats => 4
    case StatsLocked => 3
    case StatsBoth => 2
    case StatsDone => 1
  }

  lemma {:induction false} GoWorks(max: Size, s: State, t: nat, ok: bool)
    requires CanGo(s, t)
    ensures Sum(Work, Go(max, s, t, ok).pcs) < Sum(Work, s.pcs)
  {
    SumUpdate(Work, s.pcs, t, NextPc(max, s.data, s.pcs[t], ok));
  }

  predicate OnlyProceeds(trace: seq<Turn>) {
    forall i :: 0 <= i < |trace| ==> trace[i].Proceed?
  }

  /** Every schedule is finite once calls stop coming: no more steps than the work outstanding. */
  lemma {:induction false} WorkRunsOut(max: Size, s: State, trace: seq<Turn>)
    requires OnlyProceeds(trace) && Exec(max, s, trace).Some?
    ensures |trace| + Sum(Work, Exec(max, s, trace).value.pcs) <= Sum(Work, s.pcs)
  {
    if trace != [] {
      WorkRunsOut(max, s, trace[..|trace| - 1]);
      var last := trace[|trace| - 1];
      GoWorks(max, Exec(max, s, trace[..|trace| - 1]).value, last.thread, last.ok);
    }
  }

  /** A schedule that cannot be continued has finished every Write and flush. */
  lemma {:induction false} WritersFinish(max: Size, threads: nat, trace: seq<Turn>)
    requires NoStats(trace) && Exec(max, Init(threads), trace).Some?
    requires forall t: nat :: !CanGo(Exec(max, Init(threads), trace).value, t)
    ensures AllIdle(Exec(max, Init(threads), trace).value)
  {
    WritersNeverStuck(max, threads, trace);
  }

  // ---------------------------------------------------------------- with Stats

  /** Writes fill the buffer. */
  lemma {:induction false} Fill(max: Size, n: nat, record: Record) returns (trace: seq<Turn>)
    requires n <= max
    ensures Exec(max, Init(2), trace).Some?
    ensures var s := Exec(max, Init(2), trace).value; |s.data.buffer| == n && s.pcs == [Idle, Idle]
  {
    if n == 0 {
      trace := [];
    } else {
      var less := Fill(max, n - 1, record);
      var s := Exec(max, Init(2), less).value;
      var more := WriteAlone(max, s, 0, record);
      ExecJoins(max, Init(2), less, more);
      trace := less + more;
    }
  }

  /** One more turn between two threads. */
  lemma {:induction false} Pair(max: Size, s: State, trace: seq<Turn>, before: State, turn: Turn, a: Pc, b: Pc)
      returns (longer: seq<Turn>)
    requires Exec(max, s, trace) == Some(before) && |before.pcs| == 2
    requires Apply(max, before, turn).Some?
    requires Apply(max, before, turn).value.pcs[0] == a && Apply(max, before, turn).value.pcs[1] == b
    ensures Exec(max, s, longer) == Some(State(Apply(max, before, turn).value.data, [a, b]))
  {
    longer := Extend(max, s, trace, turn);
    assert Apply(max, before, turn).value.pcs == [a, b];
  }

  lemma {:induction false} PairFree(a: Pc, b: Pc)
    ensures !HoldsBuffer(a) && !HoldsBuffer(b) ==> !BufferHeld([a, b])
    ensures !HoldsMetric(a) && !HoldsMetric(b) ==> !MetricHeld([a, b])
  {
  }

  /** From a full buffer, a Write and a Stats that overlap can cross. */
  lemma {:induction false} Cross(max: Size, d: Data, record: Record) returns (trace: seq<Turn>)
    requires |d.buffer| >= max
    ensures Exec(max, State(d, [Idle, Idle]), trace).Some?
    ensures Exec(max, State(d, [Idle, Idle]), trace).value.pcs == [Dropping(record), StatsLocked]
  {
    var s := State(d, [Idle, Idle]);
    trace := Pair(max, s, [], s, Begin(0, Write(record)), WantWrite(record), Idle);
    trace := Pair(max, s, trace, State(d, [WantWrite(record), Idle]), Begin(1, Stats), WantWrite(record), WantStats);
    PairFree(WantWrite(record), WantStats);
    trace := Pair(max, s, trace, State(d, [WantWrite(record), WantStats]), Proceed(0, true), Writing(record), WantStats);
    PairFree(Writing(record), WantStats);
    trace := Pair(max, s, trace, State(d, [Writing(record), WantStats]), Proceed(1, true), Writing(record), StatsLocked);
    trace := Pair(max, s, trace, State(d, [Writing(record), StatsLocked]), Proceed(0, true), Dropping(record), StatsLocked);
  }

  /** For every buffer size a run of one writer and one reader of the statistics gets stuck. */
  lemma {:induction false} StatsCanDeadlock(max: Size, record: Record) returns (trace: seq<Turn>)
    ensures Exec(max, Init(2), trace).Some? && Stuck(Exec(max, Init(2), trace).value)
  {
    var first := Fill(max, max, record);
    var d := Exec(max, Init(2), first).value.data;
    var second := Cross(max, d, record);
    ExecJoins(max, Init(2), first, second);
    trace := first + second;
    var s := Exec(max, Init(2), trace).value;
    assert CrossedAt(s, 0, 1);
    StuckIffCrossed(s);
  }
}
