/**
 The audit writer (internal/audit/writer.go): a bounded buffer that drops its oldest record when full,
 emptied by flushes that insert outside the lock.  A step is what a thread does between two points
 where another thread can be seen; each mutex is held by the thread whose position says so.
 */
module AuditWriter {
  import opened Text

  datatype Record = Record(requestId: string, agentId: string, method_: string, allowed: bool)

  /** A positive buffer size. */
  type Size = n: nat | n >= 1 witness 1

  /** The writer's fields, the store's rows, and two histories: every record appended, and every
      record given up by an overflow or a failed insert. */
  datatype Data = Data(
    buffer: seq<Record>,
    stored: seq<Record>,
    accepted: seq<Record>,
    lost: seq<Record>,
    written: nat,
    dropped: nat,
    flushes: nat)

  datatype Call = Write(record: Record) | Flush | Stats

  /** Where a thread is. */
  datatype Pc =
    | Idle
    | WantWrite(record: Record)      // waits for bufferMu
    | Writing(record: Record)        // holds bufferMu
    | Dropping(record: Record)       // holds bufferMu, has dropped the oldest, waits for metricMu
    | CountingDrop(record: Record)   // holds both
    | Appending(record: Record)      // holds bufferMu
    | WantFlush                      // waits for bufferMu
    | Flushing                       // holds bufferMu
    | Inserting(batch: seq<Record>)  // holds neither
    | Inserted(count: nat)           // waits for metricMu
    | CountingInserted(count: nat)   // holds metricMu
    | Failed(count: nat)             // waits for metricMu
    | CountingFailed(count: nat)     // holds metricMu
    | WantStats                      // waits for metricMu
    | StatsLocked                    // holds metricMu, waits for bufferMu
    | StatsBoth                      // holds both
    | StatsDone                      // holds metricMu

  predicate HoldsBuffer(pc: Pc) {
    pc.Writing? || pc.Dropping? || pc.CountingDrop? || pc.Appending? || pc.Flushing? || pc.StatsBoth?
  }

  predicate HoldsMetric(pc: Pc) {
    pc.CountingDrop? || pc.CountingInserted? || pc.CountingFailed? || pc.StatsLocked? || pc.StatsBoth? || pc.StatsDone?
  }

  predicate WantsBuffer(pc: Pc) {
    pc.WantWrite? || pc.WantFlush? || pc.StatsLocked?
  }

  predicate WantsMetric(pc: Pc) {
    pc.Dropping? || pc.Inserted? || pc.Failed? || pc.WantStats?
  }

  /** The number of buffered records NewWriter settles on. */
  function BufferMax(size: int): Size {
    if size <= 0 then 100 else size
  }

  /** A flush's swap: an empty buffer ends it. */
  function AfterSwap(d: Data): Pc {
    if d.buffer == [] then Idle else Inserting(d.buffer)
  }

  function Enter(call: Call): Pc {
    match call
    case Write(record) => WantWrite(record)
    case Flush => WantFlush
    case Stats => WantStats
  }

  /** A thread's next position; `ok` is the outcome of an insert. */
  function NextPc(max: Size, d: Data, pc: Pc, ok: bool): Pc {
    match pc
    case Idle => Idle
    case WantWrite(record) => Writing(record)
    case Writing(record) => if |d.buffer| >= max then Dropping(record) else Idle
    case Dropping(record) => CountingDrop(record)
    case CountingDrop(record) => Appending(record)
    case Appending(_) => Idle
    case WantFlush => Flushing
    case Flushing => AfterSwap(d)
    case Inserting(batch) => if ok then Inserted(|batch|) else Failed(|batch|)
    case Inserted(count) => CountingInserted(count)
    case CountingInserted(_) => Idle
    case Failed(count) => CountingFailed(count)
    case CountingFailed(_) => Idle
    case WantStats => StatsLocked
    case StatsLocked => StatsBoth
    case StatsBoth => StatsDone
    case StatsDone => Idle
  }

  /** The shared data after that step. */
  function NextData(max: Size, d: Data, pc: Pc, ok: bool): Data {
    match pc
    case Writing(record) =>
      if |d.buffer| >= max then d.(buffer := d.buffer[1..], lost := d.lost + [d.buffer[0]])
      else d.(buffer := d.buffer + [record], accepted := d.accepted + [record])
    case CountingDrop(_) => d.(dropped := d.dropped + 1)
    case Appending(record) => d.(buffer := d.buffer + [record], accepted := d.accepted + [record])
    case Flushing => d.(buffer := [])
    case Inserting(batch) => if ok then d.(stored := d.stored + batch) else d.(lost := d.lost + batch)
    case CountingInserted(count) => d.(written := d.written + count, flushes := d.flushes + 1)
    case CountingFailed(count) => d.(dropped := d.dropped + count)
    case _ => d
  }

  // ---------------------------------------------------------------- runs

  /** One position per thread, for any number of threads. */
  datatype State = State(data: Data, pcs: seq<Pc>)

  const EMPTY := Data([], [], [], [], 0, 0, 0)

  function Init(threads: nat): State {
    State(EMPTY, seq(threads, i => Idle))
  }

  predicate BufferHeld(pcs: seq<Pc>) {
    exists t :: 0 <= t < |pcs| && HoldsBuffer(pcs[t])
  }

  predicate MetricHeld(pcs: seq<Pc>) {
    exists t :: 0 <= t < |pcs| && HoldsMetric(pcs[t])
  }

  predicate CanGo(s: State, t: nat) {
    && t < |s.pcs| && s.pcs[t] != Idle
    && (WantsBuffer(s.pcs[t]) ==> !BufferHeld(s.pcs))
    && (WantsMetric(s.pcs[t]) ==> !MetricHeld(s.pcs))
  }

  function Go(max: Size, s: State, t: nat, ok: bool): State
    requires t < |s.pcs|
  {
    State(NextData(max, s.data, s.pcs[t], ok), s.pcs[t := NextPc(max, s.data, s.pcs[t], ok)])
  }

  datatype Turn = Begin(thread: nat, call: Call) | Proceed(thread: nat, ok: bool)

  function Apply(max: Size, s: State, turn: Turn): Option<State> {
    match turn
    case Begin(t, call) =>
      if t < |s.pcs| && s.pcs[t] == Idle then Some(s.(pcs := s.pcs[t := Enter(call)])) else None
    case Proceed(t, ok) =>
      if CanGo(s, t) then Some(Go(max, s, t, ok)) else None
  }

  function Exec(max: Size, s: State, trace: seq<Turn>): Option<State> {
    if trace == [] then Some(s)
    else
      var before := Exec(max, s, trace[..|trace| - 1]);
      if before.None? then None else Apply(max, before.value, trace[|trace| - 1])
  }

  // ---------------------------------------------------------------- sums over threads

  function Sum(weight: Pc -> nat, pcs: seq<Pc>): nat {
    if pcs == [] then 0 else Sum(weight, pcs[..|pcs| - 1]) + weight(pcs[|pcs| - 1])
  }

  lemma {:induction false} SumUpdate(weight: Pc -> nat, pcs: seq<Pc>, t: nat, pc: Pc)
    requires t < |pcs|
    ensures Sum(weight, pcs[t := pc]) + weight(pcs[t]) == Sum(weight, pcs) + weight(pc)
  {
    var front := pcs[..|pcs| - 1];
    if t == |pcs| - 1 {
      assert pcs[t := pc][..|pcs| - 1] == front;
    } else {
      assert pcs[t := pc][..|pcs| - 1] == front[t := pc];
      SumUpdate(weight, front, t, pc);
    }
  }

  lemma {:induction false} SumZero(weight: Pc -> nat, pcs: seq<Pc>)
    requires forall t :: 0 <= t < |pcs| ==> weight(pcs[t]) == 0
    ensures Sum(weight, pcs) == 0
  {
    if pcs != [] {
      SumZero(weight, pcs[..|pcs| - 1]);
    }
  }

  /** Copies of `r` swapped out of the buffer and not yet inserted. */
  function InFlight(r: Record): Pc -> nat {
    (pc: Pc) => if pc.Inserting? then multiset(pc.batch)[r] else 0
  }

  /** Records stored but not yet in `written`. */
  function OwedWritten(pc: Pc): nat {
    if pc.Inserted? || pc.CountingInserted? then pc.count else 0
  }

  /** Records lost but not yet in `dropped`. */
  function OwedDropped(pc: Pc): nat {
    if pc.Failed? || pc.CountingFailed? then pc.count
    else if pc.Dropping? || pc.CountingDrop? then 1
    else 0
  }

  // ---------------------------------------------------------------- invariants

  predicate Exclusive(pcs: seq<Pc>) {
    && (forall a, b | 0 <= a < |pcs| && 0 <= b < |pcs| :: HoldsBuffer(pcs[a]) && HoldsBuffer(pcs[b]) ==> a == b)
    && (forall a, b | 0 <= a < |pcs| && 0 <= b < |pcs| :: HoldsMetric(pcs[a]) && HoldsMetric(pcs[b]) ==> a == b)
  }

  /** A Write that has made room. */
  predicate MadeRoom(pc: Pc) {
    pc.Dropping? || pc.CountingDrop? || pc.Appending?
  }

  predicate Suffix(a: seq<Record>, b: seq<Record>) {
    |a| <= |b| && b[|b| - |a|..] == a
  }

  predicate Bounded(max: Size, s: State) {
    && |s.data.buffer| <= max
    && (forall t :: 0 <= t < |s.pcs| && MadeRoom(s.pcs[t]) ==> |s.data.buffer| < max)
    && Suffix(s.data.buffer, s.data.accepted)
  }

  /** Every record accepted is stored, lost, in flight or buffered, as often as it was accepted. */
  ghost predicate Conserved(s: State) {
    forall r: Record :: multiset(s.data.accepted)[r] ==
      multiset(s.data.stored)[r] + multiset(s.data.lost)[r] + multiset(s.data.buffer)[r] + Sum(InFlight(r), s.pcs)
  }

  predicate Counted(s: State) {
    && s.data.written + Sum(OwedWritten, s.pcs) == |s.data.stored|
    && s.data.dropped + Sum(OwedDropped, s.pcs) == |s.data.lost|
  }

  ghost predicate Inv(max: Size, s: State) {
    Exclusive(s.pcs) && Bounded(max, s) && Conserved(s) && Counted(s)
  }

  // ---------------------------------------------------------------- one step

  lemma {:induction false} GoKeepsExclusive(max: Size, s: State, t: nat, ok: bool)
    requires Exclusive(s.pcs) && CanGo(s, t)
    ensures Exclusive(Go(max, s, t, ok).pcs)
  {
    var pc, next := s.pcs[t], NextPc(max, s.data, s.pcs[t], ok);
    assert HoldsBuffer(next) ==> HoldsBuffer(pc) || WantsBuffer(pc);
    assert HoldsMetric(next) ==> HoldsMetric(pc) || WantsMetric(pc);
  }

  lemma {:induction false} SuffixAppends(a: seq<Record>, b: seq<Record>, r: Record)
    requires Suffix(a, b)
    ensures Suffix(a + [r], b + [r])
  {
    assert (b + [r])[|b| - |a|..] == b[|b| - |a|..] + [r];
  }

  lemma {:induction false} SuffixDrops(a: seq<Record>, b: seq<Record>)
    requires Suffix(a, b) && a != []
    ensures Suffix(a[1..], b)
  {
    assert b[|b| - |a| + 1..] == b[|b| - |a|..][1..];
  }

  /** Only the holder of bufferMu changes the buffer. */
  lemma {:induction false} GoKeepsBounded(max: Size, s: State, t: nat, ok: bool)
    requires Exclusive(s.pcs) && Bounded(max, s) && CanGo(s, t)
    ensures Bounded(max, Go(max, s, t, ok))
  {
    var d, pc := s.data, s.pcs[t];
    if pc.Writing? && |d.buffer| >= max {
      SuffixDrops(d.buffer, d.accepted);
    } else if pc.Writing? || pc.Appending? {
      SuffixAppends(d.buffer, d.accepted, pc.record);
    }
    assert forall u :: 0 <= u < |s.pcs| && MadeRoom(s.pcs[u]) ==> HoldsBuffer(s.pcs[u]);
    assert HoldsBuffer(pc) || NextData(max, d, pc, ok).buffer == d.buffer;
  }

  function Stock(d: Data, r: Record): nat {
    multiset(d.stored)[r] + multiset(d.lost)[r] + multiset(d.buffer)[r]
  }

  /** A step accounts for record `r`: what is new among the accepted is new in stock or in flight. */
  predicate Moves(max: Size, d: Data, pc: Pc, ok: bool, r: Record) {
    var d', pc' := NextData(max, d, pc, ok), NextPc(max, d, pc, ok);
    multiset(d'.accepted)[r] + Stock(d, r) + InFlight(r)(pc) == multiset(d.accepted)[r] + Stock(d', r) + InFlight(r)(pc')
  }

  lemma {:induction false} WritingMoves(max: Size, d: Data, record: Record, ok: bool, r: Record)
    ensures Moves(max, d, Writing(record), ok, r)
  {
    if |d.buffer| >= max {
      assert d.buffer == [d.buffer[0]] + d.buffer[1..];
      assert NextData(max, d, Writing(record), ok).accepted == d.accepted;
    }
  }

  lemma {:induction false} InsertingMoves(max: Size, d: Data, batch: seq<Record>, ok: bool, r: Record)
    ensures Moves(max, d, Inserting(batch), ok, r)
  {
  }

  lemma {:induction false} FlushingMoves(max: Size, d: Data, ok: bool, r: Record)
    ensures Moves(max, d, Flushing, ok, r)
  {
  }

  lemma {:induction false} AppendingMoves(max: Size, d: Data, record: Record, ok: bool, r: Record)
    ensures Moves(max, d, Appending(record), ok, r)
  {
  }

  /** A step that moves no record. */
  predicate Still(pc: Pc) {
    !pc.Writing? && !pc.Appending? && !pc.Flushing? && !pc.Inserting?
  }

  lemma {:induction false} StillMoves(max: Size, d: Data, pc: Pc, ok: bool, r: Record)
    requires Still(pc)
    ensures Moves(max, d, pc, ok, r)
  {
    var d', pc' := NextData(max, d, pc, ok), NextPc(max, d, pc, ok);
    assert d'.accepted == d.accepted && d'.stored == d.stored && d'.lost == d.lost && d'.buffer == d.buffer;
    assert !pc'.Inserting?;
  }

  /** What one step moves, record by record. */
  lemma {:induction false} StepMoves(max: Size, d: Data, pc: Pc, ok: bool, r: Record)
    ensures Moves(max, d, pc, ok, r)
  {
    if Still(pc) {
      StillMoves(max, d, pc, ok, r);
    } else {
      match pc
      case Writing(record) => WritingMoves(max, d, record, ok, r);
      case Appending(record) => AppendingMoves(max, d, record, ok, r);
      case Inserting(batch) => InsertingMoves(max, d, batch, ok, r);
      case Flushing => FlushingMoves(max, d, ok, r);
    }
  }

  lemma {:induction false} GoKeepsConserved(max: Size, s: State, t: nat, ok: bool)
    requires Conserved(s) && CanGo(s, t)
    ensures Conserved(Go(max, s, t, ok))
  {
    var s' := Go(max, s, t, ok);
    forall r: Record ensures multiset(s'.data.accepted)[r] == Stock(s'.data, r) + Sum(InFlight(r), s'.pcs) {
      StepMoves(max, s.data, s.pcs[t], ok, r);
      SumUpdate(InFlight(r), s.pcs, t, s'.pcs[t]);
    }
  }

  lemma {:induction false} GoKeepsCounted(max: Size, s: State, t: nat, ok: bool)
    requires Counted(s) && CanGo(s, t)
    ensures Counted(Go(max, s, t, ok))
  {
    SumUpdate(OwedWritten, s.pcs, t, Go(max, s, t, ok).pcs[t]);
    SumUpdate(OwedDropped, s.pcs, t, Go(max, s, t, ok).pcs[t]);
  }

  lemma {:induction false} BeginKeepsInv(max: Size, s: State, t: nat, call: Call)
    requires Inv(max, s) && t < |s.pcs| && s.pcs[t] == Idle
    ensures Inv(max, s.(pcs := s.pcs[t := Enter(call)]))
  {
    var s' := s.(pcs := s.pcs[t := Enter(call)]);
    SumUpdate(OwedWritten, s.pcs, t, Enter(call));
    SumUpdate(OwedDropped, s.pcs, t, Enter(call));
    BeginKeepsConserved(s, t, call);
    assert Exclusive(s'.pcs) && Bounded(max, s');
  }

  lemma {:induction false} BeginKeepsConserved(s: State, t: nat, call: Call)
    requires Conserved(s) && t < |s.pcs| && s.pcs[t] == Idle
    ensures Conserved(s.(pcs := s.pcs[t := Enter(call)]))
  {
    forall r: Record ensures multiset(s.data.accepted)[r] == Stock(s.data, r) + Sum(InFlight(r), s.pcs[t := Enter(call)]) {
      SumUpdate(InFlight(r), s.pcs, t, Enter(call));
    }
  }

  lemma {:induction false} TurnKeepsInv(max: Size, s: State, turn: Turn)
    requires Inv(max, s) && Apply(max, s, turn).Some?
    ensures Inv(max, Apply(max, s, turn).value)
  {
    match turn
    case Begin(t, call) => BeginKeepsInv(max, s, t, call);
    case Proceed(t, ok) =>
      GoKeepsExclusive(max, s, t, ok);
      GoKeepsBounded(max, s, t, ok);
      GoKeepsConserved(max, s, t, ok);
      GoKeepsCounted(max, s, t, ok);
  }

  lemma {:induction false} InitInv(max: Size, threads: nat)
    ensures Inv(max, Init(threads))
  {
    var pcs := Init(threads).pcs;
    SumZero(OwedWritten, pcs);
    SumZero(OwedDropped, pcs);
    forall r: Record ensures Sum(InFlight(r), pcs) == 0 {
      SumZero(InFlight(r), pcs);
    }
  }

  /** Conservation, the buffer's bound and its being the latest stretch of what was accepted, and the
      counters' debts, at every point of every run of any number of writers, flushers and readers. */
  lemma {:induction false} RunKeepsInv(max: Size, threads: nat, trace: seq<Turn>)
    requires Exec(max, Init(threads), trace).Some?
    ensures Inv(max, Exec(max, Init(threads), trace).value)
  {
    if trace == [] {
      InitInv(max, threads);
    } else {
      RunKeepsInv(max, threads, trace[..|trace| - 1]);
      TurnKeepsInv(max, Exec(max, Init(threads), trace[..|trace| - 1]).value, trace[|trace| - 1]);
    }
  }
}
