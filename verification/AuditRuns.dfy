/**
 What whole runs of the audit writer deliver: a clean stop accounts for every record, uninterrupted calls
 have the sequential effect, and two flushers can store records out of order.
 */
module AuditRuns {
  import opened Text
  import opened AuditWriter

  predicate AllIdle(s: State) {
    forall t :: 0 <= t < |s.pcs| ==> s.pcs[t] == Idle
  }

  lemma {:induction false} ExecSplits(max: Size, s: State, first: seq<Turn>, second: seq<Turn>)
    requires Exec(max, s, first + second).Some?
    ensures Exec(max, s, first).Some?
    ensures Exec(max, s, first + second) == Exec(max, Exec(max, s, first).value, second)
  {
    if second == [] {
      assert first + second == first;
    } else {
      assert (first + second)[..|first + second| - 1] == first + second[..|second| - 1];
      ExecSplits(max, s, first, second[..|second| - 1]);
    }
  }

  // ---------------------------------------------------------------- stopping

  predicate InWrite(pc: Pc) {
    pc.WantWrite? || pc.Writing? || MadeRoom(pc)
  }

  /** No Write is under way, and either the buffer is empty or the last flush is still to swap it. */
  predicate Draining(s: State, loop: nat) {
    && loop < |s.pcs|
    && (forall t :: 0 <= t < |s.pcs| ==> !InWrite(s.pcs[t]))
    && (s.data.buffer == [] || s.pcs[loop].WantFlush? || s.pcs[loop].Flushing?)
  }

  predicate NoWrites(trace: seq<Turn>) {
    forall i :: 0 <= i < |trace| && trace[i].Begin? ==> !trace[i].call.Write?
  }

  lemma {:induction false} TurnKeepsDraining(max: Size, s: State, loop: nat, turn: Turn)
    requires Draining(s, loop) && Apply(max, s, turn).Some?
    requires turn.Begin? ==> !turn.call.Write?
    ensures Draining(Apply(max, s, turn).value, loop)
  {
  }

  lemma {:induction false} RunKeepsDraining(max: Size, s: State, loop: nat, trace: seq<Turn>)
    requires Draining(s, loop) && NoWrites(trace) && Exec(max, s, trace).Some?
    ensures Draining(Exec(max, s, trace).value, loop)
  {
    if trace != [] {
      var front := trace[..|trace| - 1];
      RunKeepsDraining(max, s, loop, front);
      TurnKeepsDraining(max, Exec(max, s, front).value, loop, trace[|trace| - 1]);
    }
  }

  /** When the flush loop has begun its last flush with no Write under way, none begins later, and every
      thread then finishes, nothing is buffered or in flight: the counters add up to what was accepted. */
  lemma {:induction false} StopAccountsForAll(max: Size, threads: nat, before: seq<Turn>, loop: nat, after: seq<Turn>)
    requires Exec(max, Init(threads), before + after).Some?
    requires Exec(max, Init(threads), before).Some? && Draining(Exec(max, Init(threads), before).value, loop)
    requires NoWrites(after) && AllIdle(Exec(max, Init(threads), before + after).value)
    ensures var d := Exec(max, Init(threads), before + after).value.data;
      && d.buffer == []
      && d.written == |d.stored| && d.dropped == |d.lost|
      && multiset(d.accepted) == multiset(d.stored) + multiset(d.lost)
      && d.written + d.dropped == |d.accepted|
  {
    ExecSplits(max, Init(threads), before, after);
    RunKeepsDraining(max, Exec(max, Init(threads), before).value, loop, after);
    RunKeepsInv(max, threads, before + after);
    IdleAccounts(max, Exec(max, Init(threads), before + after).value);
  }

  /** With every thread idle, what was accepted is stored, lost or still buffered, and the counters are exact. */
  lemma {:induction false} IdleAccounts(max: Size, s: State)
    requires Inv(max, s) && AllIdle(s)
    ensures s.data.written == |s.data.stored| && s.data.dropped == |s.data.lost|
    ensures multiset(s.data.accepted) == multiset(s.data.stored) + multiset(s.data.lost) + multiset(s.data.buffer)
    ensures |s.data.accepted| == s.data.written + s.data.dropped + |s.data.buffer|
  {
    var d := s.data;
    SumZero(OwedWritten, s.pcs);
    SumZero(OwedDropped, s.pcs);
    forall r: Record ensures multiset(d.accepted)[r] == Stock(d, r) {
      SumZero(InFlight(r), s.pcs);
    }
    assert multiset(d.accepted) == multiset(d.stored) + multiset(d.lost) + multiset(d.buffer);
    assert |multiset(d.accepted)| == |d.stored| + |d.lost| + |d.buffer|;
  }

  // ---------------------------------------------------------------- when nothing is lost

  /** A Write that has not appended its record. */
  function Unappended(pc: Pc): nat {
    if InWrite(pc) then 1 else 0
  }

  /** The Writes begun. */
  function Writes(trace: seq<Turn>): nat {
    if trace == [] then 0
    else
      var last := trace[|trace| - 1];
      Writes(trace[..|trace| - 1]) + if last.Begin? && last.call.Write? then 1 else 0
  }

  predicate NoFailure(trace: seq<Turn>) {
    forall i :: 0 <= i < |trace| && trace[i].Proceed? ==> trace[i].ok
  }

  /** Every Write begun has appended its record or is still about to. */
  lemma {:induction false} WritesAppend(max: Size, threads: nat, trace: seq<Turn>)
    requires Exec(max, Init(threads), trace).Some?
    ensures var s := Exec(max, Init(threads), trace).value;
      Writes(trace) == |s.data.accepted| + Sum(Unappended, s.pcs)
  {
    if trace == [] {
      SumZero(Unappended, Init(threads).pcs);
    } else {
      var front, last := trace[..|trace| - 1], trace[|trace| - 1];
      WritesAppend(max, threads, front);
      var s := Exec(max, Init(threads), front).value;
      TurnAppends(max, s, last);
    }
  }

  lemma {:induction false} TurnAppends(max: Size, s: State, turn: Turn)
    requires Apply(max, s, turn).Some?
    ensures var s' := Apply(max, s, turn).value;
      |s'.data.accepted| + Sum(Unappended, s'.pcs) ==
        |s.data.accepted| + Sum(Unappended, s.pcs) + if turn.Begin? && turn.call.Write? then 1 else 0
  {
    var pc := Apply(max, s, turn).value.pcs[turn.thread];
    SumUpdate(Unappended, s.pcs, turn.thread, pc);
  }

  /** In a run of at most as many Writes as the buffer holds, in which no insert fails, nothing is lost
      and nothing is counted as dropped. */
  lemma {:induction false} RoomyRunLosesNothing(max: Size, threads: nat, trace: seq<Turn>)
    requires Exec(max, Init(threads), trace).Some? && NoFailure(trace) && Writes(trace) <= max
    ensures var d := Exec(max, Init(threads), trace).value.data; d.lost == [] && d.dropped == 0
  {
    if trace != [] {
      var front, last := trace[..|trace| - 1], trace[|trace| - 1];
      assert forall i :: 0 <= i < |front| ==> front[i] == trace[i];
      RoomyRunLosesNothing(max, threads, front);
      WritesAppend(max, threads, front);
      RunKeepsInv(max, threads, front);
      var s := Exec(max, Init(threads), front).value;
      if last.Proceed? && s.pcs[last.thread].Writing? {
        SumAtLeast(s.pcs, last.thread);
      }
      TurnLosesNothing(max, s, last);
      RunKeepsInv(max, threads, trace);
      NoneDropped(Exec(max, Init(threads), trace).value);
    }
  }

  lemma {:induction false} TurnLosesNothing(max: Size, s: State, turn: Turn)
    requires Apply(max, s, turn).Some? && (turn.Proceed? ==> turn.ok)
    requires turn.Proceed? && s.pcs[turn.thread].Writing? ==> |s.data.buffer| < max
    ensures Apply(max, s, turn).value.data.lost == s.data.lost
  {
  }

  lemma {:induction false} NoneDropped(s: State)
    requires Counted(s) && s.data.lost == []
    ensures s.data.dropped == 0
  {
  }

  lemma {:induction false} SumAtLeast(pcs: seq<Pc>, t: nat)
    requires t < |pcs| && InWrite(pcs[t])
    ensures Sum(Unappended, pcs) >= 1
  {
    SumUpdate(Unappended, pcs, t, Idle);
  }

  // ---------------------------------------------------------------- order

  /** `a` is `b` with some elements left out. */
  predicate Subsequence(a: seq<Record>, b: seq<Record>) {
    if a == [] then true
    else if b == [] then false
    else if a[|a| - 1] == b[|b| - 1] && Subsequence(a[..|a| - 1], b[..|b| - 1]) then true
    else Subsequence(a, b[..|b| - 1])
  }

  lemma {:induction false} SubsequenceAppends(a: seq<Record>, b: seq<Record>, r: Record)
    requires Subsequence(a, b)
    ensures Subsequence(a + [r], b + [r])
  {
    assert (a + [r])[..|a|] == a && (b + [r])[..|b|] == b;
  }

  lemma {:induction false} SubsequenceFront(a: seq<Record>, b: seq<Record>)
    requires Subsequence(a, b) && a != []
    ensures Subsequence(a[..|a| - 1], b)
  {
    var fb := b[..|b| - 1];
    if a[|a| - 1] == b[|b| - 1] && Subsequence(a[..|a| - 1], fb) {
      SubsequenceWider(a[..|a| - 1], b);
    } else {
      SubsequenceFront(a, fb);
      SubsequenceWider(a[..|a| - 1], b);
    }
  }

  lemma {:induction false} SubsequenceWider(a: seq<Record>, b: seq<Record>)
    requires b != [] && Subsequence(a, b[..|b| - 1])
    ensures Subsequence(a, b)
  {
    if a != [] && a[|a| - 1] == b[|b| - 1] && !Subsequence(a[..|a| - 1], b[..|b| - 1]) {
      SubsequenceFront(a, b[..|b| - 1]);
    }
  }

  /** Leaving out a stretch in the middle. */
  lemma {:induction false} SubsequenceOmits(x: seq<Record>, m: seq<Record>, z: seq<Record>, b: seq<Record>)
    requires Subsequence(x + m + z, b)
    ensures Subsequence(x + z, b)
    decreases |b|, |m|
  {
    var whole, part := x + m + z, x + z;
    if z != [] {
      var fb, fz := b[..|b| - 1], z[..|z| - 1];
      assert whole[..|whole| - 1] == x + m + fz && part[..|part| - 1] == x + fz;
      if whole[|whole| - 1] == b[|b| - 1] && Subsequence(whole[..|whole| - 1], fb) {
        SubsequenceOmits(x, m, fz, fb);
      } else {
        SubsequenceOmits(x, m, z, fb);
        SubsequenceWider(part, b);
      }
    } else if m != [] {
      SubsequenceFront(whole, b);
      assert whole[..|whole| - 1] == x + m[..|m| - 1] + z;
      SubsequenceOmits(x, m[..|m| - 1], z, b);
    } else {
      assert whole == part;
    }
  }

  // ---------------------------------------------------------------- uninterrupted calls

  lemma {:induction false} Extend(max: Size, s: State, trace: seq<Turn>, turn: Turn) returns (longer: seq<Turn>)
    requires Exec(max, s, trace).Some?
    ensures longer == trace + [turn] && Exec(max, s, longer) == Apply(max, Exec(max, s, trace).value, turn)
  {
    longer := trace + [turn];
    assert longer[..|trace|] == trace;
  }

  /** Both mutexes are free. */
  predicate Free(pcs: seq<Pc>) {
    !BufferHeld(pcs) && !MetricHeld(pcs)
  }

  lemma {:induction false} HeldByOne(pcs: seq<Pc>, t: nat, pc: Pc)
    requires t < |pcs| && Free(pcs)
    ensures BufferHeld(pcs[t := pc]) <==> HoldsBuffer(pc)
    ensures MetricHeld(pcs[t := pc]) <==> HoldsMetric(pc)
  {
    assert pcs[t := pc][t] == pc;
  }

  /** The data after a whole Write. */
  function Written(max: Size, d: Data, record: Record): Data {
    var full := |d.buffer| >= max;
    d.(buffer := (if full then d.buffer[1..] else d.buffer) + [record],
       accepted := d.accepted + [record],
       lost := if full then d.lost + [d.buffer[0]] else d.lost,
       dropped := if full then d.dropped + 1 else d.dropped)
  }

  /** The data after a whole flush whose insert succeeds or fails. */
  function Flushed(d: Data, ok: bool): Data {
    if d.buffer == [] then d
    else if ok then d.(buffer := [], stored := d.stored + d.buffer, written := d.written + |d.buffer|, flushes := d.flushes + 1)
    else d.(buffer := [], lost := d.lost + d.buffer, dropped := d.dropped + |d.buffer|)
  }

  /** One more step of thread `t`, alone in the writer. */
  lemma {:induction false} GoAlone(max: Size, s: State, trace: seq<Turn>, t: nat, d: Data, pc: Pc, ok: bool) returns (longer: seq<Turn>)
    requires t < |s.pcs| && Free(s.pcs) && s.pcs[t] == Idle && pc != Idle
    requires Exec(max, s, trace) == Some(State(d, s.pcs[t := pc]))
    ensures Exec(max, s, longer) == Some(State(NextData(max, d, pc, ok), s.pcs[t := NextPc(max, d, pc, ok)]))
  {
    HeldByOne(s.pcs, t, pc);
    longer := Extend(max, s, trace, Proceed(t, ok));
    assert s.pcs[t := pc][t := NextPc(max, d, pc, ok)] == s.pcs[t := NextPc(max, d, pc, ok)];
  }

  lemma {:induction false} BeginAlone(max: Size, s: State, t: nat, call: Call) returns (trace: seq<Turn>)
    requires t < |s.pcs| && s.pcs[t] == Idle
    ensures Exec(max, s, trace) == Some(State(s.data, s.pcs[t := Enter(call)]))
  {
    assert Exec(max, s, []) == Some(s);
    trace := Extend(max, s, [], Begin(t, call));
  }

  /** The rest of an overflowing Write, after it has dropped the oldest record. */
  lemma {:induction false} OverflowAlone(max: Size, s: State, trace: seq<Turn>, t: nat, d: Data, record: Record)
      returns (longer: seq<Turn>)
    requires t < |s.pcs| && Free(s.pcs) && s.pcs[t] == Idle
    requires Exec(max, s, trace) == Some(State(d, s.pcs[t := Dropping(record)]))
    ensures Exec(max, s, longer) ==
      Some(State(d.(dropped := d.dropped + 1, buffer := d.buffer + [record], accepted := d.accepted + [record]), s.pcs[t := Idle]))
  {
    longer := GoAlone(max, s, trace, t, d, Dropping(record), true);
    longer := GoAlone(max, s, longer, t, d, CountingDrop(record), true);
    longer := GoAlone(max, s, longer, t, d.(dropped := d.dropped + 1), Appending(record), true);
  }

  lemma {:induction false} WriteAlone(max: Size, s: State, t: nat, record: Record) returns (trace: seq<Turn>)
    requires t < |s.pcs| && Free(s.pcs) && s.pcs[t] == Idle
    ensures Exec(max, s, trace) == Some(s.(data := Written(max, s.data, record)))
  {
    assert s.pcs[t := Idle] == s.pcs;
    trace := BeginAlone(max, s, t, Write(record));
    trace := GoAlone(max, s, trace, t, s.data, WantWrite(record), true);
    trace := GoAlone(max, s, trace, t, s.data, Writing(record), true);
    if |s.data.buffer| >= max {
      trace := OverflowAlone(max, s, trace, t, NextData(max, s.data, Writing(record), true), record);
    }
  }

  /** A flush as far as its swap. */
  lemma {:induction false} SwapAlone(max: Size, s: State, t: nat) returns (trace: seq<Turn>)
    requires t < |s.pcs| && Free(s.pcs) && s.pcs[t] == Idle
    ensures Exec(max, s, trace) == Some(State(s.data.(buffer := []), s.pcs[t := AfterSwap(s.data)]))
  {
    trace := BeginAlone(max, s, t, Flush);
    trace := GoAlone(max, s, trace, t, s.data, WantFlush, true);
    trace := GoAlone(max, s, trace, t, s.data, Flushing, true);
  }

  lemma {:induction false} InsertAlone(max: Size, s: State, trace: seq<Turn>, t: nat, d: Data, batch: seq<Record>)
      returns (longer: seq<Turn>)
    requires t < |s.pcs| && Free(s.pcs) && s.pcs[t] == Idle
    requires Exec(max, s, trace) == Some(State(d, s.pcs[t := Inserting(batch)]))
    ensures Exec(max, s, longer) ==
      Some(State(d.(stored := d.stored + batch, written := d.written + |batch|, flushes := d.flushes + 1), s.pcs[t := Idle]))
  {
    var d2 := d.(stored := d.stored + batch);
    longer := GoAlone(max, s, trace, t, d, Inserting(batch), true);
    longer := GoAlone(max, s, longer, t, d2, Inserted(|batch|), true);
    longer := GoAlone(max, s, longer, t, d2, CountingInserted(|batch|), true);
  }

  lemma {:induction false} FailAlone(max: Size, s: State, trace: seq<Turn>, t: nat, d: Data, batch: seq<Record>)
      returns (longer: seq<Turn>)
    requires t < |s.pcs| && Free(s.pcs) && s.pcs[t] == Idle
    requires Exec(max, s, trace) == Some(State(d, s.pcs[t := Inserting(batch)]))
    ensures Exec(max, s, longer) ==
      Some(State(d.(lost := d.lost + batch, dropped := d.dropped + |batch|), s.pcs[t := Idle]))
  {
    var d2 := d.(lost := d.lost + batch);
    longer := GoAlone(max, s, trace, t, d, Inserting(batch), false);
    longer := GoAlone(max, s, longer, t, d2, Failed(|batch|), false);
    longer := GoAlone(max, s, longer, t, d2, CountingFailed(|batch|), false);
  }

  lemma {:induction false} FlushAlone(max: Size, s: State, t: nat, ok: bool) returns (trace: seq<Turn>)
    requires t < |s.pcs| && Free(s.pcs) && s.pcs[t] == Idle
    ensures Exec(max, s, trace) == Some(s.(data := Flushed(s.data, ok)))
  {
    assert s.pcs[t := Idle] == s.pcs;
    trace := SwapAlone(max, s, t);
    if s.data.buffer != [] {
      if ok {
        trace := InsertAlone(max, s, trace, t, s.data.(buffer := []), s.data.buffer);
      } else {
        trace := FailAlone(max, s, trace, t, s.data.(buffer := []), s.data.buffer);
      }
    }
  }

  // ---------------------------------------------------------------- two flushers

  lemma {:induction false} ExecJoins(max: Size, s: State, first: seq<Turn>, second: seq<Turn>)
    requires Exec(max, s, first).Some? && Exec(max, Exec(max, s, first).value, second).Some?
    ensures Exec(max, s, first + second) == Exec(max, Exec(max, s, first).value, second)
  {
    if second == [] {
      assert first + second == first;
    } else {
      assert (first + second)[..|first + second| - 1] == first + second[..|second| - 1];
      ExecJoins(max, s, first, second[..|second| - 1]);
    }
  }

  /** Thread 0 has swapped out `a` and not inserted it. */
  function Midway(a: Record): State {
    State(EMPTY.(accepted := [a]), [Inserting([a]), Idle])
  }

  lemma {:induction false} ReachMidway(max: Size, a: Record) returns (trace: seq<Turn>)
    ensures Exec(max, Init(2), trace) == Some(Midway(a))
  {
    var s0 := Init(2);
    assert s0.pcs == [Idle, Idle];
    var t1 := WriteAlone(max, s0, 0, a);
    var s1 := s0.(data := Written(max, EMPTY, a));
    assert s1.data.buffer == [a] && s1.data.accepted == [a];
    var t2 := SwapAlone(max, s1, 0);
    assert s1.pcs[0 := Inserting([a])] == Midway(a).pcs && s1.data.(buffer := []) == Midway(a).data;
    ExecJoins(max, s0, t1, t2);
    trace := t1 + t2;
  }

  lemma {:induction false} Overtake(max: Size, a: Record, b: Record) returns (trace: seq<Turn>)
    ensures Exec(max, Midway(a), trace).Some?
    ensures var d := Exec(max, Midway(a), trace).value.data; d.accepted == [a, b] && d.stored == [b, a]
  {
    var s2 := Midway(a);
    var t3 := WriteAlone(max, s2, 1, b);
    var s3 := s2.(data := Written(max, s2.data, b));
    assert s3.data.buffer == [b] && s3.data.accepted == [a, b];
    var t4 := FlushAlone(max, s3, 1, true);
    var s4 := s3.(data := Flushed(s3.data, true));
    assert s4.data.stored == [b] && s4.pcs == s2.pcs && s4.data.accepted == [a, b];
    ExecJoins(max, s2, t3, t4);
    trace := Extend(max, s2, t3 + t4, Proceed(0, true));
  }

  /** Two flushers can store out of order: the first swaps before the second and inserts after it. */
  lemma {:induction false} TwoFlushersReorder(max: Size, a: Record, b: Record) returns (trace: seq<Turn>)
    requires a != b
    ensures Exec(max, Init(2), trace).Some?
    ensures var d := Exec(max, Init(2), trace).value.data;
      d.accepted == [a, b] && d.stored == [b, a] && !Subsequence(d.stored, d.accepted)
  {
    var t1 := ReachMidway(max, a);
    var t2 := Overtake(max, a, b);
    ExecJoins(max, Init(2), t1, t2);
    trace := t1 + t2;
    NotSubsequence(a, b);
  }

  lemma {:induction false} NotSubsequence(a: Record, b: Record)
    requires a != b
    ensures !Subsequence([b, a], [a, b])
  {
    assert [a, b][..1] == [a] && [a][..0] == [] && [b, a][..1] == [b];
    assert !Subsequence([b, a], []) && !Subsequence([b], []);
    assert !Subsequence([b, a], [a]);
  }

  // ---------------------------------------------------------------- the writer object

  /** The writer with calls one after another; `stored`, `accepted` and `lost` are histories. */
  class Writer {
    const bufferMax: Size
    var buffer: seq<Record>
    var written: nat
    var dropped: nat
    var flushes: nat
    ghost var stored: seq<Record>
    ghost var accepted: seq<Record>
    ghost var lost: seq<Record>

    ghost function Model(): Data
      reads this
    {
      Data(buffer, stored, accepted, lost, written, dropped, flushes)
    }

    constructor (size: int)
      ensures bufferMax == (if size <= 0 then 100 else size) && Model() == EMPTY
    {
      bufferMax := BufferMax(size);
      buffer, written, dropped, flushes := [], 0, 0, 0;
      stored, accepted, lost := [], [], [];
    }

    method Write(record: Record)
      modifies this
      ensures Model() == Written(bufferMax, old(Model()), record)
    {
      if |buffer| >= bufferMax {
        lost := lost + [buffer[0]];
        buffer := buffer[1..];
        dropped := dropped + 1;
      }
      buffer := buffer + [record];
      accepted := accepted + [record];
    }

    /** `ok` is the outcome of InsertBatch. */
    method Flush(ok: bool)
      modifies this
      ensures Model() == Flushed(old(Model()), ok)
    {
      if |buffer| == 0 {
        return;
      }
      var records := buffer;
      buffer := [];
      if !ok {
        lost := lost + records;
        dropped := dropped + |records|;
        return;
      }
      stored := stored + records;
      written := written + |records|;
      flushes := flushes + 1;
    }
  }
}
