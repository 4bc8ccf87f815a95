/**
 The order of the audit rows (internal/audit/writer.go): exactly when interleaved flushes store the
 records in the order they were accepted.
 */
module AuditOrder {
  import opened Text
  import opened AuditWriter
  import opened AuditRuns

  // ---------------------------------------------------------------- subsequences

  lemma {:induction false} SubsequenceSkips(a: seq<Record>, b: seq<Record>, gap: seq<Record>)
    requires Subsequence(a, b)
    ensures Subsequence(a, b + gap)
  {
    if gap == [] {
      assert b + gap == b;
    } else {
      SubsequenceSkips(a, b, gap[..|gap| - 1]);
      assert (b + gap)[..|b + gap| - 1] == b + gap[..|gap| - 1];
      SubsequenceWider(a, b + gap);
    }
  }

  lemma {:induction false} SubsequenceJoins(a: seq<Record>, b: seq<Record>, more: seq<Record>)
    requires Subsequence(a, b)
    ensures Subsequence(a + more, b + more)
  {
    if more == [] {
      assert a + more == a && b + more == b;
    } else {
      var front, last := more[..|more| - 1], more[|more| - 1];
      SubsequenceJoins(a, b, front);
      SubsequenceAppends(a + front, b + front, last);
      assert a + more == a + front + [last] && b + more == b + front + [last];
    }
  }

  lemma {:induction false} SubsequenceMember(x: Record, b: seq<Record>)
    requires Subsequence([x], b)
    ensures x in b
  {
    if [x][0] != b[|b| - 1] || !Subsequence([x][..0], b[..|b| - 1]) {
      SubsequenceMember(x, b[..|b| - 1]);
    }
  }

  /** Two records of a subsequence occur in that order. */
  lemma {:induction false} PairOrder(x: Record, y: Record, b: seq<Record>) returns (i: nat, j: nat)
    requires Subsequence([x, y], b)
    ensures i < j < |b| && b[i] == x && b[j] == y
  {
    var front := b[..|b| - 1];
    assert [x, y][..1] == [x];
    if y == b[|b| - 1] && Subsequence([x], front) {
      SubsequenceMember(x, front);
      i :| 0 <= i < |front| && front[i] == x;
      j := |b| - 1;
    } else {
      i, j := PairOrder(x, y, front);
    }
  }

  // ---------------------------------------------------------------- batches and their place

  /** For each flusher how many records had been accepted when it swapped its batch out, and the
      greatest such number among the batches stored. */
  datatype Marks = Marks(cuts: map<nat, nat>, last: nat)

  function Max(a: nat, b: nat): nat {
    if a < b then b else a
  }

  function Mark(s: State, m: Marks, turn: Turn): Marks {
    if !turn.Proceed? || turn.thread >= |s.pcs| then m
    else
      var t, pc := turn.thread, s.pcs[turn.thread];
      if pc.Flushing? && s.data.buffer != [] then m.(cuts := m.cuts[t := |s.data.accepted|])
      else if pc.Inserting? && turn.ok && t in m.cuts then m.(last := Max(m.last, m.cuts[t]))
      else m
  }

  function MarksOf(max: Size, threads: nat, trace: seq<Turn>): Marks {
    if trace == [] then Marks(map[], 0)
    else
      var front := trace[..|trace| - 1];
      var before := Exec(max, Init(threads), front);
      if before.None? then Marks(map[], 0) else Mark(before.value, MarksOf(max, threads, front), trace[|trace| - 1])
  }

  /** The step stores a batch that was swapped out before one that is already stored. */
  predicate Late(s: State, m: Marks, turn: Turn) {
    && turn.Proceed? && turn.ok && turn.thread < |s.pcs| && s.pcs[turn.thread].Inserting?
    && turn.thread in m.cuts && m.cuts[turn.thread] < m.last
  }

  /** A batch in flight is the stretch of accepted records before its cut, and comes before the buffer. */
  predicate Placed(s: State, m: Marks, t: nat)
    requires t < |s.pcs| && s.pcs[t].Inserting?
  {
    && t in m.cuts
    && var b, cut, d := s.pcs[t].batch, m.cuts[t], s.data;
       && b != [] && |b| <= cut && cut + |d.buffer| <= |d.accepted| && d.accepted[cut - |b|..cut] == b
       && (cut < m.last || m.last <= cut - |b|)
  }

  predicate Apart(s: State, m: Marks, t: nat, u: nat)
    requires t < |s.pcs| && u < |s.pcs| && s.pcs[t].Inserting? && s.pcs[u].Inserting? && t in m.cuts && u in m.cuts
  {
    m.cuts[t] + |s.pcs[u].batch| <= m.cuts[u] || m.cuts[u] + |s.pcs[t].batch| <= m.cuts[t]
  }

  predicate Ranges(s: State, m: Marks) {
    && Suffix(s.data.buffer, s.data.accepted) && m.last + |s.data.buffer| <= |s.data.accepted|
    && (forall t :: 0 <= t < |s.pcs| && s.pcs[t].Inserting? ==> Placed(s, m, t))
    && (forall t, u | 0 <= t < |s.pcs| && 0 <= u < |s.pcs| && t != u && s.pcs[t].Inserting? && s.pcs[u].Inserting? ::
          t in m.cuts && u in m.cuts && Apart(s, m, t, u))
  }

  // ---------------------------------------------------------------- the places are kept

  lemma {:induction false} SwapKeepsRanges(max: Size, s: State, m: Marks, t: nat, ok: bool)
    requires Ranges(s, m) && t < |s.pcs| && s.pcs[t].Flushing?
    ensures Ranges(Go(max, s, t, ok), Mark(s, m, Proceed(t, ok)))
  {
    var s', m' := Go(max, s, t, ok), Mark(s, m, Proceed(t, ok));
    forall u | 0 <= u < |s'.pcs| && s'.pcs[u].Inserting? ensures Placed(s', m', u) {
      if u != t { assert Placed(s, m, u); }
    }
    forall u, w | 0 <= u < |s'.pcs| && 0 <= w < |s'.pcs| && u != w && s'.pcs[u].Inserting? && s'.pcs[w].Inserting?
      ensures u in m'.cuts && w in m'.cuts && Apart(s', m', u, w)
    {
      if u != t { assert Placed(s, m, u); }
      if w != t { assert Placed(s, m, w); }
    }
  }

  /** The same state with another batch gone and perhaps a greater last cut. */
  lemma {:induction false} InsertKeepsPlace(s: State, m: Marks, t: nat, u: nat, s': State, last: nat)
    requires t < |s.pcs| && u < |s.pcs| && t != u && s.pcs[t].Inserting? && s.pcs[u].Inserting?
    requires Placed(s, m, t) && Placed(s, m, u) && Apart(s, m, t, u) && last in {m.last, Max(m.last, m.cuts[t])}
    requires |s'.pcs| == |s.pcs| && s'.pcs[u] == s.pcs[u] && s'.data.accepted == s.data.accepted && s'.data.buffer == s.data.buffer
    ensures Placed(s', m.(last := last), u)
  {
  }

  lemma {:induction false} InsertKeepsRanges(max: Size, s: State, m: Marks, t: nat, ok: bool)
    requires Ranges(s, m) && t < |s.pcs| && s.pcs[t].Inserting?
    ensures Ranges(Go(max, s, t, ok), Mark(s, m, Proceed(t, ok)))
  {
    var s', m' := Go(max, s, t, ok), Mark(s, m, Proceed(t, ok));
    assert Placed(s, m, t);
    forall u | 0 <= u < |s'.pcs| && s'.pcs[u].Inserting? ensures s'.pcs[u] == s.pcs[u] && Placed(s', m', u) {
      InsertKeepsPlace(s, m, t, u, s', m'.last);
    }
  }

  /** Steps of Write keep every place: records are appended behind, or dropped from the buffer. */
  lemma {:induction false} WriteKeepsRanges(max: Size, s: State, m: Marks, t: nat, ok: bool)
    requires Ranges(s, m) && t < |s.pcs| && (s.pcs[t].Writing? || s.pcs[t].Appending?)
    ensures Ranges(Go(max, s, t, ok), m)
  {
    var s', d, d' := Go(max, s, t, ok), s.data, Go(max, s, t, ok).data;
    if s.pcs[t].Writing? && |d.buffer| >= max {
      SuffixDrops(d.buffer, d.accepted);
    } else {
      SuffixAppends(d.buffer, d.accepted, s.pcs[t].record);
    }
    forall u | 0 <= u < |s'.pcs| && s'.pcs[u].Inserting? ensures Placed(s', m, u) {
      assert Placed(s, m, u);
      var b, cut := s.pcs[u].batch, m.cuts[u];
      assert d'.accepted[cut - |b|..cut] == d.accepted[cut - |b|..cut];
    }
  }

  lemma {:induction false} OtherKeepsRanges(s: State, m: Marks, t: nat, pc: Pc, d: Data)
    requires Ranges(s, m) && t < |s.pcs| && !s.pcs[t].Inserting? && !pc.Inserting?
    requires d.buffer == s.data.buffer && d.accepted == s.data.accepted
    ensures Ranges(State(d, s.pcs[t := pc]), m)
  {
    var s' := State(d, s.pcs[t := pc]);
    forall u | 0 <= u < |s'.pcs| && s'.pcs[u].Inserting? ensures Placed(s', m, u) {
      assert Placed(s, m, u);
    }
  }

  lemma {:induction false} TurnKeepsRanges(max: Size, s: State, m: Marks, turn: Turn)
    requires Ranges(s, m) && Apply(max, s, turn).Some?
    ensures Ranges(Apply(max, s, turn).value, Mark(s, m, turn))
  {
    match turn
    case Begin(t, call) => OtherKeepsRanges(s, m, t, Enter(call), s.data);
    case Proceed(t, ok) =>
      var pc := s.pcs[t];
      if pc.Flushing? { SwapKeepsRanges(max, s, m, t, ok); }
      else if pc.Inserting? { InsertKeepsRanges(max, s, m, t, ok); }
      else if pc.Writing? || pc.Appending? { WriteKeepsRanges(max, s, m, t, ok); }
      else { OtherKeepsRanges(s, m, t, NextPc(max, s.data, pc, ok), NextData(max, s.data, pc, ok)); }
  }

  // ---------------------------------------------------------------- rows in order

  /** The rows are in order, and the last one is the last record before the greatest cut stored. */
  predicate Ordered(s: State, m: Marks) {
    var d := s.data;
    && m.last <= |d.accepted| && Subsequence(d.stored, d.accepted[..m.last])
    && (d.stored == [] <==> m.last == 0)
    && (d.stored != [] ==> d.stored[|d.stored| - 1] == d.accepted[m.last - 1])
  }

  /** A stretch after the rows' last cut goes behind them. */
  lemma {:induction false} StretchFollows(rows: seq<Record>, accepted: seq<Record>, last: nat, cut: nat, b: seq<Record>)
    requires last + |b| <= cut <= |accepted| && accepted[cut - |b|..cut] == b && Subsequence(rows, accepted[..last])
    ensures Subsequence(rows + b, accepted[..cut])
  {
    var gap := accepted[last..cut - |b|];
    SubsequenceSkips(rows, accepted[..last], gap);
    assert accepted[..last] + gap == accepted[..cut - |b|];
    SubsequenceJoins(rows, accepted[..cut - |b|], b);
    assert accepted[..cut - |b|] + b == accepted[..cut];
  }

  lemma {:induction false} StretchEnds(accepted: seq<Record>, cut: nat, b: seq<Record>)
    requires b != [] && |b| <= cut <= |accepted| && accepted[cut - |b|..cut] == b
    ensures b[|b| - 1] == accepted[cut - 1]
  {
    assert accepted[cut - |b|..cut][|b| - 1] == accepted[cut - 1];
  }

  lemma {:induction false} StoreKeepsOrdered(max: Size, s: State, m: Marks, t: nat)
    requires Ranges(s, m) && Ordered(s, m) && t < |s.pcs| && s.pcs[t].Inserting? && !Late(s, m, Proceed(t, true))
    ensures Ordered(Go(max, s, t, true), Mark(s, m, Proceed(t, true)))
  {
    assert Placed(s, m, t);
    var d, b, cut := s.data, s.pcs[t].batch, m.cuts[t];
    StretchFollows(d.stored, d.accepted, m.last, cut, b);
    StretchEnds(d.accepted, cut, b);
    assert (d.stored + b)[|d.stored + b| - 1] == b[|b| - 1];
  }

  lemma {:induction false} TurnKeepsOrdered(max: Size, s: State, m: Marks, turn: Turn)
    requires Ranges(s, m) && Ordered(s, m) && Apply(max, s, turn).Some? && !Late(s, m, turn)
    ensures Ordered(Apply(max, s, turn).value, Mark(s, m, turn))
  {
    if turn.Proceed? && turn.ok && s.pcs[turn.thread].Inserting? {
      StoreKeepsOrdered(max, s, m, turn.thread);
    } else {
      var d, d' := s.data, Apply(max, s, turn).value.data;
      assert d'.stored == d.stored && d'.accepted[..m.last] == d.accepted[..m.last];
    }
  }

  predicate Once(records: seq<Record>) {
    forall i, j :: 0 <= i < j < |records| ==> records[i] != records[j]
  }

  lemma {:induction false} OutOfOrder(accepted: seq<Record>, p: nat, q: nat)
    requires Once(accepted) && q < p < |accepted|
    ensures !Subsequence([accepted[p], accepted[q]], accepted)
  {
    if Subsequence([accepted[p], accepted[q]], accepted) {
      var i, j := PairOrder(accepted[p], accepted[q], accepted);
    }
  }

  /** Storing a late batch puts a record behind one that was accepted after it. */
  lemma {:induction false} LateDisorders(max: Size, s: State, m: Marks, t: nat)
    requires Ranges(s, m) && Ordered(s, m) && t < |s.pcs| && Late(s, m, Proceed(t, true)) && Once(s.data.accepted)
    ensures !InOrder(Go(max, s, t, true).data)
  {
    assert Placed(s, m, t);
    var d, b, cut := s.data, s.pcs[t].batch, m.cuts[t];
    StretchEnds(d.accepted, cut, b);
    OutOfOrder(d.accepted, m.last - 1, cut - 1);
    if Subsequence(d.stored + b, d.accepted) {
      LastTwo(d.stored, b, d.accepted);
    }
  }

  lemma {:induction false} LastTwo(a: seq<Record>, b: seq<Record>, c: seq<Record>)
    requires a != [] && b != [] && Subsequence(a + b, c)
    ensures Subsequence([a[|a| - 1], b[|b| - 1]], c)
  {
    var p, q, x, y := a[..|a| - 1], b[..|b| - 1], [a[|a| - 1]], [b[|b| - 1]];
    LastTwoShape(a, b);
    SubsequenceOmits([], p, x + q + y, c);
    assert [] + (x + q + y) == x + q + y;
    SubsequenceOmits(x, q, y, c);
    assert x + y == [a[|a| - 1], b[|b| - 1]];
  }

  lemma {:induction false} LastTwoShape(a: seq<Record>, b: seq<Record>)
    requires a != [] && b != []
    ensures a + b == [] + a[..|a| - 1] + ([a[|a| - 1]] + b[..|b| - 1] + [b[|b| - 1]])
  {
    assert a == a[..|a| - 1] + [a[|a| - 1]] && b == b[..|b| - 1] + [b[|b| - 1]];
  }

  /** The rows are a selection of the accepted records, in their order. */
  predicate InOrder(d: Data) {
    Subsequence(d.stored, d.accepted)
  }

  // ---------------------------------------------------------------- whole runs

  lemma {:induction false} PrefixRuns(max: Size, threads: nat, trace: seq<Turn>, n: nat)
    requires Exec(max, Init(threads), trace).Some? && n <= |trace|
    ensures Exec(max, Init(threads), trace[..n]).Some?
  {
    assert trace[..n] + trace[n..] == trace;
    ExecSplits(max, Init(threads), trace[..n], trace[n..]);
  }

  /** The state after `n` steps. */
  function At(max: Size, threads: nat, trace: seq<Turn>, n: nat): State
    requires Exec(max, Init(threads), trace).Some? && n <= |trace|
  {
    PrefixRuns(max, threads, trace, n);
    Exec(max, Init(threads), trace[..n]).value
  }

  predicate LateAt(max: Size, threads: nat, trace: seq<Turn>, n: nat)
    requires Exec(max, Init(threads), trace).Some? && n < |trace|
  {
    Late(At(max, threads, trace, n), MarksOf(max, threads, trace[..n]), trace[n])
  }

  lemma {:induction false} AtNext(max: Size, threads: nat, trace: seq<Turn>, n: nat)
    requires Exec(max, Init(threads), trace).Some? && n < |trace|
    ensures Apply(max, At(max, threads, trace, n), trace[n]) == Some(At(max, threads, trace, n + 1))
    ensures MarksOf(max, threads, trace[..n + 1]) == Mark(At(max, threads, trace, n), MarksOf(max, threads, trace[..n]), trace[n])
  {
    PrefixRuns(max, threads, trace, n);
    PrefixRuns(max, threads, trace, n + 1);
    assert trace[..n + 1][..n] == trace[..n] && trace[..n + 1][n] == trace[n];
  }

  lemma {:induction false} RangesAt(max: Size, threads: nat, trace: seq<Turn>, n: nat)
    requires Exec(max, Init(threads), trace).Some? && n <= |trace|
    ensures Ranges(At(max, threads, trace, n), MarksOf(max, threads, trace[..n]))
  {
    if n > 0 {
      RangesAt(max, threads, trace, n - 1);
      AtNext(max, threads, trace, n - 1);
      TurnKeepsRanges(max, At(max, threads, trace, n - 1), MarksOf(max, threads, trace[..n - 1]), trace[n - 1]);
    }
  }

  lemma {:induction false} OrderedAt(max: Size, threads: nat, trace: seq<Turn>, n: nat)
    requires Exec(max, Init(threads), trace).Some? && n <= |trace|
    requires forall i :: 0 <= i < n ==> !LateAt(max, threads, trace, i)
    ensures Ordered(At(max, threads, trace, n), MarksOf(max, threads, trace[..n]))
  {
    if n > 0 {
      OrderedAt(max, threads, trace, n - 1);
      RangesAt(max, threads, trace, n - 1);
      AtNext(max, threads, trace, n - 1);
      assert !LateAt(max, threads, trace, n - 1);
      TurnKeepsOrdered(max, At(max, threads, trace, n - 1), MarksOf(max, threads, trace[..n - 1]), trace[n - 1]);
    }
  }

  lemma {:induction false} OrderedIsInOrder(s: State, m: Marks)
    requires Ordered(s, m)
    ensures InOrder(s.data)
  {
    var d := s.data;
    SubsequenceSkips(d.stored, d.accepted[..m.last], d.accepted[m.last..]);
    assert d.accepted[..m.last] + d.accepted[m.last..] == d.accepted;
  }

  predicate IsPrefix(a: seq<Record>, b: seq<Record>) {
    |a| <= |b| && b[..|a|] == a
  }

  lemma {:induction false} TurnGrows(max: Size, s: State, turn: Turn)
    requires Apply(max, s, turn).Some?
    ensures IsPrefix(s.data.accepted, Apply(max, s, turn).value.data.accepted)
  {
  }

  lemma {:induction false} PrefixOnce(a: seq<Record>, b: seq<Record>)
    requires IsPrefix(a, b) && Once(b)
    ensures Once(a)
  {
    assert forall i :: 0 <= i < |a| ==> a[i] == b[i];
  }

  /** What is accepted at most once in the end is so at every point. */
  lemma {:induction false} OnceAt(max: Size, threads: nat, trace: seq<Turn>, n: nat)
    requires Exec(max, Init(threads), trace).Some? && n <= |trace| && Once(At(max, threads, trace, |trace|).data.accepted)
    ensures Once(At(max, threads, trace, n).data.accepted)
    decreases |trace| - n
  {
    if n < |trace| {
      OnceAt(max, threads, trace, n + 1);
      AtNext(max, threads, trace, n);
      TurnGrows(max, At(max, threads, trace, n), trace[n]);
      PrefixOnce(At(max, threads, trace, n).data.accepted, At(max, threads, trace, n + 1).data.accepted);
    }
  }

  /** For records accepted at most once, the rows are in order at every point of the run exactly when no
      batch is stored after one that was swapped out later. */
  lemma {:induction false} InOrderIff(max: Size, threads: nat, trace: seq<Turn>)
    requires Exec(max, Init(threads), trace).Some? && Once(At(max, threads, trace, |trace|).data.accepted)
    ensures (forall n :: 0 <= n <= |trace| ==> InOrder(At(max, threads, trace, n).data)) <==>
              (forall n :: 0 <= n < |trace| ==> !LateAt(max, threads, trace, n))
  {
    if forall n :: 0 <= n < |trace| ==> !LateAt(max, threads, trace, n) {
      forall n | 0 <= n <= |trace| ensures InOrder(At(max, threads, trace, n).data) {
        NoneLateInOrder(max, threads, trace, n);
      }
    } else {
      var n :| 0 <= n < |trace| && LateAt(max, threads, trace, n);
      var i := FirstLate(max, threads, trace, n);
      FirstLateDisorders(max, threads, trace, i);
    }
  }

  lemma {:induction false} FirstLateDisorders(max: Size, threads: nat, trace: seq<Turn>, i: nat)
    requires Exec(max, Init(threads), trace).Some? && Once(At(max, threads, trace, |trace|).data.accepted)
    requires i < |trace| && LateAt(max, threads, trace, i) && forall k :: 0 <= k < i ==> !LateAt(max, threads, trace, k)
    ensures !InOrder(At(max, threads, trace, i + 1).data)
  {
    OrderedAt(max, threads, trace, i);
    RangesAt(max, threads, trace, i);
    OnceAt(max, threads, trace, i);
    AtNext(max, threads, trace, i);
    LateDisorders(max, At(max, threads, trace, i), MarksOf(max, threads, trace[..i]), trace[i].thread);
  }

  lemma {:induction false} FirstLate(max: Size, threads: nat, trace: seq<Turn>, n: nat) returns (i: nat)
    requires Exec(max, Init(threads), trace).Some? && n < |trace| && LateAt(max, threads, trace, n)
    ensures i <= n && LateAt(max, threads, trace, i) && forall k :: 0 <= k < i ==> !LateAt(max, threads, trace, k)
  {
    if k :| 0 <= k < n && LateAt(max, threads, trace, k) {
      i := FirstLate(max, threads, trace, k);
    } else {
      i := n;
    }
  }

  /** Whether or not records repeat, a run without a late batch keeps the rows in order. */
  lemma {:induction false} NoneLateInOrder(max: Size, threads: nat, trace: seq<Turn>, n: nat)
    requires Exec(max, Init(threads), trace).Some? && n <= |trace|
    requires forall i :: 0 <= i < n ==> !LateAt(max, threads, trace, i)
    ensures InOrder(At(max, threads, trace, n).data)
  {
    OrderedAt(max, threads, trace, n);
    OrderedIsInOrder(At(max, threads, trace, n), MarksOf(max, threads, trace[..n]));
  }

  // ---------------------------------------------------------------- what goes on behind the rows

  /** A batch in flight that is not late. */
  predicate Fresh(s: State, m: Marks, t: nat) {
    t < |s.pcs| && s.pcs[t].Inserting? && t in m.cuts && m.cuts[t] >= m.last
  }

  /** Rows, buffer and any one batch that is not late are in order together. */
  lemma {:induction false} PipelineInOrder(s: State, m: Marks)
    requires Ranges(s, m) && Ordered(s, m)
    ensures Subsequence(s.data.stored + s.data.buffer, s.data.accepted)
    ensures forall t: nat :: Fresh(s, m, t) ==> Subsequence(s.data.stored + s.pcs[t].batch + s.data.buffer, s.data.accepted)
  {
    var d := s.data;
    var n := |d.accepted|;
    assert d.accepted[n - |d.buffer|..n] == d.accepted[n - |d.buffer|..] && d.accepted[..n] == d.accepted;
    StretchFollows(d.stored, d.accepted, m.last, n, d.buffer);
    forall t: nat | Fresh(s, m, t) ensures Subsequence(d.stored + s.pcs[t].batch + d.buffer, d.accepted) {
      assert Placed(s, m, t);
      StretchFollows(d.stored, d.accepted, m.last, m.cuts[t], s.pcs[t].batch);
      StretchFollows(d.stored + s.pcs[t].batch, d.accepted, m.cuts[t], n, d.buffer);
    }
  }

  // ---------------------------------------------------------------- flushes that do not overlap

  /** No thread but `t` has a batch in flight. */
  predicate OnlyInserter(s: State, t: nat) {
    forall u :: 0 <= u < |s.pcs| && s.pcs[u].Inserting? ==> u == t
  }

  predicate StoresAlone(s: State, turn: Turn) {
    turn.Proceed? && turn.ok && turn.thread < |s.pcs| && s.pcs[turn.thread].Inserting? ==> OnlyInserter(s, turn.thread)
  }

  /** Whenever a batch is stored no other batch is in flight; the threads that flush may differ. */
  predicate NoOverlap(max: Size, threads: nat, trace: seq<Turn>)
    requires Exec(max, Init(threads), trace).Some?
  {
    forall n :: 0 <= n < |trace| ==> StoresAlone(At(max, threads, trace, n), trace[n])
  }

  predicate AllFresh(s: State, m: Marks) {
    forall t :: 0 <= t < |s.pcs| && s.pcs[t].Inserting? ==> Fresh(s, m, t)
  }

  lemma {:induction false} TurnKeepsFresh(max: Size, s: State, m: Marks, turn: Turn)
    requires Ranges(s, m) && AllFresh(s, m) && Apply(max, s, turn).Some? && StoresAlone(s, turn)
    ensures AllFresh(Apply(max, s, turn).value, Mark(s, m, turn))
  {
    var s', m' := Apply(max, s, turn).value, Mark(s, m, turn);
    forall u | 0 <= u < |s'.pcs| && s'.pcs[u].Inserting? ensures Fresh(s', m', u) {
      if s.pcs[u].Inserting? { assert Fresh(s, m, u) && u != turn.thread; }
    }
  }

  lemma {:induction false} FreshAt(max: Size, threads: nat, trace: seq<Turn>, n: nat)
    requires Exec(max, Init(threads), trace).Some? && n <= |trace| && NoOverlap(max, threads, trace)
    ensures AllFresh(At(max, threads, trace, n), MarksOf(max, threads, trace[..n]))
  {
    if n > 0 {
      FreshAt(max, threads, trace, n - 1);
      RangesAt(max, threads, trace, n - 1);
      AtNext(max, threads, trace, n - 1);
      assert StoresAlone(At(max, threads, trace, n - 1), trace[n - 1]);
      TurnKeepsFresh(max, At(max, threads, trace, n - 1), MarksOf(max, threads, trace[..n - 1]), trace[n - 1]);
    }
  }

  /** So no batch is late, and the rows with any batch in flight and the buffer are in order throughout. */
  lemma {:induction false} SeparateFlushesInOrder(max: Size, threads: nat, trace: seq<Turn>, n: nat)
    requires Exec(max, Init(threads), trace).Some? && n <= |trace| && NoOverlap(max, threads, trace)
    ensures n < |trace| ==> !LateAt(max, threads, trace, n)
    ensures var s := At(max, threads, trace, n);
      && InOrder(s.data) && Subsequence(s.data.stored + s.data.buffer, s.data.accepted)
      && forall t :: 0 <= t < |s.pcs| && s.pcs[t].Inserting? ==>
           Subsequence(s.data.stored + s.pcs[t].batch + s.data.buffer, s.data.accepted)
  {
    forall i | 0 <= i < |trace| ensures !LateAt(max, threads, trace, i) { SeparateNotLate(max, threads, trace, i); }
    OrderedAt(max, threads, trace, n);
    RangesAt(max, threads, trace, n);
    FreshAt(max, threads, trace, n);
    PipelineInOrder(At(max, threads, trace, n), MarksOf(max, threads, trace[..n]));
    NoneLateInOrder(max, threads, trace, n);
  }

  lemma {:induction false} SeparateNotLate(max: Size, threads: nat, trace: seq<Turn>, i: nat)
    requires Exec(max, Init(threads), trace).Some? && i < |trace| && NoOverlap(max, threads, trace)
    ensures !LateAt(max, threads, trace, i)
  {
    FreshAt(max, threads, trace, i);
  }

  predicate InFlush(pc: Pc) {
    pc.WantFlush? || pc.Flushing? || pc.Inserting?
  }

  /** Only thread `f` flushes, as when nobody calls Flush beside the flush loop. */
  predicate OneFlusher(f: nat, trace: seq<Turn>) {
    forall i :: 0 <= i < |trace| && trace[i].Begin? && trace[i].call.Flush? ==> trace[i].thread == f
  }

  predicate OnlyFlusher(s: State, f: nat) {
    forall t :: 0 <= t < |s.pcs| && InFlush(s.pcs[t]) ==> t == f
  }

  lemma {:induction false} OneFlusherAt(max: Size, threads: nat, f: nat, trace: seq<Turn>, n: nat)
    requires Exec(max, Init(threads), trace).Some? && n <= |trace| && OneFlusher(f, trace)
    ensures OnlyFlusher(At(max, threads, trace, n), f)
  {
    if n > 0 {
      OneFlusherAt(max, threads, f, trace, n - 1);
      AtNext(max, threads, trace, n - 1);
      TurnKeepsFlusher(max, At(max, threads, trace, n - 1), f, trace[n - 1]);
    }
  }

  lemma {:induction false} TurnKeepsFlusher(max: Size, s: State, f: nat, turn: Turn)
    requires OnlyFlusher(s, f) && Apply(max, s, turn).Some? && (turn.Begin? && turn.call.Flush? ==> turn.thread == f)
    ensures OnlyFlusher(Apply(max, s, turn).value, f)
  {
  }

  /** A single flusher never overlaps itself. */
  lemma {:induction false} OneFlusherNoOverlap(max: Size, threads: nat, f: nat, trace: seq<Turn>)
    requires Exec(max, Init(threads), trace).Some? && OneFlusher(f, trace)
    ensures NoOverlap(max, threads, trace)
  {
    forall n | 0 <= n < |trace| ensures StoresAlone(At(max, threads, trace, n), trace[n]) {
      OneFlusherAt(max, threads, f, trace, n);
    }
  }
}
