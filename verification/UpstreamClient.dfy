/**
 Matching of responses to requests in the upstream client (internal/upstream/client.go): any number of
 Send calls beside the reader of one connection.  A step is one access to the pending table under its
 lock, one channel operation, or one change of the connection flag.
 */
module UpstreamClient {
  import opened Text

  /** A JSON-RPC id as the pending table's key; a message without one has the null id. */
  datatype Id = NullId | NumberId(number: real) | StringId(text: string) | BoolId(value: bool)

  datatype Message = Message(id: Id, body: string)

  /** What a Send returns.  Data carries the message and its number among those looked up. */
  datatype Outcome = Data(message: Message, number: nat) | Disconnected | TimedOut | PostFailed | NotConnected

  datatype Pc =
    | Ready
    | Checked                      // saw the connection up
    | Posting                      // registered in the pending table
    | Awaiting                     // in the select
    | Returning(outcome: Outcome)  // before the deferred delete
    | Done(outcome: Outcome)

  /** One Send: where it is, its channel of capacity one, and how many messages had been looked up
      when it registered. */
  datatype Call = Call(pc: Pc, channel: Option<Outcome>, since: nat)

  datatype Reader =
    | Reading
    | Dispatching(message: Message, number: nat, call: nat)  // channel looked up, not yet sent to
    | Failing                                                // flag lowered, pending table not yet locked
    | Draining                                               // holds the pending table's lock
    | Stopped

  /** A message looked up, and the call it was meant for. */
  datatype Arrival = Arrival(message: Message, call: Option<nat>)

  datatype State = State(calls: seq<Call>, pending: map<Id, nat>, connected: bool, reader: Reader, log: seq<Arrival>)

  function Init(n: nat): State {
    State(seq(n, i => Call(Ready, None, 0)), map[], true, Reading, [])
  }

  datatype Step =
    | Check(call: nat)
    | Register(call: nat)
    | Post(call: nat, ok: bool)
    | Receive(call: nat)
    | TimeOut(call: nat)
    | CleanUp(call: nat)
    | LookUp(message: Message)
    | Deliver
    | Disconnect
    | LoseConnection
    | BeginDrain
    | DrainOne(id: Id)
    | EndDrain

  function Move(s: State, k: nat, pc: Pc): State
    requires k < |s.calls|
  {
    s.(calls := s.calls[k := s.calls[k].(pc := pc)])
  }

  /** A non-blocking send: a full channel keeps what it has. */
  function Offer(s: State, k: nat, outcome: Outcome): State {
    if k < |s.calls| && s.calls[k].channel.None? then s.(calls := s.calls[k := s.calls[k].(channel := Some(outcome))])
    else s
  }

  /** The steps of Send. */
  function ApplySend(ids: seq<Id>, s: State, k: nat, step: Step): Option<State>
    requires |ids| == |s.calls| && k < |ids|
  {
    var pc := s.calls[k].pc;
    match step
    case Check(_) =>
      if pc != Ready then None else Some(Move(s, k, if s.connected then Checked else Done(NotConnected)))
    case Register(_) =>
      if pc != Checked || s.reader == Draining then None
      else Some(s.(pending := s.pending[ids[k] := k], calls := s.calls[k := Call(Posting, None, |s.log|)]))
    case Post(_, ok) =>
      if pc != Posting then None else Some(Move(s, k, if ok then Awaiting else Returning(PostFailed)))
    case Receive(_) =>
      if pc != Awaiting || s.calls[k].channel.None? then None
      else Some(s.(calls := s.calls[k := Call(Returning(s.calls[k].channel.value), None, s.calls[k].since)]))
    case TimeOut(_) =>
      if pc != Awaiting then None else Some(Move(s, k, Returning(TimedOut)))
    case CleanUp(_) =>
      if !pc.Returning? || s.reader == Draining then None
      else Some(Move(s, k, Done(pc.outcome)).(pending := s.pending - {ids[k]}))
    case _ => None
  }

  /** The steps of the reader, and Disconnect. */
  function ApplyReader(s: State, step: Step): Option<State> {
    match step
    case LookUp(m) =>
      if s.reader != Reading then None
      else if m.id in s.pending then
        Some(s.(log := s.log + [Arrival(m, Some(s.pending[m.id]))], reader := Dispatching(m, |s.log|, s.pending[m.id])))
      else Some(s.(log := s.log + [Arrival(m, None)]))
    case Deliver =>
      if !s.reader.Dispatching? then None
      else Some(Offer(s, s.reader.call, Data(s.reader.message, s.reader.number)).(reader := Reading))
    case Disconnect => Some(s.(connected := false))
    case LoseConnection =>
      if s.reader != Reading then None
      else Some(s.(connected := false, reader := if s.connected then Failing else Stopped))
    case BeginDrain =>
      if s.reader != Failing then None else Some(s.(reader := Draining))
    case DrainOne(id) =>
      if s.reader != Draining || id !in s.pending then None
      else Some(Offer(s, s.pending[id], Disconnected).(pending := s.pending - {id}))
    case EndDrain =>
      if s.reader != Draining || s.pending != map[] then None else Some(s.(reader := Stopped))
    case _ => None
  }

  predicate OfSend(step: Step) {
    step.Check? || step.Register? || step.Post? || step.Receive? || step.TimeOut? || step.CleanUp?
  }

  function Apply(ids: seq<Id>, s: State, step: Step): Option<State>
    requires |ids| == |s.calls|
  {
    if !OfSend(step) then ApplyReader(s, step)
    else if step.call < |ids| then ApplySend(ids, s, step.call, step)
    else None
  }

  lemma {:induction false} ApplyKeepsCalls(ids: seq<Id>, s: State, step: Step)
    requires |ids| == |s.calls|
    ensures Apply(ids, s, step).Some? ==> |Apply(ids, s, step).value.calls| == |ids|
  {
  }

  function Exec(ids: seq<Id>, s: State, trace: seq<Step>): (r: Option<State>)
    requires |ids| == |s.calls|
    ensures r.Some? ==> |r.value.calls| == |ids|
  {
    if trace == [] then Some(s)
    else
      var before := Exec(ids, s, trace[..|trace| - 1]);
      if before.None? then None
      else
        ApplyKeepsCalls(ids, before.value, trace[|trace| - 1]);
        Apply(ids, before.value, trace[|trace| - 1])
  }

  // ---------------------------------------------------------------- matching, in every run

  /** Data meant for call `k`: it carries k's id, was looked up after k registered, and k alone was
      the call found. */
  predicate Matches(ids: seq<Id>, s: State, k: nat, o: Outcome)
    requires |ids| == |s.calls| && k < |ids|
  {
    o.Data? ==>
      && s.calls[k].since <= o.number < |s.log|
      && s.log[o.number] == Arrival(o.message, Some(k))
      && o.message.id == ids[k]
  }

  predicate CallMatches(ids: seq<Id>, s: State, k: nat)
    requires |ids| == |s.calls| && k < |ids|
  {
    && (s.calls[k].channel.Some? ==> Matches(ids, s, k, s.calls[k].channel.value))
    && (s.calls[k].pc.Returning? || s.calls[k].pc.Done? ==> Matches(ids, s, k, s.calls[k].pc.outcome))
    && (s.calls[k].pc.Ready? || s.calls[k].pc.Checked? ==> s.calls[k].channel.None?)
    && s.calls[k].since <= |s.log|
  }

  predicate Begun(pc: Pc) {
    !pc.Ready? && !pc.Checked?
  }

  /** The pending table points at begun calls with the right id, and the reader at one it looked up. */
  predicate Directed(ids: seq<Id>, s: State)
    requires |ids| == |s.calls|
  {
    && (forall id :: id in s.pending ==> s.pending[id] < |ids| && ids[s.pending[id]] == id && Begun(s.calls[s.pending[id]].pc))
    && (s.reader.Dispatching? ==>
          && s.reader.call < |ids| && Begun(s.calls[s.reader.call].pc)
          && Matches(ids, s, s.reader.call, Data(s.reader.message, s.reader.number)))
  }

  predicate AllMatch(ids: seq<Id>, s: State)
    requires |ids| == |s.calls|
  {
    Directed(ids, s) && forall k :: 0 <= k < |ids| ==> CallMatches(ids, s, k)
  }

  lemma {:induction false} SendKeepsDirected(ids: seq<Id>, s: State, k: nat, step: Step)
    requires |ids| == |s.calls| && k < |ids| && Directed(ids, s) && ApplySend(ids, s, k, step).Some?
    ensures Directed(ids, ApplySend(ids, s, k, step).value)
  {
  }

  lemma {:induction false} SendKeepsMatch(ids: seq<Id>, s: State, k: nat, step: Step)
    requires |ids| == |s.calls| && k < |ids| && AllMatch(ids, s) && ApplySend(ids, s, k, step).Some?
    ensures AllMatch(ids, ApplySend(ids, s, k, step).value)
  {
    SendKeepsDirected(ids, s, k, step);
    var s' := ApplySend(ids, s, k, step).value;
    forall j | 0 <= j < |ids| ensures CallMatches(ids, s', j) {
      assert CallMatches(ids, s, j);
    }
  }

  lemma {:induction false} LookUpKeepsMatch(ids: seq<Id>, s: State, m: Message)
    requires |ids| == |s.calls| && AllMatch(ids, s) && s.reader == Reading
    ensures AllMatch(ids, ApplyReader(s, LookUp(m)).value)
  {
    var s' := ApplyReader(s, LookUp(m)).value;
    if m.id in s.pending {
      assert CallMatches(ids, s, s.pending[m.id]);
    }
    forall j | 0 <= j < |ids| ensures CallMatches(ids, s', j) {
      assert CallMatches(ids, s, j);
    }
  }

  lemma {:induction false} OfferKeepsMatch(ids: seq<Id>, s: State, k: nat, o: Outcome)
    requires |ids| == |s.calls| && AllMatch(ids, s) && k < |ids| && Matches(ids, s, k, o) && Begun(s.calls[k].pc)
    ensures AllMatch(ids, Offer(s, k, o))
  {
    forall j | 0 <= j < |ids| ensures CallMatches(ids, Offer(s, k, o), j) {
      assert CallMatches(ids, s, j);
    }
  }

  /** The reader moves on, the flag falls, or entries leave the pending table. */
  lemma {:induction false} RestKeepsMatch(ids: seq<Id>, s: State, s': State)
    requires |ids| == |s.calls| && AllMatch(ids, s)
    requires s'.calls == s.calls && s'.log == s.log && !s'.reader.Dispatching?
    requires forall id :: id in s'.pending ==> id in s.pending && s'.pending[id] == s.pending[id]
    ensures AllMatch(ids, s')
  {
    forall j | 0 <= j < |ids| ensures CallMatches(ids, s', j) {
      assert CallMatches(ids, s, j);
    }
  }

  lemma {:induction false} ReaderKeepsMatch(ids: seq<Id>, s: State, step: Step)
    requires |ids| == |s.calls| && AllMatch(ids, s) && ApplyReader(s, step).Some?
    ensures AllMatch(ids, ApplyReader(s, step).value)
  {
    match step
    case LookUp(m) => LookUpKeepsMatch(ids, s, m);
    case Deliver =>
      OfferKeepsMatch(ids, s, s.reader.call, Data(s.reader.message, s.reader.number));
      RestKeepsMatch(ids, Offer(s, s.reader.call, Data(s.reader.message, s.reader.number)), ApplyReader(s, step).value);
    case DrainOne(id) =>
      OfferKeepsMatch(ids, s, s.pending[id], Disconnected);
      RestKeepsMatch(ids, Offer(s, s.pending[id], Disconnected), ApplyReader(s, step).value);
    case Disconnect =>
      forall j | 0 <= j < |ids| ensures CallMatches(ids, ApplyReader(s, step).value, j) {
        assert CallMatches(ids, s, j);
      }
    case LoseConnection => RestKeepsMatch(ids, s, ApplyReader(s, step).value);
    case BeginDrain => RestKeepsMatch(ids, s, ApplyReader(s, step).value);
    case EndDrain => RestKeepsMatch(ids, s, ApplyReader(s, step).value);
    case _ =>
  }

  lemma {:induction false} RunMatches(ids: seq<Id>, trace: seq<Step>)
    requires Exec(ids, Init(|ids|), trace).Some?
    ensures AllMatch(ids, Exec(ids, Init(|ids|), trace).value)
  {
    if trace != [] {
      RunMatches(ids, trace[..|trace| - 1]);
      var s, last := Exec(ids, Init(|ids|), trace[..|trace| - 1]).value, trace[|trace| - 1];
      if OfSend(last) {
        SendKeepsMatch(ids, s, last.call, last);
      } else {
        ReaderKeepsMatch(ids, s, last);
      }
    }
  }

  /** In every run, whatever the ids: data a Send returns carries its own id and was looked up after it
      registered, and no two Sends return the same arrival. */
  lemma {:induction false} ResponsesMatch(ids: seq<Id>, trace: seq<Step>, k: nat)
    requires k < |ids| && Exec(ids, Init(|ids|), trace).Some?
    requires var c := Exec(ids, Init(|ids|), trace).value.calls[k]; c.pc.Done? && c.pc.outcome.Data?
    ensures var s := Exec(ids, Init(|ids|), trace).value;
      var o := s.calls[k].pc.outcome;
      && o.message.id == ids[k]
      && s.calls[k].since <= o.number < |s.log|
      && s.log[o.number] == Arrival(o.message, Some(k))
      && forall j :: 0 <= j < |ids| && j != k && s.calls[j].pc.Done? ==>
           s.calls[j].pc.outcome.Data? ==> s.calls[j].pc.outcome.number != o.number
  {
    RunMatches(ids, trace);
    var s := Exec(ids, Init(|ids|), trace).value;
    assert CallMatches(ids, s, k);
    forall j | 0 <= j < |ids| && j != k && s.calls[j].pc.Done? && s.calls[j].pc.outcome.Data?
      ensures s.calls[j].pc.outcome.number != s.calls[k].pc.outcome.number
    {
      assert CallMatches(ids, s, j);
    }
  }

  function Receipts(trace: seq<Step>, k: nat): nat {
    if trace == [] then 0
    else Receipts(trace[..|trace| - 1], k) + if trace[|trace| - 1] == Receive(k) then 1 else 0
  }

  /** A Send takes at most one outcome from its channel, and returns it. */
  lemma {:induction false} ReceivesOnce(ids: seq<Id>, trace: seq<Step>, k: nat)
    requires k < |ids| && Exec(ids, Init(|ids|), trace).Some?
    ensures Receipts(trace, k) <= 1
    ensures var pc := Exec(ids, Init(|ids|), trace).value.calls[k].pc;
      && (Receipts(trace, k) == 1 ==> pc.Returning? || pc.Done?)
      && ((pc.Returning? || pc.Done?) && pc.outcome.Data? ==> Receipts(trace, k) == 1)
  {
    if trace != [] {
      ReceivesOnce(ids, trace[..|trace| - 1], k);
    }
  }

  // ---------------------------------------------------------------- nobody is stranded

  predicate InFlight(pc: Pc) {
    pc.Posting? || pc.Awaiting? || pc.Returning?
  }

  predicate DistinctIds(ids: seq<Id>, s: State)
    requires |ids| == |s.calls|
  {
    forall j, k | 0 <= j < k < |ids| :: InFlight(s.calls[j].pc) && InFlight(s.calls[k].pc) ==> ids[j] != ids[k]
  }

  /** At no point of the run are two requests with one id in flight. */
  predicate DistinctRun(ids: seq<Id>, trace: seq<Step>)
  {
    forall n :: 0 <= n <= |trace| ==> DistinctAt(ids, trace, n)
  }

  predicate DistinctAt(ids: seq<Id>, trace: seq<Step>, n: nat)
    requires n <= |trace|
  {
    Exec(ids, Init(|ids|), trace[..n]).Some? ==> DistinctIds(ids, Exec(ids, Init(|ids|), trace[..n]).value)
  }

  /** A registered Send is in the table under its id or has something in its channel. */
  predicate Reachable(ids: seq<Id>, s: State, k: nat)
    requires |ids| == |s.calls| && k < |ids|
  {
    s.calls[k].pc.Posting? || s.calls[k].pc.Awaiting? ==>
      (ids[k] in s.pending && s.pending[ids[k]] == k) || s.calls[k].channel.Some?
  }

  predicate AllReachable(ids: seq<Id>, s: State)
    requires |ids| == |s.calls|
  {
    forall k :: 0 <= k < |ids| ==> Reachable(ids, s, k)
  }

  /** Call `k` waits with an empty channel. */
  predicate Unserved(s: State, k: nat) {
    k < |s.calls| && (s.calls[k].pc.Posting? || s.calls[k].pc.Awaiting?) && s.calls[k].channel.None?
  }

  /** The step takes the table entry of another Send that still waits with an empty channel: a
      registration overwrites it, or a deferred delete removes it. */
  predicate Strands(ids: seq<Id>, s: State, step: Step)
    requires |ids| == |s.calls|
  {
    && (step.Register? || step.CleanUp?) && step.call < |ids|
    && ids[step.call] in s.pending && s.pending[ids[step.call]] != step.call
    && Unserved(s, s.pending[ids[step.call]])
  }

  lemma {:induction false} StepReachable(ids: seq<Id>, s: State, step: Step, k: nat)
    requires |ids| == |s.calls| && k < |ids| && AllMatch(ids, s) && Reachable(ids, s, k) && !Strands(ids, s, step)
    requires Apply(ids, s, step).Some? && |Apply(ids, s, step).value.calls| == |ids|
    ensures Reachable(ids, Apply(ids, s, step).value, k)
  {
    match step
    case Register(j) => if j != k && ids[j] == ids[k] && ids[k] in s.pending { assert !Strands(ids, s, step); }
    case CleanUp(j) => if j != k && ids[j] == ids[k] && ids[k] in s.pending { assert !Strands(ids, s, step); }
    case _ =>
  }

  lemma {:induction false} StrandsStrands(ids: seq<Id>, s: State, step: Step)
    requires |ids| == |s.calls| && AllMatch(ids, s) && Strands(ids, s, step)
    requires Apply(ids, s, step).Some? && |Apply(ids, s, step).value.calls| == |ids|
    ensures !AllReachable(ids, Apply(ids, s, step).value)
  {
    var k := s.pending[ids[step.call]];
    assert ids[k] == ids[step.call];
    assert !Reachable(ids, Apply(ids, s, step).value, k);
  }

  /** The state after `n` steps of a run that exists. */
  lemma {:induction false} PrefixRuns(ids: seq<Id>, trace: seq<Step>, n: nat)
    requires Exec(ids, Init(|ids|), trace).Some? && n <= |trace|
    ensures Exec(ids, Init(|ids|), trace[..n]).Some?
    decreases |trace|
  {
    if n == |trace| {
      assert trace[..n] == trace;
    } else {
      assert trace[..|trace| - 1][..n] == trace[..n];
      PrefixRuns(ids, trace[..|trace| - 1], n);
    }
  }

  /** The state before step `n`. */
  function At(ids: seq<Id>, trace: seq<Step>, n: nat): (s: State)
    requires Exec(ids, Init(|ids|), trace).Some? && n <= |trace|
    ensures |s.calls| == |ids|
  {
    PrefixRuns(ids, trace, n);
    Exec(ids, Init(|ids|), trace[..n]).value
  }

  lemma {:induction false} AtNext(ids: seq<Id>, trace: seq<Step>, n: nat)
    requires Exec(ids, Init(|ids|), trace).Some? && n < |trace|
    ensures Apply(ids, At(ids, trace, n), trace[n]) == Some(At(ids, trace, n + 1))
    ensures AllMatch(ids, At(ids, trace, n))
  {
    PrefixRuns(ids, trace, n);
    PrefixRuns(ids, trace, n + 1);
    assert trace[..n + 1][..n] == trace[..n] && trace[..n + 1][n] == trace[n];
    RunMatches(ids, trace[..n]);
  }

  /** No step up to `n` strands a Send. */
  predicate NoneStranded(ids: seq<Id>, trace: seq<Step>, n: nat)
    requires Exec(ids, Init(|ids|), trace).Some? && n <= |trace|
  {
    forall i :: 0 <= i < n ==> !Strands(ids, At(ids, trace, i), trace[i])
  }

  lemma {:induction false} UnstrandedIsReachable(ids: seq<Id>, trace: seq<Step>, n: nat)
    requires Exec(ids, Init(|ids|), trace).Some? && n <= |trace| && NoneStranded(ids, trace, n)
    ensures AllReachable(ids, At(ids, trace, n))
  {
    if n > 0 {
      UnstrandedIsReachable(ids, trace, n - 1);
      AtNext(ids, trace, n - 1);
      forall k | 0 <= k < |ids| ensures Reachable(ids, At(ids, trace, n), k) {
        StepReachable(ids, At(ids, trace, n - 1), trace[n - 1], k);
      }
    }
  }

  /** In every run, whatever the ids, at every point every waiting Send is in the table under its id or
      has a filled channel, exactly when no step takes the entry of a Send that is still unserved. */
  lemma {:induction false} StrandedIff(ids: seq<Id>, trace: seq<Step>)
    requires Exec(ids, Init(|ids|), trace).Some?
    ensures (forall n :: 0 <= n <= |trace| ==> AllReachable(ids, At(ids, trace, n))) <==> NoneStranded(ids, trace, |trace|)
  {
    if NoneStranded(ids, trace, |trace|) {
      forall n | 0 <= n <= |trace| ensures AllReachable(ids, At(ids, trace, n)) {
        UnstrandedIsReachable(ids, trace, n);
      }
    } else {
      var i :| 0 <= i < |trace| && Strands(ids, At(ids, trace, i), trace[i]);
      AtNext(ids, trace, i);
      StrandsStrands(ids, At(ids, trace, i), trace[i]);
      assert !AllReachable(ids, At(ids, trace, i + 1));
    }
  }

  lemma {:induction false} DistinctDoesNotStrand(ids: seq<Id>, s: State, step: Step)
    requires |ids| == |s.calls| && AllMatch(ids, s) && Apply(ids, s, step).Some? && |Apply(ids, s, step).value.calls| == |ids|
    requires DistinctIds(ids, s) && DistinctIds(ids, Apply(ids, s, step).value)
    ensures !Strands(ids, s, step)
  {
    if (step.Register? || step.CleanUp?) && step.call < |ids| && ids[step.call] in s.pending {
      var j, k, s' := step.call, s.pending[ids[step.call]], Apply(ids, s, step).value;
      assert ids[k] == ids[j];
      if step.Register? {
        assert InFlight(s'.calls[j].pc);
      } else {
        assert InFlight(s.calls[j].pc);
      }
    }
  }

  /** So with distinct ids in flight nobody is stranded. */
  lemma {:induction false} NobodyStranded(ids: seq<Id>, trace: seq<Step>)
    requires Exec(ids, Init(|ids|), trace).Some? && DistinctRun(ids, trace)
    ensures NoneStranded(ids, trace, |trace|)
    ensures AllReachable(ids, Exec(ids, Init(|ids|), trace).value)
  {
    forall i | 0 <= i < |trace| ensures !Strands(ids, At(ids, trace, i), trace[i]) {
      AtNext(ids, trace, i);
      PrefixRuns(ids, trace, i);
      PrefixRuns(ids, trace, i + 1);
      assert DistinctAt(ids, trace, i) && DistinctAt(ids, trace, i + 1);
      DistinctDoesNotStrand(ids, At(ids, trace, i), trace[i]);
    }
    UnstrandedIsReachable(ids, trace, |trace|);
    assert trace[..|trace|] == trace;
  }

  /** When a drain ends in a run that has stranded nobody, every Send registered by then has its outcome
      waiting. */
  lemma {:induction false} DrainServesAll(ids: seq<Id>, trace: seq<Step>)
    requires Exec(ids, Init(|ids|), trace + [EndDrain]).Some? && Exec(ids, Init(|ids|), trace).Some?
    requires NoneStranded(ids, trace, |trace|)
    ensures forall k :: 0 <= k < |ids| ==> !Unserved(Exec(ids, Init(|ids|), trace + [EndDrain]).value, k)
  {
    assert (trace + [EndDrain])[..|trace|] == trace;
    UnstrandedIsReachable(ids, trace, |trace|);
    assert trace[..|trace|] == trace;
    var s, end := Exec(ids, Init(|ids|), trace).value, Exec(ids, Init(|ids|), trace + [EndDrain]).value;
    assert end.calls == s.calls && s.pending == map[];
    forall k | 0 <= k < |ids| ensures !Unserved(end, k) {
      assert Reachable(ids, s, k);
    }
  }

  /** A Send that registers after the reader has stopped, or was never drained, ends without data. */
  lemma {:induction false} LateSendGetsNothing(ids: seq<Id>, s: State, k: nat, trace: seq<Step>)
    requires |ids| == |s.calls| && k < |ids| && Exec(ids, s, trace).Some?
    requires s.reader == Stopped && Unanswered(s.calls[k])
    ensures Exec(ids, s, trace).value.reader == Stopped && Unanswered(Exec(ids, s, trace).value.calls[k])
  {
    if trace != [] {
      LateSendGetsNothing(ids, s, k, trace[..|trace| - 1]);
    }
  }

  /** Nothing received and nothing to receive. */
  predicate Unanswered(c: Call) {
    && c.channel.None?
    && (c.pc.Returning? || c.pc.Done? ==> !c.pc.outcome.Data? && !c.pc.outcome.Disconnected?)
  }

  // ---------------------------------------------------------------- the hypotheses are needed

  lemma {:induction false} Extend(ids: seq<Id>, trace: seq<Step>, s: State, step: Step) returns (longer: seq<Step>)
    requires Exec(ids, Init(|ids|), trace) == Some(s) && |s.calls| == |ids|
    ensures longer == trace + [step] && Exec(ids, Init(|ids|), longer) == Apply(ids, s, step)
  {
    longer := trace + [step];
    assert longer[..|trace|] == trace;
  }

  function Waiting(since: nat): Call {
    Call(Awaiting, None, since)
  }

  /** One Send that has registered and posted. */
  lemma {:induction false} SendOne(id: Id) returns (trace: seq<Step>)
    ensures Exec([id], Init(1), trace) == Some(State([Waiting(0)], map[id := 0], true, Reading, []))
  {
    var s0 := Init(1);
    assert s0.calls == [Call(Ready, None, 0)];
    trace := Extend([id], [], s0, Check(0));
    var s1 := State([Call(Checked, None, 0)], map[], true, Reading, []);
    assert Move(s0, 0, Checked) == s1;
    trace := Extend([id], trace, s1, Register(0));
    var s2 := State([Call(Posting, None, 0)], map[id := 0], true, Reading, []);
    assert s1.calls[0 := Call(Posting, None, 0)] == s2.calls && map[][id := 0] == s2.pending;
    assert ApplySend([id], s1, 0, Register(0)) == Some(s2);
    trace := Extend([id], trace, s2, Post(0, true));
    assert Move(s2, 0, Awaiting).calls == [Waiting(0)];
  }

  /** An explicit Disconnect lowers the flag first, so the reader stops without draining and a
      registered Send is left to time out. */
  lemma {:induction false} DisconnectLeavesWaiting(id: Id) returns (trace: seq<Step>)
    ensures Exec([id], Init(1), trace) == Some(State([Waiting(0)], map[id := 0], false, Stopped, []))
  {
    trace := SendOne(id);
    var s := State([Waiting(0)], map[id := 0], true, Reading, []);
    trace := Extend([id], trace, s, Disconnect);
    trace := Extend([id], trace, s.(connected := false), LoseConnection);
  }

  /** Two Sends under one id, both registered: the second has taken the table entry. */
  lemma {:induction false} SendTwo(id: Id) returns (trace: seq<Step>)
    ensures Exec([id, id], Init(2), trace) ==
      Some(State([Call(Posting, None, 0), Call(Posting, None, 0)], map[id := 1], true, Reading, []))
  {
    var ids := [id, id];
    var s0 := Init(2);
    assert s0.calls == [Call(Ready, None, 0), Call(Ready, None, 0)];
    trace := Extend(ids, [], s0, Check(0));
    var s1 := State([Call(Checked, None, 0), Call(Ready, None, 0)], map[], true, Reading, []);
    assert Move(s0, 0, Checked) == s1;
    trace := Extend(ids, trace, s1, Check(1));
    var s2 := State([Call(Checked, None, 0), Call(Checked, None, 0)], map[], true, Reading, []);
    assert Move(s1, 1, Checked) == s2;
    trace := Extend(ids, trace, s2, Register(0));
    var s3 := State([Call(Posting, None, 0), Call(Checked, None, 0)], map[id := 0], true, Reading, []);
    assert s2.calls[0 := Call(Posting, None, 0)] == s3.calls && map[][id := 0] == s3.pending;
    assert ApplySend(ids, s2, 0, Register(0)) == Some(s3);
    trace := Extend(ids, trace, s3, Register(1));
    var s4 := State([Call(Posting, None, 0), Call(Posting, None, 0)], map[id := 1], true, Reading, []);
    assert s3.calls[1 := Call(Posting, None, 0)] == s4.calls && s3.pending[id := 1] == s4.pending;
    assert ApplySend(ids, s3, 1, Register(1)) == Some(s4);
  }

  /** With one id in flight twice, the first Send's deferred delete removes the second's entry: the
      second waits outside the table with an empty channel. */
  lemma {:induction false} DuplicateIdsStrand(id: Id) returns (trace: seq<Step>)
    ensures Exec([id, id], Init(2), trace).Some?
    ensures !Reachable([id, id], Exec([id, id], Init(2), trace).value, 1)
  {
    var ids := [id, id];
    trace := SendTwo(id);
    var s4 := State([Call(Posting, None, 0), Call(Posting, None, 0)], map[id := 1], true, Reading, []);
    trace := Extend(ids, trace, s4, Post(0, false));
    var s5 := Move(s4, 0, Returning(PostFailed));
    trace := Extend(ids, trace, s5, CleanUp(0));
    assert id !in (s5.pending - {id});
  }
}
