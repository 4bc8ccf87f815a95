/**
 What Send gets (internal/upstream/client.go:136-198, 287-353): a response looked up for a waiting Send
 reaches its channel and is what the Send returns, and how a Send ends follows from its own steps.
 */
module UpstreamDelivery {
  import opened Text
  import opened UpstreamClient

  predicate Waits(pc: Pc) {
    pc.Posting? || pc.Awaiting?
  }

  predicate Ended(pc: Pc) {
    pc.Returning? || pc.Done?
  }

  predicate Own(step: Step, k: nat) {
    OfSend(step) && step.call == k
  }

  /** What others do to a call: at most fill its empty channel with a response or a disconnection. */
  lemma {:induction false} ForeignStep(ids: seq<Id>, s: State, step: Step, k: nat)
    requires |ids| == |s.calls| && k < |ids| && !Own(step, k) && Apply(ids, s, step).Some?
    ensures |Apply(ids, s, step).value.calls| == |ids|
    ensures var c, d := s.calls[k], Apply(ids, s, step).value.calls[k];
      && d.pc == c.pc
      && (d.channel == c.channel || (c.channel.None? && (d.channel.value.Data? || d.channel.value == Disconnected)))
      && (d.channel != c.channel ==> step.Deliver? || step.DrainOne?)
  {
  }

  // ---------------------------------------------------------------- no response is lost

  /** An arrival for call `k` that the reader has let go of is in k's channel, or k has ended. */
  predicate Handed(s: State, n: nat)
    requires n < |s.log|
  {
    var k := s.log[n].call;
    k.Some? && k.value < |s.calls| ==>
      || (s.reader.Dispatching? && s.reader.number == n && s.reader.call == k.value)
      || s.calls[k.value].channel.Some?
      || Ended(s.calls[k.value].pc)
  }

  predicate AllHanded(s: State) {
    forall n :: 0 <= n < |s.log| ==> Handed(s, n)
  }

  /** A Send that has not registered is nobody's addressee. */
  predicate Addressed(s: State) {
    forall n :: 0 <= n < |s.log| && s.log[n].call.Some? ==>
      s.log[n].call.value < |s.calls| && Begun(s.calls[s.log[n].call.value].pc)
  }

  lemma {:induction false} SendKeepsHanded(ids: seq<Id>, s: State, k: nat, step: Step)
    requires |ids| == |s.calls| && k < |ids| && ApplySend(ids, s, k, step).Some? && AllHanded(s) && Addressed(s)
    ensures AllHanded(ApplySend(ids, s, k, step).value) && Addressed(ApplySend(ids, s, k, step).value)
  {
    var s' := ApplySend(ids, s, k, step).value;
    forall n | 0 <= n < |s'.log| ensures Handed(s', n) {
      assert Handed(s, n);
    }
  }

  lemma {:induction false} ReaderKeepsHanded(ids: seq<Id>, s: State, step: Step)
    requires |ids| == |s.calls| && ApplyReader(s, step).Some? && AllMatch(ids, s) && AllHanded(s) && Addressed(s)
    ensures AllHanded(ApplyReader(s, step).value) && Addressed(ApplyReader(s, step).value)
  {
    var s' := ApplyReader(s, step).value;
    forall n | 0 <= n < |s'.log| ensures Handed(s', n) {
      if n < |s.log| { assert Handed(s, n); }
    }
  }

  /** In every run a response that was looked up for a Send and is no longer in the reader's hands has
      filled the Send's channel, unless the Send has ended. */
  lemma {:induction false} NothingLost(ids: seq<Id>, trace: seq<Step>)
    requires Exec(ids, Init(|ids|), trace).Some?
    ensures AllHanded(Exec(ids, Init(|ids|), trace).value) && Addressed(Exec(ids, Init(|ids|), trace).value)
  {
    if trace != [] {
      var front, last := trace[..|trace| - 1], trace[|trace| - 1];
      NothingLost(ids, front);
      RunMatches(ids, front);
      var s := Exec(ids, Init(|ids|), front).value;
      if OfSend(last) { SendKeepsHanded(ids, s, last.call, last); } else { ReaderKeepsHanded(ids, s, last); }
    }
  }

  // ---------------------------------------------------------------- the response is what the Send returns

  /** The reader holds a response for call `k`, whose channel is empty. */
  predicate InHand(s: State, m: Message, number: nat, k: nat) {
    k < |s.calls| && s.reader == Dispatching(m, number, k) && Begun(s.calls[k].pc) && s.calls[k].channel.None?
  }

  /** How call `k` has fared since: it may have timed out or failed to post, by a step of its own. */
  predicate Fared(c: Call, steps: seq<Step>, k: nat) {
    && Begun(c.pc)
    && (Ended(c.pc) && c.pc.outcome == TimedOut ==> TimeOut(k) in steps)
    && (Ended(c.pc) && c.pc.outcome == PostFailed ==> Post(k, false) in steps)
  }

  lemma {:induction false} LookUpTakes(ids: seq<Id>, s: State, m: Message, k: nat)
    requires |ids| == |s.calls| && k < |ids| && s.reader == Reading && m.id in s.pending && s.pending[m.id] == k
    requires Waits(s.calls[k].pc) && s.calls[k].channel.None?
    ensures Apply(ids, s, LookUp(m)).Some? && InHand(Apply(ids, s, LookUp(m)).value, m, |s.log|, k)
    ensures Apply(ids, s, LookUp(m)).value.calls == s.calls
  {
  }

  lemma {:induction false} KeepsDispatching(ids: seq<Id>, s: State, step: Step)
    requires |ids| == |s.calls| && s.reader.Dispatching? && step != Deliver && Apply(ids, s, step).Some?
    ensures Apply(ids, s, step).value.reader == s.reader && !step.DrainOne?
  {
  }

  /** A begun call with an empty channel ends by a timeout or a failed post only. */
  lemma {:induction false} OwnStepWaits(ids: seq<Id>, s: State, step: Step, k: nat)
    requires |ids| == |s.calls| && k < |ids| && Own(step, k) && Apply(ids, s, step).Some?
    requires Begun(s.calls[k].pc) && s.calls[k].channel.None?
    ensures |Apply(ids, s, step).value.calls| == |ids|
    ensures var c, d := s.calls[k], Apply(ids, s, step).value.calls[k];
      && Begun(d.pc) && d.channel.None?
      && (Ended(d.pc) ==>
            || (Ended(c.pc) && c.pc.outcome == d.pc.outcome)
            || (d.pc.outcome == TimedOut && step == TimeOut(k)) || (d.pc.outcome == PostFailed && step == Post(k, false)))
  {
  }

  /** A call that waits with something in its channel takes it, times out or fails to post. */
  lemma {:induction false} OwnStepServed(ids: seq<Id>, s: State, step: Step, k: nat, m: Message, number: nat)
    requires |ids| == |s.calls| && k < |ids| && Own(step, k) && Apply(ids, s, step).Some? && Served(s.calls[k], m, number)
    ensures |Apply(ids, s, step).value.calls| == |ids|
    ensures var c, d := s.calls[k], Apply(ids, s, step).value.calls[k];
      && Served(d, m, number)
      && (Ended(d.pc) && d.pc.outcome != Data(m, number) ==>
            || (Ended(c.pc) && c.pc.outcome == d.pc.outcome)
            || (d.pc.outcome == TimedOut && step == TimeOut(k)) || (d.pc.outcome == PostFailed && step == Post(k, false)))
  {
  }

  /** Until the reader delivers, nothing but the Send's own ending can happen. */
  lemma {:induction false} StaysInHand(ids: seq<Id>, s: State, steps: seq<Step>, m: Message, number: nat, k: nat)
    requires |ids| == |s.calls| && InHand(s, m, number, k) && Waits(s.calls[k].pc)
    requires Exec(ids, s, steps).Some? && Deliver !in steps
    ensures var e := Exec(ids, s, steps).value;
      && InHand(e, m, number, k) && Fared(e.calls[k], steps, k)
      && (Ended(e.calls[k].pc) ==> e.calls[k].pc.outcome in {TimedOut, PostFailed})
  {
    if steps != [] {
      var front, last := steps[..|steps| - 1], steps[|steps| - 1];
      assert last in steps && forall x :: x in front ==> x in steps;
      StaysInHand(ids, s, front, m, number, k);
      var t := Exec(ids, s, front).value;
      if Own(last, k) { OwnStepWaits(ids, t, last, k); } else { ForeignStep(ids, t, last, k); }
      KeepsDispatching(ids, t, last);
    }
  }

  /** A delivered response stays in the channel until the Send takes it or ends otherwise. */
  predicate Served(c: Call, m: Message, number: nat) {
    && Begun(c.pc)
    && (Waits(c.pc) ==> c.channel == Some(Data(m, number)))
    && (Ended(c.pc) ==> c.pc.outcome in {Data(m, number), TimedOut, PostFailed})
  }

  lemma {:induction false} StaysServed(ids: seq<Id>, s: State, steps: seq<Step>, m: Message, number: nat, k: nat, before: seq<Step>)
    requires |ids| == |s.calls| && k < |ids| && Served(s.calls[k], m, number) && Fared(s.calls[k], before, k)
    requires Exec(ids, s, steps).Some?
    ensures var e := Exec(ids, s, steps).value;
      Served(e.calls[k], m, number) && Fared(e.calls[k], before + steps, k)
  {
    if steps != [] {
      var front, last := steps[..|steps| - 1], steps[|steps| - 1];
      StaysServed(ids, s, front, m, number, k, before);
      assert last in before + steps && forall x :: x in before + front ==> x in before + steps;
      var t := Exec(ids, s, front).value;
      if Own(last, k) { OwnStepServed(ids, t, last, k, m, number); } else { ForeignStep(ids, t, last, k); }
    }
  }

  lemma {:induction false} DeliverServes(ids: seq<Id>, s: State, m: Message, number: nat, k: nat)
    requires |ids| == |s.calls| && InHand(s, m, number, k)
    requires Ended(s.calls[k].pc) ==> s.calls[k].pc.outcome in {TimedOut, PostFailed}
    ensures Apply(ids, s, Deliver).Some?
    ensures Served(Apply(ids, s, Deliver).value.calls[k], m, number)
    ensures Apply(ids, s, Deliver).value.calls[k].channel == Some(Data(m, number))
    ensures Apply(ids, s, Deliver).value.calls[k].pc == s.calls[k].pc
  {
  }

  /** A response with the id of a Send that waits in the table is looked up: the reader can then deliver
      it at any time, it fills the Send's channel, and from there on the Send, unless it times out or
      fails to post by a step of its own, waits with it, can take it, and returns nothing else. */
  lemma {:induction false} ResponseIsReturned(ids: seq<Id>, s: State, m: Message, between: seq<Step>, after: seq<Step>, k: nat)
    requires |ids| == |s.calls| && k < |ids| && s.reader == Reading
    requires m.id in s.pending && s.pending[m.id] == k && Waits(s.calls[k].pc) && s.calls[k].channel.None?
    ensures Apply(ids, s, LookUp(m)).Some?
    ensures var s1 := Apply(ids, s, LookUp(m)).value;
      Deliver !in between && Exec(ids, s1, between).Some? ==>
        var s2 := Exec(ids, s1, between).value;
        && Apply(ids, s2, Deliver).Some?
        && var s3 := Apply(ids, s2, Deliver).value;
           && s3.calls[k].channel == Some(Data(m, |s.log|))
           && (Exec(ids, s3, after).Some? ==>
                 var c := Exec(ids, s3, after).value.calls[k];
                 Served(c, m, |s.log|) && Fared(c, between + after, k))
  {
    LookUpTakes(ids, s, m, k);
    var s1 := Apply(ids, s, LookUp(m)).value;
    if Deliver !in between && Exec(ids, s1, between).Some? {
      StaysInHand(ids, s1, between, m, |s.log|, k);
      var s2 := Exec(ids, s1, between).value;
      DeliverServes(ids, s2, m, |s.log|, k);
      var s3 := Apply(ids, s2, Deliver).value;
      if Exec(ids, s3, after).Some? {
        StaysServed(ids, s3, after, m, |s.log|, k, between);
      }
    }
  }

  /** What waits in the channel can be taken, and the Send then returns it. */
  lemma {:induction false} ChannelIsReturned(ids: seq<Id>, s: State, k: nat, o: Outcome)
    requires |ids| == |s.calls| && k < |ids| && s.calls[k].pc == Awaiting && s.calls[k].channel == Some(o)
    ensures Apply(ids, s, Receive(k)).Some?
    ensures var s1 := Apply(ids, s, Receive(k)).value;
      && s1.calls[k].pc == Returning(o)
      && (s.reader != Draining ==>
            Exec(ids, s, [Receive(k), CleanUp(k)]).Some? && Exec(ids, s, [Receive(k), CleanUp(k)]).value.calls[k].pc == Done(o))
  {
    var two := [Receive(k), CleanUp(k)];
    assert two[..1] == [Receive(k)] && [Receive(k)][..0] == [];
    assert Exec(ids, s, []) == Some(s);
    assert Exec(ids, s, [Receive(k)]) == Apply(ids, s, Receive(k));
  }

  // ---------------------------------------------------------------- how a Send ends

  /** The steps that call `k` has taken, told from where it is. */
  predicate Recounts(c: Call, trace: seq<Step>, k: nat) {
    && (Register(k) in trace <==> Begun(c.pc) && c.pc != Done(NotConnected))
    && (TimeOut(k) in trace <==> Ended(c.pc) && c.pc.outcome == TimedOut)
    && (Post(k, false) in trace <==> Ended(c.pc) && c.pc.outcome == PostFailed)
    && (Receive(k) in trace <==> Ended(c.pc) && (c.pc.outcome.Data? || c.pc.outcome == Disconnected))
    && (CleanUp(k) in trace <==> c.pc.Done? && c.pc != Done(NotConnected))
    && (c.channel.Some? ==> c.channel.value.Data? || c.channel.value == Disconnected)
    && c.pc != Returning(NotConnected)
  }

  lemma {:induction false} LastIn(trace: seq<Step>, x: Step)
    requires trace != []
    ensures x in trace <==> x in trace[..|trace| - 1] || x == trace[|trace| - 1]
  {
  }

  lemma {:induction false} AllLastIn(trace: seq<Step>)
    requires trace != []
    ensures forall x :: x in trace <==> x in trace[..|trace| - 1] || x == trace[|trace| - 1]
  {
    forall x ensures x in trace <==> x in trace[..|trace| - 1] || x == trace[|trace| - 1] { LastIn(trace, x); }
  }

  lemma {:induction false} OwnStepRecounts(ids: seq<Id>, s: State, step: Step, k: nat, before: seq<Step>, after: seq<Step>)
    requires |ids| == |s.calls| && k < |ids| && Own(step, k) && Apply(ids, s, step).Some? && Recounts(s.calls[k], before, k)
    requires forall x :: x in after <==> x in before || x == step
    ensures |Apply(ids, s, step).value.calls| == |ids| && Recounts(Apply(ids, s, step).value.calls[k], after, k)
  {
    match step
    case Check(_) =>
    case Register(_) =>
    case Post(_, _) =>
    case Receive(_) =>
    case TimeOut(_) =>
    case CleanUp(_) =>
  }

  /** In every run a Send ends with a timeout, a failed post, a received outcome or without registering
      exactly when it took that step, and only responses and disconnections are received. */
  lemma {:induction false} SendEnds(ids: seq<Id>, trace: seq<Step>, k: nat)
    requires k < |ids| && Exec(ids, Init(|ids|), trace).Some?
    ensures Recounts(Exec(ids, Init(|ids|), trace).value.calls[k], trace, k)
  {
    if trace != [] {
      var front, last := trace[..|trace| - 1], trace[|trace| - 1];
      SendEnds(ids, front, k);
      AllLastIn(trace);
      var s := Exec(ids, Init(|ids|), front).value;
      if Own(last, k) { OwnStepRecounts(ids, s, last, k, front, trace); } else { ForeignStep(ids, s, last, k); }
    }
  }

  /** The flag is up until a Disconnect or a lost connection. */
  lemma {:induction false} ConnectedIff(ids: seq<Id>, trace: seq<Step>)
    requires Exec(ids, Init(|ids|), trace).Some?
    ensures Exec(ids, Init(|ids|), trace).value.connected <==> Disconnect !in trace && LoseConnection !in trace
  {
    if trace != [] {
      ConnectedIff(ids, trace[..|trace| - 1]);
      AllLastIn(trace);
    }
  }

  /** A Send is refused exactly when it begins after a Disconnect or a lost connection. */
  lemma {:induction false} RefusedIff(ids: seq<Id>, trace: seq<Step>, k: nat)
    requires k < |ids| && Exec(ids, Init(|ids|), trace + [Check(k)]).Some?
    ensures var pc := Exec(ids, Init(|ids|), trace + [Check(k)]).value.calls[k].pc;
      pc == if Disconnect in trace || LoseConnection in trace then Done(NotConnected) else Checked
  {
    assert (trace + [Check(k)])[..|trace|] == trace;
    ConnectedIff(ids, trace);
  }

  // ---------------------------------------------------------------- responses follow requests

  function LookUps(trace: seq<Step>): nat {
    if trace == [] then 0 else LookUps(trace[..|trace| - 1]) + if trace[|trace| - 1].LookUp? then 1 else 0
  }

  lemma {:induction false} LookUpsGrow(trace: seq<Step>, i: nat, j: nat)
    requires i <= j <= |trace|
    ensures LookUps(trace[..i]) <= LookUps(trace[..j])
    ensures i < j && trace[i].LookUp? ==> LookUps(trace[..i]) < LookUps(trace[..j])
    decreases j
  {
    if i < j {
      assert trace[..j][..j - 1] == trace[..j - 1];
      LookUpsGrow(trace, i, j - 1);
    }
  }

  /** The log lists the messages looked up. */
  lemma {:induction false} LoggedAt(ids: seq<Id>, trace: seq<Step>, n: nat) returns (j: nat)
    requires Exec(ids, Init(|ids|), trace).Some? && n < |Exec(ids, Init(|ids|), trace).value.log|
    ensures j < |trace| && trace[j] == LookUp(Exec(ids, Init(|ids|), trace).value.log[n].message) && LookUps(trace[..j]) == n
  {
    var front := trace[..|trace| - 1];
    var s := Exec(ids, Init(|ids|), front).value;
    LogGrows(ids, s, trace[|trace| - 1]);
    if n < |s.log| {
      j := LoggedAt(ids, front, n);
      assert front[..j] == trace[..j];
    } else {
      j := |trace| - 1;
      LogLength(ids, front);
    }
  }

  lemma {:induction false} LogLength(ids: seq<Id>, trace: seq<Step>)
    requires Exec(ids, Init(|ids|), trace).Some?
    ensures |Exec(ids, Init(|ids|), trace).value.log| == LookUps(trace)
  {
    if trace != [] {
      var front, last := trace[..|trace| - 1], trace[|trace| - 1];
      LogLength(ids, front);
      LogGrows(ids, Exec(ids, Init(|ids|), front).value, last);
    }
  }

  lemma {:induction false} LogGrows(ids: seq<Id>, s: State, step: Step)
    requires |ids| == |s.calls| && Apply(ids, s, step).Some?
    ensures |Apply(ids, s, step).value.log| == |s.log| + if step.LookUp? then 1 else 0
    ensures s.log <= Apply(ids, s, step).value.log
    ensures step.LookUp? ==> Apply(ids, s, step).value.log[|s.log|].message == step.message
  {
  }

  lemma {:induction false} SinceKept(ids: seq<Id>, s: State, step: Step, k: nat)
    requires |ids| == |s.calls| && k < |ids| && Apply(ids, s, step).Some?
    ensures |Apply(ids, s, step).value.calls| == |ids|
    ensures Apply(ids, s, step).value.calls[k].since == if step == Register(k) then |s.log| else s.calls[k].since
  {
  }

  /** A registered Send remembers how many messages had been looked up. */
  lemma {:induction false} RegisteredAt(ids: seq<Id>, trace: seq<Step>, k: nat) returns (i: nat)
    requires k < |ids| && Exec(ids, Init(|ids|), trace).Some? && Register(k) in trace
    ensures i < |trace| && trace[i] == Register(k) && LookUps(trace[..i]) == Exec(ids, Init(|ids|), trace).value.calls[k].since
  {
    var front, last := trace[..|trace| - 1], trace[|trace| - 1];
    var s := Exec(ids, Init(|ids|), front).value;
    SinceKept(ids, s, last, k);
    if last == Register(k) {
      i := |trace| - 1;
      LogLength(ids, front);
    } else {
      AllLastIn(trace);
      i := RegisteredAt(ids, front, k);
      assert front[..i] == trace[..i];
    }
  }

  /** In every run the response that a Send returns has its id and was looked up after it registered. */
  lemma {:induction false} ResponseFollowsRequest(ids: seq<Id>, trace: seq<Step>, k: nat) returns (i: nat, j: nat)
    requires k < |ids| && Exec(ids, Init(|ids|), trace).Some?
    requires var c := Exec(ids, Init(|ids|), trace).value.calls[k]; Ended(c.pc) && c.pc.outcome.Data?
    ensures i < j < |trace| && trace[i] == Register(k)
    ensures var m := Exec(ids, Init(|ids|), trace).value.calls[k].pc.outcome.message; m.id == ids[k] && trace[j] == LookUp(m)
  {
    var s := Exec(ids, Init(|ids|), trace).value;
    RunMatches(ids, trace);
    assert CallMatches(ids, s, k);
    SendEnds(ids, trace, k);
    i := RegisteredAt(ids, trace, k);
    j := LoggedAt(ids, trace, s.calls[k].pc.outcome.number);
    if j < i { LookUpsGrow(trace, j, i); }
  }

  // ---------------------------------------------------------------- a lost connection

  lemma {:induction false} Then(ids: seq<Id>, s: State, trace: seq<Step>, u: State, step: Step) returns (longer: seq<Step>)
    requires |ids| == |s.calls| && |ids| == |u.calls| && Exec(ids, s, trace) == Some(u) && Apply(ids, u, step).Some?
    ensures longer == trace + [step] && Exec(ids, s, longer) == Apply(ids, u, step)
  {
    longer := trace + [step];
    assert longer[..|trace|] == trace;
  }

  /** What a drain has done to call `k` so far. */
  predicate Drained(ids: seq<Id>, s: State, u: State, k: nat)
    requires |ids| == |s.calls| == |u.calls| && k < |ids|
  {
    && u.calls[k].pc == s.calls[k].pc
    && (ids[k] in s.pending && s.pending[ids[k]] == k && ids[k] !in u.pending ==> u.calls[k].channel.Some?)
    && (u.calls[k].channel == s.calls[k].channel || (s.calls[k].channel.None? && u.calls[k].channel == Some(Disconnected)))
  }

  predicate DrainedSoFar(ids: seq<Id>, s: State, u: State)
    requires |ids| == |s.calls| == |u.calls|
  {
    && (forall id :: id in u.pending ==> id in s.pending && u.pending[id] == s.pending[id] && u.pending[id] < |ids|)
    && forall k :: 0 <= k < |ids| ==> Drained(ids, s, u, k)
  }

  /** One entry more. */
  lemma {:induction false} DrainStep(ids: seq<Id>, s: State, u: State, id: Id)
    requires |ids| == |s.calls| == |u.calls| && DrainedSoFar(ids, s, u) && u.reader == Draining && id in u.pending
    ensures Apply(ids, u, DrainOne(id)).Some?
    ensures var v := Apply(ids, u, DrainOne(id)).value;
      && |v.calls| == |ids| && DrainedSoFar(ids, s, v) && v.reader == Draining && v.pending == u.pending - {id}
      && v.connected == u.connected
  {
    var v := Apply(ids, u, DrainOne(id)).value;
    forall k | 0 <= k < |ids| ensures Drained(ids, s, v, k) {
      assert Drained(ids, s, u, k);
    }
  }

  /** The rest of a drain. */
  lemma {:induction false} DrainRest(ids: seq<Id>, s: State, u: State, trace: seq<Step>) returns (longer: seq<Step>)
    requires |ids| == |s.calls| == |u.calls| && DrainedSoFar(ids, s, u) && u.reader == Draining && Exec(ids, s, trace) == Some(u)
    requires forall x :: x in trace ==> !OfSend(x)
    ensures trace <= longer && Exec(ids, s, longer).Some? && forall x :: x in longer ==> !OfSend(x)
    ensures Exec(ids, s, longer).value.connected == u.connected
    ensures var e := Exec(ids, s, longer).value; e.reader == Stopped && e.pending == map[] && DrainedSoFar(ids, s, e)
    decreases |u.pending|
  {
    if u.pending == map[] {
      longer := Then(ids, s, trace, u, EndDrain);
      var e := Exec(ids, s, longer).value;
      forall k | 0 <= k < |ids| ensures Drained(ids, s, e, k) { assert Drained(ids, s, u, k); }
    } else {
      var id :| id in u.pending;
      DrainStep(ids, s, u, id);
      longer := Then(ids, s, trace, u, DrainOne(id));
      assert (u.pending - {id}).Keys == u.pending.Keys - {id};
      longer := DrainRest(ids, s, Apply(ids, u, DrainOne(id)).value, longer);
    }
  }

  /** When a connection is lost that nobody has disconnected, the reader's own steps empty the pending
      table, tell every Send in it that had nothing yet that it is disconnected, and stop. */
  lemma {:induction false} LossIsReported(ids: seq<Id>, s: State) returns (trace: seq<Step>)
    requires |ids| == |s.calls| && s.reader == Reading && s.connected
    requires forall id :: id in s.pending ==> s.pending[id] < |ids|
    ensures trace != [] && trace[0] == LoseConnection && forall x :: x in trace ==> !OfSend(x)
    ensures Exec(ids, s, trace).Some?
    ensures var e := Exec(ids, s, trace).value;
      && e.reader == Stopped && !e.connected && e.pending == map[]
      && forall k :: 0 <= k < |ids| && ids[k] in s.pending && s.pending[ids[k]] == k ==>
           e.calls[k].channel == if s.calls[k].channel.None? then Some(Disconnected) else s.calls[k].channel
  {
    assert Exec(ids, s, []) == Some(s);
    trace := Then(ids, s, [], s, LoseConnection);
    var s1 := s.(connected := false, reader := Failing);
    trace := Then(ids, s, trace, s1, BeginDrain);
    var s2 := s1.(reader := Draining);
    assert forall k :: 0 <= k < |ids| ==> Drained(ids, s, s2, k);
    assert trace[0] == LoseConnection;
    trace := DrainRest(ids, s, s2, trace);
    var e := Exec(ids, s, trace).value;
    forall k | 0 <= k < |ids| && ids[k] in s.pending && s.pending[ids[k]] == k
      ensures e.calls[k].channel == if s.calls[k].channel.None? then Some(Disconnected) else s.calls[k].channel
    {
      assert Drained(ids, s, e, k);
    }
  }

  /** After a Disconnect the reader stops at once, with the table as it is. */
  lemma {:induction false} DisconnectIsSilent(ids: seq<Id>, s: State)
    requires |ids| == |s.calls| && s.reader == Reading && !s.connected
    ensures Apply(ids, s, LoseConnection) == Some(s.(reader := Stopped))
  {
  }
}
