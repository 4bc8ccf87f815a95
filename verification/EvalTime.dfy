/** The rolling average of evaluation times (internal/policy/engine.go:276-285). */
module EvalTime {

  const MAX_INT64: int := 0x7FFF_FFFF_FFFF_FFFF
  const MAX_SAMPLE: int := MAX_INT64 / 100

  /** One update; an average of zero counts as unset. */
  function Update(avg: int, sample: int): int {
    if avg == 0 then sample else (avg * 90 + sample * 10) / 100
  }

  function Average(samples: seq<int>): int {
    if samples == [] then 0 else Update(Average(samples[..|samples| - 1]), samples[|samples| - 1])
  }

  function Repeated(avg: int, sample: int, times: nat): int {
    if times == 0 then avg else Update(Repeated(avg, sample, times - 1), sample)
  }

  /** The engine's average, with the samples it has seen. */
  class Timer {
    var avgEvalTimeNs: int
    ghost var samples: seq<int>

    /** The field is the average of the whole history and fits an int64. */
    ghost predicate Valid()
      reads this
    {
      && avgEvalTimeNs == Average(samples)
      && (forall i :: 0 <= i < |samples| ==> 0 <= samples[i] <= MAX_SAMPLE)
      && 0 <= avgEvalTimeNs <= MAX_SAMPLE
    }

    constructor ()
      ensures Valid() && samples == []
    {
      avgEvalTimeNs := 0;
      samples := [];
    }

    /** After the call the average lies between any bounds of all samples so far, and no intermediate
        value has left int64. */
    method UpdateAvgEvalTime(sample: int)
      requires Valid() && 0 <= sample <= MAX_SAMPLE
      modifies this
      ensures Valid() && samples == old(samples) + [sample]
      ensures forall low, high :: 0 <= low && Within(samples, low, high) ==> low <= avgEvalTimeNs <= high
    {
      var alpha := 10;
      if avgEvalTimeNs == 0 {
        avgEvalTimeNs := sample;
      } else {
        var old90 := avgEvalTimeNs * (100 - alpha);
        var new10 := sample * alpha;
        assert 0 <= old90 <= MAX_INT64 && 0 <= new10 <= MAX_INT64 && old90 + new10 <= MAX_INT64;
        avgEvalTimeNs := (old90 + new10) / 100;
      }
      ghost var before := samples;
      samples := samples + [sample];
      assert samples[..|samples| - 1] == before;
      forall low, high | 0 <= low && Within(samples, low, high) ensures low <= avgEvalTimeNs <= high {
        AverageBounded(samples, low, high);
      }
      AverageBounded(samples, 0, MAX_SAMPLE);
    }
  }

  predicate Within(samples: seq<int>, low: int, high: int) {
    forall i :: 0 <= i < |samples| ==> low <= samples[i] <= high
  }

  lemma UpdateBetween(avg: int, sample: int, low: int, high: int)
    requires 0 <= low <= avg <= high && low <= sample <= high
    ensures low <= Update(avg, sample) <= high
  {
  }

  /** After any non-empty run the average lies between the smallest and the largest sample. */
  lemma {:induction false} AverageBounded(samples: seq<int>, low: int, high: int)
    requires samples != [] && 0 <= low && Within(samples, low, high)
    ensures low <= Average(samples) <= high
  {
    var front, last := samples[..|samples| - 1], samples[|samples| - 1];
    assert low <= last <= high;
    if front != [] {
      AverageBounded(front, low, high);
      UpdateBetween(Average(front), last, low, high);
    }
  }

  /** With samples of at most (2^63-1)/100 the intermediate sum never leaves int64. */
  lemma NoOverflow(samples: seq<int>, sample: int)
    requires forall i :: 0 <= i < |samples| ==> 0 <= samples[i] <= MAX_SAMPLE
    requires 0 <= sample <= MAX_SAMPLE
    ensures 0 <= Average(samples) * 90 + sample * 10 <= MAX_INT64
  {
    if samples != [] { AverageBounded(samples, 0, MAX_SAMPLE); }
  }

  predicate Settled(avg: int, sample: int) {
    0 <= sample - avg <= 9
  }

  function Gap(avg: int, sample: int): nat {
    if avg <= sample then sample - avg else avg - sample
  }

  /** Under a constant sample the gap shrinks until the average is at most nine below it, and stays. */
  lemma GapShrinks(avg: int, sample: int)
    requires avg >= 0 && sample >= 0
    ensures Settled(avg, sample) ==> Settled(Update(avg, sample), sample)
    ensures !Settled(avg, sample) ==> Gap(Update(avg, sample), sample) < Gap(avg, sample)
    ensures Update(avg, sample) >= 0
  {
    if avg != 0 {
      assert avg * 90 + sample * 10 == 100 * avg + 10 * (sample - avg);
    }
  }

  /** A gap of nine can last: the average then never reaches the sample. */
  lemma {:induction false} GapOfNineLasts(sample: int, times: nat)
    requires sample > 9
    ensures Repeated(sample - 9, sample, times) == sample - 9
  {
    if times > 0 {
      GapOfNineLasts(sample, times - 1);
      assert (sample - 9) * 90 + sample * 10 == 100 * (sample - 9) + 90;
    }
  }

  lemma {:induction false} AverageConverges(avg: int, sample: int, times: nat)
    requires avg >= 0 && sample >= 0 && times >= Gap(avg, sample)
    ensures Settled(Repeated(avg, sample, times), sample)
  {
    GapAfter(avg, sample, times);
  }

  lemma {:induction false} GapAfter(avg: int, sample: int, times: nat)
    requires avg >= 0 && sample >= 0
    ensures Repeated(avg, sample, times) >= 0
    ensures Settled(Repeated(avg, sample, times), sample) ||
            Gap(Repeated(avg, sample, times), sample) + times <= Gap(avg, sample)
  {
    if times > 0 {
      GapAfter(avg, sample, times - 1);
      GapShrinks(Repeated(avg, sample, times - 1), sample);
    }
  }
}
