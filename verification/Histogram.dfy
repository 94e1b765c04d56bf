/** Latency histograms: recording, percentiles, and export while recording. */
module Histogram {
  import opened Common

  /** Bucket `v` is counted in: the first whose bound is at least `v`, else the
      last. */
  function SlotFrom(bounds: seq<nat>, v: nat, i: nat): nat
    requires i < |bounds|
    ensures i <= SlotFrom(bounds, v, i) < |bounds|
    decreases |bounds| - i
  {
    if v <= bounds[i] || i == |bounds| - 1 then i else SlotFrom(bounds, v, i + 1)
  }

  function Slot(bounds: seq<nat>, v: nat): nat
    requires bounds != []
  {
    SlotFrom(bounds, v, 0)
  }

  /** The bucket counts after some samples. */
  function Counts(bounds: seq<nat>, samples: seq<nat>): (r: seq<nat>)
    ensures |r| == |bounds|
  {
    if samples == [] || bounds == [] then seq(|bounds|, _ => 0)
    else
      var before, i := Counts(bounds, samples[..|samples| - 1]), Slot(bounds, samples[|samples| - 1]);
      before[i := before[i] + 1]
  }

  /** Sum of the first `n` counts. */
  function Cumulative(counts: seq<nat>, n: nat): nat
    requires n <= |counts|
  {
    if n == 0 then 0 else Cumulative(counts, n - 1) + counts[n - 1]
  }

  /** How many samples are at most `bound`. */
  function AtMost(samples: seq<nat>, bound: nat): nat
  {
    if samples == [] then 0
    else AtMost(samples[..|samples| - 1], bound) + if samples[|samples| - 1] <= bound then 1 else 0
  }

  ghost predicate Sorted(bounds: seq<nat>)
  {
    forall i, j :: 0 <= i < j < |bounds| ==> bounds[i] <= bounds[j]
  }

  lemma {:induction false} CumulativeBump(counts: seq<nat>, i: nat, n: nat)
    requires i < |counts| && n <= |counts|
    ensures Cumulative(counts[i := counts[i] + 1], n) == Cumulative(counts, n) + if i < n then 1 else 0
  {
    if n > 0 { CumulativeBump(counts, i, n - 1); }
  }

  lemma {:induction false} CumulativeZero(n: nat, size: nat)
    requires n <= size
    ensures Cumulative(seq(size, _ => 0), n) == 0
  {
    if n > 0 { CumulativeZero(n - 1, size); }
  }

  /** All samples are counted, once: if there is a bucket at all. */
  lemma {:induction false} CountsSumToTotal(bounds: seq<nat>, samples: seq<nat>)
    ensures Cumulative(Counts(bounds, samples), |bounds|) == |samples| <==> bounds != [] || samples == []
  {
    if bounds == [] {
    } else if samples == [] {
      CumulativeZero(|bounds|, |bounds|);
    } else {
      var front := samples[..|samples| - 1];
      CountsSumToTotal(bounds, front);
      CumulativeBump(Counts(bounds, front), Slot(bounds, samples[|samples| - 1]), |bounds|);
    }
  }

  lemma {:induction false} SlotBelow(bounds: seq<nat>, v: nat, i: nat, n: nat)
    requires Sorted(bounds) && i <= n && n < |bounds| - 1
    ensures SlotFrom(bounds, v, i) <= n <==> v <= bounds[n]
    decreases n - i
  {
    if i < n {
      assert bounds[i] <= bounds[n];
      if v > bounds[i] { SlotBelow(bounds, v, i + 1, n); }
    } else if v > bounds[n] {
      assert SlotFrom(bounds, v, n) == SlotFrom(bounds, v, n + 1);
    }
  }

  /** Up to any bound but the last, the running count is the number of samples
      at or below that bound. */
  lemma {:induction false} CumulativeIsAtMost(bounds: seq<nat>, samples: seq<nat>, n: nat)
    requires Sorted(bounds) && n < |bounds| - 1
    ensures Cumulative(Counts(bounds, samples), n + 1) == AtMost(samples, bounds[n])
  {
    if samples == [] {
      CumulativeZero(n + 1, |bounds|);
    } else {
      var front, v := samples[..|samples| - 1], samples[|samples| - 1];
      CumulativeIsAtMost(bounds, front, n);
      CumulativeBump(Counts(bounds, front), Slot(bounds, v), n + 1);
      SlotBelow(bounds, v, 0, n);
    }
  }

  lemma {:induction false} AtMostIff(samples: seq<nat>, bound: nat)
    ensures AtMost(samples, bound) <= |samples|
    ensures AtMost(samples, bound) == |samples| <==> forall v :: v in samples ==> v <= bound
  {
    if samples != [] {
      AtMostIff(samples[..|samples| - 1], bound);
      var front, last := samples[..|samples| - 1], samples[|samples| - 1];
      assert samples == front + [last] && last in samples;
      assert forall v :: v in front ==> v in samples;
    }
  }

  /** The last bound also counts what is above it: its running count is the
      number of samples at or below it if and only if none is above. */
  lemma LastCountsAll(bounds: seq<nat>, samples: seq<nat>)
    requires bounds != []
    ensures Cumulative(Counts(bounds, samples), |bounds|) == AtMost(samples, bounds[|bounds| - 1]) <==>
      forall v :: v in samples ==> v <= bounds[|bounds| - 1]
  {
    CountsSumToTotal(bounds, samples);
    AtMostIff(samples, bounds[|bounds| - 1]);
  }

  class LatencyHistogram {
    const bounds: seq<nat>
    const counts: array<nat>
    var total: nat
    var sum: nat
    /** Everything recorded. */
    ghost var samples: seq<nat>

    ghost predicate Valid()
      reads this, counts
    {
      counts.Length == |bounds| && total == |samples| && counts[..] == Counts(bounds, samples)
    }

    constructor (bounds: seq<nat>)
      ensures Valid() && this.bounds == bounds && samples == [] && fresh(counts)
    {
      this.bounds := bounds;
      counts := new nat[|bounds|](_ => 0);
      total, sum, samples := 0, 0, [];
      new;
      assert counts[..] == seq(|bounds|, _ => 0);
    }

    method Record(value: nat)
      requires Valid()
      modifies this, counts
      ensures Valid() && samples == old(samples) + [value] && sum == old(sum) + value
    {
      total := total + 1;
      sum := sum + value;
      ghost var before := counts[..];
      samples := samples + [value];
      assert samples[..|samples| - 1] == old(samples);
      for i := 0 to |bounds|
        invariant counts[..] == before && (i < |bounds| ==> Slot(bounds, value) == SlotFrom(bounds, value, i))
        invariant i == |bounds| > 0 ==> Slot(bounds, value) == i - 1
      {
        if value <= bounds[i] {
          counts[i] := counts[i] + 1;
          assert counts[..] == before[i := before[i] + 1];
          return;
        }
      }
      if counts.Length > 0 {
        var last := counts.Length - 1;
        counts[last] := counts[last] + 1;
        assert counts[..] == before[last := before[last] + 1];
      }
    }

    /** The least bound whose running count reaches the target, which is the
        whole part of `total * p / 100`; no bound reaching it, the last. */
    method Percentile(p: real) returns (r: nat)
      requires Valid()
      ensures total == 0 || bounds == [] ==> r == 0
      ensures total > 0 && bounds != [] ==>
        exists i :: 0 <= i < |bounds| && r == bounds[i] && FirstToReach(Counts(bounds, samples), i, Target(total, p))
    {
      if total == 0 { return 0; }
      var target := Target(total, p);
      var cumulative := 0;
      for i := 0 to |bounds|
        invariant cumulative == Cumulative(counts[..], i)
        invariant forall n :: 1 <= n <= i ==> Cumulative(counts[..], n) < target
      {
        cumulative := cumulative + counts[i];
        assert cumulative == Cumulative(counts[..], i + 1);
        if cumulative >= target {
          assert FirstToReach(counts[..], i, target);
          return bounds[i];
        }
      }
      if bounds == [] { return 0; }
      assert FirstToReach(counts[..], |bounds| - 1, target);
      r := bounds[|bounds| - 1];
    }
  }

  /** The running count reaches `target` in bucket `i` and in none before; the
      last bucket also stands for never. */
  ghost predicate FirstToReach(counts: seq<nat>, i: nat, target: nat)
    requires i < |counts|
  {
    && (forall n :: 1 <= n <= i ==> Cumulative(counts, n) < target)
    && (i < |counts| - 1 ==> Cumulative(counts, i + 1) >= target)
  }

  function Target(total: nat, p: real): nat
  {
    var x := total as real * p / 100.0;
    if x < 0.0 then 0 else x.Floor
  }

  /** The target is the share of the samples, rounded down: for a percentage it
      is at most all of them, and all of them only at one hundred. */
  lemma TargetIsShare(total: nat, p: real)
    ensures p <= 0.0 ==> Target(total, p) == 0
    ensures p >= 0.0 ==> 100.0 * Target(total, p) as real <= total as real * p < 100.0 * (Target(total, p) + 1) as real
    ensures p == 100.0 ==> Target(total, p) == total
    ensures p < 100.0 && total > 0 ==> Target(total, p) < total
  {
    var x := total as real * p / 100.0;
    assert x * 100.0 == total as real * p;
    if p <= 0.0 {
      NoShare(total as real, p);
    } else {
      NoShare(total as real, -p);
      if p < 100.0 && total > 0 { SmallerShare(total as real, p); }
    }
  }

  lemma NoShare(t: real, p: real)
    requires t >= 0.0
    ensures p <= 0.0 ==> t * p <= 0.0
    ensures p >= 0.0 ==> t * p >= 0.0
  {
  }

  lemma SmallerShare(t: real, p: real)
    requires t > 0.0 && p < 100.0
    ensures t * p < 100.0 * t
  {
    assert t * (100.0 - p) > 0.0;
  }

  /** So for sorted bounds, a percentile that is not the last bound has at least
      the target number of samples at or below it, and no smaller bound has. */
  lemma PercentileMeaning(bounds: seq<nat>, samples: seq<nat>, i: nat, target: nat)
    requires Sorted(bounds) && i < |bounds| - 1
    ensures FirstToReach(Counts(bounds, samples), i, target) <==>
      AtMost(samples, bounds[i]) >= target && forall j :: 0 <= j < i ==> AtMost(samples, bounds[j]) < target
  {
    CumulativeIsAtMost(bounds, samples, i);
    var counts := Counts(bounds, samples);
    if forall j :: 0 <= j < i ==> AtMost(samples, bounds[j]) < target {
      forall n | 1 <= n <= i ensures Cumulative(counts, n) < target { CumulativeIsAtMost(bounds, samples, n - 1); }
    }
    if FirstToReach(counts, i, target) {
      forall j | 0 <= j < i ensures AtMost(samples, bounds[j]) < target {
        CumulativeIsAtMost(bounds, samples, j);
      }
    }
  }

  // ---- export while recording ----

  /** Recorders in progress have counted the total but not yet their bucket;
      the exporter has read the first buckets so far, and at the end the total. */
  datatype State = State(total: nat, counts: seq<nat>, recording: multiset<nat>, read: seq<nat>, infinity: Option<nat>)

  datatype Step = CountTotal(bucket: nat) | CountBucket(slot: nat) | ReadBucket | ReadTotal | StartOver

  ghost predicate Enabled(s: State, step: Step)
  {
    match step
    case CountTotal(i) => i < |s.counts|
    case CountBucket(i) => i in s.recording && i < |s.counts|
    case ReadBucket => |s.read| < |s.counts|
    case ReadTotal => |s.read| == |s.counts|
    case StartOver => true
  }

  ghost function Next(s: State, step: Step): State
    requires Enabled(s, step)
  {
    match step
    case CountTotal(i) => s.(total := s.total + 1, recording := s.recording + multiset{i})
    case CountBucket(i) => s.(counts := s.counts[i := s.counts[i] + 1], recording := s.recording - multiset{i})
    case ReadBucket => s.(read := s.read + [s.counts[|s.read|]])
    case ReadTotal => s.(infinity := Some(s.total))
    case StartOver => s.(read := [], infinity := None)
  }

  ghost predicate Run(trace: seq<State>, steps: seq<Step>)
  {
    && |trace| == |steps| + 1
    && trace[0].total == 0 && trace[0].recording == multiset{} && trace[0].read == [] && trace[0].infinity == None
    && (forall i :: 0 <= i < |trace[0].counts| ==> trace[0].counts[i] == 0)
    && forall i :: 0 <= i < |steps| ==> Enabled(trace[i], steps[i]) && trace[i + 1] == Next(trace[i], steps[i])
  }

  ghost predicate Inv(s: State)
  {
    && Cumulative(s.counts, |s.counts|) + |s.recording| == s.total
    && |s.read| <= |s.counts| && (forall i :: 0 <= i < |s.read| ==> s.read[i] <= s.counts[i])
    && (s.infinity.Some? ==> |s.read| == |s.counts| && Cumulative(s.read, |s.read|) <= s.infinity.value)
  }

  lemma {:induction false} CumulativeBelow(a: seq<nat>, b: seq<nat>, n: nat)
    requires n <= |a| && n <= |b| && forall i :: 0 <= i < n ==> a[i] <= b[i]
    ensures Cumulative(a, n) <= Cumulative(b, n)
  {
    if n > 0 { CumulativeBelow(a, b, n - 1); }
  }

  lemma {:induction false} CumulativeGrows(a: seq<nat>, m: nat, n: nat)
    requires m <= n <= |a|
    ensures Cumulative(a, m) <= Cumulative(a, n)
  {
    if m < n { CumulativeGrows(a, m, n - 1); }
  }

  lemma {:induction false} AllZero(a: seq<nat>, n: nat)
    requires n <= |a| && forall i :: 0 <= i < n ==> a[i] == 0
    ensures Cumulative(a, n) == 0
  {
    if n > 0 { AllZero(a, n - 1); }
  }

  lemma StepKeepsInv(s: State, step: Step)
    requires Inv(s) && Enabled(s, step)
    ensures Inv(Next(s, step))
  {
    match step
    case CountBucket(i) => CumulativeBump(s.counts, i, |s.counts|);
    case ReadTotal => CumulativeBelow(s.read, s.counts, |s.counts|);
    case _ =>
  }

  lemma {:induction false} RunKeepsInv(trace: seq<State>, steps: seq<Step>, k: nat)
    requires Run(trace, steps) && k < |trace|
    ensures Inv(trace[k])
  {
    if k == 0 {
      AllZero(trace[0].counts, |trace[0].counts|);
    } else {
      RunKeepsInv(trace, steps, k - 1);
      StepKeepsInv(trace[k - 1], steps[k - 1]);
    }
  }

  /** In every interleaving of recorders with an export, every finite line
      exported is at most the `+Inf` line; when nobody is recording the counts
      sum to the total. */
  lemma ExportIsMonotone(trace: seq<State>, steps: seq<Step>, k: nat, n: nat)
    requires Run(trace, steps) && k < |trace| && n <= |trace[k].read|
    ensures trace[k].infinity.Some? ==> Cumulative(trace[k].read, n) <= trace[k].infinity.value
    ensures trace[k].recording == multiset{} ==> Cumulative(trace[k].counts, |trace[k].counts|) == trace[k].total
  {
    RunKeepsInv(trace, steps, k);
    CumulativeGrows(trace[k].read, n, |trace[k].read|);
  }

  /** Bucket counts read since the export last started over. */
  function ReadsSince(steps: seq<Step>): nat
  {
    if steps == [] then 0
    else
      var last, n := steps[|steps| - 1], ReadsSince(steps[..|steps| - 1]);
      if last.StartOver? then 0 else if last.ReadBucket? then n + 1 else n
  }

  function TotalRead(steps: seq<Step>): bool
  {
    steps != [] && !steps[|steps| - 1].StartOver? && (steps[|steps| - 1].ReadTotal? || TotalRead(steps[..|steps| - 1]))
  }

  function Times(steps: seq<Step>, step: Step): nat { multiset(steps)[step] }

  function TotalsCounted(steps: seq<Step>): nat
  {
    if steps == [] then 0
    else TotalsCounted(steps[..|steps| - 1]) + if steps[|steps| - 1].CountTotal? then 1 else 0
  }

  lemma TimesStep(steps: seq<Step>, i: nat, step: Step)
    requires 0 < i <= |steps|
    ensures Times(steps[..i], step) == Times(steps[..i - 1], step) + if steps[i - 1] == step then 1 else 0
  {
    assert steps[..i] == steps[..i - 1] + [steps[i - 1]];
  }

  /** What step `k` does to the counters and the export. */
  ghost predicate Moves(trace: seq<State>, steps: seq<Step>, k: nat)
    requires k < |steps| < |trace|
  {
    var s, step, t := trace[k], steps[k], trace[k + 1];
    && |t.counts| == |s.counts| && t.total == s.total + (if step.CountTotal? then 1 else 0)
    && (forall i :: 0 <= i < |s.counts| ==> t.counts[i] == s.counts[i] + if step == CountBucket(i) then 1 else 0)
    && |t.read| == (if step.StartOver? then 0 else if step.ReadBucket? then |s.read| + 1 else |s.read|)
    && (t.infinity.Some? <==> !step.StartOver? && (step.ReadTotal? || s.infinity.Some?))
  }

  lemma StepMoves(trace: seq<State>, steps: seq<Step>, k: nat)
    requires Run(trace, steps) && k < |steps|
    ensures Moves(trace, steps, k)
  {
    match steps[k]
    case CountTotal(_) =>
    case CountBucket(_) =>
    case ReadBucket =>
    case _ =>
  }

  lemma {:induction false} CountsAlong(trace: seq<State>, steps: seq<Step>, k: nat, i: nat)
    requires k <= |steps| < |trace| && trace[0].total == 0 && trace[0].read == [] && trace[0].infinity == None
    requires forall j :: 0 <= j < |trace[0].counts| ==> trace[0].counts[j] == 0
    requires forall j :: 0 <= j < k ==> Moves(trace, steps, j)
    ensures |trace[k].counts| == |trace[0].counts|
    ensures i < |trace[0].counts| ==> trace[k].counts[i] == Times(steps[..k], CountBucket(i))
    ensures trace[k].total == TotalsCounted(steps[..k])
    ensures |trace[k].read| == ReadsSince(steps[..k]) && (trace[k].infinity.Some? <==> TotalRead(steps[..k]))
  {
    if k > 0 {
      CountsAlong(trace, steps, k - 1, i);
      assert Moves(trace, steps, k - 1);
      assert steps[..k][..k - 1] == steps[..k - 1];
      TimesStep(steps, k, CountBucket(i));
    }
  }

  /** The counters hold what the recorders have counted, and the export is as
      far as its own steps have taken it. */
  lemma CountersFollowSteps(trace: seq<State>, steps: seq<Step>, k: nat, i: nat)
    requires Run(trace, steps) && k < |trace|
    ensures |trace[k].counts| == |trace[0].counts|
    ensures i < |trace[0].counts| ==> trace[k].counts[i] == Times(steps[..k], CountBucket(i))
    ensures trace[k].total == TotalsCounted(steps[..k])
    ensures |trace[k].read| == ReadsSince(steps[..k]) && (trace[k].infinity.Some? <==> TotalRead(steps[..k]))
  {
    forall j | 0 <= j < k ensures Moves(trace, steps, j) { StepMoves(trace, steps, j); }
    CountsAlong(trace, steps, k, i);
  }

  /** Line `n` of an export is what its counter held at the moment it was read,
      and so is the `+Inf` line. */
  lemma {:induction false} ExportSees(trace: seq<State>, steps: seq<Step>, k: nat, n: nat)
    requires Run(trace, steps) && k < |trace|
    ensures n < |trace[k].read| ==>
      exists j :: 0 <= j < k && steps[j].ReadBucket? && |trace[j].read| == n < |trace[j].counts| && trace[k].read[n] == trace[j].counts[n]
    ensures trace[k].infinity.Some? ==>
      exists j :: 0 <= j < k && steps[j].ReadTotal? && trace[k].infinity.value == trace[j].total
  {
    if k > 0 { ExportSees(trace, steps, k - 1, n); }
  }

  /** The lines of one export, from the bucket counts read for it. */
  method RenderBuckets(read: seq<nat>) returns (lines: seq<nat>)
    ensures |lines| == |read| && forall k :: 0 <= k < |read| ==> lines[k] == Cumulative(read, k + 1)
  {
    lines := [];
    var cumulative := 0;
    for i := 0 to |read|
      invariant |lines| == i && cumulative == Cumulative(read, i)
      invariant forall k :: 0 <= k < i ==> lines[k] == Cumulative(read, k + 1)
    {
      cumulative := cumulative + read[i];
      lines := lines + [cumulative];
    }
  }
}
