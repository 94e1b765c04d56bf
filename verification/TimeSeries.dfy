/** The dashboard's traffic history: sampling, the ring, and coarser buckets. */
module TimeSeries {
  import opened Common

  const SAMPLE_INTERVAL := 5
  const BUCKET_CAP := 17280

  /** The nine additive quantities of a bucket. */
  datatype Tally = Tally(up: nat, down: nat, accepted: nat, tunnel: nat, bypass: nat, block: nat,
                         shakesOk: nat, shakesFail: nat, reconnects: nat)

  const ZERO := Tally(0, 0, 0, 0, 0, 0, 0, 0, 0)

  function Plus(a: Tally, b: Tally): Tally
  {
    Tally(a.up + b.up, a.down + b.down, a.accepted + b.accepted, a.tunnel + b.tunnel, a.bypass + b.bypass,
          a.block + b.block, a.shakesOk + b.shakesOk, a.shakesFail + b.shakesFail, a.reconnects + b.reconnects)
  }

  function Sub(a: nat, b: nat): nat { if a <= b then 0 else a - b }

  /** Difference, field by field, never below zero. */
  function Minus(a: Tally, b: Tally): Tally
  {
    Tally(Sub(a.up, b.up), Sub(a.down, b.down), Sub(a.accepted, b.accepted), Sub(a.tunnel, b.tunnel),
          Sub(a.bypass, b.bypass), Sub(a.block, b.block), Sub(a.shakesOk, b.shakesOk),
          Sub(a.shakesFail, b.shakesFail), Sub(a.reconnects, b.reconnects))
  }

  /** `active` is a gauge: connections accepted less those completed. */
  datatype Bucket = Bucket(ts: nat, active: int, tally: Tally)

  datatype Counters = Counters(tally: Tally, completed: nat)

  function Sample(prev: Counters, cur: Counters, now: nat): Bucket
  {
    Bucket(now - now % SAMPLE_INTERVAL, cur.tally.accepted - cur.completed, Minus(cur.tally, prev.tally))
  }

  /** What the counters and the clock show at one tick. */
  datatype Reading = Reading(counters: Counters, now: nat)

  function Last(prev: Counters, readings: seq<Reading>): Counters
  {
    if readings == [] then prev else readings[|readings| - 1].counters
  }

  /** All buckets ever made, in order. */
  function Buckets(readings: seq<Reading>): seq<Bucket>
  {
    if readings == [] then []
    else
      var front, r := readings[..|readings| - 1], readings[|readings| - 1];
      Buckets(front) + [Sample(Last(Counters(ZERO, 0), front), r.counters, r.now)]
  }

  // ---- one field at a time ----

  datatype Field = Up | Down | Accepted | Tunnel | Bypass | Block | ShakesOk | ShakesFail | Reconnects

  function Get(t: Tally, f: Field): nat
  {
    match f
    case Up => t.up
    case Down => t.down
    case Accepted => t.accepted
    case Tunnel => t.tunnel
    case Bypass => t.bypass
    case Block => t.block
    case ShakesOk => t.shakesOk
    case ShakesFail => t.shakesFail
    case Reconnects => t.reconnects
  }

  lemma GetPlusMinus(a: Tally, b: Tally, f: Field)
    ensures Get(Plus(a, b), f) == Get(a, f) + Get(b, f)
    ensures Get(Minus(a, b), f) == Sub(Get(a, f), Get(b, f))
  {
  }

  /** Total of one field. */
  function Sum(buckets: seq<Bucket>, f: Field): nat
  {
    if buckets == [] then 0 else Sum(buckets[..|buckets| - 1], f) + Get(buckets[|buckets| - 1].tally, f)
  }

  /** By how much one counter ever went down. */
  function Drops(readings: seq<Reading>, f: Field): nat
  {
    if readings == [] then 0
    else
      var front := readings[..|readings| - 1];
      Drops(front, f)
      + Sub(Get(Last(Counters(ZERO, 0), front).tally, f), Get(readings[|readings| - 1].counters.tally, f))
  }

  /** The deltas telescope: over any run those of a field sum to its last
      snapshot plus whatever its counter lost on the way, so to exactly the last
      snapshot if and only if it never went down. */
  lemma {:induction false} DeltasTelescope(readings: seq<Reading>, f: Field)
    ensures Sum(Buckets(readings), f) == Get(Last(Counters(ZERO, 0), readings).tally, f) + Drops(readings, f)
  {
    if readings != [] {
      var front := readings[..|readings| - 1];
      DeltasTelescope(front, f);
      var b := Buckets(readings);
      assert b[..|b| - 1] == Buckets(front);
      GetPlusMinus(readings[|front|].counters.tally, Last(Counters(ZERO, 0), front).tally, f);
    }
  }

  /** Every tick makes one bucket. Its time is the start of the five-second slot
      the clock was in, its gauge what was open then, and every field what was
      counted since the tick before. */
  lemma {:induction false} BucketsAreSlots(readings: seq<Reading>, k: nat, f: Field)
    requires k < |readings|
    ensures |Buckets(readings)| == |readings|
    ensures var b, r := Buckets(readings)[k], readings[k];
      && b.ts % SAMPLE_INTERVAL == 0 && b.ts <= r.now < b.ts + SAMPLE_INTERVAL
      && b.active == r.counters.tally.accepted - r.counters.completed
      && Get(b.tally, f) == Max(Get(r.counters.tally, f) - (if k == 0 then 0 else Get(readings[k - 1].counters.tally, f)), 0)
  {
    var front := readings[..|readings| - 1];
    if k < |front| {
      BucketsAreSlots(front, k, f);
    } else {
      if front != [] { BucketsAreSlots(front, 0, f); }
      GetPlusMinus(readings[k].counters.tally, Last(Counters(ZERO, 0), front).tally, f);
    }
  }

  lemma {:induction false} SumConcat(a: seq<Bucket>, b: seq<Bucket>, f: Field)
    ensures Sum(a + b, f) == Sum(a, f) + Sum(b, f)
  {
    if b == [] {
      assert a + b == a;
    } else {
      assert (a + b)[..|a + b| - 1] == a + b[..|b| - 1];
      SumConcat(a, b[..|b| - 1], f);
    }
  }

  // ---- the ring ----

  class Dashboard {
    var ring: seq<Bucket>

    constructor ()
      ensures ring == []
    {
      ring := [];
    }

    method PushBucket(b: Bucket)
      modifies this
      ensures ring == (if |old(ring)| >= BUCKET_CAP then old(ring)[1..] else old(ring)) + [b]
    {
      if |ring| >= BUCKET_CAP { ring := ring[1..]; }
      ring := ring + [b];
    }

    /** One iteration a reading: the ring ends with the newest 17280 buckets. */
    method RunSampler(readings: seq<Reading>)
      requires ring == []
      modifies this
      ensures ring == Newest(Buckets(readings), BUCKET_CAP)
    {
      var prev := Counters(ZERO, 0);
      for i := 0 to |readings|
        invariant prev == Last(Counters(ZERO, 0), readings[..i])
        invariant ring == Newest(Buckets(readings[..i]), BUCKET_CAP)
      {
        assert readings[..i + 1][..i] == readings[..i];
        var bucket := Sample(prev, readings[i].counters, readings[i].now);
        prev := readings[i].counters;
        PushBucket(bucket);
      }
      assert readings[..|readings|] == readings;
    }
  }

  /** Nothing is lost track of: what left the ring and what is in it sum to the
      last snapshot, if and only if the counter never went down. */
  lemma RingAndEvicted(readings: seq<Reading>, f: Field, gone: seq<Bucket>, ring: seq<Bucket>)
    requires Buckets(readings) == gone + ring && ring == Newest(Buckets(readings), BUCKET_CAP)
    ensures Sum(gone, f) + Sum(ring, f) == Get(Last(Counters(ZERO, 0), readings).tally, f) <==> Drops(readings, f) == 0
  {
    SumConcat(gone, ring, f);
    DeltasTelescope(readings, f);
  }

  // ---- re-bucketing ----

  /** Which slot a time falls into, for slots of `width` seconds. */
  function By(width: nat): nat -> nat
    requires width > 0
  {
    (ts: nat) => ts / width
  }

  /** Later bucket `b` merged into `a`: amounts add, gauge and time are `b`'s. */
  function Merge(a: Bucket, b: Bucket): Bucket { Bucket(b.ts, b.active, Plus(a.tally, b.tally)) }

  function Absorb(out: seq<Bucket>, b: Bucket, slot: nat -> nat): seq<Bucket>
  {
    if out != [] && slot(out[|out| - 1].ts) == slot(b.ts)
    then out[..|out| - 1] + [Merge(out[|out| - 1], b)]
    else out + [b]
  }

  function Rebucket(buckets: seq<Bucket>, slot: nat -> nat): seq<Bucket>
  {
    if buckets == [] then [] else Absorb(Rebucket(buckets[..|buckets| - 1], slot), buckets[|buckets| - 1], slot)
  }

  method RebucketLoop(buckets: seq<Bucket>, width: nat) returns (out: seq<Bucket>)
    requires width > 0
    ensures out == Rebucket(buckets, By(width))
  {
    out := [];
    for i := 0 to |buckets|
      invariant out == Rebucket(buckets[..i], By(width))
    {
      assert buckets[..i + 1][..i] == buckets[..i];
      var b := buckets[i];
      var slot := b.ts / width;
      if |out| > 0 {
        var last := out[|out| - 1];
        if last.ts / width == slot {
          out := out[|out| - 1 := Bucket(b.ts, b.active, Plus(last.tally, b.tally))];
          continue;
        }
      }
      out := out + [b];
    }
    assert buckets[..|buckets|] == buckets;
  }

  lemma SumSnoc(a: seq<Bucket>, b: Bucket, f: Field)
    ensures Sum(a + [b], f) == Sum(a, f) + Get(b.tally, f)
  {
    assert (a + [b])[..|a|] == a;
  }

  lemma AbsorbSum(out: seq<Bucket>, b: Bucket, slot: nat -> nat, f: Field)
    ensures Sum(Absorb(out, b, slot), f) == Sum(out, f) + Get(b.tally, f)
  {
    SumSnoc(out, b, f);
    if out != [] {
      SumSnoc(out[..|out| - 1], Merge(out[|out| - 1], b), f);
      GetPlusMinus(out[|out| - 1].tally, b.tally, f);
    }
  }

  /** No traffic is gained or lost, in any field, whatever the timestamps. */
  lemma {:induction false} TotalsKept(buckets: seq<Bucket>, slot: nat -> nat, f: Field)
    ensures Sum(Rebucket(buckets, slot), f) == Sum(buckets, f)
  {
    if buckets != [] {
      var front := buckets[..|buckets| - 1];
      TotalsKept(front, slot, f);
      AbsorbSum(Rebucket(front, slot), buckets[|buckets| - 1], slot, f);
    }
  }

  // ---- one bucket a slot ----

  /** Total of one field over slot `at`. */
  function SlotSum(buckets: seq<Bucket>, at: nat, slot: nat -> nat, f: Field): nat
  {
    if buckets == [] then 0
    else
      var b := buckets[|buckets| - 1];
      SlotSum(buckets[..|buckets| - 1], at, slot, f) + if slot(b.ts) == at then Get(b.tally, f) else 0
  }

  /** The last bucket of slot `at`. */
  function LastOf(buckets: seq<Bucket>, at: nat, slot: nat -> nat): Option<Bucket>
  {
    if buckets == [] then None
    else
      var b := buckets[|buckets| - 1];
      if slot(b.ts) == at then Some(b) else LastOf(buckets[..|buckets| - 1], at, slot)
  }

  ghost predicate Ascending(buckets: seq<Bucket>)
  {
    forall i, j :: 0 <= i < j < |buckets| ==> buckets[i].ts <= buckets[j].ts
  }

  ghost predicate Monotone(slot: nat -> nat)
  {
    forall s: nat, t: nat :: s <= t ==> slot(s) <= slot(t)
  }

  ghost predicate SlotsRise(out: seq<Bucket>, slot: nat -> nat)
  {
    forall i, j :: 0 <= i < j < |out| ==> slot(out[i].ts) < slot(out[j].ts)
  }

  ghost predicate HasSlot(out: seq<Bucket>, at: nat, slot: nat -> nat)
  {
    exists i :: 0 <= i < |out| && slot(out[i].ts) == at
  }

  /** `o` stands for its slot: the time and gauge of its last bucket, and the
      total of all of them. */
  ghost predicate StandsFor(o: Bucket, buckets: seq<Bucket>, slot: nat -> nat, f: Field)
  {
    var l := LastOf(buckets, slot(o.ts), slot);
    && l.Some? && o.ts == l.value.ts && o.active == l.value.active
    && Get(o.tally, f) == SlotSum(buckets, slot(o.ts), slot, f)
  }

  ghost predicate OneEach(out: seq<Bucket>, buckets: seq<Bucket>, slot: nat -> nat, f: Field)
  {
    && SlotsRise(out, slot)
    && (forall i :: 0 <= i < |out| ==> StandsFor(out[i], buckets, slot, f))
    && (forall at: nat :: LastOf(buckets, at, slot).Some? ==> HasSlot(out, at, slot))
  }

  lemma {:induction false} NoneSums(buckets: seq<Bucket>, at: nat, slot: nat -> nat, f: Field)
    requires LastOf(buckets, at, slot).None?
    ensures SlotSum(buckets, at, slot, f) == 0
  {
    if buckets != [] { NoneSums(buckets[..|buckets| - 1], at, slot, f); }
  }

  /** What one more bucket changes, and what it does not. */
  lemma {:induction false} OneMore(front: seq<Bucket>, b: Bucket, slot: nat -> nat, f: Field)
    ensures LastOf(front + [b], slot(b.ts), slot) == Some(b)
    ensures SlotSum(front + [b], slot(b.ts), slot, f) == SlotSum(front, slot(b.ts), slot, f) + Get(b.tally, f)
    ensures forall at: nat :: at != slot(b.ts) ==> LastOf(front + [b], at, slot) == LastOf(front, at, slot)
    ensures forall o: Bucket :: slot(o.ts) != slot(b.ts) && StandsFor(o, front, slot, f) ==> StandsFor(o, front + [b], slot, f)
  {
    assert (front + [b])[..|front|] == front;
  }

  /** Replacing or adding the last bucket of the output. */
  lemma LastStep(rest: seq<Bucket>, o: Bucket, out: seq<Bucket>, front: seq<Bucket>, b: Bucket, slot: nat -> nat, f: Field)
    requires OneEach(out, front, slot, f) && rest <= out && slot(o.ts) == slot(b.ts)
    requires StandsFor(o, front + [b], slot, f)
    requires forall i :: 0 <= i < |rest| ==> slot(rest[i].ts) < slot(b.ts)
    requires forall i :: |rest| <= i < |out| ==> slot(out[i].ts) == slot(b.ts)
    ensures OneEach(rest + [o], front + [b], slot, f)
  {
    OneMore(front, b, slot, f);
    var next := rest + [o];
    assert forall i :: 0 <= i < |rest| ==> next[i] == out[i];
    forall at: nat | LastOf(front + [b], at, slot).Some? ensures HasSlot(next, at, slot) {
      if at == slot(b.ts) {
        assert slot(next[|rest|].ts) == at;
      } else {
        assert HasSlot(out, at, slot);
        var i :| 0 <= i < |out| && slot(out[i].ts) == at;
        assert slot(next[i].ts) == at;
      }
    }
  }

  lemma AbsorbStep(out: seq<Bucket>, front: seq<Bucket>, b: Bucket, slot: nat -> nat, f: Field)
    requires OneEach(out, front, slot, f)
    requires out != [] ==> slot(out[|out| - 1].ts) <= slot(b.ts)
    ensures OneEach(Absorb(out, b, slot), front + [b], slot, f)
  {
    OneMore(front, b, slot, f);
    if out != [] && slot(out[|out| - 1].ts) == slot(b.ts) {
      var l := out[|out| - 1];
      GetPlusMinus(l.tally, b.tally, f);
      assert StandsFor(l, front, slot, f);
      LastStep(out[..|out| - 1], Merge(l, b), out, front, b, slot, f);
    } else {
      assert !HasSlot(out, slot(b.ts), slot);
      NoneSums(front, slot(b.ts), slot, f);
      LastStep(out, b, out, front, b, slot, f);
    }
  }

  lemma RebucketEnd(buckets: seq<Bucket>, slot: nat -> nat)
    requires buckets != []
    ensures Rebucket(buckets, slot) != []
    ensures Rebucket(buckets, slot)[|Rebucket(buckets, slot)| - 1].ts == buckets[|buckets| - 1].ts
  {
  }

  lemma NextIsLater(front: seq<Bucket>, b: Bucket, slot: nat -> nat)
    requires Ascending(front + [b]) && Monotone(slot)
    ensures Ascending(front)
    ensures var out := Rebucket(front, slot); out != [] ==> slot(out[|out| - 1].ts) <= slot(b.ts)
  {
    var all := front + [b];
    assert forall i :: 0 <= i < |front| ==> all[i] == front[i];
    if front != [] {
      RebucketEnd(front, slot);
      assert all[|front| - 1].ts <= all[|front|].ts;
    }
  }

  lemma {:induction false} OnePerSlotBy(buckets: seq<Bucket>, slot: nat -> nat, f: Field)
    requires Ascending(buckets) && Monotone(slot)
    ensures OneEach(Rebucket(buckets, slot), buckets, slot, f)
  {
    if buckets != [] {
      var front, b := buckets[..|buckets| - 1], buckets[|buckets| - 1];
      assert buckets == front + [b];
      NextIsLater(front, b, slot);
      OnePerSlotBy(front, slot, f);
      AbsorbStep(Rebucket(front, slot), front, b, slot, f);
    }
  }

  /** On ascending times the result has exactly one bucket for each slot that
      occurs, in order, and it stands for all of that slot. */
  lemma OnePerSlot(buckets: seq<Bucket>, width: nat, f: Field)
    requires width > 0 && Ascending(buckets)
    ensures OneEach(Rebucket(buckets, By(width)), buckets, By(width), f)
  {
    forall s: nat, t: nat | s <= t ensures By(width)(s) <= By(width)(t) { DivMonotone(s, t, width); }
    OnePerSlotBy(buckets, By(width), f);
  }

  // ---- nesting ----

  lemma MergeIsAssociative(a: Bucket, b: Bucket, c: Bucket)
    ensures Merge(Merge(a, b), c) == Merge(a, Merge(b, c))
  {
  }

  /** Absorbing a merged pair is absorbing one, then the other. */
  lemma AbsorbMerged(out: seq<Bucket>, l: Bucket, x: Bucket, slot: nat -> nat)
    requires slot(l.ts) == slot(x.ts)
    ensures Absorb(out, Merge(l, x), slot) == Absorb(Absorb(out, l, slot), x, slot)
  {
    if out != [] { MergeIsAssociative(out[|out| - 1], l, x); }
  }

  lemma RebucketSnoc(a: seq<Bucket>, b: Bucket, slot: nat -> nat)
    ensures Rebucket(a + [b], slot) == Absorb(Rebucket(a, slot), b, slot)
  {
    assert (a + [b])[..|a|] == a;
  }

  /** Every slot of `fine` lies within one slot of `coarse`. */
  ghost predicate Finer(fine: nat -> nat, coarse: nat -> nat)
  {
    forall s: nat, t: nat :: fine(s) == fine(t) ==> coarse(s) == coarse(t)
  }

  lemma {:induction false} Nests(buckets: seq<Bucket>, fine: nat -> nat, coarse: nat -> nat)
    requires Finer(fine, coarse)
    ensures Rebucket(Rebucket(buckets, fine), coarse) == Rebucket(buckets, coarse)
  {
    if buckets != [] {
      var n := |buckets| - 1;
      var front, b := buckets[..n], buckets[n];
      Nests(front, fine, coarse);
      var out := Rebucket(front, fine);
      if out != [] && fine(out[|out| - 1].ts) == fine(b.ts) {
        var l, more := out[|out| - 1], out[..|out| - 1];
        RebucketSnoc(more, Merge(l, b), coarse);
        AbsorbMerged(Rebucket(more, coarse), l, b, coarse);
      } else {
        RebucketSnoc(out, b, coarse);
      }
    }
  }

  lemma RebucketOne(x: Bucket, slot: nat -> nat)
    ensures Rebucket([x], slot) == [x]
  {
    RebucketSnoc([], x, slot);
    assert [] + [x] == [x];
  }

  lemma RebucketPair(x: Bucket, y: Bucket, slot: nat -> nat)
    ensures Rebucket([x, y], slot) == if slot(x.ts) == slot(y.ts) then [Merge(x, y)] else [x, y]
  {
    RebucketOne(x, slot);
    RebucketSnoc([x], y, slot);
    assert [x] + [y] == [x, y];
  }

  /** Two idle samples. */
  function Pair(s: nat, t: nat): seq<Bucket> { [Bucket(s, 0, ZERO), Bucket(t, 0, ZERO)] }

  lemma PairAscends(s: nat, t: nat)
    requires s <= t
    ensures Ascending(Pair(s, t))
  {
  }

  /** Two samples that `fine` merges and `coarse` keeps apart. */
  lemma {:induction false} Straddles(fine: nat -> nat, coarse: nat -> nat, s: nat, t: nat)
    requires fine(s) == fine(t) && coarse(s) != coarse(t)
    ensures Rebucket(Rebucket(Pair(s, t), fine), coarse) != Rebucket(Pair(s, t), coarse)
  {
    var x, y := Bucket(s, 0, ZERO), Bucket(t, 0, ZERO);
    RebucketPair(x, y, fine);
    RebucketPair(x, y, coarse);
    RebucketOne(Merge(x, y), coarse);
  }

  lemma WidthsNest(w1: nat, w2: nat)
    requires w1 > 0 && w2 > 0
    ensures Finer(By(w1), By(w2)) <==> w2 % w1 == 0
  {
    if w2 % w1 == 0 {
      forall s: nat, t: nat | By(w1)(s) == By(w1)(t) ensures By(w2)(s) == By(w2)(t) {
        DivOfDiv(s, w1, w2);
        DivOfDiv(t, w1, w2);
      }
    } else {
      EdgeInside(w1, w2);
      assert By(w1)(w2 - 1) == By(w1)(w2) && By(w2)(w2 - 1) != By(w2)(w2);
    }
  }

  /** Re-bucketing twice is re-bucketing once at the wider width, for every
      history, or every ascending one, if and only if the first width divides
      the second. */
  lemma NestsIff(w1: nat, w2: nat)
    requires w1 > 0 && w2 > 0
    ensures (forall b: seq<Bucket> :: Rebucket(Rebucket(b, By(w1)), By(w2)) == Rebucket(b, By(w2))) <==> w2 % w1 == 0
    ensures (forall b: seq<Bucket> :: Ascending(b) ==> Rebucket(Rebucket(b, By(w1)), By(w2)) == Rebucket(b, By(w2)))
        <==> w2 % w1 == 0
  {
    WidthsNest(w1, w2);
    if w2 % w1 == 0 {
      forall b: seq<Bucket> ensures Rebucket(Rebucket(b, By(w1)), By(w2)) == Rebucket(b, By(w2)) {
        Nests(b, By(w1), By(w2));
      }
    } else {
      EdgeInside(w1, w2);
      Straddles(By(w1), By(w2), w2 - 1, w2);
      PairAscends(w2 - 1, w2);
    }
  }

  // ---- division by a variable ----

  lemma DivSplit(x: nat, w: nat)
    requires w > 0
    ensures x == w * (x / w) + x % w && 0 <= x % w < w
  {
  }

  lemma MulBelow(w: nat, a: nat, b: nat)
    requires a < b
    ensures w * a + w <= w * b
  {
    assert w * b == w * a + w * (b - a) && w * (b - a) == w + w * (b - a - 1);
  }

  lemma DivUnique(x: nat, w: nat, e: nat, rest: nat)
    requires w > 0 && rest < w && x == w * e + rest
    ensures x / w == e
  {
    DivSplit(x, w);
    if x / w < e { MulBelow(w, x / w, e); } else if e < x / w { MulBelow(w, e, x / w); }
  }

  lemma DivMonotone(s: nat, t: nat, w: nat)
    requires w > 0 && s <= t
    ensures s / w <= t / w
  {
    DivSplit(s, w);
    DivSplit(t, w);
    if t / w < s / w { MulBelow(w, t / w, s / w); }
  }

  lemma DivOfDiv(x: nat, w1: nat, w2: nat)
    requires w1 > 0 && w2 > 0 && w2 % w1 == 0
    ensures w2 / w1 > 0 && x / w2 == x / w1 / (w2 / w1)
  {
    DivSplit(w2, w1);
    var q, d := w2 / w1, x / w1;
    assert q > 0;
    DivSplit(x, w1);
    DivSplit(d, q);
    var e, t := d / q, d % q;
    MulBelow(w1, t, q);
    Regroup(w1, q, e, t);
    DivUnique(x, w2, e, w1 * t + x % w1);
  }

  lemma Regroup(w: nat, q: nat, e: nat, t: nat)
    ensures w * (q * e + t) == w * q * e + w * t
  {
  }

  lemma EdgeInside(w1: nat, w2: nat)
    requires w1 > 0 && w2 > 0 && w2 % w1 != 0
    ensures (w2 - 1) / w1 == w2 / w1 && (w2 - 1) / w2 == 0 && w2 / w2 == 1
  {
    DivSplit(w2, w1);
    DivUnique(w2 - 1, w1, w2 / w1, w2 % w1 - 1);
    DivUnique(w2 - 1, w2, 0, w2 - 1);
    DivUnique(w2, w2, 1, 0);
  }
}
