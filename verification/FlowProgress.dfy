/** How one direction of a flow gets on: when it goes quiet, and what it has
    delivered by then. */
module FlowProgress {
  import opened Common
  import opened SendLoop
  import opened FlowSystem

  /** Steps of this direction that move data or credit along without loss. */
  predicate Forward(step: Step)
  {
    step.Load? || step.SkipEmpty? || step.SendFrame? || step.Arrive? || step.Take? || step.Write? || step.Grant?
    || step.GrantArrives?
  }

  /** Nothing has been torn down and nothing lost. */
  ghost predicate Healthy(s: Flow)
  {
    s.sending && s.registered && s.senderKnows && s.lost.Total() == 0 && !s.consumer.Gone?
  }

  /** No forward step is left. */
  ghost predicate Quiet(s: Flow) { forall step :: Forward(step) ==> !Enabled(s, step) }

  predicate Delivered(s: Flow) { s.written == s.offered }

  /** The next frame is too large to pad: its send must fail. */
  predicate Oversize(s: Flow) { s.unsent != [] && FrameSize(s) > MAX_SENDABLE }

  /** The consumer waits for room in the other direction with data queued. */
  predicate Blocked(s: Flow) { s.consumer.Busy? && Flatten(s.queue) != [] }

  lemma QuietParts(s: Flow)
    requires Healthy(s) && Quiet(s)
    ensures s.inflight == [] && s.grants == [] && (s.consumer.Busy? || (s.consumer.Idle? && s.queue == []))
    ensures s.unsent != [] ==> HasData(s) && (s.credits == 0 || Oversize(s))
  {
    assert !Enabled(s, Load) && !Enabled(s, SkipEmpty) && !Enabled(s, SendFrame) && !Enabled(s, Arrive);
    assert !Enabled(s, Take) && !Enabled(s, Write) && !Enabled(s, Grant) && !Enabled(s, GrantArrives);
  }

  /** What is left of the stream and of the window in a quiet flow. */
  lemma QuietRests(s: Flow)
    requires Healthy(s) && Quiet(s) && Total(s) == INITIAL_FLOW_WINDOW && Intact(s)
    ensures |s.offered| == |s.written| + |Flatten(s.queue)| + |Flatten(s.unsent)|
    ensures s.credits + |Flatten(s.queue)| == INITIAL_FLOW_WINDOW
    ensures Delivered(s) <==> Flatten(s.queue) == [] && Flatten(s.unsent) == []
  {
    QuietParts(s);
    var q, u := Flatten(s.queue), Flatten(s.unsent);
    assert s.offered == Cat5(s.written, [], q, [], u);
    if q == [] && u == [] { assert Cat5(s.written, [], [], [], []) == s.written; }
  }

  lemma StateQuietIff(s: Flow)
    requires Healthy(s) && Quiet(s) && Total(s) == INITIAL_FLOW_WINDOW && Intact(s)
    ensures !Delivered(s) <==> Oversize(s) || Blocked(s)
    ensures Delivered(s) ==> s.credits == INITIAL_FLOW_WINDOW && s.unsent == []
  {
    QuietParts(s);
    QuietRests(s);
    if s.unsent != [] { FlattenHead(s.unsent); }
  }

  /** A healthy flow that goes quiet has not delivered every byte if and only if
      its next frame is above 16376 bytes, or its consumer waits for room in the
      other direction with data queued. A sender out of credit, by itself,
      always has some coming back. */
  lemma QuietIff(trace: seq<Flow>, steps: seq<Step>, i: nat)
    requires Run(trace, steps) && i < |trace| && Healthy(trace[i]) && Quiet(trace[i])
    ensures !Delivered(trace[i]) <==> Oversize(trace[i]) || Blocked(trace[i])
    ensures Delivered(trace[i]) ==> trace[i].credits == INITIAL_FLOW_WINDOW && trace[i].unsent == []
  {
    CreditIsConserved(trace, steps, i);
    StreamIsKept(trace, steps, i);
    StateQuietIff(trace[i]);
  }

  // ---- which inputs are delivered ----

  ghost predicate SmallChunks(chunks: seq<seq<byte>>)
  {
    forall k :: 0 <= k < |chunks| ==> |chunks[k]| <= MAX_SENDABLE
  }

  /** The chunks offered in the course of some steps. */
  function OfferedBy(steps: seq<Step>): seq<seq<byte>>
  {
    if steps == [] then []
    else
      var front, last := OfferedBy(steps[..|steps| - 1]), steps[|steps| - 1];
      if last.Offer? then front + [last.chunk] else front
  }

  lemma StepKeepsSmall(s: Flow, step: Step)
    requires Enabled(s, step) && SmallChunks(s.unsent) && (step.Offer? ==> |step.chunk| <= MAX_SENDABLE)
    ensures SmallChunks(Next(s, step).unsent)
  {
  }

  lemma {:induction false} ChunksStaySmall(trace: seq<Flow>, steps: seq<Step>, i: nat)
    requires Run(trace, steps) && i < |trace| && SmallChunks(OfferedBy(steps[..i]))
    ensures SmallChunks(trace[i].unsent)
  {
    if i > 0 {
      var before := OfferedBy(steps[..i - 1]);
      assert steps[..i][..i - 1] == steps[..i - 1];
      assert before <= OfferedBy(steps[..i]);
      assert forall k :: 0 <= k < |before| ==> before[k] == OfferedBy(steps[..i])[k];
      if steps[i - 1].Offer? { assert OfferedBy(steps[..i])[|before|] == steps[i - 1].chunk; }
      ChunksStaySmall(trace, steps, i - 1);
      StepKeepsSmall(trace[i - 1], steps[i - 1]);
    }
  }

  /** So with chunks of at most 16376 bytes, a healthy flow that cannot go on and
      whose consumer is not kept waiting has delivered every byte. */
  lemma QuietMeansDelivered(trace: seq<Flow>, steps: seq<Step>, i: nat)
    requires Run(trace, steps) && i < |trace| && Healthy(trace[i]) && Quiet(trace[i])
    requires SmallChunks(OfferedBy(steps[..i])) && !Blocked(trace[i])
    ensures Delivered(trace[i])
  {
    QuietIff(trace, steps, i);
    ChunksStaySmall(trace, steps, i);
  }

  // ---- runs put together ----

  ghost predicate Path(s: Flow, steps: seq<Step>, t: Flow)
    decreases |steps|
  {
    if steps == [] then s == t else Enabled(s, steps[0]) && Path(Next(s, steps[0]), steps[1..], t)
  }

  lemma PathCons(s: Flow, step: Step, t: Flow, steps: seq<Step>, u: Flow)
    requires Enabled(s, step) && Next(s, step) == t && Path(t, steps, u)
    ensures Path(s, [step] + steps, u)
  {
    assert ([step] + steps)[1..] == steps;
  }

  lemma {:induction false} PathJoin(s: Flow, xs: seq<Step>, t: Flow, ys: seq<Step>, u: Flow)
    requires Path(s, xs, t) && Path(t, ys, u)
    ensures Path(s, xs + ys, u)
    decreases |xs|
  {
    if xs == [] {
      assert xs + ys == ys;
    } else {
      PathJoin(Next(s, xs[0]), xs[1..], t, ys, u);
      assert (xs + ys)[1..] == xs[1..] + ys;
    }
  }

  lemma {:induction false} PathTrace(s: Flow, steps: seq<Step>, t: Flow) returns (trace: seq<Flow>)
    requires Path(s, steps, t)
    ensures |trace| == |steps| + 1 && trace[0] == s && trace[|steps|] == t
    ensures forall i :: 0 <= i < |steps| ==> Enabled(trace[i], steps[i]) && trace[i + 1] == Next(trace[i], steps[i])
    decreases |steps|
  {
    if steps == [] {
      trace := [s];
    } else {
      var rest := PathTrace(Next(s, steps[0]), steps[1..], t);
      trace := [s] + rest;
      forall i | 0 <= i < |steps| ensures Enabled(trace[i], steps[i]) && trace[i + 1] == Next(trace[i], steps[i]) {
        if i > 0 { assert trace[i] == rest[i - 1] && trace[i + 1] == rest[i] && steps[i] == steps[1..][i - 1]; }
      }
    }
  }

  /** A flow at rest that has carried `b` and nothing else. */
  function Rested(b: seq<byte>): Flow { Start().(offered := b, written := b) }

  /** Its steps while it carries one more chunk. */
  function Carry(c: seq<byte>): seq<Step>
  {
    if c == [] then [Offer(c), Load, SkipEmpty]
    else [Offer(c), Load, SendFrame, Arrive, Take, Write, Grant, GrantArrives]
  }

  lemma EmptyCarries(b: seq<byte>)
    ensures Path(Rested(b), Carry([]), Rested(b))
  {
    var s := Rested(b);
    var t := s.(unsent := [[]]);
    assert b + [] == b;
    PathCons(t.(loaded := true), SkipEmpty, s, [], s);
    PathCons(t, Load, t.(loaded := true), [SkipEmpty], s);
    PathCons(s, Offer([]), t, [Load] + [SkipEmpty], s);
    assert Carry([]) == [Offer([])] + ([Load] + [SkipEmpty]);
  }

  /** A flow that has carried `b` and has `c` queued at the receiver. */
  function Queued(b: seq<byte>, c: seq<byte>): Flow
    requires |c| <= MAX_SENDABLE
  {
    Rested(b).(offered := b + c, credits := INITIAL_FLOW_WINDOW - |c|, queue := [c])
  }

  lemma PathTwo(s: Flow, x: Step, t: Flow, y: Step, u: Flow)
    requires Enabled(s, x) && Next(s, x) == t && Enabled(t, y) && Next(t, y) == u
    ensures Path(s, [x, y], u)
  {
    assert Path(u, [], u);
    PathCons(t, y, u, [], u);
    PathCons(s, x, t, [y] + [], u);
    assert [x] + ([y] + []) == [x, y];
  }

  lemma ChunkQueues(b: seq<byte>, c: seq<byte>)
    requires 0 < |c| <= MAX_SENDABLE
    ensures Path(Rested(b), [Offer(c), Load, SendFrame, Arrive], Queued(b, c))
  {
    var s := Rested(b);
    var s1 := s.(offered := b + c, unsent := [c]);
    var s2 := s1.(loaded := true);
    var s3 := s.(offered := b + c, credits := INITIAL_FLOW_WINDOW - |c|, inflight := [c]);
    assert c[..|c|] == c;
    PathTwo(s, Offer(c), s1, Load, s2);
    PathTwo(s2, SendFrame, s3, Arrive, Queued(b, c));
    PathJoin(s, [Offer(c), Load], s2, [SendFrame, Arrive], Queued(b, c));
    assert [Offer(c), Load] + [SendFrame, Arrive] == [Offer(c), Load, SendFrame, Arrive];
  }

  lemma QueuedDrains(b: seq<byte>, c: seq<byte>)
    requires 0 < |c| <= MAX_SENDABLE
    ensures Path(Queued(b, c), [Take, Write, Grant, GrantArrives], Rested(b + c))
  {
    var s := Queued(b, c);
    var s1 := s.(queue := [], consumer := Writing(c));
    var s2 := s1.(written := b + c, consumer := Granting(|c|));
    var s3 := s2.(grants := [|c|], consumer := Idle);
    PathTwo(s, Take, s1, Write, s2);
    PathTwo(s2, Grant, s3, GrantArrives, Rested(b + c));
    PathJoin(s, [Take, Write], s2, [Grant, GrantArrives], Rested(b + c));
    assert [Take, Write] + [Grant, GrantArrives] == [Take, Write, Grant, GrantArrives];
  }

  lemma ChunkCarries(b: seq<byte>, c: seq<byte>)
    requires 0 < |c| <= MAX_SENDABLE
    ensures Path(Rested(b), Carry(c), Rested(b + c))
  {
    ChunkQueues(b, c);
    QueuedDrains(b, c);
    var xs, ys := [Offer(c), Load, SendFrame, Arrive], [Take, Write, Grant, GrantArrives];
    PathJoin(Rested(b), xs, Queued(b, c), ys, Rested(b + c));
    assert Carry(c) == xs + ys;
  }

  lemma {:induction false} OfferedJoin(xs: seq<Step>, ys: seq<Step>)
    ensures OfferedBy(xs + ys) == OfferedBy(xs) + OfferedBy(ys)
  {
    if ys == [] {
      assert xs + ys == xs;
    } else {
      assert (xs + ys)[..|xs + ys| - 1] == xs + ys[..|ys| - 1];
      OfferedJoin(xs, ys[..|ys| - 1]);
    }
  }

  lemma {:induction false} OffersNone(steps: seq<Step>)
    requires forall k :: 0 <= k < |steps| ==> !steps[k].Offer?
    ensures OfferedBy(steps) == []
  {
    if steps != [] { OffersNone(steps[..|steps| - 1]); }
  }

  lemma CarryOffers(c: seq<byte>)
    ensures OfferedBy(Carry(c)) == [c]
  {
    var rest := Carry(c)[1..];
    assert Carry(c) == [Offer(c)] + rest;
    OffersNone(rest);
    OfferedJoin([Offer(c)], rest);
    assert [Offer(c)][..0] == [];
    assert OfferedBy([Offer(c)]) == [c];
  }

  /** Small chunks can all be carried, one after the other. */
  lemma {:induction false} AllCarried(chunks: seq<seq<byte>>) returns (steps: seq<Step>)
    requires SmallChunks(chunks)
    ensures Path(Start(), steps, Rested(Flatten(chunks))) && OfferedBy(steps) == chunks
  {
    if chunks == [] {
      steps := [];
    } else {
      var front, c := chunks[..|chunks| - 1], chunks[|chunks| - 1];
      var before := AllCarried(front);
      var b := Flatten(front);
      if c == [] {
        EmptyCarries(b);
        assert b + c == b;
      } else {
        ChunkCarries(b, c);
      }
      PathJoin(Start(), before, Rested(b), Carry(c), Rested(b + c));
      steps := before + Carry(c);
      OfferedJoin(before, Carry(c));
      CarryOffers(c);
      assert chunks == front + [c];
    }
  }

  /** A chunk above 16376 bytes, offered to a flow at rest, leaves it healthy,
      quiet and undelivered. */
  lemma LargeChunkStops(b: seq<byte>, c: seq<byte>) returns (t: Flow)
    requires |c| > MAX_SENDABLE
    ensures Path(Rested(b), [Offer(c), Load], t) && Healthy(t) && Quiet(t) && !Blocked(t) && !Delivered(t)
  {
    var s := Rested(b).(offered := b + c, unsent := [c]);
    t := s.(loaded := true);
    PathCons(s, Load, t, [], t);
    PathCons(Rested(b), Offer(c), s, [Load], t);
    assert [Offer(c)] + [Load] == [Offer(c), Load];
    assert |t.offered| > |t.written|;
  }

  ghost predicate Stuck(trace: seq<Flow>, steps: seq<Step>, chunks: seq<seq<byte>>)
  {
    Run(trace, steps) && OfferedBy(steps) <= chunks
    && var s := trace[|steps|]; Healthy(s) && Quiet(s) && !Blocked(s) && !Delivered(s)
  }

  lemma LastOffer(c: seq<byte>)
    ensures OfferedBy([Offer(c), Load]) == [c]
  {
    OffersNone([Load]);
    OfferedJoin([Offer(c)], [Load]);
    assert [Offer(c)][..0] == [];
    assert OfferedBy([Offer(c)]) == [c] && [Offer(c)] + [Load] == [Offer(c), Load];
  }

  lemma {:induction false} LargeChunkPath(chunks: seq<seq<byte>>, k: nat) returns (steps: seq<Step>, t: Flow)
    requires k < |chunks| && |chunks[k]| > MAX_SENDABLE && SmallChunks(chunks[..k])
    ensures Path(Start(), steps, t) && OfferedBy(steps) == chunks[..k + 1]
    ensures Healthy(t) && Quiet(t) && !Blocked(t) && !Delivered(t)
  {
    var before := AllCarried(chunks[..k]);
    var b, last := Flatten(chunks[..k]), [Offer(chunks[k]), Load];
    t := LargeChunkStops(b, chunks[k]);
    PathJoin(Start(), before, Rested(b), last, t);
    steps := before + last;
    OfferedJoin(before, last);
    LastOffer(chunks[k]);
    assert chunks[..k] + [chunks[k]] == chunks[..k + 1];
  }

  lemma {:induction false} LargeChunkSticks(chunks: seq<seq<byte>>, k: nat) returns (trace: seq<Flow>, steps: seq<Step>)
    requires k < |chunks| && |chunks[k]| > MAX_SENDABLE && SmallChunks(chunks[..k])
    ensures Stuck(trace, steps, chunks)
  {
    var t;
    steps, t := LargeChunkPath(chunks, k);
    trace := PathTrace(Start(), steps, t);
  }

  lemma {:induction false} FirstLarge(chunks: seq<seq<byte>>) returns (k: nat)
    requires !SmallChunks(chunks)
    ensures k < |chunks| && |chunks[k]| > MAX_SENDABLE && SmallChunks(chunks[..k])
  {
    k := 0;
    while |chunks[k]| <= MAX_SENDABLE
      invariant k < |chunks| && SmallChunks(chunks[..k])
      invariant exists j :: k <= j < |chunks| && |chunks[j]| > MAX_SENDABLE
      decreases |chunks| - k
    {
      k := k + 1;
    }
  }

  /** Over chunk sequences: every healthy run that offers some of them in order
      and goes quiet, without its consumer kept waiting, delivers what it was
      offered, if and only if all of them are at most 16376 bytes. */
  lemma DeliversIff(chunks: seq<seq<byte>>)
    ensures (forall trace, steps :: !Stuck(trace, steps, chunks)) <==> SmallChunks(chunks)
  {
    if SmallChunks(chunks) {
      forall trace, steps ensures !Stuck(trace, steps, chunks) {
        if Stuck(trace, steps, chunks) {
          var offered := OfferedBy(steps);
          assert forall k :: 0 <= k < |offered| ==> offered[k] == chunks[k];
          assert steps[..|steps|] == steps;
          QuietMeansDelivered(trace, steps, |steps|);
        }
      }
    } else {
      var k := FirstLarge(chunks);
      var trace, steps := LargeChunkSticks(chunks, k);
    }
  }

  /** And a consumer kept waiting stops any flow with a frame on its way. */
  lemma WaitingConsumerStops(b: seq<byte>, c: seq<byte>, other: seq<byte>) returns (t: Flow)
    requires 0 < |c| <= MAX_SENDABLE
    ensures Path(Rested(b), [Offer(c), Load, SendFrame, Arrive] + [Blocks(other)], t)
    ensures Healthy(t) && Quiet(t) && Blocked(t) && !Delivered(t)
  {
    t := Queued(b, c).(consumer := Busy(other));
    ChunkQueues(b, c);
    assert Path(t, [], t);
    PathCons(Queued(b, c), Blocks(other), t, [], t);
    assert [Blocks(other)] + [] == [Blocks(other)];
    PathJoin(Rested(b), [Offer(c), Load, SendFrame, Arrive], Queued(b, c), [Blocks(other)], t);
    FlattenSnoc([], c);
    assert [] + [c] == [c] && |t.offered| > |t.written|;
  }

  // ---- termination ----

  /** Work left: each byte and each queued item counts once or more for every
      hop still ahead of it. */
  function Work(s: Flow): nat
  {
    11 * |Flatten(s.unsent)| + 2 * |s.unsent| + (if s.loaded then 0 else 1) + 5 * (|Flatten(s.inflight)| + |s.inflight|)
      + 4 * (|Flatten(s.queue)| + |s.queue|) + ConsumerWork(s.consumer) + Sum(s.grants) + |s.grants|
  }

  function ConsumerWork(c: Consumer): nat
  {
    match c
    case Writing(d) => 3 * |d| + 3
    case Granting(n) => 2 * n + 2
    case Busy(w) => 11 * |w| + 3
    case _ => 0
  }

  lemma SendWorks(s: Flow)
    requires Enabled(s, SendFrame)
    ensures Work(Next(s, SendFrame)) < Work(s)
  {
    FlattenSnoc(s.inflight, s.unsent[0][..FrameSize(s)]);
    SplitHead(s.unsent, FrameSize(s));
  }

  lemma ArriveLessens(s: Flow, t: Flow, d: seq<byte>)
    requires s.inflight != [] && d == s.inflight[0] && t.inflight == s.inflight[1..]
    requires t.unsent == s.unsent && t.loaded == s.loaded && t.consumer == s.consumer && t.grants == s.grants
    requires t.queue == s.queue + [d] || t.queue == s.queue
    ensures Work(t) < Work(s)
  {
    FlattenHead(s.inflight);
    FlattenSnoc(s.queue, d);
  }

  lemma ArriveWorks(s: Flow)
    requires Enabled(s, Arrive)
    ensures Work(Next(s, Arrive)) < Work(s)
  {
    ArriveLessens(s, Next(s, Arrive), s.inflight[0]);
  }

  lemma ForwardWorks(s: Flow, step: Step)
    requires Enabled(s, step) && Forward(step)
    ensures Work(Next(s, step)) < Work(s)
  {
    match step
    case Load =>
    case SkipEmpty => FlattenHead(s.unsent);
    case SendFrame => SendWorks(s);
    case Arrive => ArriveWorks(s);
    case Take => FlattenHead(s.queue);
    case Write =>
    case Grant => assert (s.grants + [s.consumer.n])[..|s.grants|] == s.grants;
    case GrantArrives => SumHead(s.grants);
  }

  /** Forward steps cannot go on for ever: their number is bounded by the work
      at the start. */
  lemma {:induction false} ForwardTerminates(trace: seq<Flow>, steps: seq<Step>, i: nat, j: nat)
    requires Run(trace, steps) && i <= j <= |steps|
    requires forall k :: i <= k < j ==> Forward(steps[k])
    ensures j - i + Work(trace[j]) <= Work(trace[i])
    decreases j
  {
    if i < j {
      ForwardTerminates(trace, steps, i, j - 1);
      ForwardWorks(trace[j - 1], steps[j - 1]);
    }
  }
}
