/** Whether the dispatch channel can fill. Credit bounds the bytes on their way,
    the channel bounds the frames: 256 of them, against a window of 256 KiB. */
module FlowOverflow {
  import opened Common
  import opened SendLoop
  import opened FlowSystem
  import opened FlowProgress
  import opened FlowLosses

  /** The window divided by the frames the channel holds. */
  const SHARE := 1024

  // ---- chunks of whole shares never fill it ----

  ghost predicate WholeFrames(fs: seq<seq<byte>>)
  {
    forall k :: 0 <= k < |fs| ==> |fs[k]| > 0 && |fs[k]| % SHARE == 0
  }

  /** Every amount in the flow is a number of whole shares. */
  ghost predicate Whole(s: Flow)
  {
    && s.credits % SHARE == 0 && InConsumer(s.consumer) % SHARE == 0
    && WholeFrames(s.inflight) && WholeFrames(s.queue)
    && (forall k :: 0 <= k < |s.unsent| ==> |s.unsent[k]| % SHARE == 0)
    && (forall k :: 0 <= k < |s.grants| ==> s.grants[k] % SHARE == 0)
  }

  lemma SendKeepsWhole(s: Flow)
    requires Whole(s) && Enabled(s, SendFrame)
    ensures Whole(Next(s, SendFrame))
  {
    var n, t := FrameSize(s), Next(s, SendFrame);
    assert n % SHARE == 0 && (s.credits - n) % SHARE == 0 && (|s.unsent[0]| - n) % SHARE == 0;
    assert t.inflight == s.inflight + [s.unsent[0][..n]];
    assert forall k :: 0 < k < |t.unsent| ==> t.unsent[k] in s.unsent;
    assert forall k :: 0 <= k < |t.unsent| ==> |t.unsent[k]| % SHARE == 0;
  }

  lemma FailKeepsWhole(s: Flow)
    requires Whole(s) && Enabled(s, SendFails)
    ensures Whole(Next(s, SendFails))
  {
    assert FrameSize(s) % SHARE == 0;
  }

  lemma ArriveKeepsWhole(s: Flow)
    requires Whole(s) && Enabled(s, Arrive)
    ensures Whole(Next(s, Arrive))
  {
  }

  lemma TakeKeepsWhole(s: Flow)
    requires Whole(s) && Enabled(s, Take)
    ensures Whole(Next(s, Take))
  {
  }

  lemma GrantKeepsWhole(s: Flow)
    requires Whole(s) && Enabled(s, Grant)
    ensures Whole(Next(s, Grant))
  {
  }

  lemma CreditKeepsWhole(s: Flow)
    requires Whole(s) && Enabled(s, GrantArrives) && Total(s) == INITIAL_FLOW_WINDOW
    ensures Whole(Next(s, GrantArrives))
  {
    GrantConserves(s);
  }

  lemma OfferKeepsWhole(s: Flow, step: Step)
    requires Whole(s) && Enabled(s, step) && (step.Offer? || step.SkipEmpty?)
    requires step.Offer? ==> |step.chunk| % SHARE == 0
    ensures Whole(Next(s, step))
  {
  }

  /** Steps that move no amount, or throw one away. */
  lemma OtherKeepsWhole(s: Flow, step: Step)
    requires Whole(s) && Enabled(s, step)
    requires !step.SendFrame? && !step.SendFails? && !step.Arrive? && !step.Take? && !step.Grant? && !step.GrantArrives?
    requires !step.Offer? && !step.SkipEmpty?
    ensures Whole(Next(s, step))
  {
  }

  lemma StepKeepsWhole(s: Flow, step: Step)
    requires Whole(s) && Enabled(s, step) && Total(s) == INITIAL_FLOW_WINDOW && (step.Offer? ==> |step.chunk| % SHARE == 0)
    ensures Whole(Next(s, step))
  {
    match step
    case SendFrame => SendKeepsWhole(s);
    case SendFails => FailKeepsWhole(s);
    case Arrive => ArriveKeepsWhole(s);
    case Take => TakeKeepsWhole(s);
    case Grant => GrantKeepsWhole(s);
    case GrantArrives => CreditKeepsWhole(s);
    case Offer(_) => OfferKeepsWhole(s, step);
    case SkipEmpty => OfferKeepsWhole(s, step);
    case _ => OtherKeepsWhole(s, step);
  }

  lemma {:induction false} WholeFramesWeigh(fs: seq<seq<byte>>)
    requires WholeFrames(fs)
    ensures |Flatten(fs)| >= SHARE * |fs|
  {
    if fs != [] {
      var n := |fs| - 1;
      WholeFramesWeigh(fs[..n]);
      assert fs == fs[..n] + [fs[n]];
      FlattenSnoc(fs[..n], fs[n]);
    }
  }

  lemma WholeHasRoom(s: Flow)
    requires Whole(s) && Total(s) == INITIAL_FLOW_WINDOW && s.inflight != []
    ensures |s.queue| < DISPATCH_CAP
  {
    WholeFramesWeigh(s.inflight);
    WholeFramesWeigh(s.queue);
  }

  ghost predicate OffersWhole(steps: seq<Step>)
  {
    forall k :: 0 <= k < |steps| && steps[k].Offer? ==> |steps[k].chunk| % SHARE == 0
  }

  lemma {:induction false} RunKeepsWhole(trace: seq<Flow>, steps: seq<Step>, i: nat)
    requires Run(trace, steps) && i < |trace| && OffersWhole(steps)
    ensures Whole(trace[i])
  {
    if i > 0 {
      RunKeepsWhole(trace, steps, i - 1);
      CreditIsConserved(trace, steps, i - 1);
      StepKeepsWhole(trace[i - 1], steps[i - 1]);
    }
  }

  lemma {:induction false} NothingOverflows(trace: seq<Flow>, steps: seq<Step>, n: nat)
    requires n <= |steps| < |trace| && forall k :: 0 <= k < n ==> Overflow(trace, steps, k) == 0
    ensures Overflowed(trace, steps, n) == 0
  {
    if n > 0 { NothingOverflows(trace, steps, n - 1); }
  }

  /** If every chunk offered is a multiple of 1024 bytes, the dispatch channel
      never overflows, in any run. */
  lemma WholeChunksFit(trace: seq<Flow>, steps: seq<Step>, i: nat)
    requires Run(trace, steps) && i <= |steps| && OffersWhole(steps)
    ensures Overflowed(trace, steps, i) == 0
  {
    forall k | 0 <= k < i ensures Overflow(trace, steps, k) == 0 {
      RunKeepsWhole(trace, steps, k);
      CreditIsConserved(trace, steps, k);
      if trace[k].inflight != [] { WholeHasRoom(trace[k]); }
    }
    NothingOverflows(trace, steps, i);
  }

  // ---- smaller chunks can ----

  /** Nothing is on its way, in either direction, and nothing was lost. */
  ghost predicate Ready(s: Flow)
  {
    Standing(s) && s.inflight == [] && s.grants == [] && s.consumer.Idle? && s.lost.dispatchFull == 0
  }

  lemma OfferLoads(s: Flow, c: seq<byte>)
    requires s.sending && s.unsent == [] && !s.loaded
    ensures Path(s, [Offer(c), Load], s.(offered := s.offered + c, unsent := [c], loaded := true))
  {
    var t := s.(offered := s.offered + c, unsent := [c]);
    PathTwo(s, Offer(c), t, Load, t.(loaded := true));
  }

  /** What is in hand goes out as far as there is credit, and is queued. */
  function RestQueued(s: Flow): Flow
    requires |s.unsent| == 1
  {
    var n, c := FrameSize(s), s.unsent[0];
    s.(credits := s.credits - n, unsent := if n == |c| then [] else [c[n..]], loaded := n < |c|, queue := s.queue + [c[..n]])
  }

  lemma RestJoins(s: Flow)
    requires Ready(s) && s.loaded && |s.unsent| == 1 && s.unsent[0] != [] && s.credits > 0
    requires FrameSize(s) <= MAX_SENDABLE && |s.queue| < DISPATCH_CAP
    ensures Path(s, [SendFrame, Arrive], RestQueued(s))
  {
    var n, c := FrameSize(s), s.unsent[0];
    var t := s.(credits := s.credits - n, unsent := if n == |c| then [] else [c[n..]], loaded := n < |c|, inflight := [c[..n]]);
    PathTwo(s, SendFrame, t, Arrive, RestQueued(s));
  }

  /** The same at a full channel: it is lost. */
  lemma RestSpills(s: Flow) returns (t: Flow)
    requires Ready(s) && s.loaded && |s.unsent| == 1 && s.unsent[0] != [] && s.credits > 0
    requires FrameSize(s) <= MAX_SENDABLE && |s.queue| >= DISPATCH_CAP
    ensures Path(s, [SendFrame, Arrive], t) && t.lost.dispatchFull > 0
  {
    var u := Next(s, SendFrame);
    t := Next(u, Arrive);
    PathTwo(s, SendFrame, u, Arrive, t);
  }

  function Feed(c: seq<byte>): seq<Step> { [Offer(c), Load] + [SendFrame, Arrive] }

  /** One more chunk sent and queued. */
  lemma ChunkJoins(s: Flow, c: seq<byte>) returns (t: Flow)
    requires Ready(s) && s.unsent == [] && !s.loaded && 0 < |c| <= MAX_SENDABLE && |c| <= s.credits && |s.queue| < DISPATCH_CAP
    ensures Path(s, Feed(c), t) && t == s.(offered := s.offered + c, credits := s.credits - |c|, queue := s.queue + [c])
  {
    var u := s.(offered := s.offered + c, unsent := [c], loaded := true);
    OfferLoads(s, c);
    RestJoins(u);
    assert c[..|c|] == c;
    t := RestQueued(u);
    PathJoin(s, [Offer(c), Load], u, [SendFrame, Arrive], t);
  }

  /** One more chunk sent to a full channel. */
  lemma ChunkSpills(s: Flow, c: seq<byte>) returns (t: Flow)
    requires Ready(s) && s.unsent == [] && !s.loaded && 0 < |c| <= MAX_SENDABLE && s.credits > 0 && |s.queue| >= DISPATCH_CAP
    ensures Path(s, Feed(c), t) && t.lost.dispatchFull > 0
  {
    var u := s.(offered := s.offered + c, unsent := [c], loaded := true);
    OfferLoads(s, c);
    t := RestSpills(u);
    PathJoin(s, [Offer(c), Load], u, [SendFrame, Arrive], t);
  }

  /** Nothing fails, and only chunk `c` is offered, again and again. */
  ghost predicate Feeds(steps: seq<Step>, c: seq<byte>)
  {
    forall k :: 0 <= k < |steps| ==> Peaceful(steps[k]) && (steps[k].Offer? ==> steps[k].chunk == c)
  }

  lemma FeedsJoin(xs: seq<Step>, ys: seq<Step>, c: seq<byte>)
    requires Feeds(xs, c) && Feeds(ys, c)
    ensures Feeds(xs + ys, c)
  {
  }

  /** Any number of chunks that the channel and the credit allow, all queued. */
  lemma {:induction false} ChunksStack(c: seq<byte>, n: nat) returns (steps: seq<Step>, s: Flow)
    requires 0 < |c| <= MAX_SENDABLE && n <= DISPATCH_CAP && n * |c| <= INITIAL_FLOW_WINDOW
    ensures Path(Start(), steps, s) && Feeds(steps, c)
    ensures Ready(s) && s.unsent == [] && !s.loaded && s.credits == INITIAL_FLOW_WINDOW - n * |c|
    ensures |s.queue| == n && forall k :: 0 <= k < n ==> |s.queue[k]| == |c|
  {
    if n == 0 {
      steps, s := [], Start();
    } else {
      assert (n - 1) * |c| + |c| == n * |c|;
      var before, t := ChunksStack(c, n - 1);
      s := ChunkJoins(t, c);
      steps := before + Feed(c);
      PathJoin(Start(), before, t, Feed(c), s);
      FeedsJoin(before, Feed(c), c);
    }
  }

  /** A run without failures that offers only `c` and loses some of it. */
  ghost predicate Overflows(trace: seq<Flow>, steps: seq<Step>, c: seq<byte>)
  {
    Run(trace, steps) && Feeds(steps, c) && trace[|steps|].lost.dispatchFull > 0
  }

  lemma SmallChunksOverflow(c: seq<byte>) returns (trace: seq<Flow>, steps: seq<Step>)
    requires 0 < |c| < SHARE
    ensures Overflows(trace, steps, c)
  {
    assert DISPATCH_CAP * |c| < INITIAL_FLOW_WINDOW;
    var before, s := ChunksStack(c, DISPATCH_CAP);
    var t := ChunkSpills(s, c);
    steps := before + Feed(c);
    PathJoin(Start(), before, s, Feed(c), t);
    FeedsJoin(before, Feed(c), c);
    trace := PathTrace(Start(), steps, t);
  }
}
