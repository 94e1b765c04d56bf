/** What is lost from one direction of a flow, and why, read off its run. */
module FlowLosses {
  import opened Common
  import opened SendLoop
  import opened FlowSystem
  import opened FlowProgress

  lemma StepLosesPayload(s: Flow, step: Step)
    requires Enabled(s, step)
    ensures var t := Next(s, step);
      var dropped := if step.Arrive? then |s.inflight[0]| else 0;
      var ended := if step.WriteFails? || step.Quits? then |Flatten(s.queue)| else 0;
      && t.lost.unknownFlow == s.lost.unknownFlow + (if !s.registered then dropped else 0)
      && t.lost.abandoned == s.lost.abandoned + ended + (if s.registered && s.consumer.Gone? then dropped else 0)
      && t.lost.dispatchFull == s.lost.dispatchFull
           + (if s.registered && !s.consumer.Gone? && |s.queue| >= DISPATCH_CAP then dropped else 0)
  {
    match step
    case Arrive =>
    case SendFails =>
    case WriteFails =>
    case Quits =>
    case GrantFails =>
    case GrantArrives =>
    case _ =>
  }

  lemma StepLosesRest(s: Flow, step: Step)
    requires Enabled(s, step)
    ensures var t := Next(s, step);
      && t.lost.sendFailed == s.lost.sendFailed + (if step.SendFails? then Min(s.credits, |s.unsent[0]|) else 0)
      && t.lost.writeFailed == s.lost.writeFailed + (if step.WriteFails? then |s.consumer.data| else 0)
      && t.lost.updateFailed == s.lost.updateFailed + (if step.GrantFails? then s.consumer.n else 0)
      && t.lost.grantUnknown == s.lost.grantUnknown + (if step.GrantArrives? && !s.senderKnows then s.grants[0] else 0)
  {
    match step
    case Arrive =>
    case SendFails =>
    case WriteFails =>
    case Quits =>
    case GrantFails =>
    case GrantArrives =>
    case _ =>
  }

  /** Each loss has one cause: a frame that could not be sent, one that arrived
      for a flow the receiver does not know, for a consumer that is gone, or at
      a full dispatch channel, a payload that could not be written, whatever was
      queued when the consumer ended, a grant that could not be sent, and one
      for a flow the sender does not know. */
  lemma StepLoses(s: Flow, step: Step, t: Flow)
    requires Enabled(s, step) && t == Next(s, step)
    ensures var dropped := if step.Arrive? then |s.inflight[0]| else 0;
      var ended := if step.WriteFails? || step.Quits? then |Flatten(s.queue)| else 0;
      t.lost == Losses(
        s.lost.sendFailed + if step.SendFails? then Min(s.credits, |s.unsent[0]|) else 0,
        s.lost.unknownFlow + if !s.registered then dropped else 0,
        s.lost.dispatchFull + if s.registered && !s.consumer.Gone? && |s.queue| >= DISPATCH_CAP then dropped else 0,
        s.lost.writeFailed + if step.WriteFails? then |s.consumer.data| else 0,
        s.lost.abandoned + ended + if s.registered && s.consumer.Gone? then dropped else 0,
        s.lost.updateFailed + if step.GrantFails? then s.consumer.n else 0,
        s.lost.grantUnknown + if step.GrantArrives? && !s.senderKnows then s.grants[0] else 0)
  {
    StepLosesPayload(s, step);
    StepLosesRest(s, step);
  }

  lemma SenderTearsDown(s: Flow, step: Step, t: Flow)
    requires Enabled(s, step) && t == Next(s, step)
    ensures t.sending <==> s.sending && !step.SendFails? && !step.GateCloses?
    ensures t.senderKnows <==> s.senderKnows && !step.SenderForgets?
  {
    match step
    case Arrive =>
    case SendFails =>
    case WriteFails =>
    case Quits =>
    case GrantFails =>
    case GrantArrives =>
    case _ =>
  }

  lemma ReceiverTearsDown(s: Flow, step: Step, t: Flow)
    requires Enabled(s, step) && t == Next(s, step)
    ensures t.consumer.Gone? <==> s.consumer.Gone? || step.WriteFails? || step.Quits?
    ensures t.registered <==> s.registered && !step.ReceiverForgets? && !(step.Arrive? && s.consumer.Gone?)
  {
    match step
    case Arrive =>
    case SendFails =>
    case WriteFails =>
    case Quits =>
    case GrantFails =>
    case GrantArrives =>
    case _ =>
  }

  /** Which parts of the flow step `k` leaves standing. */
  ghost predicate TearsDown(trace: seq<Flow>, steps: seq<Step>, k: nat)
    requires k < |steps| < |trace|
  {
    var s, step, t := trace[k], steps[k], trace[k + 1];
    && (t.sending <==> s.sending && !step.SendFails? && !step.GateCloses?)
    && (t.senderKnows <==> s.senderKnows && !step.SenderForgets?)
    && (t.consumer.Gone? <==> s.consumer.Gone? || step.WriteFails? || step.Quits?)
    && (t.registered <==> s.registered && !step.ReceiverForgets? && !(step.Arrive? && s.consumer.Gone?))
  }

  lemma StepTearsDown(trace: seq<Flow>, steps: seq<Step>, k: nat)
    requires Run(trace, steps) && k < |steps|
    ensures TearsDown(trace, steps, k)
  {
    SenderTearsDown(trace[k], steps[k], trace[k + 1]);
    ReceiverTearsDown(trace[k], steps[k], trace[k + 1]);
  }

  ghost predicate Standings(trace: seq<Flow>, steps: seq<Step>, i: nat)
    requires i <= |steps| < |trace|
  {
    && (trace[i].sending <==> forall k :: 0 <= k < i ==> !steps[k].SendFails? && !steps[k].GateCloses?)
    && (trace[i].senderKnows <==> forall k :: 0 <= k < i ==> !steps[k].SenderForgets?)
    && (trace[i].consumer.Gone? <==> exists k :: 0 <= k < i && (steps[k].WriteFails? || steps[k].Quits?))
    && (trace[i].registered <==>
          forall k :: 0 <= k < i ==> !steps[k].ReceiverForgets? && !(steps[k].Arrive? && trace[k].consumer.Gone?))
  }

  lemma {:induction false} TornDownAlong(trace: seq<Flow>, steps: seq<Step>, i: nat)
    requires i <= |steps| < |trace| && trace[0] == Start() && forall k :: 0 <= k < i ==> TearsDown(trace, steps, k)
    ensures Standings(trace, steps, i)
  {
    if i > 0 {
      TornDownAlong(trace, steps, i - 1);
      assert TearsDown(trace, steps, i - 1);
    }
  }

  /** What has been torn down, read off the steps: the loop runs until a send
      fails or its gate closes, each side knows the flow until it forgets it,
      or finds its consumer gone, and the consumer lives until it fails or quits. */
  lemma TornDownBySteps(trace: seq<Flow>, steps: seq<Step>, i: nat)
    requires Run(trace, steps) && i < |trace|
    ensures Standings(trace, steps, i)
  {
    forall k | 0 <= k < i ensures TearsDown(trace, steps, k) { StepTearsDown(trace, steps, k); }
    TornDownAlong(trace, steps, i);
  }

  /** Steps that neither fail nor tear anything down. */
  predicate Peaceful(step: Step)
  {
    Forward(step) || step.Offer? || step.Blocks? || step.Unblocks?
  }

  /** Nothing has been torn down. */
  predicate Standing(s: Flow) { s.sending && s.registered && s.senderKnows && !s.consumer.Gone? }

  /** What arrives at a full channel in step `k`. */
  function Overflow(trace: seq<Flow>, steps: seq<Step>, k: nat): nat
    requires k < |steps| < |trace|
  {
    if steps[k].Arrive? && trace[k].inflight != [] && |trace[k].queue| >= DISPATCH_CAP then |trace[k].inflight[0]| else 0
  }

  function Overflowed(trace: seq<Flow>, steps: seq<Step>, n: nat): nat
    requires n <= |steps| < |trace|
  {
    if n == 0 then 0 else Overflowed(trace, steps, n - 1) + Overflow(trace, steps, n - 1)
  }

  ghost predicate LosesOverflow(trace: seq<Flow>, steps: seq<Step>, k: nat)
    requires k < |steps| < |trace|
  {
    Standing(trace[k]) ==>
      && Standing(trace[k + 1])
      && trace[k + 1].lost == trace[k].lost.(dispatchFull := trace[k].lost.dispatchFull + Overflow(trace, steps, k))
  }

  lemma PeacefulLoses(trace: seq<Flow>, steps: seq<Step>, k: nat)
    requires Run(trace, steps) && k < |steps| && Peaceful(steps[k])
    ensures LosesOverflow(trace, steps, k)
  {
    StepTearsDown(trace, steps, k);
    StepLoses(trace[k], steps[k], trace[k + 1]);
  }

  lemma {:induction false} OverflowAdds(trace: seq<Flow>, steps: seq<Step>, i: nat)
    requires i <= |steps| < |trace| && trace[0] == Start()
    requires forall k :: 0 <= k < i ==> LosesOverflow(trace, steps, k)
    ensures Standing(trace[i]) && trace[i].lost == Losses(0, 0, Overflowed(trace, steps, i), 0, 0, 0, 0)
  {
    if i > 0 {
      OverflowAdds(trace, steps, i - 1);
      assert LosesOverflow(trace, steps, i - 1);
    }
  }

  /** In a run without failures the only loss is at a full dispatch channel, and
      there it is every byte that arrives: so such a run stays healthy, and
      loses nothing, if and only if none ever does. */
  lemma OnlyOverflowLoses(trace: seq<Flow>, steps: seq<Step>, i: nat)
    requires Run(trace, steps) && i < |trace| && forall k :: 0 <= k < i ==> Peaceful(steps[k])
    ensures trace[i].lost == Losses(0, 0, Overflowed(trace, steps, i), 0, 0, 0, 0)
    ensures Healthy(trace[i]) <==> Overflowed(trace, steps, i) == 0
  {
    forall k | 0 <= k < i ensures LosesOverflow(trace, steps, k) { PeacefulLoses(trace, steps, k); }
    OverflowAdds(trace, steps, i);
  }
}
