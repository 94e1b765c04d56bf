/** What runs of the pool guarantee: topping up and shrinking back, backoff, and
    recovery. */
module PoolTheorems {
  import opened Common
  import opened PoolModel
  import opened PoolRuns

  // ---- topping up and shrinking back ----

  /** Steps after which the pool is at or above its target: a flow served from
      a live tunnel, a completed handshake, a started drain, a watcher prune. */
  ghost predicate Restores(c: Config, s: Sys, step: Step)
  {
    match step
    case PickFlow => Pick(c, s.p, s.w).1.Serve?
    case SyncDone(h) => h.Connected?
    case BackgroundDone(h) => h.Connected?
    case Tick(t) =>
      if t !in s.w.alive then PruneDead(s.p.tunnels, s.w) != s.p.tunnels
      else IndexOf(s.p.tunnels, t).Some? && HitsThreshold(s.p.tunnels[IndexOf(s.p.tunnels, t).value], s.w)
    case _ => false
  }

  lemma StepTopsUp(c: Config, s: Sys, step: Step)
    requires ValidConfig(c) && Inv(c, s) && Enabled(s, step) && Restores(c, s, step)
    ensures Supply(Next(c, s, step)) >= c.poolSize
  {
    match step
    case PickFlow => PickKeepsInv(c, s);
    case SyncDone(h) => DeliveryKeepsInv(c, s, s.(reserved := s.reserved - 1), h, false);
    case BackgroundDone(h) =>
      DeliveryKeepsInv(c, s, s.(p := s.p.(background := s.p.background - 1)), h, true);
    case Tick(t) =>
      if t !in s.w.alive { DeathTickKeepsInv(c, s, t); } else { DrainTickKeepsInv(c, s, t); }
  }

  /** In every run, every restoring step reaches the target. */
  lemma TopUp(c: Config, trace: seq<Sys>, steps: seq<Step>, i: nat)
    requires ValidConfig(c) && Run(c, trace, steps) && i < |steps| && Restores(c, trace[i], steps[i])
    ensures AssignableCount(trace[i + 1].p.tunnels, trace[i + 1].w) + trace[i + 1].p.connecting >= c.poolSize
  {
    RunKeepsInv(c, trace, steps, i);
    StepTopsUp(c, trace[i], steps[i]);
  }

  ghost predicate FailedConnect(step: Step)
  {
    (step.SyncDone? || step.BackgroundDone?) && step.h.Refused?
  }

  /** A failed connect never moves the pool further below its target. */
  lemma FailureLosesNothing(c: Config, trace: seq<Sys>, steps: seq<Step>, i: nat)
    requires ValidConfig(c) && Run(c, trace, steps) && i < |steps| && FailedConnect(steps[i])
    ensures Min(Supply(trace[i + 1]), c.poolSize) >= Min(Supply(trace[i]), c.poolSize)
  {
    RunKeepsInv(c, trace, steps, i);
    var s := trace[i];
    if steps[i].SyncDone? {
      FailureKeepsInv(c, s, s.(reserved := s.reserved - 1), false);
    } else {
      FailureKeepsInv(c, s, s.(p := s.p.(background := s.p.background - 1)), true);
    }
  }

  /** Connect failures since the last success, read off the steps alone. */
  function FailuresSince(steps: seq<Step>): nat
  {
    if steps == [] then 0
    else
      var last, n := steps[|steps| - 1], FailuresSince(steps[..|steps| - 1]);
      if last.SyncDone? || last.BackgroundDone? then (if last.h.Connected? then 0 else n + 1) else n
  }

  /** The counter that sets the retry delay is exactly that number. */
  lemma {:induction false} BackoffCountsFailures(c: Config, trace: seq<Sys>, steps: seq<Step>, n: nat)
    requires Run(c, trace, steps) && n <= |steps|
    ensures trace[n].p.backoffAttempt == FailuresSince(steps[..n])
  {
    if n > 0 {
      BackoffCountsFailures(c, trace, steps, n - 1);
      BackoffBy(c, trace[n - 1], steps[n - 1]);
      assert steps[..n] == steps[..n - 1] + [steps[n - 1]];
    }
  }

  lemma TickKeepsBackoff(c: Config, p: Pool, w: World, t: TunnelId)
    ensures WatcherTick(c, p, w, t).0.backoffAttempt == p.backoffAttempt
  {
  }

  lemma PickKeepsBackoff(c: Config, p: Pool, w: World)
    ensures Pick(c, p, w).0.backoffAttempt == p.backoffAttempt
  {
  }

  lemma BackoffBy(c: Config, s: Sys, step: Step)
    requires Enabled(s, step)
    ensures Next(c, s, step).p.backoffAttempt ==
      if step.SyncDone? || step.BackgroundDone? then (if step.h.Connected? then 0 else s.p.backoffAttempt + 1)
      else s.p.backoffAttempt
  {
    match step
    case PickFlow => PickKeepsBackoff(c, s.p, s.w);
    case Tick(t) => TickKeepsBackoff(c, s.p, s.w, t);
    case _ =>
  }

  /** A dead tunnel's watcher starts a connect exactly when it pruned
      something and the survivors are below target: above it, the pool shrinks. */
  lemma ShrinkBack(c: Config, s: Sys, t: TunnelId)
    requires Enabled(s, Tick(t)) && t !in s.w.alive
    ensures Next(c, s, Tick(t)).p.background > s.p.background
            <==> PruneDead(s.p.tunnels, s.w) != s.p.tunnels && Supply(s) < c.poolSize
  {
    PruneKeepsCount(s.p.tunnels, s.w, s.w.alive);
    PruneKeepsLive(s.p.tunnels, s.w);
  }

  // ---- recovery ----

  /** Watcher ticks and connects that succeed. */
  predicate OwnStep(step: Step)
  {
    step.Tick? || ((step.SyncDone? || step.BackgroundDone?) && step.h.Connected?)
  }

  lemma ExtendRun(c: Config, trace: seq<Sys>, steps: seq<Step>, step: Step)
    requires Run(c, trace, steps) && Enabled(trace[|steps|], step)
    ensures Run(c, trace + [Next(c, trace[|steps|], step)], steps + [step])
  {
  }

  ghost predicate EndsServing(trace: seq<Sys>)
  {
    trace != [] && AssignableCount(trace[|trace| - 1].p.tunnels, trace[|trace| - 1].w) > 0
  }

  /** With a connect in flight, its success is enough. */
  lemma ConnectRecovers(c: Config, trace: seq<Sys>, steps: seq<Step>) returns (step: Step, s': Sys)
    requires ValidConfig(c) && Run(c, trace, steps) && trace[|steps|].p.connecting > 0
    ensures OwnStep(step) && Run(c, trace + [s'], steps + [step]) && EndsServing(trace + [s'])
  {
    RunKeepsInv(c, trace, steps, |steps|);
    step := Success(trace[|steps|]);
    s' := Next(c, trace[|steps|], step);
    ConnectServes(c, trace[|steps|]);
    ExtendRun(c, trace, steps, step);
  }

  /** With nothing in flight and nothing assignable, some watcher's tick
      starts a connect. */
  lemma TickStartsConnect(c: Config, s: Sys) returns (t: TunnelId)
    requires ValidConfig(c) && Inv(c, s) && s.began && s.p.connecting == 0
    requires AssignableCount(s.p.tunnels, s.w) == 0
    ensures Enabled(s, Tick(t)) && Next(c, s, Tick(t)).p.connecting > 0
  {
    var e :| e in s.p.tunnels && !e.draining;
    CountPositive(s.p.tunnels, s.w.alive);
    t := e.tunnel;
    assert t !in s.w.alive;
    PruneKeepsLive(s.p.tunnels, s.w);
    PruneKeepsCount(s.p.tunnels, s.w, s.w.alive);
  }

  /** Every run in which a pick has begun can be extended by at most two steps
      that the pool itself takes, a watcher tick and one successful connect, so
      that it ends with an assignable tunnel. */
  lemma Recovers(c: Config, trace: seq<Sys>, steps: seq<Step>) returns (more: seq<Step>, trace': seq<Sys>)
    requires ValidConfig(c) && Run(c, trace, steps) && trace[|steps|].began
    ensures |more| <= 2 && forall k :: 0 <= k < |more| ==> OwnStep(more[k])
    ensures Run(c, trace', steps + more) && trace <= trace' && EndsServing(trace')
  {
    var s := trace[|steps|];
    RunKeepsInv(c, trace, steps, |steps|);
    if AssignableCount(s.p.tunnels, s.w) > 0 {
      more, trace' := [], trace;
      assert steps + more == steps;
    } else if s.p.connecting > 0 {
      var step, s' := ConnectRecovers(c, trace, steps);
      more, trace' := [step], trace + [s'];
    } else {
      var t := TickStartsConnect(c, s);
      ExtendRun(c, trace, steps, Tick(t));
      var longer := trace + [Next(c, s, Tick(t))];
      var step, s' := ConnectRecovers(c, longer, steps + [Tick(t)]);
      more, trace' := [Tick(t), step], longer + [s'];
      assert steps + more == steps + [Tick(t)] + [step];
    }
  }

  /** The connect that recovers a state with one in flight. */
  function Success(s: Sys): Step
  {
    var h := Connected(0, 0, true);
    if s.p.background > 0 then BackgroundDone(h) else SyncDone(h)
  }

  lemma DeliveredServes(c: Config, u: Sys, h: Handshake)
    requires h.Connected? && h.alive
    ensures AssignableCount(Delivered(c, u, h).p.tunnels, Delivered(c, u, h).w) > 0
  {
    var v := Delivered(c, u, h);
    var e := NewEntry(u.nextId, h.rotateAtAge, h.rotateAtBytes);
    assert v.p.tunnels == u.p.tunnels + [e] && v.w == Joined(u.w, u.nextId, true);
    assert v.p.tunnels[|u.p.tunnels|] == e;
    CountPositive(v.p.tunnels, v.w.alive);
  }

  lemma ConnectServes(c: Config, s: Sys)
    requires ValidConfig(c) && Inv(c, s) && s.p.connecting > 0
    ensures Enabled(s, Success(s))
    ensures AssignableCount(Next(c, s, Success(s)).p.tunnels, Next(c, s, Success(s)).w) > 0
  {
    var h := Connected(0, 0, true);
    if s.p.background > 0 {
      DeliveredServes(c, s.(p := s.p.(background := s.p.background - 1)), h);
    } else {
      DeliveredServes(c, s.(reserved := s.reserved - 1), h);
    }
  }
}
