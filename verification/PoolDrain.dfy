/** The life of one pool entry over a run: serving, draining, removed. */
module PoolDrain {
  import opened Common
  import opened PoolModel
  import opened PoolRuns

  ghost function Find(es: seq<Entry>, t: TunnelId): Option<Entry>
  {
    if e :| e in es && e.tunnel == t then Some(e) else None
  }

  lemma FindIff(es: seq<Entry>, t: TunnelId)
    requires Distinct(es)
    ensures forall e :: Find(es, t) == Some(e) <==> e in es && e.tunnel == t
  {
    forall e, f | e in es && f in es && e.tunnel == t == f.tunnel ensures e == f {
      var i :| 0 <= i < |es| && es[i] == e;
      var j :| 0 <= j < |es| && es[j] == f;
    }
  }

  /** The entry's drain has lasted its limit at time `now`; one that starts in
      this very tick has lasted no time. */
  predicate Overdue(c: Config, e: Entry, now: nat)
  {
    var since := if e.drainingSince.Some? then e.drainingSince.value else now;
    now - since >= c.drainTimeout
  }

  /** The step is a handshake that drew these thresholds. */
  ghost predicate Delivers(step: Step, age: nat, bytes: nat)
  {
    (step.SyncDone? || step.BackgroundDone?) && step.h.Connected?
    && step.h.rotateAtAge == age && step.h.rotateAtBytes == bytes
  }

  /** What one step may do to the entry of tunnel `t`, `a` before and `b`
      after: nothing, create it serving, start its drain, or remove it for a
      reason. */
  ghost predicate EntryStep(c: Config, s: Sys, step: Step, t: TunnelId, a: Option<Entry>, b: Option<Entry>)
  {
    match (a, b)
    case (None, None) => true
    case (None, Some(e)) =>
      && t == s.nextId && Delivers(step, e.rotateAtAge, e.rotateAtBytes)
      && e == Entry(t, e.rotateAtAge, e.rotateAtBytes, false, None)
    case (Some(e), Some(f)) => f == e || (step == Tick(t) && t in s.w.alive && HitsThreshold(e, s.w)
                                          && f == MarkDraining(e, s.w.now))
    case (Some(e), None) =>
      || t !in s.w.alive
      || (step == Tick(t) && (e.draining || HitsThreshold(e, s.w))
          && (s.w.flows(t) == 0 || Overdue(c, e, s.w.now)))
  }

  ghost predicate Evolves(c: Config, s: Sys, step: Step, t: TunnelId)
    requires Enabled(s, step)
  {
    EntryStep(c, s, step, t, Find(s.p.tunnels, t), Find(Next(c, s, step).p.tunnels, t))
  }

  lemma PruneEvolves(s: Sys, t: TunnelId)
    requires Distinct(s.p.tunnels)
    ensures Find(PruneDead(s.p.tunnels, s.w), t)
            == if t in s.w.alive then Find(s.p.tunnels, t) else None
  {
    PruneKeepsLive(s.p.tunnels, s.w);
    PruneKeepsDistinct(s.p.tunnels, s.w);
    FindIff(s.p.tunnels, t);
    FindIff(PruneDead(s.p.tunnels, s.w), t);
  }

  lemma UpdateFinds(es: seq<Entry>, i: nat, e: Entry, t: TunnelId)
    requires Distinct(es) && i < |es| && e.tunnel == es[i].tunnel
    ensures Distinct(es[i := e])
    ensures Find(es[i := e], t) == if t == e.tunnel then Some(e) else Find(es, t)
  {
    var ds := es[i := e];
    FindIff(es, t);
    FindIff(ds, t);
    if t == e.tunnel {
      assert ds[i] in ds;
    } else {
      forall x ensures x in ds && x.tunnel == t <==> x in es && x.tunnel == t {
        if x in ds && x.tunnel == t { var j :| 0 <= j < |ds| && ds[j] == x; assert es[j] == x; }
        if x in es && x.tunnel == t { var j :| 0 <= j < |es| && es[j] == x; assert ds[j] == x; }
      }
    }
  }

  lemma RemoveFinds(es: seq<Entry>, i: nat, t: TunnelId)
    requires Distinct(es) && i < |es|
    ensures Find(Without(es, i), t) == if t == es[i].tunnel then None else Find(es, t)
  {
    WithoutKeepsOthers(es, i);
    FindIff(es, t);
    FindIff(Without(es, i), t);
  }

  lemma AppendFinds(es: seq<Entry>, e: Entry, t: TunnelId)
    requires Distinct(es + [e])
    ensures Find(es + [e], t) == if t == e.tunnel then Some(e) else Find(es, t)
  {
    var fs := es + [e];
    forall i, j | 0 <= i < j < |es| ensures es[i].tunnel != es[j].tunnel { assert fs[i] == es[i] && fs[j] == es[j]; }
    FindIff(es, t);
    FindIff(fs, t);
    assert fs[|es|] == e && e in fs;
  }

  /** The entries after a live tunnel's tick, in two stages. */
  lemma TickFinds(c: Config, s: Sys, t: TunnelId, x: TunnelId)
    requires Distinct(s.p.tunnels) && t in s.w.alive && IndexOf(s.p.tunnels, t).Some?
    ensures var e := s.p.tunnels[IndexOf(s.p.tunnels, t).value];
      var f := if HitsThreshold(e, s.w) then MarkDraining(e, s.w.now) else e;
      Find(WatcherTick(c, s.p, s.w, t).0.tunnels, x)
        == if x != t then Find(s.p.tunnels, x) else if DrainOver(c, f, s.w) then None else Some(f)
  {
    var i := IndexOf(s.p.tunnels, t).value;
    var e := s.p.tunnels[i];
    var f := if HitsThreshold(e, s.w) then MarkDraining(e, s.w.now) else e;
    var mid := s.p.tunnels[i := f];
    UpdateFinds(s.p.tunnels, i, f, x);
    RemoveFinds(mid, i, x);
    assert mid == if HitsThreshold(e, s.w) then StartDrain(c, s.p, s.w, i).tunnels else s.p.tunnels;
  }

  lemma JoinFinds(c: Config, s: Sys, h: Handshake, t: TunnelId)
    requires Inv(c, s) && h.Connected?
    ensures Find(s.p.tunnels + [NewEntry(s.nextId, h.rotateAtAge, h.rotateAtBytes)], t)
            == if t == s.nextId then Some(NewEntry(t, h.rotateAtAge, h.rotateAtBytes)) else Find(s.p.tunnels, t)
  {
    JoinKeepsShape(s, h, false);
    AppendFinds(s.p.tunnels, NewEntry(s.nextId, h.rotateAtAge, h.rotateAtBytes), t);
  }

  /** The entries after each step. */
  lemma NextTunnels(c: Config, s: Sys, step: Step)
    requires Enabled(s, step)
    ensures Next(c, s, step).p.tunnels ==
      match step
      case PickFlow => PruneDead(s.p.tunnels, s.w)
      case SyncDone(h) =>
        if h.Connected? then s.p.tunnels + [NewEntry(s.nextId, h.rotateAtAge, h.rotateAtBytes)] else s.p.tunnels
      case BackgroundDone(h) =>
        if h.Connected? then s.p.tunnels + [NewEntry(s.nextId, h.rotateAtAge, h.rotateAtBytes)] else s.p.tunnels
      case Tick(t) => WatcherTick(c, s.p, s.w, t).0.tunnels
      case _ => s.p.tunnels
  {
  }

  lemma StepEvolves(c: Config, s: Sys, step: Step, t: TunnelId)
    requires ValidConfig(c) && Inv(c, s) && Enabled(s, step)
    ensures Evolves(c, s, step, t)
  {
    FindIff(s.p.tunnels, t);
    NextTunnels(c, s, step);
    match step
    case PickFlow => PruneEvolves(s, t);
    case SyncDone(h) => if h.Connected? { JoinFinds(c, s, h, t); }
    case BackgroundDone(h) => if h.Connected? { JoinFinds(c, s, h, t); }
    case Tick(x) => TickEvolves(c, s, x, t);
    case _ =>
  }

  lemma TickEvolves(c: Config, s: Sys, x: TunnelId, t: TunnelId)
    requires Inv(c, s)
    ensures EntryStep(c, s, Tick(x), t, Find(s.p.tunnels, t), Find(WatcherTick(c, s.p, s.w, x).0.tunnels, t))
  {
    FindIff(s.p.tunnels, t);
    if x !in s.w.alive {
      PruneEvolves(s, t);
      PruneKeepsLive(s.p.tunnels, s.w);
    } else if IndexOf(s.p.tunnels, x).Some? {
      TickFinds(c, s, x, t);
    }
  }

  // ---- phases ----

  datatype Phase = Unborn | Serving | Draining | Removed

  ghost function PhaseOf(s: Sys, t: TunnelId): Phase
  {
    match Find(s.p.tunnels, t)
    case Some(e) => if e.draining then Draining else Serving
    case None => if t < s.nextId then Removed else Unborn
  }

  function Rank(p: Phase): nat
  {
    match p case Unborn => 0 case Serving => 1 case Draining => 2 case Removed => 3
  }

  /** The entry did not change, or its phase moved forward; a drain keeps the
      thresholds and fixes the time it began. */
  ghost predicate Advanced(s: Sys, u: Sys, t: TunnelId)
  {
    var a, b := Find(s.p.tunnels, t), Find(u.p.tunnels, t);
    && Rank(PhaseOf(s, t)) <= Rank(PhaseOf(u, t))
    && (PhaseOf(s, t) == PhaseOf(u, t) ==> a == b)
    && (PhaseOf(s, t).Serving? && PhaseOf(u, t).Draining? ==>
          b.value.drainingSince.Some? && b.value == MarkDraining(a.value, b.value.drainingSince.value))
  }

  lemma StepAdvances(c: Config, s: Sys, step: Step, t: TunnelId)
    requires ValidConfig(c) && Inv(c, s) && Enabled(s, step)
    ensures Advanced(s, Next(c, s, step), t)
  {
    StepEvolves(c, s, step, t);
    FindIff(s.p.tunnels, t);
    assert Next(c, s, step).nextId >= s.nextId;
  }

  lemma TraceAdvances(c: Config, trace: seq<Sys>, steps: seq<Step>, i: nat, t: TunnelId)
    requires ValidConfig(c) && Run(c, trace, steps) && i < |steps|
    ensures Advanced(trace[i], trace[i + 1], t)
  {
    RunKeepsInv(c, trace, steps, i);
    StepAdvances(c, trace[i], steps[i], t);
  }

  lemma AdvancedChains(s: Sys, u: Sys, v: Sys, t: TunnelId)
    requires Advanced(s, u, t) && Advanced(u, v, t)
    ensures Advanced(s, v, t)
  {
  }

  lemma {:induction false} AdvancesAlong(trace: seq<Sys>, i: nat, j: nat, t: TunnelId)
    requires i <= j < |trace| && forall k :: i <= k < j ==> Advanced(trace[k], trace[k + 1], t)
    ensures Advanced(trace[i], trace[j], t)
    decreases j
  {
    if i < j {
      AdvancesAlong(trace, i, j - 1, t);
      assert Advanced(trace[j - 1], trace[j - 1 + 1], t);
      AdvancedChains(trace[i], trace[j - 1], trace[j], t);
    }
  }

  /** The time a drain began is set exactly while the entry drains. */
  ghost predicate DrainTimed(s: Sys, t: TunnelId)
  {
    var e := Find(s.p.tunnels, t);
    e.Some? ==> (e.value.draining <==> e.value.drainingSince.Some?)
  }

  lemma RunIsTimed(c: Config, trace: seq<Sys>, steps: seq<Step>, i: nat, t: TunnelId)
    requires ValidConfig(c) && Run(c, trace, steps) && i < |trace|
    ensures DrainTimed(trace[i], t)
  {
    RunKeepsInv(c, trace, steps, i);
    FindIff(trace[i].p.tunnels, t);
  }

  /** Along a run every tunnel moves only from serving to draining to removed;
      once draining, its thresholds and the time its drain began are fixed, and
      that time is set exactly while it drains. */
  lemma PhasesAdvance(c: Config, trace: seq<Sys>, steps: seq<Step>, i: nat, j: nat, t: TunnelId)
    requires ValidConfig(c) && Run(c, trace, steps) && i <= j < |trace|
    ensures Advanced(trace[i], trace[j], t) && DrainTimed(trace[j], t)
  {
    RunIsTimed(c, trace, steps, j, t);
    forall k | i <= k < j ensures Advanced(trace[k], trace[k + 1], t) { TraceAdvances(c, trace, steps, k, t); }
    AdvancesAlong(trace, i, j, t);
  }

  /** In step `k` the entry of `t` comes from a handshake of that tunnel, or
      keeps its thresholds. */
  ghost predicate Draws(trace: seq<Sys>, steps: seq<Step>, k: nat, t: TunnelId)
    requires k < |steps| < |trace|
  {
    match (Find(trace[k].p.tunnels, t), Find(trace[k + 1].p.tunnels, t))
    case (None, Some(e)) => trace[k].nextId == t && Delivers(steps[k], e.rotateAtAge, e.rotateAtBytes)
    case (Some(e), Some(f)) => f.rotateAtAge == e.rotateAtAge && f.rotateAtBytes == e.rotateAtBytes
    case (_, None) => true
  }

  lemma StepDraws(c: Config, trace: seq<Sys>, steps: seq<Step>, k: nat, t: TunnelId)
    requires ValidConfig(c) && Run(c, trace, steps) && k < |steps|
    ensures Draws(trace, steps, k, t)
  {
    RunKeepsInv(c, trace, steps, k);
    StepEvolves(c, trace[k], steps[k], t);
  }

  lemma {:induction false} DrawnEarlier(trace: seq<Sys>, steps: seq<Step>, i: nat, t: TunnelId)
    requires i <= |steps| < |trace| && trace[0].p.tunnels == [] && Find(trace[i].p.tunnels, t).Some?
    requires forall k :: 0 <= k < i ==> Draws(trace, steps, k, t)
    ensures var e := Find(trace[i].p.tunnels, t).value;
      exists k :: 0 <= k < i && trace[k].nextId == t && Delivers(steps[k], e.rotateAtAge, e.rotateAtBytes)
  {
    if i > 0 {
      assert Draws(trace, steps, i - 1, t);
      if Find(trace[i - 1].p.tunnels, t).Some? { DrawnEarlier(trace, steps, i - 1, t); }
    }
  }

  /** Whatever is in the pool came from a handshake: the thresholds of an entry
      are those that the handshake of that very tunnel drew. */
  lemma ThresholdsAreDrawn(c: Config, trace: seq<Sys>, steps: seq<Step>, i: nat, t: TunnelId)
    requires ValidConfig(c) && Run(c, trace, steps) && i < |trace| && Find(trace[i].p.tunnels, t).Some?
    ensures var e := Find(trace[i].p.tunnels, t).value;
      exists k :: 0 <= k < i && trace[k].nextId == t && Delivers(steps[k], e.rotateAtAge, e.rotateAtBytes)
  {
    forall k | 0 <= k < i ensures Draws(trace, steps, k, t) { StepDraws(c, trace, steps, k, t); }
    DrawnEarlier(trace, steps, i, t);
  }

  lemma JoinServes(c: Config, s: Sys, step: Step, t: Sys)
    requires Inv(c, s) && Enabled(s, step) && (step.SyncDone? || step.BackgroundDone?) && step.h.Connected?
    requires t.p.tunnels == Next(c, s, step).p.tunnels
    ensures PhaseOf(t, s.nextId).Serving?
  {
    NextTunnels(c, s, step);
    JoinFinds(c, s, step.h, s.nextId);
  }

  /** And a completed handshake puts its tunnel in the pool, serving. */
  lemma DeliveryServes(c: Config, trace: seq<Sys>, steps: seq<Step>, i: nat)
    requires ValidConfig(c) && Run(c, trace, steps) && i < |steps|
    requires (steps[i].SyncDone? || steps[i].BackgroundDone?) && steps[i].h.Connected?
    ensures PhaseOf(trace[i + 1], trace[i].nextId).Serving?
  {
    RunKeepsInv(c, trace, steps, i);
    JoinServes(c, trace[i], steps[i], trace[i + 1]);
  }

  /** No pick made after a tunnel's drain began is served by that tunnel. */
  lemma NoPickAfterDrain(c: Config, trace: seq<Sys>, steps: seq<Step>, i: nat, j: nat, t: TunnelId)
    requires ValidConfig(c) && Run(c, trace, steps) && i <= j < |steps| && steps[j] == PickFlow
    requires PhaseOf(trace[i], t).Draining? || PhaseOf(trace[i], t).Removed?
    ensures Pick(c, trace[j].p, trace[j].w).1 != Serve(t)
  {
    PhasesAdvance(c, trace, steps, i, j, t);
    PickIsLeastLoaded(c, trace[j].p, trace[j].w);
    RunKeepsInv(c, trace, steps, j);
    FindIff(trace[j].p.tunnels, t);
  }

  /** A tunnel leaves the pool with flows still open only if it is dead or its
      drain has lasted the backstop. */
  lemma LeavesOnlyWhenDone(c: Config, trace: seq<Sys>, steps: seq<Step>, i: nat, t: TunnelId)
    requires ValidConfig(c) && Run(c, trace, steps) && i < |steps|
    requires Find(trace[i].p.tunnels, t).Some? && Find(trace[i + 1].p.tunnels, t).None?
    requires trace[i].w.flows(t) > 0
    ensures t !in trace[i].w.alive || Overdue(c, Find(trace[i].p.tunnels, t).value, trace[i].w.now)
  {
    RunKeepsInv(c, trace, steps, i);
    StepEvolves(c, trace[i], steps[i], t);
  }

  lemma EntryIndexed(es: seq<Entry>, t: TunnelId)
    requires Distinct(es) && Find(es, t).Some?
    ensures IndexOf(es, t).Some? && es[IndexOf(es, t).value] == Find(es, t).value
  {
    FindIff(es, t);
    var e := Find(es, t).value;
    var i :| 0 <= i < |es| && es[i] == e;
    var j := IndexOf(es, t).value;
    assert es[j] in es;
  }

  lemma TickShutsDown(c: Config, s: Sys, t: TunnelId)
    requires Distinct(s.p.tunnels) && t in s.w.alive && IndexOf(s.p.tunnels, t).Some?
    ensures var e := s.p.tunnels[IndexOf(s.p.tunnels, t).value];
      WatcherTick(c, s.p, s.w, t).1 == ShutDown(t) <==>
        DrainOver(c, if HitsThreshold(e, s.w) then MarkDraining(e, s.w.now) else e, s.w)
  {
  }

  /** What the watcher of a live tunnel does: the tunnel goes on serving if and
      only if it is neither draining nor past its age or byte threshold; it is
      removed, and shut down, if and only if it is one of these and has no
      flows left or has drained too long. */
  lemma TickDecides(c: Config, trace: seq<Sys>, steps: seq<Step>, i: nat, t: TunnelId)
    requires ValidConfig(c) && Run(c, trace, steps) && i < |steps| && steps[i] == Tick(t)
    requires t in trace[i].w.alive && Find(trace[i].p.tunnels, t).Some?
    ensures var e, w := Find(trace[i].p.tunnels, t).value, trace[i].w;
      var due := w.age(t) >= e.rotateAtAge || w.bytes(t) >= e.rotateAtBytes;
      var gone := (e.draining || due) && (w.flows(t) == 0 || Overdue(c, e, w.now));
      && (PhaseOf(trace[i + 1], t).Serving? <==> !e.draining && !due)
      && (Find(trace[i + 1].p.tunnels, t).None? <==> gone)
      && (WatcherTick(c, trace[i].p, w, t).1 == ShutDown(t) <==> gone)
  {
    RunKeepsInv(c, trace, steps, i);
    FindIff(trace[i].p.tunnels, t);
    EntryIndexed(trace[i].p.tunnels, t);
    TickFinds(c, trace[i], t, t);
    TickShutsDown(c, trace[i], t);
    NextTunnels(c, trace[i], steps[i]);
  }

  // ---- rotations ----

  /** Tunnel `t`, alive and serving, stops serving in this step. */
  ghost predicate LeavesService(c: Config, s: Sys, step: Step, t: TunnelId)
    requires Enabled(s, step)
  {
    t in s.w.alive && PhaseOf(s, t).Serving? && !PhaseOf(Next(c, s, step), t).Serving?
  }

  ghost predicate StartsDrain(c: Config, s: Sys, step: Step)
    requires Enabled(s, step)
  {
    exists t :: LeavesService(c, s, step, t)
  }

  /** The tick of a live tunnel that has hit its threshold. */
  predicate Rotates(s: Sys, step: Step)
  {
    step.Tick? && step.t in s.w.alive && IndexOf(s.p.tunnels, step.t).Some?
    && HitsThreshold(s.p.tunnels[IndexOf(s.p.tunnels, step.t).value], s.w)
  }

  lemma DrainIsRotation(c: Config, s: Sys, step: Step, t: TunnelId)
    requires ValidConfig(c) && Inv(c, s) && Enabled(s, step) && LeavesService(c, s, step, t)
    ensures Rotates(s, step)
  {
    StepEvolves(c, s, step, t);
    FindIff(s.p.tunnels, t);
  }

  lemma RotationIsDrain(c: Config, s: Sys, step: Step)
    requires ValidConfig(c) && Inv(c, s) && Enabled(s, step) && Rotates(s, step)
    ensures LeavesService(c, s, step, step.t)
  {
    TickFinds(c, s, step.t, step.t);
    FindIff(s.p.tunnels, step.t);
    NextTunnels(c, s, step);
  }

  lemma RotationCountsDrain(c: Config, s: Sys, step: Step)
    requires ValidConfig(c) && Inv(c, s) && Enabled(s, step)
    ensures Next(c, s, step).p.rotations == s.p.rotations + if StartsDrain(c, s, step) then 1 else 0
  {
    if StartsDrain(c, s, step) {
      var t :| LeavesService(c, s, step, t);
      DrainIsRotation(c, s, step, t);
    }
    if Rotates(s, step) { RotationIsDrain(c, s, step); }
    RotationsBy(c, s, step);
  }

  lemma RotationsBy(c: Config, s: Sys, step: Step)
    requires Enabled(s, step)
    ensures Next(c, s, step).p.rotations == s.p.rotations + if Rotates(s, step) then 1 else 0
  {
    match step
    case PickFlow => PickKeepsRotations(c, s.p, s.w);
    case Tick(t) => TickCountsRotation(c, s.p, s.w, t);
    case _ =>
  }

  lemma PickKeepsRotations(c: Config, p: Pool, w: World)
    ensures Pick(c, p, w).0.rotations == p.rotations
  {
  }

  lemma TickCountsRotation(c: Config, p: Pool, w: World, t: TunnelId)
    ensures WatcherTick(c, p, w, t).0.rotations == p.rotations +
      if t in w.alive && IndexOf(p.tunnels, t).Some? && HitsThreshold(p.tunnels[IndexOf(p.tunnels, t).value], w) then 1 else 0
  {
    if t in w.alive && IndexOf(p.tunnels, t).Some? {
      var i := IndexOf(p.tunnels, t).value;
      FinishKeepsRotations(c, if HitsThreshold(p.tunnels[i], w) then StartDrain(c, p, w, i) else p, w, i);
    } else {
      TopUpKeepsRotations(c, p.(tunnels := PruneDead(p.tunnels, w)), w);
    }
  }

  lemma FinishKeepsRotations(c: Config, p: Pool, w: World, i: nat)
    requires i < |p.tunnels|
    ensures FinishDrain(c, p, w, i).0.rotations == p.rotations
  {
  }

  lemma TopUpKeepsRotations(c: Config, p: Pool, w: World)
    ensures EnsureTarget(c, p, w).rotations == p.rotations
  {
  }

  ghost function DrainsStarted(c: Config, trace: seq<Sys>, steps: seq<Step>, n: nat): nat
    requires Run(c, trace, steps) && n <= |steps|
  {
    if n == 0 then 0
    else DrainsStarted(c, trace, steps, n - 1) + if StartsDrain(c, trace[n - 1], steps[n - 1]) then 1 else 0
  }

  /** The rotations counter is the number of drains started over the run. */
  lemma {:induction false} RotationsCountDrains(c: Config, trace: seq<Sys>, steps: seq<Step>, n: nat)
    requires ValidConfig(c) && Run(c, trace, steps) && n <= |steps|
    ensures trace[n].p.rotations == DrainsStarted(c, trace, steps, n)
  {
    if n > 0 {
      RotationsCountDrains(c, trace, steps, n - 1);
      RunKeepsInv(c, trace, steps, n - 1);
      RotationCountsDrain(c, trace[n - 1], steps[n - 1]);
    }
  }
}
