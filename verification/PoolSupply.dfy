/** Exactly how many tunnels the pool has, or is about to have, after each step,
    read off its entries and the world. */
module PoolSupply {
  import opened Common
  import opened PoolModel
  import opened PoolRuns
  import opened PoolDrain

  /** Every tunnel that could take a flow carries at least its cap of them. */
  ghost predicate AllFull(c: Config, es: seq<Entry>, w: World)
  {
    forall e :: e in es && Assignable(e, w) ==> w.flows(e.tunnel) >= c.maxFlows
  }

  ghost predicate AnyServing(es: seq<Entry>, w: World)
  {
    exists e :: e in es && Assignable(e, w)
  }

  ghost predicate AnyDead(es: seq<Entry>, w: World)
  {
    exists e :: e in es && e.tunnel !in w.alive
  }

  /** The entry of `t` serves and has reached its age or its byte threshold. */
  ghost predicate Due(es: seq<Entry>, w: World, t: TunnelId)
  {
    exists e :: e in es && e.tunnel == t && !e.draining
                && (w.age(t) >= e.rotateAtAge || w.bytes(t) >= e.rotateAtBytes)
  }

  /** The supply after a step, from the state before it: a pick grows a pool
      whose tunnels are all full, below the maximum; a reserved slot counts at
      once; a failure is made up only below the target; a death or a rotation
      is made up to the target. */
  ghost function SupplyAfter(c: Config, s: Sys, step: Step): int
  {
    var have := Supply(s);
    match step
    case PickFlow =>
      if !AnyServing(s.p.tunnels, s.w) then have + 1
      else if AllFull(c, s.p.tunnels, s.w) && have < c.poolMax then Max(have + 1, c.poolSize)
      else Max(have, c.poolSize)
    case SyncDone(h) => AfterConnect(c, have, h)
    case BackgroundDone(h) => AfterConnect(c, have, h)
    case Tick(t) =>
      if t !in s.w.alive then (if AnyDead(s.p.tunnels, s.w) then Max(have, c.poolSize) else have)
      else if Due(s.p.tunnels, s.w, t) then Max(have - 1, c.poolSize)
      else have
    case TunnelDropped(_) => have
    case Environment(w) => CountIn(s.p.tunnels, w.alive) + s.p.connecting
  }

  function AfterConnect(c: Config, have: int, h: Handshake): int
  {
    match h
    case Connected(_, _, alive) => Max(if alive then have else have - 1, c.poolSize)
    case Refused => if have - 1 < c.poolSize then have else have - 1
  }

  /** A pick that serves grows the pool by one connect beyond topping up if and
      only if every assignable tunnel is full and the pool is below its
      maximum; a pick that cannot serve reserves one slot. */
  lemma PickSupplies(c: Config, p: Pool, w: World)
    ensures var q := Pick(c, p, w).0;
      var have, after := AssignableCount(p.tunnels, w) + p.connecting, AssignableCount(q.tunnels, w) + q.connecting;
      after == if !AnyServing(p.tunnels, w) then have + 1
               else if AllFull(c, p.tunnels, w) && have < c.poolMax then Max(have + 1, c.poolSize)
               else Max(have, c.poolSize)
  {
    var q := p.(tunnels := PruneDead(p.tunnels, w));
    PruneKeepsCount(p.tunnels, w, w.alive);
    PrunedChoices(c, p.tunnels, w);
    if LeastLoaded(q.tunnels, w, Some(c.maxFlows)).Some? {
      EnsureTargetReaches(c, q, w);
    } else if LeastLoaded(q.tunnels, w, None).Some? {
      EnsureTargetReaches(c, q, w);
      EnsureTargetReaches(c, SpawnConnects(q, 1), w);
    }
  }

  /** Which branch a pick takes, read off the entries. */
  lemma PrunedChoices(c: Config, es: seq<Entry>, w: World)
    ensures AllFull(c, es, w) <==> LeastLoaded(PruneDead(es, w), w, Some(c.maxFlows)).None?
    ensures AnyServing(es, w) <==> LeastLoaded(PruneDead(es, w), w, None).Some?
  {
    PruneKeepsLive(es, w);
    LeastLoadedMember(PruneDead(es, w), w, Some(c.maxFlows));
    LeastLoadedMember(PruneDead(es, w), w, None);
    forall e | e in es && Assignable(e, w) ensures e in PruneDead(es, w) && Candidate(e, w, None) {}
  }

  lemma FailureSupplies(c: Config, s: Sys, u: Sys, fromBackground: bool)
    requires Accounted(s) && TaskFinished(s, u, fromBackground)
    ensures Supply(u.(p := ConnectFailed(c, u.p, u.w))) == AfterConnect(c, Supply(s), Refused)
  {
    assert u.p.tunnels == s.p.tunnels && u.p.connecting == s.p.connecting > 0;
  }

  lemma JoinCounts(es: seq<Entry>, e: Entry, live: set<TunnelId>, t: TunnelId, alive: bool)
    requires e.tunnel == t && !e.draining && t !in live && forall x :: x in es ==> x.tunnel != t
    ensures CountIn(es + [e], if alive then live + {t} else live) == CountIn(es, live) + if alive then 1 else 0
  {
    var now := if alive then live + {t} else live;
    CountAppend(es, [e], now);
    assert [e][..0] == [];
    assert forall i :: 0 <= i < |es| ==> es[i] in es;
    CountMonotone(es, now, live);
    CountMonotone(es, live, now);
  }

  lemma ConnectSupplies(c: Config, p: Pool, w: World, e: Entry, alive: bool)
    requires p.connecting > 0 && !e.draining && e.tunnel !in w.alive && forall x :: x in p.tunnels ==> x.tunnel != e.tunnel
    ensures var v := Joined(w, e.tunnel, alive);
      var q := ConnectOk(c, p, v, e);
      var have := AssignableCount(p.tunnels, w) + p.connecting;
      AssignableCount(q.tunnels, v) + q.connecting == Max(if alive then have else have - 1, c.poolSize)
  {
    JoinCounts(p.tunnels, e, w.alive, e.tunnel, alive);
    EnsureTargetReaches(c, AddEntry(p, e), Joined(w, e.tunnel, alive));
  }

  lemma DeliverySupplies(c: Config, s: Sys, u: Sys, h: Handshake, fromBackground: bool)
    requires Shape(s) && Accounted(s) && h.Connected? && TaskFinished(s, u, fromBackground)
    ensures Supply(Delivered(c, u, h)) == AfterConnect(c, Supply(s), h)
  {
    assert u.p.tunnels == s.p.tunnels && u.p.connecting == s.p.connecting > 0;
    assert forall x :: x in u.p.tunnels ==> x.tunnel != u.nextId;
    ConnectSupplies(c, u.p, u.w, NewEntry(u.nextId, h.rotateAtAge, h.rotateAtBytes), h.alive);
  }

  lemma PruneSupplies(p: Pool, w: World)
    ensures var q := p.(tunnels := PruneDead(p.tunnels, w));
      && (|q.tunnels| < |p.tunnels| <==> AnyDead(p.tunnels, w))
      && AssignableCount(q.tunnels, w) == AssignableCount(p.tunnels, w)
  {
    PruneKeepsLive(p.tunnels, w);
    PruneKeepsCount(p.tunnels, w, w.alive);
  }

  lemma DeathSupplies(c: Config, s: Sys, t: TunnelId)
    requires t !in s.w.alive
    ensures Supply(Next(c, s, Tick(t))) == SupplyAfter(c, s, Tick(t))
  {
    var u := s.(p := s.p.(tunnels := PruneDead(s.p.tunnels, s.w)));
    var v := if |u.p.tunnels| < |s.p.tunnels| then u.(p := EnsureTarget(c, u.p, u.w)) else u;
    PruneSupplies(s.p, s.w);
    EnsureTargetReaches(c, u.p, u.w);
    DeathTickIs(c, s, t, u, v);
  }

  lemma DrainSupplies(c: Config, s: Sys, i: nat)
    requires i < |s.p.tunnels| && !s.p.tunnels[i].draining && s.p.tunnels[i].tunnel in s.w.alive
    ensures Supply(s.(p := StartDrain(c, s.p, s.w, i))) == Max(Supply(s) - 1, c.poolSize)
  {
    var es, ds := s.p.tunnels, Marked(s, i).p.tunnels;
    CountSplit(es, i, s.w.alive);
    CountSplit(ds, i, s.w.alive);
    assert ds[..i] == es[..i] && ds[i + 1..] == es[i + 1..];
    EnsureTargetReaches(c, Marked(s, i).p, s.w);
  }

  lemma TickSupplies(c: Config, s: Sys, t: TunnelId)
    requires ValidConfig(c) && Inv(c, s) && t in s.w.alive && IndexOf(s.p.tunnels, t).Some?
    ensures Supply(Next(c, s, Tick(t))) == SupplyAfter(c, s, Tick(t))
  {
    var i := IndexOf(s.p.tunnels, t).value;
    FindIff(s.p.tunnels, t);
    assert s.p.tunnels[i] in s.p.tunnels;
    assert Due(s.p.tunnels, s.w, t) <==> HitsThreshold(s.p.tunnels[i], s.w);
    if HitsThreshold(s.p.tunnels[i], s.w) {
      var u := s.(p := StartDrain(c, s.p, s.w, i));
      DrainSupplies(c, s, i);
      DrainStartKeepsInv(c, s, i);
      DrainEndKeepsInv(c, u, i);
      assert Next(c, s, Tick(t)) == u.(p := FinishDrain(c, u.p, u.w, i).0);
    } else {
      DrainEndKeepsInv(c, s, i);
    }
  }

  lemma SyncSupplies(c: Config, s: Sys, h: Handshake)
    requires Shape(s) && Accounted(s) && Enabled(s, SyncDone(h))
    ensures Supply(Next(c, s, SyncDone(h))) == AfterConnect(c, Supply(s), h)
  {
    var u := s.(reserved := s.reserved - 1);
    if h.Connected? { DeliverySupplies(c, s, u, h, false); } else { FailureSupplies(c, s, u, false); }
  }

  lemma BackgroundSupplies(c: Config, s: Sys, h: Handshake)
    requires Shape(s) && Accounted(s) && Enabled(s, BackgroundDone(h))
    ensures Supply(Next(c, s, BackgroundDone(h))) == AfterConnect(c, Supply(s), h)
  {
    var u := s.(p := s.p.(background := s.p.background - 1));
    if h.Connected? { DeliverySupplies(c, s, u, h, true); } else { FailureSupplies(c, s, u, true); }
  }

  lemma StrayTickSupplies(c: Config, s: Sys, t: TunnelId)
    requires t in s.w.alive && IndexOf(s.p.tunnels, t).None?
    ensures Supply(Next(c, s, Tick(t))) == SupplyAfter(c, s, Tick(t))
  {
  }

  lemma StepSupplies(c: Config, s: Sys, step: Step)
    requires ValidConfig(c) && Inv(c, s) && Enabled(s, step)
    ensures Supply(Next(c, s, step)) == SupplyAfter(c, s, step)
  {
    match step
    case PickFlow => PickSupplies(c, s.p, s.w);
    case SyncDone(h) => SyncSupplies(c, s, h);
    case BackgroundDone(h) => BackgroundSupplies(c, s, h);
    case Tick(t) =>
      if t !in s.w.alive { DeathSupplies(c, s, t); }
      else if IndexOf(s.p.tunnels, t).Some? { TickSupplies(c, s, t); }
      else { StrayTickSupplies(c, s, t); }
    case TunnelDropped(_) =>
    case Environment(_) =>
  }

  /** In every run every step moves the supply exactly so. */
  lemma SupplyIsExact(c: Config, trace: seq<Sys>, steps: seq<Step>, i: nat)
    requires ValidConfig(c) && Run(c, trace, steps) && i < |steps|
    ensures Supply(trace[i + 1]) == SupplyAfter(c, trace[i], steps[i])
  {
    RunKeepsInv(c, trace, steps, i);
    StepSupplies(c, trace[i], steps[i]);
  }

  // ---- watchers ----

  /** A tick ends its watcher exactly when its tunnel is dead or no longer in
      the pool, a delivered tunnel gets a watcher, and nothing else touches them. */
  lemma StepWatches(c: Config, s: Sys, step: Step)
    requires ValidConfig(c) && Inv(c, s) && Enabled(s, step)
    ensures Next(c, s, step).p.watchers ==
      match step
      case SyncDone(h) => s.p.watchers + if h.Connected? then multiset{s.nextId} else multiset{}
      case BackgroundDone(h) => s.p.watchers + if h.Connected? then multiset{s.nextId} else multiset{}
      case Tick(t) =>
        if t in s.w.alive && InPool(Next(c, s, step).p, t) then s.p.watchers else s.p.watchers - multiset{t}
      case TunnelDropped(t) => s.p.watchers - multiset{t}
      case _ => s.p.watchers
  {
    match step
    case PickFlow => PickKeepsWatchers(c, s.p, s.w);
    case Tick(t) => TickWatches(c, s, t);
    case _ =>
  }

  lemma PickKeepsWatchers(c: Config, p: Pool, w: World)
    ensures Pick(c, p, w).0.watchers == p.watchers
  {
  }

  lemma FoundInPool(p: Pool, t: TunnelId)
    requires Distinct(p.tunnels)
    ensures InPool(p, t) <==> Find(p.tunnels, t).Some?
  {
    FindIff(p.tunnels, t);
    if InPool(p, t) {
      var i :| 0 <= i < |p.tunnels| && p.tunnels[i].tunnel == t;
      assert p.tunnels[i] in p.tunnels;
    }
  }

  lemma LiveTickWatches(c: Config, p: Pool, w: World, t: TunnelId)
    requires t in w.alive && IndexOf(p.tunnels, t).Some?
    ensures var e := p.tunnels[IndexOf(p.tunnels, t).value];
      WatcherTick(c, p, w, t).0.watchers ==
        if DrainOver(c, if HitsThreshold(e, w) then MarkDraining(e, w.now) else e, w)
        then p.watchers - multiset{t} else p.watchers
  {
  }

  lemma TickWatches(c: Config, s: Sys, t: TunnelId)
    requires ValidConfig(c) && Inv(c, s)
    ensures Next(c, s, Tick(t)).p.watchers ==
      if t in s.w.alive && InPool(Next(c, s, Tick(t)).p, t) then s.p.watchers else s.p.watchers - multiset{t}
  {
    TickKeepsInv(c, s, t);
    FoundInPool(Next(c, s, Tick(t)).p, t);
    if t in s.w.alive && IndexOf(s.p.tunnels, t).Some? {
      TickFinds(c, s, t, t);
      LiveTickWatches(c, s.p, s.w, t);
    } else {
      FindIff(s.p.tunnels, t);
    }
  }
}
