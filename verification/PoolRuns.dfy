/** Runs of the pool: every interleaving of picks, connect completions, watcher
    ticks, tunnel deaths and load changes. Each lock-held section is one step. */
module PoolRuns {
  import opened Common
  import opened PoolModel

  /** The pool, what it can observe, and bookkeeping that only the statements
      use: picks between their two sections, the next tunnel identity, the
      tunnels that background connects delivered, whether a pick has begun. */
  datatype Sys = Sys(p: Pool, w: World, reserved: nat, nextId: TunnelId,
                     born: set<TunnelId>, began: bool)

  datatype Handshake = Connected(rotateAtAge: nat, rotateAtBytes: nat, alive: bool) | Refused

  datatype Step =
    | PickFlow
    | SyncDone(h: Handshake)
    | BackgroundDone(h: Handshake)
    | Tick(t: TunnelId)
    | TunnelDropped(t: TunnelId)  // the watcher finds its tunnel deallocated
    | Environment(w: World)

  ghost predicate InPool(p: Pool, t: TunnelId)
  {
    exists i :: 0 <= i < |p.tunnels| && p.tunnels[i].tunnel == t
  }

  ghost predicate Init(s: Sys)
  {
    && s.p == Pool([], 0, 0, 0, 0, 0, multiset{})
    && s.w.alive == {} && s.reserved == 0 && s.nextId == 0 && s.born == {} && !s.began
  }

  ghost predicate Enabled(s: Sys, step: Step)
  {
    match step
    case PickFlow => true
    case SyncDone(_) => s.reserved > 0
    case BackgroundDone(_) => s.p.background > 0
    case Tick(t) => s.p.watchers[t] > 0
    case TunnelDropped(t) => s.p.watchers[t] > 0 && !InPool(s.p, t)
    // Liveness is one-way, and the clock does not run backwards.
    case Environment(w) => w.alive <= s.w.alive && w.now >= s.w.now
  }

  function Joined(w: World, t: TunnelId, alive: bool): World
  {
    if alive then w.(alive := w.alive + {t}) else w
  }

  function Delivered(c: Config, s: Sys, h: Handshake): Sys
    requires h.Connected?
  {
    var w := Joined(s.w, s.nextId, h.alive);
    var e := NewEntry(s.nextId, h.rotateAtAge, h.rotateAtBytes);
    s.(p := ConnectOk(c, s.p, w, e), w := w, nextId := s.nextId + 1)
  }

  function Next(c: Config, s: Sys, step: Step): Sys
    requires step.BackgroundDone? ==> s.p.background > 0
    requires step.SyncDone? ==> s.reserved > 0
  {
    match step
    case PickFlow =>
      var (q, r) := Pick(c, s.p, s.w);
      s.(p := q, began := true, reserved := if r.Reserve? then s.reserved + 1 else s.reserved)
    case SyncDone(h) =>
      var u := s.(reserved := s.reserved - 1);
      if h.Connected? then Delivered(c, u, h) else u.(p := ConnectFailed(c, u.p, u.w))
    case BackgroundDone(h) =>
      var u := s.(p := s.p.(background := s.p.background - 1));
      if h.Connected? then Delivered(c, u, h).(born := u.born + {u.nextId})
      else u.(p := ConnectFailed(c, u.p, u.w))
    case Tick(t) => s.(p := WatcherTick(c, s.p, s.w, t).0)
    case TunnelDropped(t) => s.(p := StopWatcher(s.p, t))
    case Environment(w) => s.(w := w)
  }

  /** A finite run: consecutive states related by enabled steps. */
  ghost predicate Run(c: Config, trace: seq<Sys>, steps: seq<Step>)
  {
    && |trace| == |steps| + 1
    && Init(trace[0])
    && forall i :: 0 <= i < |steps| ==>
         Enabled(trace[i], steps[i]) && trace[i + 1] == Next(c, trace[i], steps[i])
  }

  // ---- the invariant ----

  ghost predicate Shape(s: Sys)
  {
    && Distinct(s.p.tunnels)
    && (forall e :: e in s.p.tunnels ==> e.tunnel < s.nextId)
    && (forall e :: e in s.p.tunnels ==> (e.draining <==> e.drainingSince.Some?))
    && (forall t :: t in s.w.alive ==> t < s.nextId)
    && (forall t :: t in s.born ==> t < s.nextId)
  }

  /** Exactly one running watcher for every entry. */
  ghost predicate Watched(s: Sys)
  {
    && (forall e :: e in s.p.tunnels ==> s.p.watchers[e.tunnel] == 1)
    && (forall t :: s.p.watchers[t] <= 1 && (s.p.watchers[t] > 0 ==> t < s.nextId))
  }

  /** `connecting` is the picks between their two sections plus the background
      connects; one handshake is counted for every tunnel there has been. */
  ghost predicate Accounted(s: Sys)
  {
    s.p.connecting == s.reserved + s.p.background && s.p.handshakes == s.nextId
  }

  /** Assignable tunnels from background connects, plus such connects in flight. */
  function BackgroundLoad(s: Sys): nat
  {
    CountIn(s.p.tunnels, s.w.alive * s.born) + s.p.background
  }

  ghost predicate NotStuck(s: Sys)
  {
    s.began ==> s.p.connecting > 0 || exists e :: e in s.p.tunnels && !e.draining
  }

  ghost predicate Inv(c: Config, s: Sys)
  {
    Shape(s) && Watched(s) && Accounted(s) && BackgroundLoad(s) <= c.poolMax && NotStuck(s)
  }

  function Supply(s: Sys): nat { AssignableCount(s.p.tunnels, s.w) + s.p.connecting }

  lemma BackgroundBelowSupply(s: Sys)
    requires Accounted(s)
    ensures BackgroundLoad(s) <= Supply(s)
  {
    CountMonotone(s.p.tunnels, s.w.alive * s.born, s.w.alive);
  }

  lemma SupplyMeansNotStuck(s: Sys)
    requires Supply(s) >= 1
    ensures NotStuck(s)
  {
    CountPositive(s.p.tunnels, s.w.alive);
    if s.p.connecting == 0 {
      var i :| 0 <= i < |s.p.tunnels| && !s.p.tunnels[i].draining && s.p.tunnels[i].tunnel in s.w.alive;
      assert s.p.tunnels[i] in s.p.tunnels;
    }
  }

  /** Pruning and topping up keep everything but the accounting of `connecting`,
      which moves in step with the background tasks. */
  lemma TopUpKeepsInv(c: Config, s: Sys)
    requires ValidConfig(c) && Shape(s) && Watched(s) && Accounted(s) && BackgroundLoad(s) <= c.poolMax
    ensures var s' := s.(p := EnsureTarget(c, s.p, s.w));
      Inv(c, s') && Supply(s') >= c.poolSize
  {
    var s' := s.(p := EnsureTarget(c, s.p, s.w));
    EnsureTargetReaches(c, s.p, s.w);
    BackgroundBelowSupply(s');
    SupplyMeansNotStuck(s');
  }

  lemma PruneKeepsBase(c: Config, s: Sys)
    requires Shape(s) && Watched(s) && Accounted(s) && BackgroundLoad(s) <= c.poolMax
    ensures var s' := s.(p := s.p.(tunnels := PruneDead(s.p.tunnels, s.w)));
      Shape(s') && Watched(s') && Accounted(s') && BackgroundLoad(s') <= c.poolMax
      && Supply(s') == Supply(s)
  {
    PruneKeepsLive(s.p.tunnels, s.w);
    PruneKeepsDistinct(s.p.tunnels, s.w);
    PruneKeepsCount(s.p.tunnels, s.w, s.w.alive);
    PruneKeepsCount(s.p.tunnels, s.w, s.w.alive * s.born);
  }

  lemma PickKeepsInv(c: Config, s: Sys)
    requires ValidConfig(c) && Inv(c, s)
    ensures Inv(c, Next(c, s, PickFlow))
    ensures Pick(c, s.p, s.w).1.Serve? ==> Supply(Next(c, s, PickFlow)) >= c.poolSize
  {
    PruneKeepsBase(c, s);
    var u := s.(p := s.p.(tunnels := PruneDead(s.p.tunnels, s.w)), began := true);
    var under := LeastLoaded(u.p.tunnels, u.w, Some(c.maxFlows));
    if under.Some? {
      TopUpKeepsInv(c, u);
    } else if LeastLoaded(u.p.tunnels, u.w, None).Some? {
      BackgroundBelowSupply(u);
      var grown := if Supply(u) < c.poolMax then SpawnConnects(u.p, 1) else u.p;
      TopUpKeepsInv(c, u.(p := grown));
    } else {
      var s' := Next(c, s, PickFlow);
      assert s' == u.(p := u.p.(connecting := u.p.connecting + 1), reserved := u.reserved + 1);
    }
  }

  /** `u` is `s` with the finished task taken off its count. */
  ghost predicate TaskFinished(s: Sys, u: Sys, fromBackground: bool)
  {
    if fromBackground then s.p.background > 0 && u == s.(p := s.p.(background := s.p.background - 1))
    else s.reserved > 0 && u == s.(reserved := s.reserved - 1)
  }

  lemma FailureKeepsInv(c: Config, s: Sys, u: Sys, fromBackground: bool)
    requires ValidConfig(c) && Inv(c, s) && TaskFinished(s, u, fromBackground)
    ensures var s' := u.(p := ConnectFailed(c, u.p, u.w));
      Inv(c, s') && Min(Supply(s'), c.poolSize) >= Min(Supply(s), c.poolSize)
  {
    var s' := u.(p := ConnectFailed(c, u.p, u.w));
    assert s'.p.tunnels == s.p.tunnels;
    BackgroundBelowSupply(s');
    SupplyMeansNotStuck(s');
  }

  /** The state in which a delivered tunnel has joined, before topping up. */
  function JoinedState(u: Sys, h: Handshake, fromBackground: bool): Sys
    requires h.Connected?
  {
    var e := NewEntry(u.nextId, h.rotateAtAge, h.rotateAtBytes);
    u.(p := AddEntry(u.p, e), w := Joined(u.w, u.nextId, h.alive), nextId := u.nextId + 1,
       born := if fromBackground then u.born + {u.nextId} else u.born)
  }

  lemma JoinKeepsShape(u: Sys, h: Handshake, fromBackground: bool)
    requires Shape(u) && Watched(u) && h.Connected?
    ensures Shape(JoinedState(u, h, fromBackground)) && Watched(JoinedState(u, h, fromBackground))
  {
    var v := JoinedState(u, h, fromBackground);
    forall x, y | 0 <= x < y < |v.p.tunnels| ensures v.p.tunnels[x].tunnel != v.p.tunnels[y].tunnel {
      assert u.p.tunnels[x] in u.p.tunnels;
    }
  }

  lemma JoinKeepsLoad(u: Sys, h: Handshake, fromBackground: bool)
    requires Shape(u) && h.Connected?
    ensures BackgroundLoad(JoinedState(u, h, fromBackground)) <= BackgroundLoad(u) + if fromBackground then 1 else 0
  {
    var v := JoinedState(u, h, fromBackground);
    var e := NewEntry(u.nextId, h.rotateAtAge, h.rotateAtBytes);
    var live := v.w.alive * v.born;
    CountAppend(u.p.tunnels, [e], live);
    assert [e][..0] == [];
    assert forall i :: 0 <= i < |u.p.tunnels| ==> u.p.tunnels[i] in u.p.tunnels;
    CountMonotone(u.p.tunnels, live, u.w.alive * u.born);
  }

  lemma JoinedAccounts(c: Config, s: Sys, u: Sys, h: Handshake, fromBackground: bool)
    requires Inv(c, s) && h.Connected? && TaskFinished(s, u, fromBackground)
    ensures Accounted(JoinedState(u, h, fromBackground)) && BackgroundLoad(JoinedState(u, h, fromBackground)) <= c.poolMax
  {
    JoinKeepsLoad(u, h, fromBackground);
  }

  lemma DeliveredIs(c: Config, u: Sys, h: Handshake, fromBackground: bool)
    requires h.Connected?
    ensures var mid := JoinedState(u, h, fromBackground);
      Delivered(c, u, h).(born := mid.born) == mid.(p := EnsureTarget(c, mid.p, mid.w))
  {
  }

  lemma DeliveryKeepsInv(c: Config, s: Sys, u: Sys, h: Handshake, fromBackground: bool)
    requires ValidConfig(c) && Inv(c, s) && h.Connected? && TaskFinished(s, u, fromBackground)
    ensures var s' := Delivered(c, u, h).(born := if fromBackground then u.born + {u.nextId} else u.born);
      Inv(c, s') && Supply(s') >= c.poolSize
  {
    var mid := JoinedState(u, h, fromBackground);
    JoinKeepsShape(u, h, fromBackground);
    JoinedAccounts(c, s, u, h, fromBackground);
    TopUpKeepsInv(c, mid);
    DeliveredIs(c, u, h, fromBackground);
  }

  function Marked(s: Sys, i: nat): Sys
    requires i < |s.p.tunnels|
  {
    s.(p := s.p.(tunnels := s.p.tunnels[i := MarkDraining(s.p.tunnels[i], s.w.now)],
                 rotations := s.p.rotations + 1))
  }

  lemma MarkKeepsShape(s: Sys, i: nat)
    requires Shape(s) && Watched(s) && i < |s.p.tunnels|
    ensures Shape(Marked(s, i)) && Watched(Marked(s, i))
  {
    var es, ds := s.p.tunnels, Marked(s, i).p.tunnels;
    forall e | e in ds
      ensures e.tunnel < s.nextId && s.p.watchers[e.tunnel] == 1 && (e.draining <==> e.drainingSince.Some?)
    {
      var j :| 0 <= j < |ds| && ds[j] == e;
      assert es[j] in es;
    }
  }

  lemma MarkKeepsLoad(s: Sys, i: nat)
    requires i < |s.p.tunnels|
    ensures BackgroundLoad(Marked(s, i)) <= BackgroundLoad(s)
  {
    var es, ds := s.p.tunnels, Marked(s, i).p.tunnels;
    CountSplit(es, i, s.w.alive * s.born);
    CountSplit(ds, i, s.w.alive * s.born);
    assert ds[..i] == es[..i] && ds[i + 1..] == es[i + 1..];
  }

  /** Marking entry `i` as draining and topping up. */
  lemma DrainStartKeepsInv(c: Config, s: Sys, i: nat)
    requires ValidConfig(c) && Inv(c, s) && i < |s.p.tunnels|
    ensures var s' := s.(p := StartDrain(c, s.p, s.w, i));
      Inv(c, s') && Supply(s') >= c.poolSize
  {
    MarkKeepsShape(s, i);
    MarkKeepsLoad(s, i);
    TopUpKeepsInv(c, Marked(s, i));
  }

  /** A watcher may stop once its tunnel has left the pool. */
  lemma StopKeepsInv(c: Config, s: Sys, t: TunnelId)
    requires Inv(c, s) && forall e :: e in s.p.tunnels ==> e.tunnel != t
    ensures Inv(c, s.(p := StopWatcher(s.p, t)))
    ensures Supply(s.(p := StopWatcher(s.p, t))) == Supply(s)
  {
  }

  function Without(es: seq<Entry>, i: nat): seq<Entry>
    requires i < |es|
  {
    es[..i] + es[i + 1..]
  }

  lemma WithoutKeepsOthers(es: seq<Entry>, i: nat)
    requires i < |es| && Distinct(es)
    ensures forall e :: e in Without(es, i) <==> e in es && e.tunnel != es[i].tunnel
    ensures Distinct(Without(es, i))
  {
    var rest := Without(es, i);
    assert forall k :: 0 <= k < |rest| ==> rest[k] == es[if k < i then k else k + 1];
    forall e | e in es && e.tunnel != es[i].tunnel ensures e in rest {
      var j :| 0 <= j < |es| && es[j] == e;
      assert rest[if j < i then j else j - 1] == e;
    }
  }

  lemma RemovalKeepsInv(c: Config, s: Sys, i: nat)
    requires Inv(c, s) && i < |s.p.tunnels| && s.p.tunnels[i].draining
    ensures var s' := s.(p := s.p.(tunnels := Without(s.p.tunnels, i)));
      Inv(c, s') && Supply(s') == Supply(s)
  {
    var es := s.p.tunnels;
    CountSplit(es, i, s.w.alive * s.born);
    CountSplit(es, i, s.w.alive);
    CountAppend(es[..i], es[i + 1..], s.w.alive * s.born);
    CountAppend(es[..i], es[i + 1..], s.w.alive);
    WithoutKeepsOthers(es, i);
    assert forall e :: e in es && !e.draining ==> e.tunnel != es[i].tunnel by {
      forall e | e in es && !e.draining ensures e.tunnel != es[i].tunnel {
        var j :| 0 <= j < |es| && es[j] == e;
      }
    }
  }

  lemma DrainEndKeepsInv(c: Config, s: Sys, i: nat)
    requires Inv(c, s) && i < |s.p.tunnels|
    ensures var s' := s.(p := FinishDrain(c, s.p, s.w, i).0);
      Inv(c, s') && Supply(s') == Supply(s)
  {
    var es := s.p.tunnels;
    if DrainOver(c, es[i], s.w) {
      RemovalKeepsInv(c, s, i);
      WithoutKeepsOthers(es, i);
      StopKeepsInv(c, s.(p := s.p.(tunnels := Without(es, i))), es[i].tunnel);
    }
  }

  lemma DeathTickIs(c: Config, s: Sys, t: TunnelId, u: Sys, v: Sys)
    requires t !in s.w.alive && u == s.(p := s.p.(tunnels := PruneDead(s.p.tunnels, s.w)))
    requires v == if |u.p.tunnels| < |s.p.tunnels| then u.(p := EnsureTarget(c, u.p, u.w)) else u
    ensures Next(c, s, Tick(t)) == v.(p := StopWatcher(v.p, t))
  {
  }

  lemma DeathTickKeepsInv(c: Config, s: Sys, t: TunnelId)
    requires ValidConfig(c) && Inv(c, s) && t !in s.w.alive
    ensures Inv(c, Next(c, s, Tick(t)))
    ensures PruneDead(s.p.tunnels, s.w) != s.p.tunnels ==> Supply(Next(c, s, Tick(t))) >= c.poolSize
  {
    PruneKeepsBase(c, s);
    PruneKeepsLive(s.p.tunnels, s.w);
    var u := s.(p := s.p.(tunnels := PruneDead(s.p.tunnels, s.w)));
    var v := if |u.p.tunnels| < |s.p.tunnels| then u.(p := EnsureTarget(c, u.p, u.w)) else u;
    if |u.p.tunnels| < |s.p.tunnels| { TopUpKeepsInv(c, u); }
    DeathTickIs(c, s, t, u, v);
    StopKeepsInv(c, v, t);
  }

  lemma TickKeepsInv(c: Config, s: Sys, t: TunnelId)
    requires ValidConfig(c) && Inv(c, s)
    ensures Inv(c, Next(c, s, Tick(t)))
  {
    var at := IndexOf(s.p.tunnels, t);
    if t !in s.w.alive {
      DeathTickKeepsInv(c, s, t);
    } else if at.None? {
      StopKeepsInv(c, s, t);
    } else if HitsThreshold(s.p.tunnels[at.value], s.w) {
      DrainTickKeepsInv(c, s, t);
    } else {
      DrainEndKeepsInv(c, s, at.value);
    }
  }

  /** A tick that starts a drain leaves the pool at or above its target. */
  lemma DrainTickKeepsInv(c: Config, s: Sys, t: TunnelId)
    requires ValidConfig(c) && Inv(c, s) && t in s.w.alive
    requires IndexOf(s.p.tunnels, t).Some? && HitsThreshold(s.p.tunnels[IndexOf(s.p.tunnels, t).value], s.w)
    ensures Inv(c, Next(c, s, Tick(t))) && Supply(Next(c, s, Tick(t))) >= c.poolSize
  {
    var i := IndexOf(s.p.tunnels, t).value;
    var u := s.(p := StartDrain(c, s.p, s.w, i));
    DrainStartKeepsInv(c, s, i);
    DrainEndKeepsInv(c, u, i);
    assert Next(c, s, Tick(t)) == u.(p := FinishDrain(c, u.p, u.w, i).0);
  }

  lemma DroppedKeepsInv(c: Config, s: Sys, t: TunnelId)
    requires Inv(c, s) && Enabled(s, TunnelDropped(t))
    ensures Inv(c, s.(p := StopWatcher(s.p, t)))
  {
    forall e | e in s.p.tunnels ensures e.tunnel != t {
      var i :| 0 <= i < |s.p.tunnels| && s.p.tunnels[i] == e;
    }
    StopKeepsInv(c, s, t);
  }

  lemma SyncKeepsInv(c: Config, s: Sys, h: Handshake)
    requires ValidConfig(c) && Inv(c, s) && Enabled(s, SyncDone(h))
    ensures Inv(c, Next(c, s, SyncDone(h)))
  {
    var u := s.(reserved := s.reserved - 1);
    if h.Connected? { DeliveryKeepsInv(c, s, u, h, false); } else { FailureKeepsInv(c, s, u, false); }
  }

  lemma BackgroundKeepsInv(c: Config, s: Sys, h: Handshake)
    requires ValidConfig(c) && Inv(c, s) && Enabled(s, BackgroundDone(h))
    ensures Inv(c, Next(c, s, BackgroundDone(h)))
  {
    var u := s.(p := s.p.(background := s.p.background - 1));
    if h.Connected? { DeliveryKeepsInv(c, s, u, h, true); } else { FailureKeepsInv(c, s, u, true); }
  }

  lemma EnvironmentKeepsInv(c: Config, s: Sys, w: World)
    requires Inv(c, s) && Enabled(s, Environment(w))
    ensures Inv(c, s.(w := w))
  {
    CountMonotone(s.p.tunnels, w.alive * s.born, s.w.alive * s.born);
  }

  /** Every step keeps the invariant. */
  lemma StepKeepsInv(c: Config, s: Sys, step: Step)
    requires ValidConfig(c) && Inv(c, s) && Enabled(s, step)
    ensures Inv(c, Next(c, s, step))
  {
    match step
    case PickFlow => PickKeepsInv(c, s);
    case SyncDone(h) => SyncKeepsInv(c, s, h);
    case BackgroundDone(h) => BackgroundKeepsInv(c, s, h);
    case Tick(t) => TickKeepsInv(c, s, t);
    case TunnelDropped(t) => DroppedKeepsInv(c, s, t);
    case Environment(w) => EnvironmentKeepsInv(c, s, w);
  }

  /** In every state of every run: `connecting` is exactly the picks between
      their two sections plus the background connects, the background never
      exceeds the maximum, every entry has exactly one watcher, and once a pick
      has begun the pool has a connect in flight or a non-draining entry. */
  lemma {:induction false} RunKeepsInv(c: Config, trace: seq<Sys>, steps: seq<Step>, i: nat)
    requires ValidConfig(c) && Run(c, trace, steps) && i < |trace|
    ensures Inv(c, trace[i])
  {
    if i == 0 {
      assert forall t :: trace[0].p.watchers[t] == 0;
    } else {
      RunKeepsInv(c, trace, steps, i - 1);
      StepKeepsInv(c, trace[i - 1], steps[i - 1]);
    }
  }
}
