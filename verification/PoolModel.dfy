/** The tunnel pool's state and the effect of each section that runs under its
    lock, as functions on values. The class in PoolClass.dfy is proved to
    compute these functions; PoolRuns.dfy proves what every run of them keeps. */
module PoolModel {
  import opened Common

  /** Identity of one connected tunnel (pointer identity in the source). */
  type TunnelId = nat

  /** Pool knobs. `validate_pool` refuses a zero size and a maximum below it. */
  datatype Config = Config(poolSize: nat, poolMax: nat, maxFlows: nat, drainTimeout: nat)

  predicate ValidConfig(c: Config) { 1 <= c.poolSize <= c.poolMax }

  datatype Entry = Entry(tunnel: TunnelId, rotateAtAge: nat, rotateAtBytes: nat,
                         draining: bool, drainingSince: Option<nat>)

  /** What a lock-held section can observe of the tunnels and the clock.
      One snapshot serves one section. */
  datatype World = World(alive: set<TunnelId>, flows: TunnelId -> nat,
                         age: TunnelId -> nat, bytes: TunnelId -> nat, now: nat)

  /** The fields of `PoolInner`, plus the tasks it has handed to the runtime:
      unfinished background connects and running watchers. */
  datatype Pool = Pool(tunnels: seq<Entry>, connecting: nat, backoffAttempt: nat,
                       handshakes: nat, rotations: nat,
                       background: nat, watchers: multiset<TunnelId>)

  predicate Assignable(e: Entry, w: World) { !e.draining && e.tunnel in w.alive }

  /** Entries that take new flows and whose tunnel lies in `live`. */
  function CountIn(es: seq<Entry>, live: set<TunnelId>): nat
  {
    if es == [] then 0
    else CountIn(es[..|es| - 1], live)
         + if !es[|es| - 1].draining && es[|es| - 1].tunnel in live then 1 else 0
  }

  function AssignableCount(es: seq<Entry>, w: World): nat { CountIn(es, w.alive) }

  function PruneDead(es: seq<Entry>, w: World): seq<Entry>
  {
    if es == [] then []
    else PruneDead(es[..|es| - 1], w)
         + if es[|es| - 1].tunnel in w.alive then [es[|es| - 1]] else []
  }

  function SpawnConnects(p: Pool, n: nat): Pool
  {
    p.(connecting := p.connecting + n, background := p.background + n)
  }

  function EnsureTarget(c: Config, p: Pool, w: World): Pool
  {
    var have := AssignableCount(p.tunnels, w) + p.connecting;
    if have < c.poolSize then SpawnConnects(p, c.poolSize - have) else p
  }

  /** Whether entry `e` is a candidate for a new flow, under an optional cap. */
  predicate Candidate(e: Entry, w: World, cap: Option<nat>)
  {
    Assignable(e, w) && (cap.Some? ==> w.flows(e.tunnel) < cap.value)
  }

  /** Index of the first candidate with the fewest flows. */
  function LeastLoaded(es: seq<Entry>, w: World, cap: Option<nat>): (r: Option<nat>)
    ensures r.Some? ==> r.value < |es|
  {
    if es == [] then None
    else
      var n := |es| - 1;
      var best := LeastLoaded(es[..n], w, cap);
      if !Candidate(es[n], w, cap) then best
      else if best.None? || w.flows(es[n].tunnel) < w.flows(es[best.value].tunnel) then Some(n)
      else best
  }

  /** Outcome of the first section of `pick_tunnel`. */
  datatype Picked = Serve(tunnel: TunnelId) | Reserve

  function Pick(c: Config, p: Pool, w: World): (Pool, Picked)
  {
    var q := p.(tunnels := PruneDead(p.tunnels, w));
    var under := LeastLoaded(q.tunnels, w, Some(c.maxFlows));
    if under.Some? then
      (EnsureTarget(c, q, w), Serve(q.tunnels[under.value].tunnel))
    else
      var any := LeastLoaded(q.tunnels, w, None);
      if any.Some? then
        var grown := if AssignableCount(q.tunnels, w) + q.connecting < c.poolMax
                     then SpawnConnects(q, 1) else q;
        (EnsureTarget(c, grown, w), Serve(q.tunnels[any.value].tunnel))
      else
        (q.(connecting := q.connecting + 1), Reserve)
  }

  function SaturatingPred(n: nat): nat { if n == 0 then 0 else n - 1 }

  function NewEntry(t: TunnelId, age: nat, bytes: nat): Entry
  {
    Entry(t, age, bytes, false, None)
  }

  function AddEntry(p: Pool, e: Entry): Pool
  {
    p.(connecting := SaturatingPred(p.connecting), backoffAttempt := 0,
       handshakes := p.handshakes + 1, tunnels := p.tunnels + [e],
       watchers := p.watchers + multiset{e.tunnel})
  }

  /** A connect, synchronous or background, delivered tunnel `e.tunnel`. */
  function ConnectOk(c: Config, p: Pool, w: World, e: Entry): Pool
  {
    EnsureTarget(c, AddEntry(p, e), w)
  }

  function ConnectFailed(c: Config, p: Pool, w: World): Pool
  {
    var q := p.(connecting := SaturatingPred(p.connecting),
                backoffAttempt := p.backoffAttempt + 1);
    if AssignableCount(q.tunnels, w) + q.connecting < c.poolSize then SpawnConnects(q, 1) else q
  }

  function IndexOf(es: seq<Entry>, t: TunnelId): (r: Option<nat>)
    ensures r.Some? ==> r.value < |es| && es[r.value].tunnel == t
    ensures r.None? ==> forall i :: 0 <= i < |es| ==> es[i].tunnel != t
  {
    if es == [] then None
    else if es[0].tunnel == t then Some(0)
    else
      var r := IndexOf(es[1..], t);
      if r.Some? then Some(r.value + 1) else None
  }

  predicate HitsThreshold(e: Entry, w: World)
  {
    !e.draining && (w.age(e.tunnel) >= e.rotateAtAge || w.bytes(e.tunnel) >= e.rotateAtBytes)
  }

  function MarkDraining(e: Entry, now: nat): Entry
  {
    e.(draining := true, drainingSince := Some(now))
  }

  /** Mark entry `i` draining, count the rotation and start the replacement. */
  function StartDrain(c: Config, p: Pool, w: World, i: nat): (q: Pool)
    requires i < |p.tunnels|
    ensures |q.tunnels| == |p.tunnels|
  {
    EnsureTarget(c, p.(tunnels := p.tunnels[i := MarkDraining(p.tunnels[i], w.now)],
                       rotations := p.rotations + 1), w)
  }

  predicate DrainOver(c: Config, e: Entry, w: World)
  {
    e.draining &&
    (w.flows(e.tunnel) == 0
     || (e.drainingSince.Some? && w.now - e.drainingSince.value >= c.drainTimeout))
  }

  /** How one watcher tick ends: the watcher sleeps again, or it stops, having
      found its tunnel dead or gone, or having removed it to shut it down. */
  datatype Watch = Sleep | Stop | ShutDown(tunnel: TunnelId)

  function StopWatcher(p: Pool, t: TunnelId): Pool
  {
    p.(watchers := p.watchers - multiset{t})
  }

  /** The part of a tick after the threshold check, for the entry at `i`. */
  function FinishDrain(c: Config, p: Pool, w: World, i: nat): (Pool, Watch)
    requires i < |p.tunnels|
  {
    var e := p.tunnels[i];
    if DrainOver(c, e, w) then
      (StopWatcher(p.(tunnels := p.tunnels[..i] + p.tunnels[i + 1..]), e.tunnel), ShutDown(e.tunnel))
    else (p, Sleep)
  }

  function WatcherTick(c: Config, p: Pool, w: World, t: TunnelId): (Pool, Watch)
  {
    if t !in w.alive then
      var q := p.(tunnels := PruneDead(p.tunnels, w));
      (StopWatcher(if |q.tunnels| < |p.tunnels| then EnsureTarget(c, q, w) else q, t), Stop)
    else
      var at := IndexOf(p.tunnels, t);
      if at.None? then (StopWatcher(p, t), Stop)
      else
        var i := at.value;
        FinishDrain(c, if HitsThreshold(p.tunnels[i], w) then StartDrain(c, p, w, i) else p, w, i)
  }

  // ---- counting ----

  lemma {:induction false} CountAppend(a: seq<Entry>, b: seq<Entry>, live: set<TunnelId>)
    ensures CountIn(a + b, live) == CountIn(a, live) + CountIn(b, live)
  {
    if b == [] {
      assert a + b == a;
    } else {
      assert (a + b)[..|a + b| - 1] == a + b[..|b| - 1];
      CountAppend(a, b[..|b| - 1], live);
    }
  }

  lemma CountSplit(es: seq<Entry>, i: nat, live: set<TunnelId>)
    requires i < |es|
    ensures CountIn(es, live) == CountIn(es[..i], live)
              + (if !es[i].draining && es[i].tunnel in live then 1 else 0)
              + CountIn(es[i + 1..], live)
  {
    assert es == es[..i] + [es[i]] + es[i + 1..];
    CountAppend(es[..i] + [es[i]], es[i + 1..], live);
    CountAppend(es[..i], [es[i]], live);
    assert [es[i]][..0] == [];
    assert CountIn([es[i]], live) == CountIn([], live) + if !es[i].draining && es[i].tunnel in live then 1 else 0;
  }

  lemma {:induction false} CountMonotone(es: seq<Entry>, a: set<TunnelId>, b: set<TunnelId>)
    requires forall i :: 0 <= i < |es| && es[i].tunnel in a ==> es[i].tunnel in b
    ensures CountIn(es, a) <= CountIn(es, b)
  {
    if es != [] { CountMonotone(es[..|es| - 1], a, b); }
  }

  lemma {:induction false} CountPositive(es: seq<Entry>, live: set<TunnelId>)
    ensures CountIn(es, live) > 0 <==> exists i :: 0 <= i < |es| && !es[i].draining && es[i].tunnel in live
  {
    if es != [] {
      var n := |es| - 1;
      CountPositive(es[..n], live);
      if CountIn(es[..n], live) > 0 {
        var i :| 0 <= i < n && !es[..n][i].draining && es[..n][i].tunnel in live;
        assert es[i] == es[..n][i];
      }
      if i :| 0 <= i < |es| && !es[i].draining && es[i].tunnel in live {
        if i < n { assert es[..n][i] == es[i]; }
      }
    }
  }

  // ---- pruning ----

  /** Pruning keeps exactly the live entries, and keeps them in order. */
  lemma {:induction false} PruneKeepsLive(es: seq<Entry>, w: World)
    ensures forall e :: e in PruneDead(es, w) <==> e in es && e.tunnel in w.alive
    ensures |PruneDead(es, w)| <= |es|
    ensures (|PruneDead(es, w)| == |es|) <==> forall e :: e in es ==> e.tunnel in w.alive
    ensures |PruneDead(es, w)| == |es| ==> PruneDead(es, w) == es
  {
    if es != [] {
      var n := |es| - 1;
      PruneKeepsLive(es[..n], w);
      assert es == es[..n] + [es[n]];
      forall e ensures e in PruneDead(es, w) <==> e in es && e.tunnel in w.alive {}
      if |PruneDead(es, w)| == |es| { assert PruneDead(es, w) == es; }
    }
  }

  lemma {:induction false} PruneKeepsCount(es: seq<Entry>, w: World, live: set<TunnelId>)
    requires live <= w.alive
    ensures CountIn(PruneDead(es, w), live) == CountIn(es, live)
  {
    if es != [] {
      var n := |es| - 1;
      PruneKeepsCount(es[..n], w, live);
      CountAppend(PruneDead(es[..n], w), if es[n].tunnel in w.alive then [es[n]] else [], live);
      if es[n].tunnel in w.alive {
        assert [es[n]][..0] == [];
      }
    }
  }

  /** Tunnel ids in the pool are pairwise different. */
  predicate Distinct(es: seq<Entry>)
  {
    forall i, j :: 0 <= i < j < |es| ==> es[i].tunnel != es[j].tunnel
  }

  lemma {:induction false} PruneKeepsDistinct(es: seq<Entry>, w: World)
    requires Distinct(es)
    ensures Distinct(PruneDead(es, w))
  {
    if es != [] {
      var n := |es| - 1;
      PruneKeepsDistinct(es[..n], w);
      PruneKeepsLive(es[..n], w);
      forall i | 0 <= i < |PruneDead(es[..n], w)|
        ensures PruneDead(es[..n], w)[i].tunnel != es[n].tunnel
      {
        var e := PruneDead(es[..n], w)[i];
        assert e in es[..n];
      }
    }
  }

  // ---- choosing ----

  /** The chosen entry is a candidate with minimum load, and the first such;
      no choice means no candidate. */
  lemma {:induction false} LeastLoadedIsMinimum(es: seq<Entry>, w: World, cap: Option<nat>)
    ensures var r := LeastLoaded(es, w, cap);
      if r.Some? then
        && Candidate(es[r.value], w, cap)
        && (forall j :: 0 <= j < |es| && Candidate(es[j], w, cap) ==>
              w.flows(es[r.value].tunnel) <= w.flows(es[j].tunnel))
        && (forall j :: 0 <= j < r.value && Candidate(es[j], w, cap) ==>
              w.flows(es[r.value].tunnel) < w.flows(es[j].tunnel))
      else forall j :: 0 <= j < |es| ==> !Candidate(es[j], w, cap)
  {
    if es != [] {
      var n := |es| - 1;
      LeastLoadedIsMinimum(es[..n], w, cap);
      assert forall j :: 0 <= j < n ==> es[..n][j] == es[j];
    }
  }

  /** The same, said of members rather than positions. */
  lemma LeastLoadedMember(es: seq<Entry>, w: World, cap: Option<nat>)
    ensures var r := LeastLoaded(es, w, cap);
      if r.Some? then
        && es[r.value] in es && Candidate(es[r.value], w, cap)
        && forall e :: e in es && Candidate(e, w, cap) ==> w.flows(es[r.value].tunnel) <= w.flows(e.tunnel)
      else forall e :: e in es ==> !Candidate(e, w, cap)
  {
    LeastLoadedIsMinimum(es, w, cap);
  }

  /** Whichever branch serves a flow, it is served by a live, non-draining
      tunnel of the pool that no other such tunnel undercuts; a slot is
      reserved exactly when there is no such tunnel. */
  lemma PickIsLeastLoaded(c: Config, p: Pool, w: World)
    ensures var r := Pick(c, p, w).1;
      if r.Serve? then
        && (exists e :: e in p.tunnels && Assignable(e, w) && e.tunnel == r.tunnel)
        && forall e :: e in p.tunnels && Assignable(e, w) ==> w.flows(r.tunnel) <= w.flows(e.tunnel)
      else forall e :: e in p.tunnels ==> !Assignable(e, w)
  {
    var es := PruneDead(p.tunnels, w);
    PruneKeepsLive(p.tunnels, w);
    LeastLoadedMember(es, w, Some(c.maxFlows));
    LeastLoadedMember(es, w, None);
    forall e | e in p.tunnels && Assignable(e, w) ensures e in es && Candidate(e, w, None) {}
  }

  lemma LeastLoadedExists(es: seq<Entry>, w: World)
    ensures LeastLoaded(es, w, None).Some? <==> AssignableCount(es, w) > 0
  {
    LeastLoadedIsMinimum(es, w, None);
    CountPositive(es, w.alive);
    if AssignableCount(es, w) > 0 {
      var i :| 0 <= i < |es| && !es[i].draining && es[i].tunnel in w.alive;
      assert Candidate(es[i], w, None);
    }
  }

  lemma PickPrunes(c: Config, p: Pool, w: World)
    ensures Pick(c, p, w).0.tunnels == PruneDead(p.tunnels, w)
  {
  }

  // ---- growing ----

  /** Topping up reaches the target and changes only the two task counts. */
  lemma EnsureTargetReaches(c: Config, p: Pool, w: World)
    ensures var q := EnsureTarget(c, p, w);
      && q == p.(connecting := q.connecting, background := q.background)
      && q.connecting - p.connecting == q.background - p.background >= 0
      && AssignableCount(q.tunnels, w) + q.connecting
           == Max(c.poolSize, AssignableCount(p.tunnels, w) + p.connecting)
  {
  }
}
