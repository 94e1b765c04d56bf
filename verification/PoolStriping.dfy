/** Fairness of flow assignment while the pool's membership does not change. */
module PoolStriping {
  import opened Common
  import opened PoolModel

  /** Flow counts of any two assignable tunnels differ by at most `d`. */
  ghost predicate SpreadAtMost(es: seq<Entry>, w: World, d: nat)
  {
    forall a, b :: a in es && b in es && Assignable(a, w) && Assignable(b, w) ==>
      w.flows(a.tunnel) <= w.flows(b.tunnel) + d
  }

  function OpenFlow(w: World, t: TunnelId): World
  {
    w.(flows := (x: TunnelId) => var n: nat := if x == t then w.flows(x) + 1 else w.flows(x); n)
  }

  /** One pick that opens its flow. */
  function PickAndOpen(c: Config, p: Pool, w: World): (Pool, World)
  {
    var (q, r) := Pick(c, p, w);
    (q, if r.Serve? then OpenFlow(w, r.tunnel) else w)
  }

  function Picking(c: Config): (Pool, World) -> (Pool, World)
  {
    (p: Pool, w: World) => PickAndOpen(c, p, w)
  }

  function Repeat(step: (Pool, World) -> (Pool, World), p: Pool, w: World, n: nat): (Pool, World)
  {
    if n == 0 then (p, w)
    else
      var r := Repeat(step, p, w, n - 1);
      step(r.0, r.1)
  }

  /** Membership is fixed: every tunnel is alive and one of them is serving. */
  ghost predicate Settled(es: seq<Entry>, w: World)
  {
    && (forall e :: e in es ==> e.tunnel in w.alive)
    && exists e :: e in es && !e.draining
  }

  lemma SettledPickServes(c: Config, p: Pool, w: World)
    requires Settled(p.tunnels, w)
    ensures Pick(c, p, w).1.Serve?
  {
    PickIsLeastLoaded(c, p, w);
    var e :| e in p.tunnels && !e.draining;
    assert Assignable(e, w);
  }

  lemma SettledPickKeepsMembers(c: Config, p: Pool, w: World)
    requires Settled(p.tunnels, w)
    ensures Pick(c, p, w).0.tunnels == p.tunnels
  {
    PruneKeepsLive(p.tunnels, w);
    PickPrunes(c, p, w);
  }

  lemma OpeningKeepsSpread(es: seq<Entry>, w: World, t: TunnelId, d: nat)
    requires d >= 1 && SpreadAtMost(es, w, d)
    requires forall e :: e in es && Assignable(e, w) ==> w.flows(t) <= w.flows(e.tunnel)
    ensures SpreadAtMost(es, OpenFlow(w, t), d)
  {
  }

  /** The membership is still that of `es` and `alive`, the spread at most `d`. */
  ghost predicate Even(es: seq<Entry>, alive: set<TunnelId>, p: Pool, w: World, d: nat)
  {
    p.tunnels == es && w.alive == alive && SpreadAtMost(es, w, d)
  }

  lemma OnePickKeepsSpread(c: Config, p: Pool, w: World, d: nat)
    requires d >= 1 && SpreadAtMost(p.tunnels, w, d) && Settled(p.tunnels, w)
    ensures Even(p.tunnels, w.alive, PickAndOpen(c, p, w).0, PickAndOpen(c, p, w).1, d)
  {
    SettledPickServes(c, p, w);
    SettledPickKeepsMembers(c, p, w);
    PickIsLeastLoaded(c, p, w);
    OpeningKeepsSpread(p.tunnels, w, Pick(c, p, w).1.tunnel, d);
  }

  lemma SettledStays(es: seq<Entry>, w: World, v: World)
    requires Settled(es, w) && v.alive == w.alive
    ensures Settled(es, v)
  {
  }

  lemma {:induction false} RepeatKeepsEven(step: (Pool, World) -> (Pool, World), es: seq<Entry>, alive: set<TunnelId>,
                                           p: Pool, w: World, d: nat, n: nat)
    requires Even(es, alive, p, w, d)
    requires forall q, v :: Even(es, alive, q, v, d) ==> Even(es, alive, step(q, v).0, step(q, v).1, d)
    ensures Even(es, alive, Repeat(step, p, w, n).0, Repeat(step, p, w, n).1, d)
  {
    if n > 0 { RepeatKeepsEven(step, es, alive, p, w, d, n - 1); }
  }

  /** Over any number of picks that each open their flow, the spread never
      exceeds what it was, or one if it was zero. */
  lemma StripingIsFair(c: Config, p: Pool, w: World, d: nat, n: nat)
    requires SpreadAtMost(p.tunnels, w, d) && Settled(p.tunnels, w)
    ensures var r := Repeat(Picking(c), p, w, n);
      r.0.tunnels == p.tunnels && r.1.alive == w.alive && SpreadAtMost(p.tunnels, r.1, Max(d, 1))
  {
    var e := Max(d, 1);
    forall q, v | Even(p.tunnels, w.alive, q, v, e)
      ensures Even(p.tunnels, w.alive, Picking(c)(q, v).0, Picking(c)(q, v).1, e)
    {
      SettledStays(p.tunnels, w, v);
      OnePickKeepsSpread(c, q, v, e);
    }
    RepeatKeepsEven(Picking(c), p.tunnels, w.alive, p, w, e, n);
  }
}
