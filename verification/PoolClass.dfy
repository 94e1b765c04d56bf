/** The pool as the source has it: fields changed in place under the lock. Each
    method is one lock-held section, or a part of one, and computes the
    corresponding function of PoolModel. */
module PoolClass {
  import opened Common
  import opened PoolModel

  /** Delay in milliseconds before background retry number `attempt`. */
  function BackoffDelay(attempt: nat): (d: nat)
    ensures 500 <= d <= 30000
  {
    var shift := Min(if attempt == 0 then 0 else attempt - 1, 6);
    Pow2AtLeast(shift, 0);
    Min(500 * Pow2(shift), 30000)
  }

  lemma {:induction false} Pow2AtLeast(n: nat, m: nat)
    requires m <= n
    ensures Pow2(n) >= Pow2(m) >= 1
    decreases n
  {
    if m < n { Pow2AtLeast(n - 1, m); } else if n > 0 { Pow2AtLeast(n - 1, n - 1); }
  }

  /** Capping the shift at six loses nothing: the delay is the plain doubling
      sequence cut at thirty seconds, and it never decreases. */
  lemma BackoffIsCappedDoubling(attempt: nat)
    requires attempt >= 1
    ensures BackoffDelay(attempt) == Min(500 * Pow2(attempt - 1), 30000)
    ensures BackoffDelay(attempt) <= BackoffDelay(attempt + 1)
  {
    assert Pow2(6) == 64;
    if attempt > 6 { Pow2AtLeast(attempt - 1, 6); }
    Pow2AtLeast(attempt, attempt - 1);
    if attempt >= 6 { Pow2AtLeast(attempt, 6); }
  }

  class TunnelPool {
    const c: Config
    var tunnels: seq<Entry>
    var connecting: nat
    var backoffAttempt: nat
    var handshakes: nat
    var rotations: nat
    /** Tasks handed to the runtime. */
    var background: nat
    var watchers: multiset<TunnelId>

    function State(): Pool
      reads this
    {
      Pool(tunnels, connecting, backoffAttempt, handshakes, rotations, background, watchers)
    }

    constructor (c: Config)
      ensures this.c == c && State() == Pool([], 0, 0, 0, 0, 0, multiset{})
    {
      this.c := c;
      tunnels, connecting, backoffAttempt := [], 0, 0;
      handshakes, rotations, background, watchers := 0, 0, 0, multiset{};
    }

    method CountAssignable(w: World) returns (n: nat)
      ensures n == AssignableCount(tunnels, w)
    {
      n := 0;
      for i := 0 to |tunnels|
        invariant n == AssignableCount(tunnels[..i], w)
      {
        assert tunnels[..i + 1][..i] == tunnels[..i];
        if Assignable(tunnels[i], w) { n := n + 1; }
      }
      assert tunnels[..|tunnels|] == tunnels;
    }

    method Prune(w: World) returns (removed: nat)
      modifies this`tunnels
      ensures tunnels == PruneDead(old(tunnels), w)
      ensures removed == |old(tunnels)| - |tunnels|
    {
      var kept := [];
      for i := 0 to |tunnels|
        invariant kept == PruneDead(tunnels[..i], w)
      {
        assert tunnels[..i + 1][..i] == tunnels[..i];
        if tunnels[i].tunnel in w.alive { kept := kept + [tunnels[i]]; }
      }
      assert tunnels[..|tunnels|] == tunnels;
      PruneKeepsLive(tunnels, w);
      removed := |tunnels| - |kept|;
      tunnels := kept;
    }

    method SpawnConnect()
      modifies this`connecting, this`background
      ensures State() == SpawnConnects(old(State()), 1)
    {
      connecting, background := connecting + 1, background + 1;
    }

    method TopUp(w: World)
      modifies this`connecting, this`background
      ensures State() == EnsureTarget(c, old(State()), w)
    {
      var n := CountAssignable(w);
      var have := n + connecting;
      var deficit := if have < c.poolSize then c.poolSize - have else 0;
      for k := 0 to deficit
        invariant State() == SpawnConnects(old(State()), k)
      {
        SpawnConnect();
      }
    }

    method FindLeastLoaded(w: World, cap: Option<nat>) returns (best: Option<nat>)
      ensures best == LeastLoaded(tunnels, w, cap)
    {
      best := None;
      for i := 0 to |tunnels|
        invariant best == LeastLoaded(tunnels[..i], w, cap)
      {
        assert tunnels[..i + 1][..i] == tunnels[..i];
        if Candidate(tunnels[i], w, cap)
           && (best.None? || w.flows(tunnels[i].tunnel) < w.flows(tunnels[best.value].tunnel)) {
          best := Some(i);
        }
      }
      assert tunnels[..|tunnels|] == tunnels;
    }

    /** First section of a pick: serve from a live tunnel, or reserve a slot
        for a synchronous connect. */
    method PickTunnel(w: World) returns (r: Picked)
      modifies this
      ensures (State(), r) == Pick(c, old(State()), w)
    {
      var _ := Prune(w);
      var under := FindLeastLoaded(w, Some(c.maxFlows));
      if under.Some? {
        r := Serve(tunnels[under.value].tunnel);
        TopUp(w);
        return;
      }
      LeastLoadedExists(tunnels, w);
      var n := CountAssignable(w);
      if n > 0 {
        if n + connecting < c.poolMax { SpawnConnect(); }
        var any := FindLeastLoaded(w, None);
        r := Serve(tunnels[any.value].tunnel);
        TopUp(w);
      } else {
        connecting := connecting + 1;
        r := Reserve;
      }
    }

    /** Second section of a connect that delivered a tunnel. The background
        task, if it was one, is taken off `background` by its completion. */
    method ConnectSucceeded(w: World, e: Entry)
      modifies this
      ensures State() == ConnectOk(c, old(State()), w, e)
    {
      connecting := SaturatingPred(connecting);
      backoffAttempt := 0;
      handshakes := handshakes + 1;
      tunnels := tunnels + [e];
      watchers := watchers + multiset{e.tunnel};
      TopUp(w);
    }

    /** Second section of a connect that failed, with the delay of the retry it
        scheduled, if any. */
    method ConnectRefused(w: World) returns (retry: Option<nat>)
      modifies this
      ensures State() == ConnectFailed(c, old(State()), w)
      ensures retry.Some? <==> background > old(background)
      ensures retry.Some? ==> retry.value == BackoffDelay(old(backoffAttempt) + 1)
    {
      connecting := SaturatingPred(connecting);
      backoffAttempt := backoffAttempt + 1;
      retry := None;
      var n := CountAssignable(w);
      if n + connecting < c.poolSize {
        SpawnConnect();
        retry := Some(BackoffDelay(backoffAttempt));
      }
    }

    method Position(t: TunnelId) returns (r: Option<nat>)
      ensures r == IndexOf(tunnels, t)
    {
      var i := 0;
      assert tunnels[0..] == tunnels;
      while i < |tunnels|
        invariant 0 <= i <= |tunnels|
        invariant IndexOf(tunnels, t)
                  == if IndexOf(tunnels[i..], t).Some? then Some(i + IndexOf(tunnels[i..], t).value) else None
      {
        if tunnels[i].tunnel == t { return Some(i); }
        assert tunnels[i..][1..] == tunnels[i + 1..];
        i := i + 1;
      }
      r := None;
    }

    /** One watcher tick for tunnel `t`. */
    method Watch(w: World, t: TunnelId) returns (r: Watch)
      modifies this
      ensures (State(), r) == WatcherTick(c, old(State()), w, t)
    {
      if t !in w.alive {
        var pruned := Prune(w);
        if pruned > 0 { TopUp(w); }
        watchers := watchers - multiset{t};
        return Stop;
      }
      var at := Position(t);
      if at.None? {
        watchers := watchers - multiset{t};
        return Stop;
      }
      var i := at.value;
      if HitsThreshold(tunnels[i], w) {
        tunnels := tunnels[i := MarkDraining(tunnels[i], w.now)];
        rotations := rotations + 1;
        TopUp(w);
      }
      var e := tunnels[i];
      if DrainOver(c, e, w) {
        tunnels := tunnels[..i] + tunnels[i + 1..];
        watchers := watchers - multiset{e.tunnel};
        return ShutDown(e.tunnel);
      }
      r := Sleep;
    }
  }
}
