/** How credit cuts a stream of equal chunks into ever smaller frames. While the
    window is full, the grant for a frame lets exactly its length go out, so a
    cut one window back makes a cut now, and chunk boundaries add new ones. */
module FlowFragments {
  import opened Common
  import opened Residues
  import opened SendLoop
  import opened FlowSystem
  import opened FlowProgress
  import opened FlowLosses
  import opened FlowOverflow

  const WINDOW: nat := INITIAL_FLOW_WINDOW

  // ---- where the stream is cut ----

  function Mark(m: nat, j: nat, q: nat): nat { WINDOW * j + m * q }

  /** Position `p` is some windows after a chunk boundary. */
  ghost predicate Cut(m: nat, p: nat) { exists j: nat, q: nat :: Mark(m, j, q) == p }

  lemma CutShifts(m: nat, p: nat)
    requires Cut(m, p)
    ensures Cut(m, p + WINDOW)
  {
    var j: nat, q: nat :| Mark(m, j, q) == p;
    assert Mark(m, j + 1, q) == p + WINDOW;
  }

  lemma ChunkCuts(m: nat, n: nat)
    ensures Cut(m, m * n)
  {
    assert Mark(m, 0, n) == m * n;
  }

  /** A cut is a chunk boundary or lies one window after a cut. */
  lemma CutComesFrom(m: nat, p: nat) returns (j: nat, q: nat)
    requires Cut(m, p)
    ensures Mark(m, j, q) == p && (j > 0 ==> p >= WINDOW && Cut(m, p - WINDOW))
  {
    j, q :| Mark(m, j, q) == p;
    if j > 0 { assert Mark(m, j - 1, q) == p - WINDOW; }
  }

  ghost predicate Rising(ps: seq<nat>) { forall i, j :: 0 <= i < j < |ps| ==> ps[i] < ps[j] }

  /** `ps` are the cuts of the last window of the stream up to `x`, in order. */
  ghost predicate Cuts(m: nat, ps: seq<nat>, x: nat)
  {
    && ps != [] && Rising(ps) && ps[0] + WINDOW == x && ps[|ps| - 1] == x
    && (forall k :: 0 <= k < |ps| ==> Cut(m, ps[k]))
    && (forall p: nat :: ps[0] <= p <= x && Cut(m, p) ==> p in ps)
  }

  // ---- in the long run there are too many ----

  lemma WindowIsPower()
    ensures Pow2(18) == WINDOW
  {
    assert Pow2(4) == 16 && Pow2(8) == 256 && Pow2(12) == 4096 && Pow2(16) == 65536;
  }

  /** Far enough along, every multiple of 512 is a cut. */
  lemma FarCut(m: nat, k: nat)
    requires m % SHARE != 0 && 512 * k >= WINDOW * m
    ensures Cut(m, 512 * k)
  {
    var j, q := Solves(m, k, 18);
    WindowIsPower();
    assert WINDOW * j < WINDOW * m;
    assert q * m > 0;
    assert q > 0;
    assert Mark(m, j, q) == 512 * k;
  }

  /** Multiple `k` of 512 after the window's start, and how far along it is. */
  lemma {:induction false} CutIndex(m: nat, ps: seq<nat>, x: nat, b: nat, k: nat) returns (i: nat)
    requires Cuts(m, ps, x) && m % SHARE != 0 && ps[0] >= WINDOW * m
    requires ps[0] < 512 * b <= ps[0] + 512 && k <= 256
    ensures k < i < |ps| && ps[i] == 512 * (b + k)
  {
    FarCut(m, b + k);
    i :| 0 <= i < |ps| && ps[i] == 512 * (b + k);
    if k > 0 {
      var h := CutIndex(m, ps, x, b, k - 1);
      assert ps[h] < ps[i];
    }
  }

  lemma FarWindowIsCrowded(m: nat, ps: seq<nat>, x: nat)
    requires Cuts(m, ps, x) && m % SHARE != 0 && ps[0] >= WINDOW * m
    ensures |ps| > DISPATCH_CAP + 1
  {
    var i := CutIndex(m, ps, x, ps[0] / 512 + 1, 256);
  }

  // ---- one frame later ----

  /** The cuts after the oldest frame, up to `ps[1]`, has been granted: one
      window after its end, and the chunk boundary `z` if it comes first. */
  function Turned(ps: seq<nat>, x: nat, z: nat): seq<nat>
    requires |ps| >= 2
  {
    var y := ps[1] + WINDOW;
    ps[1..] + if x < z < y then [z, y] else [y]
  }

  lemma TurnedRises(m: nat, ps: seq<nat>, x: nat, z: nat)
    requires Cuts(m, ps, x) && |ps| >= 2 && Cut(m, z)
    ensures Rising(Turned(ps, x, z)) && forall k :: 0 <= k < |Turned(ps, x, z)| ==> Cut(m, Turned(ps, x, z)[k])
  {
    CutShifts(m, ps[1]);
  }

  /** No cut is missed: a new one is a chunk boundary, and there is at most one,
      or lies one window after a cut of the oldest frame, which is its end. */
  lemma TurnedIsGapless(m: nat, ps: seq<nat>, x: nat, n: nat, p: nat)
    requires Cuts(m, ps, x) && |ps| >= 2 && ps[1] - ps[0] <= m && x <= m * n < x + m
    requires x < p <= ps[1] + WINDOW && Cut(m, p)
    ensures p == ps[1] + WINDOW || p == m * n
  {
    var j, q := CutComesFrom(m, p);
    if j > 0 {
      assert p - WINDOW in ps;
      var i :| 0 <= i < |ps| && ps[i] == p - WINDOW;
      assert i <= 1;
    } else {
      assert p == m * q;
      NextChunk(m, n, q, x);
    }
  }

  /** The chunk boundaries after `x` and at most `m` away from it. */
  lemma NextChunk(m: nat, n: nat, q: nat, x: nat)
    requires x <= m * n < x + m && x < m * q <= x + m
    ensures q == n || m * q == x + m
  {
    if q > n { OneMore(m, n, q); }
    if q < n { OneMore(m, q, n); }
  }

  lemma {:induction false} OneMore(m: nat, a: nat, b: nat)
    requires a < b
    ensures m * a + m <= m * b
    decreases b
  {
    assert m * b == m * (b - 1) + m;
    if a + 1 < b { OneMore(m, a, b - 1); }
  }

  lemma TurnedCuts(m: nat, ps: seq<nat>, x: nat, n: nat)
    requires Cuts(m, ps, x) && |ps| >= 2 && ps[1] - ps[0] <= m && x <= m * n < x + m
    ensures Cuts(m, Turned(ps, x, m * n), ps[1] + WINDOW)
  {
    var y, z, qs := ps[1] + WINDOW, m * n, Turned(ps, x, m * n);
    ChunkCuts(m, n);
    TurnedRises(m, ps, x, z);
    forall p: nat | qs[0] <= p <= y && Cut(m, p) ensures p in qs {
      if p <= x {
        var i :| 0 <= i < |ps| && ps[i] == p;
        assert i > 0 && ps[1..][i - 1] == p;
      } else {
        TurnedIsGapless(m, ps, x, n, p);
      }
    }
  }

  // ---- a flow with a full window ----

  /** The frames queued lie between consecutive cuts. */
  ghost predicate Framed(queue: seq<seq<byte>>, ps: seq<nat>, m: nat)
  {
    |ps| == |queue| + 1
    && forall k :: 0 <= k < |queue| ==> ps[k] + |queue[k]| == ps[k + 1] && |queue[k]| <= m
  }

  function InHand(s: Flow): nat { if s.unsent == [] then 0 else |s.unsent[0]| }

  /** The stream has been sent up to `x`; what is left of the chunk in hand ends
      at the boundary of chunk `n`. */
  ghost predicate Midway(s: Flow, m: nat, x: nat, n: nat)
  {
    && |s.unsent| <= 1 && (s.loaded <==> s.unsent != []) && (s.unsent != [] ==> 0 < |s.unsent[0]| < m)
    && x + InHand(s) == m * n
  }

  /** A whole window is queued at the receiver. */
  ghost predicate Stalled(s: Flow, m: nat, x: nat, n: nat, ps: seq<nat>)
  {
    Ready(s) && s.credits == 0 && |s.queue| <= DISPATCH_CAP && Midway(s, m, x, n) && Framed(s.queue, ps, m) && Cuts(m, ps, x)
  }

  lemma FramedTurns(queue: seq<seq<byte>>, ps: seq<nat>, m: nat, d: seq<byte>)
    requires Framed(queue, ps, m) && queue != [] && |d| <= m
    ensures Framed(queue[1..] + [d], ps[1..] + [ps[|ps| - 1] + |d|], m)
  {
    var q, r := queue[1..] + [d], ps[1..] + [ps[|ps| - 1] + |d|];
    forall k | 0 <= k < |q| ensures r[k] + |q[k]| == r[k + 1] && |q[k]| <= m {
      if k < |queue| - 1 { assert q[k] == queue[k + 1] && r[k] == ps[k + 1] && r[k + 1] == ps[k + 2]; }
    }
  }

  lemma FramedGrows(queue: seq<seq<byte>>, ps: seq<nat>, m: nat, d: seq<byte>)
    requires Framed(queue, ps, m) && |d| <= m
    ensures Framed(queue + [d], ps + [ps[|ps| - 1] + |d|], m)
  {
    var q, r := queue + [d], ps + [ps[|ps| - 1] + |d|];
    forall k | 0 <= k < |q| ensures r[k] + |q[k]| == r[k + 1] && |q[k]| <= m {
      if k < |queue| { assert q[k] == queue[k] && r[k] == ps[k] && r[k + 1] == ps[k + 1]; }
    }
  }

  function Drain(): seq<Step> { [Take, Write] + [Grant, GrantArrives] }

  function HeadGranted(s: Flow): Flow
    requires s.queue != []
  {
    s.(queue := s.queue[1..], written := s.written + s.queue[0], credits := |s.queue[0]|)
  }

  lemma HeadDrains(s: Flow)
    requires Ready(s) && s.credits == 0 && s.queue != [] && |s.queue[0]| <= WINDOW
    ensures Path(s, Drain(), HeadGranted(s))
  {
    var d := s.queue[0];
    var s1 := s.(queue := s.queue[1..], consumer := Writing(d));
    var s2 := s1.(written := s.written + d, consumer := Granting(|d|));
    var s3 := s2.(grants := [|d|], consumer := Idle);
    PathTwo(s, Take, s1, Write, s2);
    PathTwo(s2, Grant, s3, GrantArrives, HeadGranted(s));
    PathJoin(s, [Take, Write], s2, [Grant, GrantArrives], HeadGranted(s));
  }

  /** One frame goes out for the one drained. */
  lemma OneForOne(t: Flow, queue: seq<seq<byte>>, d: seq<byte>, m: nat, x: nat, n: nat, n': nat, ps: seq<nat>)
    requires Ready(t) && t.credits == 0 && queue != [] && |queue| <= DISPATCH_CAP && t.queue == queue[1..] + [d]
    requires Framed(queue, ps, m) && Cuts(m, ps, x) && |d| == |queue[0]| && x <= m * n < x + m
    requires !(x < m * n < x + |d|) && Midway(t, m, x + |d|, n')
    ensures Stalled(t, m, ps[1] + WINDOW, n', Turned(ps, x, m * n))
  {
    FramedTurns(queue, ps, m, d);
    TurnedCuts(m, ps, x, n);
  }

  /** The chunk in hand covers the grant. */
  lemma TurnsWithin(s: Flow, m: nat, x: nat, n: nat, ps: seq<nat>) returns (t: Flow)
    requires Stalled(s, m, x, n, ps) && |ps| >= 2 && m <= MAX_SENDABLE && |s.queue[0]| <= InHand(s)
    ensures Path(s, Drain() + [SendFrame, Arrive], t) && Stalled(t, m, ps[1] + WINDOW, n, Turned(ps, x, m * n))
  {
    var u := HeadGranted(s);
    assert ps[0] < ps[1];
    HeadDrains(s);
    RestJoins(u);
    t := RestQueued(u);
    PathJoin(s, Drain(), u, [SendFrame, Arrive], t);
    OneForOne(t, s.queue, s.unsent[0][..|s.queue[0]|], m, x, n, n, ps);
  }

  /** Nothing is in hand. */
  lemma TurnsFresh(c: seq<byte>, s: Flow, x: nat, n: nat, ps: seq<nat>) returns (t: Flow)
    requires Stalled(s, |c|, x, n, ps) && |ps| >= 2 && 0 < |c| <= MAX_SENDABLE && s.unsent == []
    ensures Path(s, Drain() + Feed(c), t) && Stalled(t, |c|, ps[1] + WINDOW, n + 1, Turned(ps, x, |c| * n))
  {
    var f, u := |s.queue[0]|, HeadGranted(s);
    assert ps[0] < ps[1];
    HeadDrains(s);
    t := FirstFrame(c, u, f);
    PathJoin(s, Drain(), u, Feed(c), t);
    assert |c| * (n + 1) == |c| * n + |c|;
    OneForOne(t, s.queue, c[..f], |c|, x, n, n + 1, ps);
  }

  /** The start of a chunk, or all of it, as far as the credit goes. */
  lemma FirstFrame(c: seq<byte>, v: Flow, k: nat) returns (t: Flow)
    requires Ready(v) && v.unsent == [] && !v.loaded && v.credits == k && 0 < k <= |c| && k <= MAX_SENDABLE
    requires |v.queue| < DISPATCH_CAP
    ensures Path(v, Feed(c), t) && Ready(t) && t.credits == 0 && t.queue == v.queue + [c[..k]]
    ensures t.unsent == (if k == |c| then [] else [c[k..]]) && (t.loaded <==> k < |c|)
  {
    var w := v.(offered := v.offered + c, unsent := [c], loaded := true);
    OfferLoads(v, c);
    RestJoins(w);
    t := RestQueued(w);
    PathJoin(v, [Offer(c), Load], w, [SendFrame, Arrive], t);
  }

  /** The chunk in hand ends within the grant: its rest makes one frame and the
      next chunk another, and the channel holds one more frame than before. */
  lemma TurnsAcross(c: seq<byte>, s: Flow, x: nat, n: nat, ps: seq<nat>) returns (t: Flow)
    requires Stalled(s, |c|, x, n, ps) && |ps| >= 2 && |c| <= MAX_SENDABLE && 0 < InHand(s) < |s.queue[0]|
    ensures Path(s, Drain() + ([SendFrame, Arrive] + Feed(c)), t)
    ensures t.lost.dispatchFull > 0 || Stalled(t, |c|, ps[1] + WINDOW, n + 1, Turned(ps, x, |c| * n))
  {
    var u := HeadGranted(s);
    HeadDrains(s);
    RestJoins(u);
    var v := RestQueued(u);
    assert s.unsent[0][..InHand(s)] == s.unsent[0];
    FramedTurns(s.queue, ps, |c|, s.unsent[0]);
    t := NextFrame(c, v, x, n, ps, |s.queue[0]| - InHand(s));
    PathJoin(u, [SendFrame, Arrive], v, Feed(c), t);
    PathJoin(s, Drain(), u, [SendFrame, Arrive] + Feed(c), t);
  }

  /** The second frame, if there is room for it. */
  lemma NextFrame(c: seq<byte>, v: Flow, x: nat, n: nat, ps: seq<nat>, k: nat) returns (t: Flow)
    requires Ready(v) && v.unsent == [] && !v.loaded && v.credits == k && 0 < k < |c| <= MAX_SENDABLE
    requires Cuts(|c|, ps, x) && |ps| >= 2 && ps[1] - ps[0] <= |c| && x < |c| * n < x + |c| && ps[1] + WINDOW == |c| * n + k
    requires Framed(v.queue, ps[1..] + [|c| * n], |c|)
    ensures Path(v, Feed(c), t)
    ensures t.lost.dispatchFull > 0 || Stalled(t, |c|, ps[1] + WINDOW, n + 1, Turned(ps, x, |c| * n))
  {
    if |v.queue| >= DISPATCH_CAP {
      t := ChunkSpills(v, c);
    } else {
      t := FirstFrame(c, v, k);
      AcrossStalls(c, t, v.queue, x, n, ps, k);
    }
  }

  lemma AcrossStalls(c: seq<byte>, t: Flow, queue: seq<seq<byte>>, x: nat, n: nat, ps: seq<nat>, k: nat)
    requires Ready(t) && t.credits == 0 && t.loaded && 0 < k < |c| && t.unsent == [c[k..]] && t.queue == queue + [c[..k]]
    requires Cuts(|c|, ps, x) && |ps| >= 2 && ps[1] - ps[0] <= |c| && x < |c| * n < x + |c| && ps[1] + WINDOW == |c| * n + k
    requires |queue| < DISPATCH_CAP && Framed(queue, ps[1..] + [|c| * n], |c|)
    ensures Stalled(t, |c|, ps[1] + WINDOW, n + 1, Turned(ps, x, |c| * n))
  {
    var m, qs := |c|, ps[1..] + [|c| * n];
    FramedGrows(queue, qs, m, c[..k]);
    assert Turned(ps, x, m * n) == qs + [ps[1] + WINDOW];
    assert m * (n + 1) == m * n + m;
    TurnedCuts(m, ps, x, n);
  }

  lemma DrainFeeds(c: seq<byte>)
    ensures Feeds(Drain(), c) && Feeds(Feed(c), c) && Feeds([SendFrame, Arrive], c)
    ensures Feeds(Drain() + [SendFrame, Arrive], c) && Feeds(Drain() + Feed(c), c)
    ensures Feeds(Drain() + ([SendFrame, Arrive] + Feed(c)), c)
  {
  }

  /** One frame drained and its length sent again: data is lost, or the flow is
      again stalled, further on. */
  lemma Turns(c: seq<byte>, s: Flow, x: nat, n: nat, ps: seq<nat>)
    returns (steps: seq<Step>, t: Flow, n': nat, ps': seq<nat>)
    requires Stalled(s, |c|, x, n, ps) && 0 < |c| <= MAX_SENDABLE
    ensures |ps| >= 2 && Path(s, steps, t) && Feeds(steps, c)
    ensures t.lost.dispatchFull > 0 || Stalled(t, |c|, ps[1] + WINDOW, n', ps')
  {
    assert ps[0] != ps[|ps| - 1];
    DrainFeeds(c);
    n', ps' := n + 1, Turned(ps, x, |c| * n);
    if s.unsent == [] {
      t := TurnsFresh(c, s, x, n, ps);
      steps := Drain() + Feed(c);
    } else if |s.queue[0]| <= InHand(s) {
      t := TurnsWithin(s, |c|, x, n, ps);
      steps, n' := Drain() + [SendFrame, Arrive], n;
    } else {
      t := TurnsAcross(c, s, x, n, ps);
      steps := Drain() + ([SendFrame, Arrive] + Feed(c));
    }
  }

  /** From a stalled flow one comes, frame by frame, to a window with more cuts
      than the channel has room for; before that, data is lost. */
  lemma {:induction false} StalledOverflows(c: seq<byte>, steps: seq<Step>, s: Flow, x: nat, n: nat, ps: seq<nat>)
    returns (all: seq<Step>, t: Flow)
    requires Path(Start(), steps, s) && Feeds(steps, c) && Stalled(s, |c|, x, n, ps)
    requires 0 < |c| <= MAX_SENDABLE && |c| % SHARE != 0
    ensures Path(Start(), all, t) && Feeds(all, c) && t.lost.dispatchFull > 0
    decreases WINDOW * |c| + WINDOW - x
  {
    if ps[0] >= WINDOW * |c| {
      FarWindowIsCrowded(|c|, ps, x);
      assert false;
    }
    var more, u, n', ps' := Turns(c, s, x, n, ps);
    all := steps + more;
    PathJoin(Start(), steps, s, more, u);
    FeedsJoin(steps, more, c);
    if u.lost.dispatchFull > 0 {
      t := u;
    } else {
      assert ps[0] < ps[1];
      all, t := StalledOverflows(c, all, u, ps[1] + WINDOW, n', ps');
    }
  }

  // ---- filling the window ----

  /** The chunk boundaries up to the `n`-th. */
  function Boundaries(m: nat, n: nat): (ps: seq<nat>)
    ensures |ps| == n + 1 && ps[0] == 0 && ps[n] == m * n
    ensures forall k :: 0 <= k <= n ==> ps[k] == m * k
  {
    seq(n + 1, k requires 0 <= k <= n => m * k)
  }

  lemma BoundariesRise(m: nat, n: nat)
    requires m > 0
    ensures Rising(Boundaries(m, n))
  {
    forall i, j | 0 <= i < j <= n ensures Boundaries(m, n)[i] < Boundaries(m, n)[j] { OneMore(m, i, j); }
  }

  /** `n` whole chunks fit the window. */
  ghost predicate Fits(m: nat, n: nat) { m > 0 && m * n <= WINDOW < m * n + m }

  /** The cuts of the first window: its chunk boundaries and its end. */
  function FirstCuts(m: nat, n: nat): seq<nat>
  {
    Boundaries(m, n) + if m * n < WINDOW then [WINDOW] else []
  }

  lemma FirstIsGapless(m: nat, n: nat, p: nat)
    requires Fits(m, n) && p <= WINDOW && Cut(m, p)
    ensures p in FirstCuts(m, n)
  {
    var j, q := CutComesFrom(m, p);
    if j == 0 {
      if q > n { OneMore(m, n, q); }
      assert Boundaries(m, n)[q] == p;
    } else {
      assert p == WINDOW;
      assert FirstCuts(m, n)[|FirstCuts(m, n)| - 1] == WINDOW;
    }
  }

  lemma FirstCutsRise(m: nat, n: nat)
    requires Fits(m, n)
    ensures Rising(FirstCuts(m, n)) && forall k :: 0 <= k < |FirstCuts(m, n)| ==> Cut(m, FirstCuts(m, n)[k])
  {
    var ps := FirstCuts(m, n);
    BoundariesRise(m, n);
    forall i | 0 <= i <= n && m * n < WINDOW ensures ps[i] < WINDOW { if i < n { OneMore(m, i, n); } }
    forall k | 0 <= k < |ps| ensures Cut(m, ps[k]) {
      ChunkCuts(m, 0);
      CutShifts(m, 0);
      if k <= n { ChunkCuts(m, k); }
    }
  }

  lemma FirstCutsAreCuts(m: nat, n: nat)
    requires Fits(m, n)
    ensures Cuts(m, FirstCuts(m, n), WINDOW)
  {
    FirstCutsRise(m, n);
    forall p: nat | p <= WINDOW && Cut(m, p) ensures p in FirstCuts(m, n) { FirstIsGapless(m, n, p); }
  }

  lemma WholeChunksFitting(m: nat) returns (n: nat)
    requires m > SHARE
    ensures Fits(m, n) && n < DISPATCH_CAP
  {
    n := WINDOW / m;
  }

  /** The window is full after `w` whole chunks. */
  lemma FullWindow(s: Flow, m: nat, w: nat)
    requires Ready(s) && s.unsent == [] && !s.loaded && s.credits == 0 && Fits(m, w) && m * w == WINDOW
    requires |s.queue| == w <= DISPATCH_CAP && forall k :: 0 <= k < w ==> |s.queue[k]| == m
    ensures Stalled(s, m, WINDOW, w, FirstCuts(m, w))
  {
    FirstCutsAreCuts(m, w);
    BoundaryFrames(s.queue, m, w);
    assert FirstCuts(m, w) == Boundaries(m, w);
  }

  lemma PartFrames(queue: seq<seq<byte>>, d: seq<byte>, m: nat, w: nat)
    requires |queue| == w && forall i :: 0 <= i < w ==> |queue[i]| == m
    requires 0 < |d| < m && m * w + |d| == WINDOW
    ensures Framed(queue + [d], FirstCuts(m, w), m)
  {
    BoundaryFrames(queue, m, w);
    FramedGrows(queue, Boundaries(m, w), m, d);
  }

  /** Or after part of another. */
  lemma FullWithPart(c: seq<byte>, t: Flow, queue: seq<seq<byte>>, w: nat, k: nat)
    requires Fits(|c|, w) && |c| * w + k == WINDOW && 0 < k < |c|
    requires |queue| == w < DISPATCH_CAP && forall i :: 0 <= i < w ==> |queue[i]| == |c|
    requires Ready(t) && t.credits == 0 && t.queue == queue + [c[..k]] && t.unsent == [c[k..]] && t.loaded
    ensures Stalled(t, |c|, WINDOW, w + 1, FirstCuts(|c|, w))
  {
    FirstCutsAreCuts(|c|, w);
    PartFrames(queue, c[..k], |c|, w);
    assert |c| * (w + 1) == |c| * w + |c|;
    assert Midway(t, |c|, WINDOW, w + 1);
  }

  lemma WindowStalls(c: seq<byte>, w: nat) returns (steps: seq<Step>, s: Flow, n: nat)
    requires 0 < |c| <= MAX_SENDABLE && Fits(|c|, w) && w < DISPATCH_CAP
    ensures Path(Start(), steps, s) && Feeds(steps, c) && Stalled(s, |c|, WINDOW, n, FirstCuts(|c|, w))
  {
    steps, s := ChunksStack(c, w);
    var k := WINDOW - |c| * w;
    if k == 0 {
      n := w;
      FullWindow(s, |c|, w);
    } else {
      var t := FirstFrame(c, s, k);
      FullWithPart(c, t, s.queue, w, k);
      PathJoin(Start(), steps, s, Feed(c), t);
      DrainFeeds(c);
      FeedsJoin(steps, Feed(c), c);
      steps, s, n := steps + Feed(c), t, w + 1;
    }
  }

  lemma BoundaryFrames(queue: seq<seq<byte>>, m: nat, n: nat)
    requires |queue| == n && forall k :: 0 <= k < n ==> |queue[k]| == m
    ensures Framed(queue, Boundaries(m, n), m)
  {
    forall k | 0 <= k < n ensures m * k + m == m * (k + 1) {}
  }

  // ---- which chunks can overflow the channel ----

  lemma FragmentsOverflow(c: seq<byte>) returns (trace: seq<Flow>, steps: seq<Step>)
    requires SHARE < |c| <= MAX_SENDABLE && |c| % SHARE != 0
    ensures Overflows(trace, steps, c)
  {
    var w := WholeChunksFitting(|c|);
    var before, s, n := WindowStalls(c, w);
    var t;
    steps, t := StalledOverflows(c, before, s, WINDOW, n, FirstCuts(|c|, w));
    trace := PathTrace(Start(), steps, t);
  }

  /** Nothing has been sent of chunks that cannot be. */
  ghost predicate Unsendable(s: Flow, c: seq<byte>)
  {
    && s.credits == WINDOW && s.inflight == [] && s.lost.dispatchFull == 0 && s.queue == [] && s.grants == []
    && (s.consumer.Idle? || s.consumer.Busy?)
    && forall k :: 0 <= k < |s.unsent| ==> s.unsent[k] == c
  }

  lemma StepStaysUnsent(s: Flow, step: Step, c: seq<byte>)
    requires Unsendable(s, c) && Enabled(s, step) && Peaceful(step) && (step.Offer? ==> step.chunk == c)
    requires c == [] || |c| > MAX_SENDABLE
    ensures Unsendable(Next(s, step), c)
  {
  }

  lemma {:induction false} NothingSent(trace: seq<Flow>, steps: seq<Step>, c: seq<byte>, i: nat)
    requires Run(trace, steps) && Feeds(steps, c) && i < |trace| && (c == [] || |c| > MAX_SENDABLE)
    ensures Unsendable(trace[i], c)
  {
    if i > 0 {
      NothingSent(trace, steps, c, i - 1);
      StepStaysUnsent(trace[i - 1], steps[i - 1], c);
    }
  }

  /** For a flow fed with equal chunks, of any length: without a failure and
      within its credit it can overflow the dispatch channel if and only if the
      chunks can be sent at all and are not a multiple of 1024 bytes. */
  lemma OverflowIff(c: seq<byte>)
    ensures (exists trace, steps :: Overflows(trace, steps, c)) <==> 0 < |c| <= MAX_SENDABLE && |c| % SHARE != 0
  {
    if c == [] || |c| > MAX_SENDABLE {
      forall trace, steps | Run(trace, steps) && Feeds(steps, c) ensures !Overflows(trace, steps, c) {
        NothingSent(trace, steps, c, |steps|);
      }
    } else if |c| % SHARE == 0 {
      forall trace, steps | Run(trace, steps) && Feeds(steps, c) ensures !Overflows(trace, steps, c) {
        OnlyOverflowLoses(trace, steps, |steps|);
        WholeChunksFit(trace, steps, |steps|);
      }
    } else if |c| < SHARE {
      var trace, steps := SmallChunksOverflow(c);
    } else {
      var trace, steps := FragmentsOverflow(c);
    }
  }
}
