/** A run of both directions in which the two tasks end up waiting for each
    other. */
module FlowDeadlock {
  import opened Common
  import opened SendLoop
  import opened FlowSystem
  import opened FlowProgress
  import opened FlowPair

  // ---- paths ----

  ghost predicate PairPath(p: Pair, steps: seq<PairStep>, q: Pair)
    decreases |steps|
  {
    if steps == [] then p == q else PairEnabled(p, steps[0]) && PairPath(PairNext(p, steps[0]), steps[1..], q)
  }

  ghost predicate Reaches(p: Pair, q: Pair) { exists steps :: PairPath(p, steps, q) }

  lemma {:induction false} PairJoin(p: Pair, xs: seq<PairStep>, q: Pair, ys: seq<PairStep>, r: Pair)
    requires PairPath(p, xs, q) && PairPath(q, ys, r)
    ensures PairPath(p, xs + ys, r)
    decreases |xs|
  {
    if xs == [] {
      assert xs + ys == ys;
    } else {
      PairJoin(PairNext(p, xs[0]), xs[1..], q, ys, r);
      assert (xs + ys)[1..] == xs[1..] + ys;
    }
  }

  lemma Onwards(p: Pair, q: Pair, r: Pair)
    requires Reaches(p, q) && Reaches(q, r)
    ensures Reaches(p, r)
  {
    var xs :| PairPath(p, xs, q);
    var ys :| PairPath(q, ys, r);
    PairJoin(p, xs, q, ys, r);
  }

  lemma Stays(p: Pair)
    ensures Reaches(p, p)
  {
    assert PairPath(p, [], p);
  }

  lemma OneStep(p: Pair, x: PairStep, q: Pair)
    requires PairEnabled(p, x) && PairNext(p, x) == q
    ensures Reaches(p, q)
  {
    assert [x][1..] == [];
    assert PairPath(q, [], q);
    assert PairPath(p, [x], q);
  }

  lemma {:induction false} PairTrace(p: Pair, steps: seq<PairStep>, q: Pair) returns (trace: seq<Pair>)
    requires PairPath(p, steps, q)
    ensures |trace| == |steps| + 1 && trace[0] == p && trace[|steps|] == q
    ensures forall i :: 0 <= i < |steps| ==> PairEnabled(trace[i], steps[i]) && trace[i + 1] == PairNext(trace[i], steps[i])
    decreases |steps|
  {
    if steps == [] {
      trace := [p];
    } else {
      var rest := PairTrace(PairNext(p, steps[0]), steps[1..], q);
      trace := [p] + rest;
      forall i | 0 <= i < |steps| ensures PairEnabled(trace[i], steps[i]) && trace[i + 1] == PairNext(trace[i], steps[i]) {
        if i > 0 { assert trace[i] == rest[i - 1] && trace[i + 1] == rest[i] && steps[i] == steps[1..][i - 1]; }
      }
    }
  }

  /** A read that finds room. */
  lemma ReadReaches(p: Pair, e: End, c: seq<byte>, f: Flow)
    requires To(p, e).consumer.Idle? && Enabled(From(p, e), Offer(c)) && Next(From(p, e), Offer(c)) == f
    ensures Reaches(p, Put(p, e, f))
  {
    OneStep(p, ReadLocal(e, c), Put(p, e, f));
  }

  lemma WithinReaches(p: Pair, e: End, x: Step, f: Flow)
    requires !OfTask(x) && Enabled(From(p, e), x) && Next(From(p, e), x) == f
    ensures Reaches(p, Put(p, e, f))
  {
    OneStep(p, Within(e, x), Put(p, e, f));
  }

  lemma PutAgain(p: Pair, e: End, f: Flow, g: Flow)
    ensures Put(Put(p, e, f), e, g) == Put(p, e, g) && From(Put(p, e, f), e) == f
    ensures To(Put(p, e, f), e) == To(p, e)
  {
  }

  // ---- one direction fills up ----

  /** One read of 4096 bytes, an exact part of the window. */
  const PART := 4096

  function Part(): (c: seq<byte>)
    ensures |c| == PART
  {
    seq(PART, _ => 0)
  }

  function Copies(n: nat): (r: seq<seq<byte>>)
    ensures |r| == n
  {
    if n == 0 then [] else Copies(n - 1) + [Part()]
  }

  lemma {:induction false} CopiesGrow(n: nat)
    ensures |Flatten(Copies(n))| == n * PART && Flatten(Copies(n + 1)) == Flatten(Copies(n)) + Part()
    ensures Copies(n + 1) == Copies(n) + [Part()]
  {
    FlattenSnoc(Copies(n), Part());
    if n > 0 { CopiesGrow(n - 1); }
  }

  /** `n` parts sent and queued at the receiver, none taken. */
  function Filled(n: nat): Flow
    requires n * PART <= INITIAL_FLOW_WINDOW
  {
    Start().(offered := Flatten(Copies(n)), credits := INITIAL_FLOW_WINDOW - n * PART, queue := Copies(n))
  }

  /** After `n` parts sent, `m` more wait to be sent. */
  function Stuffed(n: nat, m: nat): Flow
    requires n * PART <= INITIAL_FLOW_WINDOW
  {
    Filled(n).(offered := Flatten(Copies(n + m)), unsent := Parts(m), loaded := m > 0)
  }

  function Parts(m: nat): (r: seq<seq<byte>>)
    ensures |r| == m && forall k :: 0 <= k < m ==> r[k] == Part()
  {
    seq(m, _ => Part())
  }

  lemma WholeFrame(f: Flow, c: seq<byte>)
    requires f.sending && f.loaded && f.unsent == [c] && 0 < |c| <= MAX_SENDABLE && |c| <= f.credits
    ensures Enabled(f, SendFrame)
    ensures Next(f, SendFrame) == f.(credits := f.credits - |c|, unsent := [], loaded := false, inflight := f.inflight + [c])
  {
    assert c[..|c|] == c;
  }

  lemma {:induction false} FillSends(n: nat, f1: Flow, f2: Flow, f3: Flow)
    requires (n + 1) * PART <= INITIAL_FLOW_WINDOW
    requires f1 == Filled(n).(offered := Flatten(Copies(n)) + Part(), unsent := [Part()]) && f2 == f1.(loaded := true)
    requires f3 == f1.(unsent := [], credits := INITIAL_FLOW_WINDOW - n * PART - PART, inflight := [Part()])
    ensures Enabled(Filled(n), Offer(Part())) && Next(Filled(n), Offer(Part())) == f1
    ensures Enabled(f1, Load) && Next(f1, Load) == f2
    ensures Enabled(f2, SendFrame) && Next(f2, SendFrame) == f3
  {
    WholeFrame(f2, Part());
  }

  lemma {:induction false} FillArrives(n: nat, f3: Flow)
    requires (n + 1) * PART <= INITIAL_FLOW_WINDOW && n < DISPATCH_CAP
    requires f3 == Filled(n).(offered := Flatten(Copies(n)) + Part(), credits := INITIAL_FLOW_WINDOW - n * PART - PART,
                              inflight := [Part()])
    ensures Enabled(f3, Arrive) && Next(f3, Arrive) == Filled(n + 1)
  {
    CopiesGrow(n);
  }

  lemma FourReach(p: Pair, e: End, c: seq<byte>, f1: Flow, f2: Flow, f3: Flow, f4: Flow)
    requires To(p, e).consumer.Idle? && Enabled(From(p, e), Offer(c)) && Next(From(p, e), Offer(c)) == f1
    requires Enabled(f1, Load) && Next(f1, Load) == f2
    requires Enabled(f2, SendFrame) && Next(f2, SendFrame) == f3
    requires Enabled(f3, Arrive) && Next(f3, Arrive) == f4
    ensures Reaches(p, Put(p, e, f4))
  {
    var p1, p2, p3, p4 := Put(p, e, f1), Put(p, e, f2), Put(p, e, f3), Put(p, e, f4);
    ReadReaches(p, e, c, f1);
    PutAgain(p, e, f1, f2);
    WithinReaches(p1, e, Load, f2);
    PutAgain(p, e, f2, f3);
    WithinReaches(p2, e, SendFrame, f3);
    PutAgain(p, e, f3, f4);
    WithinReaches(p3, e, Arrive, f4);
    Onwards(p, p1, p2);
    Onwards(p, p2, p3);
    Onwards(p, p3, p4);
  }

  lemma {:induction false} FillOne(p: Pair, e: End, n: nat)
    requires (n + 1) * PART <= INITIAL_FLOW_WINDOW && n < DISPATCH_CAP && From(p, e) == Filled(n) && To(p, e).consumer.Idle?
    ensures Reaches(p, Put(p, e, Filled(n + 1)))
  {
    var f1 := Filled(n).(offered := Flatten(Copies(n)) + Part(), unsent := [Part()]);
    var f2 := f1.(loaded := true);
    var f3 := f1.(unsent := [], credits := INITIAL_FLOW_WINDOW - n * PART - PART, inflight := [Part()]);
    FillSends(n, f1, f2, f3);
    FillArrives(n, f3);
    FourReach(p, e, Part(), f1, f2, f3, Filled(n + 1));
  }

  lemma {:induction false} FillUp(p: Pair, e: End, n: nat)
    requires n * PART <= INITIAL_FLOW_WINDOW && n <= DISPATCH_CAP && From(p, e) == Start() && To(p, e).consumer.Idle?
    ensures Reaches(p, Put(p, e, Filled(n)))
  {
    if n == 0 {
      assert Filled(n) == Start();
      Stays(p);
      assert Put(p, e, Start()) == p;
    } else {
      FillUp(p, e, n - 1);
      var q := Put(p, e, Filled(n - 1));
      PutAgain(p, e, Filled(n - 1), Filled(n));
      FillOne(q, e, n - 1);
      Onwards(p, q, Put(p, e, Filled(n)));
    }
  }

  lemma {:induction false} PartsGrow(m: nat)
    ensures Parts(m + 1) == Parts(m) + [Part()]
  {
  }

  lemma OfferExtends(f: Flow, c: seq<byte>)
    requires f.sending && Room(f)
    ensures Enabled(f, Offer(c)) && Next(f, Offer(c)) == f.(offered := f.offered + c, unsent := f.unsent + [c])
  {
  }

  lemma {:induction false} StuffStep(n: nat, m: nat)
    requires n * PART <= INITIAL_FLOW_WINDOW && 1 <= m <= SEND_CAP
    ensures Enabled(Stuffed(n, m), Offer(Part())) && Next(Stuffed(n, m), Offer(Part())) == Stuffed(n, m + 1)
  {
    CopiesGrow(n + m);
    PartsGrow(m);
    OfferExtends(Stuffed(n, m), Part());
  }

  lemma {:induction false} StuffFirst(p: Pair, e: End, n: nat)
    requires n * PART <= INITIAL_FLOW_WINDOW && From(p, e) == Filled(n) && To(p, e).consumer.Idle?
    ensures Reaches(p, Put(p, e, Stuffed(n, 1)))
  {
    CopiesGrow(n);
    var f1 := Filled(n).(offered := Flatten(Copies(n)) + Part(), unsent := [Part()]);
    assert Parts(1) == [Part()];
    ReadReaches(p, e, Part(), f1);
    PutAgain(p, e, f1, Stuffed(n, 1));
    WithinReaches(Put(p, e, f1), e, Load, Stuffed(n, 1));
    Onwards(p, Put(p, e, f1), Put(p, e, Stuffed(n, 1)));
  }

  lemma {:induction false} StuffUp(p: Pair, e: End, n: nat, m: nat)
    requires n * PART <= INITIAL_FLOW_WINDOW && 1 <= m <= SEND_CAP + 1
    requires From(p, e) == Filled(n) && To(p, e).consumer.Idle?
    ensures Reaches(p, Put(p, e, Stuffed(n, m)))
    decreases m
  {
    if m == 1 {
      StuffFirst(p, e, n);
    } else {
      StuffUp(p, e, n, m - 1);
      var q := Put(p, e, Stuffed(n, m - 1));
      PutAgain(p, e, Stuffed(n, m - 1), Stuffed(n, m));
      StuffStep(n, m - 1);
      ReadReaches(q, e, Part(), Stuffed(n, m));
      Onwards(p, q, Put(p, e, Stuffed(n, m)));
    }
  }

  lemma {:induction false} FillAndStuff(p: Pair, e: End, n: nat, m: nat)
    requires n * PART <= INITIAL_FLOW_WINDOW && n <= DISPATCH_CAP && 1 <= m <= SEND_CAP + 1
    requires From(p, e) == Start() && To(p, e).consumer.Idle?
    ensures Reaches(p, Put(p, e, Stuffed(n, m)))
  {
    FillUp(p, e, n);
    PutAgain(p, e, Filled(n), Stuffed(n, m));
    StuffUp(Put(p, e, Filled(n)), e, n, m);
    Onwards(p, Put(p, e, Filled(n)), Put(p, e, Stuffed(n, m)));
  }

  // ---- both do ----

  /** Neither end takes anything while both go on reading; one more read at
      either end, and each task waits for the other. */
  lemma BothWait(f: Flow, c: seq<byte>)
    requires f.consumer.Idle? && f.sending && !Room(f)
    ensures Reaches(Pair(f, f), Pair(f.(consumer := Busy(c)), f.(consumer := Busy(c))))
  {
    var g := f.(consumer := Busy(c));
    OneStep(Pair(f, f), ReadLocal(Client, c), Pair(f, g));
    OneStep(Pair(f, g), ReadLocal(Server, c), Pair(g, g));
    Onwards(Pair(f, f), Pair(f, g), Pair(g, g));
  }

  lemma {:induction false} JamReached(n: nat, m: nat)
    requires n * PART <= INITIAL_FLOW_WINDOW && n <= DISPATCH_CAP && m == SEND_CAP + 1
    ensures var g := Stuffed(n, m).(consumer := Busy(Part())); Reaches(Pair(Start(), Start()), Pair(g, g))
  {
    var p, f := Pair(Start(), Start()), Stuffed(n, m);
    FillAndStuff(p, Client, n, m);
    FillAndStuff(Pair(f, Start()), Server, n, m);
    Onwards(p, Pair(f, Start()), Pair(f, f));
    BothWait(f, Part());
    var g := f.(consumer := Busy(Part()));
    Onwards(p, Pair(f, f), Pair(g, g));
  }

  /** Out of credit with a chunk in hand, nothing on its way either way, and the
      consumer waiting. */
  ghost predicate Jam(g: Flow)
  {
    && Healthy(g) && HasData(g) && g.credits == 0 && g.inflight == [] && g.grants == [] && g.consumer.Busy?
    && !Room(g) && |Flatten(g.queue)| == INITIAL_FLOW_WINDOW
  }

  lemma JamIsQuiet(g: Flow)
    requires Jam(g)
    ensures Quiet(g) && !Oversize(g)
  {
  }

  lemma JamIsStuck(g: Flow)
    requires Jam(g)
    ensures PairHealthy(Pair(g, g)) && PairQuiet(Pair(g, g)) && Deadlocked(Pair(g, g)) && !PairDelivered(Pair(g, g))
  {
    JamIsQuiet(g);
    var p := Pair(g, g);
    assert forall e: End :: From(p, e) == g;
  }

  lemma {:induction false} StuffedFields(n: nat, m: nat, g: Flow)
    requires n * PART == INITIAL_FLOW_WINDOW && m == SEND_CAP + 1 && g == Stuffed(n, m).(consumer := Busy(Part()))
    ensures g.sending && g.registered && g.senderKnows && g.lost == Start().lost && g.loaded && g.consumer.Busy?
    ensures g.credits == 0 && g.inflight == [] && g.grants == [] && g.queue == Copies(n)
    ensures |g.unsent| == m && |g.unsent[0]| == PART
  {
  }

  lemma {:induction false} FieldsJam(g: Flow)
    requires g.sending && g.registered && g.senderKnows && g.lost == Start().lost && g.loaded && g.consumer.Busy?
    requires g.credits == 0 && g.inflight == [] && g.grants == [] && |Flatten(g.queue)| == INITIAL_FLOW_WINDOW
    requires |g.unsent| == SEND_CAP + 1 && |g.unsent[0]| == PART
    ensures Jam(g)
  {
    assert g.unsent[0] != [];
  }

  lemma {:induction false} StuffedJams(n: nat, m: nat, g: Flow)
    requires n * PART == INITIAL_FLOW_WINDOW && m == SEND_CAP + 1 && g == Stuffed(n, m).(consumer := Busy(Part()))
    ensures Jam(g)
  {
    StuffedFields(n, m, g);
    CopiesGrow(n);
    FieldsJam(g);
  }

  lemma {:induction false} DeadlockAt(n: nat, m: nat) returns (trace: seq<Pair>, steps: seq<PairStep>, g: Flow)
    requires n * PART == INITIAL_FLOW_WINDOW && m == SEND_CAP + 1
    ensures PairRun(trace, steps) && trace[|steps|] == Pair(g, g) && g == Stuffed(n, m).(consumer := Busy(Part()))
  {
    JamReached(n, m);
    g := Stuffed(n, m).(consumer := Busy(Part()));
    steps :| PairPath(Pair(Start(), Start()), steps, Pair(g, g));
    trace := PairTrace(Pair(Start(), Start()), steps, Pair(g, g));
  }

  lemma {:induction false} StuckAt(n: nat, m: nat) returns (trace: seq<Pair>, steps: seq<PairStep>, g: Flow)
    requires n * PART == INITIAL_FLOW_WINDOW && m == SEND_CAP + 1
    ensures PairRun(trace, steps) && trace[|steps|] == Pair(g, g) && !Oversize(g)
    ensures PairHealthy(Pair(g, g)) && PairQuiet(Pair(g, g)) && Deadlocked(Pair(g, g)) && !PairDelivered(Pair(g, g))
  {
    trace, steps, g := DeadlockAt(n, m);
    StuffedJams(n, m, g);
    JamIsQuiet(g);
    JamIsStuck(g);
  }

  /** Two ends running this code, reading 4096 bytes at a time, can reach a state
      in which each task waits for the other, nothing was lost and no frame is
      oversize, and yet nothing can move. */
  lemma MutualDeadlock() returns (trace: seq<Pair>, steps: seq<PairStep>, p: Pair)
    ensures PairRun(trace, steps) && p == trace[|steps|]
    ensures PairHealthy(p) && PairQuiet(p) && Deadlocked(p) && !PairDelivered(p)
    ensures !Oversize(p.client) && !Oversize(p.server)
  {
    var g;
    trace, steps, g := StuckAt(64, SEND_CAP + 1);
    p := Pair(g, g);
  }
}
