/** Both directions of one flow. At each end one task reads the local socket and
    feeds the outgoing direction, and drains the incoming one; while it waits for
    room in the first it does not serve the second. */
module FlowPair {
  import opened Common
  import opened SendLoop
  import opened FlowSystem
  import opened FlowProgress

  datatype End = Client | Server

  function Other(e: End): End { if e.Client? then Server else Client }

  /** The two directions, by the end that sends. */
  datatype Pair = Pair(client: Flow, server: Flow)

  function From(p: Pair, e: End): Flow { if e.Client? then p.client else p.server }

  function To(p: Pair, e: End): Flow { From(p, Other(e)) }

  function Put(p: Pair, e: End, f: Flow): Pair { if e.Client? then p.(client := f) else p.(server := f) }

  /** `Within` is a step of one direction that leaves the sender's task alone. */
  datatype PairStep =
    | Within(from: End, step: Step)
    | ReadLocal(at: End, chunk: seq<byte>)
    | Resume(end: End)

  predicate OfTask(step: Step) { step.Offer? || step.Blocks? || step.Unblocks? }

  ghost predicate PairEnabled(p: Pair, step: PairStep)
  {
    match step
    case Within(e, x) => !OfTask(x) && Enabled(From(p, e), x)
    case ReadLocal(e, _) => To(p, e).consumer.Idle? && From(p, e).sending
    case Resume(e) => To(p, e).consumer.Busy? && From(p, e).sending && Room(From(p, e))
  }

  ghost function PairNext(p: Pair, step: PairStep): Pair
    requires PairEnabled(p, step)
  {
    match step
    case Within(e, x) => Put(p, e, Next(From(p, e), x))
    case ReadLocal(e, chunk) =>
      if Room(From(p, e)) then Put(p, e, Next(From(p, e), Offer(chunk)))
      else Put(p, Other(e), Next(To(p, e), Blocks(chunk)))
    case Resume(e) =>
      Put(Put(p, e, Next(From(p, e), Offer(To(p, e).consumer.waiting))), Other(e), Next(To(p, e), Unblocks))
  }

  ghost predicate PairRun(trace: seq<Pair>, steps: seq<PairStep>)
  {
    && |trace| == |steps| + 1 && trace[0] == Pair(Start(), Start())
    && forall i :: 0 <= i < |steps| ==> PairEnabled(trace[i], steps[i]) && trace[i + 1] == PairNext(trace[i], steps[i])
  }

  // ---- each direction keeps what it keeps alone ----

  ghost predicate Sound(s: Flow) { Total(s) == INITIAL_FLOW_WINDOW && Intact(s) }

  lemma StepKeepsSound(s: Flow, step: Step)
    requires Sound(s) && Enabled(s, step)
    ensures Sound(Next(s, step))
  {
    StepConserves(s, step);
    StepKeepsIntact(s, step);
  }

  lemma PairStepKeepsSound(p: Pair, step: PairStep, e: End)
    requires Sound(From(p, e)) && PairEnabled(p, step)
    ensures Sound(From(PairNext(p, step), e))
  {
    match step
    case Within(d, x) => if d == e { StepKeepsSound(From(p, e), x); }
    case ReadLocal(d, chunk) =>
      if Room(From(p, d)) {
        if d == e { StepKeepsSound(From(p, e), Offer(chunk)); }
      } else if d != e {
        StepKeepsSound(From(p, e), Blocks(chunk));
      }
    case Resume(d) =>
      if d == e { StepKeepsSound(From(p, e), Offer(To(p, e).consumer.waiting)); }
      else { StepKeepsSound(From(p, e), Unblocks); }
  }

  /** In every run of the pair, each direction conserves its credit and keeps its
      stream. */
  lemma {:induction false} PairIsSound(trace: seq<Pair>, steps: seq<PairStep>, i: nat, e: End)
    requires PairRun(trace, steps) && i < |trace|
    ensures Sound(From(trace[i], e))
  {
    if i == 0 {
      EmptyIsIntact(Start());
      assert Flatten<byte>([]) == [];
    } else {
      PairIsSound(trace, steps, i - 1, e);
      PairStepKeepsSound(trace[i - 1], steps[i - 1], e);
    }
  }

  // ---- when the pair is stuck ----

  predicate PairForward(step: PairStep) { (step.Within? && Forward(step.step)) || step.Resume? }

  ghost predicate PairHealthy(p: Pair) { Healthy(p.client) && Healthy(p.server) }

  ghost predicate PairQuiet(p: Pair) { forall step :: PairForward(step) ==> !PairEnabled(p, step) }

  /** Everything that was read at either end has been written at the other. */
  predicate PairDelivered(p: Pair)
  {
    Delivered(p.client) && Delivered(p.server) && p.client.consumer.Idle? && p.server.consumer.Idle?
  }

  /** Each task waits for room towards the other: both channels are full, neither
      direction has credit, and both have the whole window queued. */
  ghost predicate Deadlocked(p: Pair)
  {
    forall e: End ::
      && To(p, e).consumer.Busy? && !Room(From(p, e)) && From(p, e).credits == 0
      && |Flatten(From(p, e).queue)| == INITIAL_FLOW_WINDOW
  }

  lemma QuietWithin(p: Pair, e: End)
    requires PairQuiet(p)
    ensures Quiet(From(p, e)) && !PairEnabled(p, Resume(e))
  {
    forall step | Forward(step) ensures !Enabled(From(p, e), step) {
      assert PairForward(Within(e, step));
      assert !PairEnabled(p, Within(e, step));
    }
    assert PairForward(Resume(e));
  }

  /** A task that waits in a quiet pair makes the other one wait too. */
  lemma WaitingSpreads(p: Pair, e: End)
    requires PairHealthy(p) && PairQuiet(p) && Sound(From(p, e)) && !Oversize(From(p, e)) && To(p, e).consumer.Busy?
    ensures !Room(From(p, e)) && From(p, e).credits == 0 && From(p, e).consumer.Busy?
    ensures |Flatten(From(p, e).queue)| == INITIAL_FLOW_WINDOW
  {
    QuietWithin(p, e);
    QuietParts(From(p, e));
    QuietRests(From(p, e));
  }

  lemma NobodyWaits(p: Pair, e: End)
    requires PairHealthy(p) && PairQuiet(p) && Sound(From(p, e)) && !Oversize(From(p, e)) && From(p, e).consumer.Idle?
    ensures Delivered(From(p, e))
  {
    QuietWithin(p, e);
    StateQuietIff(From(p, e));
  }

  /** The one way a healthy flow with no oversize frame gets stuck: a pair with
      nothing left to do has delivered everything both ways if and only if the
      two tasks do not wait for each other. */
  lemma PairQuietIff(trace: seq<Pair>, steps: seq<PairStep>, i: nat)
    requires PairRun(trace, steps) && i < |trace| && PairHealthy(trace[i]) && PairQuiet(trace[i])
    requires !Oversize(trace[i].client) && !Oversize(trace[i].server)
    ensures PairDelivered(trace[i]) <==> !Deadlocked(trace[i])
  {
    var p := trace[i];
    PairIsSound(trace, steps, i, Client);
    PairIsSound(trace, steps, i, Server);
    QuietWithin(p, Client);
    QuietWithin(p, Server);
    QuietParts(p.client);
    QuietParts(p.server);
    assert To(p, Client) == p.server && To(p, Server) == p.client;
    if p.server.consumer.Busy? || p.client.consumer.Busy? {
      if p.server.consumer.Busy? { WaitingSpreads(p, Client); WaitingSpreads(p, Server); }
      else { WaitingSpreads(p, Server); WaitingSpreads(p, Client); }
      assert Deadlocked(p);
    } else {
      NobodyWaits(p, Client);
      NobodyWaits(p, Server);
      assert !To(p, Client).consumer.Busy?;
    }
  }

  /** All reads so far were of at most 16376 bytes. */
  ghost predicate SmallReads(steps: seq<PairStep>, i: nat)
    requires i <= |steps|
  {
    forall k :: 0 <= k < i && steps[k].ReadLocal? ==> |steps[k].chunk| <= MAX_SENDABLE
  }

  ghost predicate SmallFlow(s: Flow)
  {
    SmallChunks(s.unsent) && (s.consumer.Busy? ==> |s.consumer.waiting| <= MAX_SENDABLE)
  }

  lemma StepKeepsSmallFlow(s: Flow, step: Step)
    requires Enabled(s, step) && SmallFlow(s)
    requires step.Offer? ==> |step.chunk| <= MAX_SENDABLE
    requires step.Blocks? ==> |step.held| <= MAX_SENDABLE
    ensures SmallFlow(Next(s, step))
  {
    StepKeepsSmall(s, step);
  }

  lemma PairStepKeepsSmall(p: Pair, step: PairStep, e: End)
    requires PairEnabled(p, step) && SmallFlow(p.client) && SmallFlow(p.server)
    requires step.ReadLocal? ==> |step.chunk| <= MAX_SENDABLE
    ensures SmallFlow(From(PairNext(p, step), e))
  {
    match step
    case Within(d, x) => if d == e { StepKeepsSmallFlow(From(p, e), x); }
    case ReadLocal(d, chunk) =>
      if Room(From(p, d)) {
        if d == e { StepKeepsSmallFlow(From(p, e), Offer(chunk)); }
      } else if d != e {
        StepKeepsSmallFlow(From(p, e), Blocks(chunk));
      }
    case Resume(d) =>
      if d == e { StepKeepsSmallFlow(From(p, e), Offer(To(p, e).consumer.waiting)); }
      else { StepKeepsSmallFlow(From(p, e), Unblocks); }
  }

  lemma {:induction false} ReadsStaySmall(trace: seq<Pair>, steps: seq<PairStep>, i: nat)
    requires PairRun(trace, steps) && i < |trace| && SmallReads(steps, i)
    ensures SmallFlow(trace[i].client) && SmallFlow(trace[i].server)
  {
    if i > 0 {
      ReadsStaySmall(trace, steps, i - 1);
      PairStepKeepsSmall(trace[i - 1], steps[i - 1], Client);
      PairStepKeepsSmall(trace[i - 1], steps[i - 1], Server);
    }
  }

  /** So with reads of at most 16376 bytes, and the relay reads 8190, a healthy
      pair with nothing left to do has delivered everything both ways if and
      only if it is not deadlocked. */
  lemma OnlyDeadlockStops(trace: seq<Pair>, steps: seq<PairStep>, i: nat)
    requires PairRun(trace, steps) && i < |trace| && PairHealthy(trace[i]) && PairQuiet(trace[i])
    requires SmallReads(steps, i)
    ensures PairDelivered(trace[i]) <==> !Deadlocked(trace[i])
  {
    ReadsStaySmall(trace, steps, i);
    PairQuietIff(trace, steps, i);
  }

  // ---- termination ----

  function PairWork(p: Pair): nat { Work(p.client) + Work(p.server) }

  lemma OfferWorks(s: Flow, chunk: seq<byte>)
    requires Enabled(s, Offer(chunk))
    ensures Work(Next(s, Offer(chunk))) == Work(s) + 11 * |chunk| + 2
  {
    FlattenSnoc(s.unsent, chunk);
  }

  lemma UnblockWorks(s: Flow)
    requires Enabled(s, Unblocks)
    ensures Work(Next(s, Unblocks)) == Work(s) - 11 * |s.consumer.waiting| - 3
  {
  }

  lemma PutWorks(p: Pair, e: End, f: Flow)
    ensures PairWork(Put(p, e, f)) == PairWork(p) - Work(From(p, e)) + Work(f)
  {
  }

  lemma PairForwardWorks(p: Pair, step: PairStep)
    requires PairEnabled(p, step) && PairForward(step)
    ensures PairWork(PairNext(p, step)) < PairWork(p)
  {
    match step
    case Within(e, x) =>
      ForwardWorks(From(p, e), x);
      PutWorks(p, e, Next(From(p, e), x));
    case Resume(e) =>
      var c := To(p, e).consumer.waiting;
      OfferWorks(From(p, e), c);
      UnblockWorks(To(p, e));
      var q := Put(p, e, Next(From(p, e), Offer(c)));
      PutWorks(p, e, Next(From(p, e), Offer(c)));
      PutWorks(q, Other(e), Next(To(p, e), Unblocks));
  }

  lemma StepWorks(trace: seq<Pair>, steps: seq<PairStep>, k: nat)
    requires PairRun(trace, steps) && k < |steps| && PairForward(steps[k])
    ensures PairWork(trace[k + 1]) < PairWork(trace[k])
  {
    PairForwardWorks(trace[k], steps[k]);
  }

  lemma {:induction false} WorkFalls(trace: seq<Pair>, i: nat, j: nat)
    requires i <= j < |trace| && forall k :: i <= k < j ==> PairWork(trace[k + 1]) < PairWork(trace[k])
    ensures j - i + PairWork(trace[j]) <= PairWork(trace[i])
    decreases j
  {
    if i < j {
      WorkFalls(trace, i, j - 1);
      assert PairWork(trace[(j - 1) + 1]) < PairWork(trace[j - 1]);
    }
  }

  /** A pair left to itself stops after finitely many steps: delivered both ways,
      deadlocked, or at an oversize frame. */
  lemma PairTerminates(trace: seq<Pair>, steps: seq<PairStep>, i: nat, j: nat)
    requires PairRun(trace, steps) && i <= j <= |steps| && forall k :: i <= k < j ==> PairForward(steps[k])
    ensures j - i + PairWork(trace[j]) <= PairWork(trace[i])
  {
    forall k | i <= k < j ensures PairWork(trace[k + 1]) < PairWork(trace[k]) { StepWorks(trace, steps, k); }
    WorkFalls(trace, i, j);
  }
}
