/** `send_encrypted`: any number of tasks share one ratchet and one bounded
    writer channel, behind a send lock and a ratchet lock. The tunnel's client
    is the initiator. */
module WireOrder {
  import opened Common
  import opened Ratchet

  type Task = nat

  /** Where a task is inside `send_encrypted`. In `Locked` it waits for the
      ratchet; in `InHand` it has released the ratchet and waits for room. */
  datatype Pc = Outside | Locked(payload: seq<byte>, kind: byte) | Encrypting(payload: seq<byte>, kind: byte)
              | InHand(m: Message)

  datatype Holder = Free | Sender(t: Task) | ReceiveLoop

  /** `taken` is what the writer task has taken off the channel `queue`; `lost`
      counts message numbers consumed and never enqueued. */
  datatype State = State(ratchet: Party, sendLock: Option<Task>, ratchetLock: Holder, pc: Task -> Pc,
                         queue: seq<Message>, capacity: nat, closed: bool,
                         taken: seq<Message>, lost: nat)

  /** Everything ever enqueued, in order. */
  function Wire(s: State): seq<Message> { s.taken + s.queue }

  datatype Step =
    | TakeSendLock(t: Task, payload: seq<byte>, kind: byte)
    | TakeRatchet(t: Task)
    | EncryptNow(t: Task, ok: bool)
    | SerialiseFails(t: Task)
    | Enqueue(t: Task)
    | ChannelGone(t: Task)
    | Cancelled(t: Task)  // the caller drops the future at one of its awaits
    | WriterTakes
    | WriterCloses
    | ReceiverTakesRatchet
    | ReceiverDecrypts(m: Message, drawn: Key32)

  ghost predicate Enabled(s: State, peer: Key32, step: Step)
  {
    match step
    case TakeSendLock(t, _, _) => s.sendLock.None? && s.pc(t).Outside?
    case TakeRatchet(t) => s.pc(t).Locked? && s.ratchetLock.Free?
    case EncryptNow(t, _) => s.pc(t).Encrypting?
    case SerialiseFails(t) => s.pc(t).InHand?
    case Enqueue(t) => s.pc(t).InHand? && !s.closed && |s.queue| < s.capacity
    case ChannelGone(t) => s.pc(t).InHand? && s.closed
    case Cancelled(t) => s.pc(t).Locked? || s.pc(t).InHand?
    case WriterTakes => s.queue != []
    case WriterCloses => true
    case ReceiverTakesRatchet => s.ratchetLock.Free?
    case ReceiverDecrypts(m, _) => s.ratchetLock.ReceiveLoop? && FromPeer(m, peer, Bob)
  }

  function At(pc: Task -> Pc, t: Task, v: Pc): Task -> Pc { (x: Task) => if x == t then v else pc(x) }

  /** Task `t` leaves `send_encrypted`, releasing the send lock. */
  function Leave(s: State, t: Task, lost: nat): State
  {
    s.(pc := At(s.pc, t, Outside), sendLock := None, lost := s.lost + lost)
  }

  function Next(s: State, step: Step): State
    requires step.EncryptNow? ==> s.pc(step.t).Encrypting?
    requires step.Enqueue? ==> s.pc(step.t).InHand?
    requires step.TakeRatchet? ==> s.pc(step.t).Locked?
    requires step.WriterTakes? ==> s.queue != []
  {
    match step
    case TakeSendLock(t, payload, kind) => s.(sendLock := Some(t), pc := At(s.pc, t, Locked(payload, kind)))
    case TakeRatchet(t) =>
      s.(ratchetLock := Sender(t), pc := At(s.pc, t, Encrypting(s.pc(t).payload, s.pc(t).kind)))
    case EncryptNow(t, ok) =>
      if ok then
        var (r, m) := Encrypt(s.ratchet, s.pc(t).payload, s.pc(t).kind);
        s.(ratchet := r, ratchetLock := Free, pc := At(s.pc, t, InHand(m)))
      else Leave(s.(ratchetLock := Free), t, 0)
    case SerialiseFails(t) => Leave(s, t, 1)
    case Enqueue(t) => Leave(s.(queue := s.queue + [s.pc(t).m]), t, 0)
    case ChannelGone(t) => Leave(s, t, 1)
    case Cancelled(t) => Leave(s, t, if s.pc(t).InHand? then 1 else 0)
    case WriterTakes => s.(taken := s.taken + [s.queue[0]], queue := s.queue[1..])
    case WriterCloses => s.(closed := true)
    case ReceiverTakesRatchet => s.(ratchetLock := ReceiveLoop)
    case ReceiverDecrypts(m, drawn) =>
      s.(ratchet := Decrypt(s.ratchet, m, drawn).0, ratchetLock := Free)
  }

  ghost predicate Init(s: State, ours: Key32)
  {
    && s.ratchet == Start(ours, Alice) && s.sendLock.None? && s.ratchetLock.Free?
    && (forall t: Task :: s.pc(t).Outside?) && s.queue == [] && s.taken == [] && s.lost == 0 && !s.closed
  }

  ghost predicate Run(ours: Key32, peer: Key32, trace: seq<State>, steps: seq<Step>)
  {
    && |trace| == |steps| + 1 && Init(trace[0], ours)
    && forall i :: 0 <= i < |steps| ==>
         Enabled(trace[i], peer, steps[i]) && trace[i + 1] == Next(trace[i], steps[i])
  }

  // ---- locking ----

  /** The send lock is held exactly by the task inside, the ratchet lock by a
      sender exactly while that sender encrypts. */
  ghost predicate Locking(s: State)
  {
    && (forall t: Task :: !s.pc(t).Outside? <==> s.sendLock == Some(t))
    && (forall t: Task :: s.pc(t).Encrypting? <==> s.ratchetLock == Sender(t))
  }

  lemma StepKeepsLocking(s: State, peer: Key32, step: Step)
    requires Locking(s) && Enabled(s, peer, step)
    ensures Locking(Next(s, step))
  {
  }

  // ---- numbering ----

  /** The message encrypted but not yet enqueued; only the holder of the send
      lock can have one. */
  function Held(s: State): Option<Message>
  {
    if s.sendLock.Some? && s.pc(s.sendLock.value).InHand? then Some(s.pc(s.sendLock.value).m) else None
  }

  function HeldCount(h: Option<Message>): nat { if h.Some? then 1 else 0 }

  ghost predicate Increasing(wire: seq<Message>)
  {
    forall j, k :: 0 <= j < k < |wire| ==> wire[j].header.number < wire[k].header.number
  }

  /** Numbers on the wire increase, a message in hand carries the newest number,
      and every number used is on the wire, lost or in hand. */
  ghost predicate Numbered(r: Party, wire: seq<Message>, lost: nat, held: Option<Message>, ours: Key32, peer: Key32)
  {
    && r.dh == ours && Unstepped(r, Alice) && InStep(r, peer, Bob)
    && Increasing(wire)
    && |wire| + lost + HeldCount(held) == r.sendNumber
    && (forall m :: m in wire ==> FromPeer(m, ours, Alice) && m.header.number + HeldCount(held) < r.sendNumber)
    && (held.Some? ==> FromPeer(held.value, ours, Alice) && held.value.header.number + 1 == r.sendNumber)
  }

  ghost predicate Inv(s: State, ours: Key32, peer: Key32)
  {
    Locking(s) && Numbered(s.ratchet, Wire(s), s.lost, Held(s), ours, peer)
  }

  lemma EnqueueNumbers(r: Party, wire: seq<Message>, lost: nat, m: Message, ours: Key32, peer: Key32)
    requires Numbered(r, wire, lost, Some(m), ours, peer)
    ensures Numbered(r, wire + [m], lost, None, ours, peer)
  {
    assert forall k :: 0 <= k < |wire| ==> wire[k] in wire;
  }

  lemma StepKeepsInv(s: State, ours: Key32, peer: Key32, step: Step)
    requires Inv(s, ours, peer) && Enabled(s, peer, step)
    ensures Inv(Next(s, step), ours, peer)
  {
    StepKeepsLocking(s, peer, step);
    var u := Next(s, step);
    match step
    case EncryptNow(t, ok) =>
      assert s.sendLock == Some(t);
    case SerialiseFails(t) => assert s.sendLock == Some(t);
    case ChannelGone(t) => assert s.sendLock == Some(t);
    case Cancelled(t) => assert s.sendLock == Some(t);
    case Enqueue(t) =>
      assert s.sendLock == Some(t);
      EnqueueNumbers(s.ratchet, Wire(s), s.lost, s.pc(t).m, ours, peer);
      assert Wire(u) == Wire(s) + [s.pc(t).m];
    case WriterTakes => assert Wire(u) == Wire(s);
    case ReceiverDecrypts(m, drawn) => InStepDecrypts(s.ratchet, m, peer, Bob, drawn);
    case TakeRatchet(t) => assert s.sendLock == Some(t);
    case _ =>
  }

  lemma {:induction false} RunKeepsInv(ours: Key32, peer: Key32, trace: seq<State>, steps: seq<Step>, i: nat)
    requires Run(ours, peer, trace, steps) && i < |trace|
    ensures Inv(trace[i], ours, peer)
  {
    if i > 0 {
      RunKeepsInv(ours, peer, trace, steps, i - 1);
      StepKeepsInv(trace[i - 1], ours, peer, steps[i - 1]);
    }
  }

  // ---- what the tunnel relies on ----

  lemma {:induction false} IncreasingFrom(wire: seq<Message>, k: nat)
    requires Increasing(wire) && k < |wire|
    ensures wire[k].header.number >= k
  {
    if k > 0 { IncreasingFrom(wire, k - 1); }
  }

  lemma {:induction false} IncreasingUpTo(wire: seq<Message>, k: nat, n: nat)
    requires Increasing(wire) && k < |wire| && forall m :: m in wire ==> m.header.number < n
    ensures wire[k].header.number + (|wire| - k) <= n
    decreases |wire| - k
  {
    if k + 1 < |wire| { IncreasingUpTo(wire, k + 1, n); }
    assert wire[k] in wire;
  }

  /** For any number of tasks, any interleaving and any backpressure, wire order
      is ratchet order; and while nothing was lost the numbers on the wire are
      exactly 0, 1, 2, ... */
  lemma WireOrderIsRatchetOrder(ours: Key32, peer: Key32, trace: seq<State>, steps: seq<Step>, i: nat)
    requires Run(ours, peer, trace, steps) && i < |trace|
    ensures Increasing(Wire(trace[i]))
    ensures trace[i].lost == 0 ==> forall k :: 0 <= k < |Wire(trace[i])| ==> Wire(trace[i])[k].header.number == k
  {
    RunKeepsInv(ours, peer, trace, steps, i);
    var wire := Wire(trace[i]);
    forall k | 0 <= k < |wire| && trace[i].lost == 0 ensures wire[k].header.number == k {
      IncreasingFrom(wire, k);
      IncreasingUpTo(wire, k, |wire|);
    }
  }

  lemma WireHasSmallGaps(ours: Key32, peer: Key32, trace: seq<State>, steps: seq<Step>, i: nat)
    requires Run(ours, peer, trace, steps) && i < |trace| && trace[i].lost <= MAX_SKIP
    ensures InOrder(Wire(trace[i]))
  {
    RunKeepsInv(ours, peer, trace, steps, i);
    var wire, n := Wire(trace[i]), trace[i].ratchet.sendNumber;
    assert forall k :: 0 <= k < |wire| ==> wire[k] in wire;
    forall k | 0 <= k < |wire| ensures k <= wire[k].header.number <= k + MAX_SKIP {
      IncreasingFrom(wire, k);
      IncreasingUpTo(wire, k, n - HeldCount(Held(trace[i])));
    }
  }

  lemma WireIsOurs(ours: Key32, peer: Key32, trace: seq<State>, steps: seq<Step>, i: nat)
    requires Run(ours, peer, trace, steps) && i < |trace|
    ensures forall k :: 0 <= k < |Wire(trace[i])| ==> FromPeer(Wire(trace[i])[k], ours, Alice)
  {
    RunKeepsInv(ours, peer, trace, steps, i);
    assert forall k :: 0 <= k < |Wire(trace[i])| ==> Wire(trace[i])[k] in Wire(trace[i]);
  }

  /** No run of more than 1000 numbers is missing from the wire. */
  ghost predicate NoWideGap(wire: seq<Message>)
  {
    && (wire != [] ==> wire[0].header.number <= MAX_SKIP)
    && forall k :: 0 < k < |wire| ==> wire[k].header.number - wire[k - 1].header.number - 1 <= MAX_SKIP
  }

  lemma GapsDecide(wire: seq<Message>)
    requires Increasing(wire)
    ensures InOrder(wire) <==> NoWideGap(wire)
  {
  }

  lemma WireIncreases(ours: Key32, peer: Key32, trace: seq<State>, steps: seq<Step>, i: nat)
    requires Run(ours, peer, trace, steps) && i < |trace|
    ensures Increasing(Wire(trace[i]))
  {
    RunKeepsInv(ours, peer, trace, steps, i);
  }

  /** The peer opens every message of a wire, in order, if and only if nowhere
      more than 1000 numbers in a row were lost. */
  lemma PeerOpensIff(ours: Key32, peer: Key32, trace: seq<State>, steps: seq<Step>, i: nat, drawn: nat -> Key32)
    requires Run(ours, peer, trace, steps) && i < |trace|
    ensures AllOpened(Wire(trace[i]), DecryptAll(Start(peer, Bob), Wire(trace[i]), drawn).1) <==> NoWideGap(Wire(trace[i]))
  {
    WireIncreases(ours, peer, trace, steps, i);
    GapsDecide(Wire(trace[i]));
    WireIsOurs(ours, peer, trace, steps, i);
    OpensIffInOrder(ours, peer, Bob, drawn, Wire(trace[i]));
  }

  /** As long as at most 1000 numbers were lost, the peer opens every message of
      every wire, in order. */
  lemma PeerOpensEverything(ours: Key32, peer: Key32, trace: seq<State>, steps: seq<Step>, i: nat, drawn: nat -> Key32)
    requires Run(ours, peer, trace, steps) && i < |trace| && trace[i].lost <= MAX_SKIP
    ensures AllOpened(Wire(trace[i]), DecryptAll(Start(peer, Bob), Wire(trace[i]), drawn).1)
  {
    WireHasSmallGaps(ours, peer, trace, steps, i);
    WireIsOurs(ours, peer, trace, steps, i);
    OpensIffInOrder(ours, peer, Bob, drawn, Wire(trace[i]));
  }

  // ---- what was handed over is what arrives ----

  /** A payload and its message type, as handed to `send_encrypted`. */
  type Parcel = (seq<byte>, byte)

  /** What task `t` handed over when it last took the send lock. */
  function LastTaken(steps: seq<Step>, t: Task): Option<Parcel>
  {
    if steps == [] then None
    else
      var last := steps[|steps| - 1];
      if last.TakeSendLock? && last.t == t then Some((last.payload, last.kind))
      else LastTaken(steps[..|steps| - 1], t)
  }

  /** What was handed over by the tasks that reached the channel, in the order
      they reached it; read off the steps alone. */
  function Handed(steps: seq<Step>): seq<Option<Parcel>>
  {
    if steps == [] then []
    else
      var last, front := steps[|steps| - 1], steps[..|steps| - 1];
      if last.Enqueue? then Handed(front) + [LastTaken(front, last.t)] else Handed(front)
  }

  function ParcelOf(m: Message): Parcel { (m.body.payload, m.header.kind) }

  function Parcels(ms: seq<Message>): seq<Option<Parcel>> { seq(|ms|, i requires 0 <= i < |ms| => Some(ParcelOf(ms[i]))) }

  /** What a sender at `pc` is to put on the wire. */
  function Carried(pc: Pc): Option<Parcel>
  {
    match pc
    case Outside => None
    case Locked(payload, kind) => Some((payload, kind))
    case Encrypting(payload, kind) => Some((payload, kind))
    case InHand(m) => Some(ParcelOf(m))
  }

  ghost predicate Carries(s: State, taken: Task -> Option<Parcel>)
  {
    forall t: Task :: !s.pc(t).Outside? ==> Carried(s.pc(t)) == taken(t)
  }

  lemma StepCarries(s: State, peer: Key32, step: Step, before: Task -> Option<Parcel>, after: Task -> Option<Parcel>)
    requires Enabled(s, peer, step) && Carries(s, before)
    requires forall t: Task :: after(t) == if step.TakeSendLock? && step.t == t then Some((step.payload, step.kind)) else before(t)
    ensures Carries(Next(s, step), after)
  {
  }

  lemma StepEnqueues(s: State, peer: Key32, step: Step)
    requires Enabled(s, peer, step)
    ensures Wire(Next(s, step)) == Wire(s) + if step.Enqueue? then [s.pc(step.t).m] else []
  {
  }

  /** In every run the payloads and types on the wire are, in order, exactly
      those handed over by the tasks that reached the channel. */
  lemma {:induction false} WireCarriesWhatWasHanded(ours: Key32, peer: Key32, trace: seq<State>, steps: seq<Step>, i: nat)
    requires Run(ours, peer, trace, steps) && i < |trace|
    ensures Carries(trace[i], t => LastTaken(steps[..i], t))
    ensures Parcels(Wire(trace[i])) == Handed(steps[..i])
  {
    if i > 0 {
      WireCarriesWhatWasHanded(ours, peer, trace, steps, i - 1);
      var s, step := trace[i - 1], steps[i - 1];
      assert steps[..i] == steps[..i - 1] + [step];
      assert steps[..i][..i - 1] == steps[..i - 1];
      StepCarries(s, peer, step, t => LastTaken(steps[..i - 1], t), t => LastTaken(steps[..i], t));
      StepEnqueues(s, peer, step);
    }
  }

  /** The payloads of parcels. */
  function Payloads(ps: seq<Option<Parcel>>): seq<Option<seq<byte>>>
  {
    seq(|ps|, i requires 0 <= i < |ps| => if ps[i].Some? then Some(ps[i].value.0) else None)
  }

  /** The peer recovers exactly the payloads handed over, in order, if and only
      if nowhere more than 1000 numbers in a row were lost. */
  lemma PeerReceivesWhatWasHanded(ours: Key32, peer: Key32, trace: seq<State>, steps: seq<Step>, i: nat, drawn: nat -> Key32)
    requires Run(ours, peer, trace, steps) && i < |trace|
    ensures DecryptAll(Start(peer, Bob), Wire(trace[i]), drawn).1 == Payloads(Handed(steps[..i]))
            <==> NoWideGap(Wire(trace[i]))
  {
    PeerOpensIff(ours, peer, trace, steps, i, drawn);
    WireCarriesWhatWasHanded(ours, peer, trace, steps, i);
    OpenedIsPayloads(Wire(trace[i]), DecryptAll(Start(peer, Bob), Wire(trace[i]), drawn).1);
  }

  lemma OpenedIsPayloads(ms: seq<Message>, rs: seq<Option<seq<byte>>>)
    ensures AllOpened(ms, rs) <==> rs == Payloads(Parcels(ms))
  {
    var ps := Payloads(Parcels(ms));
    assert |ps| == |ms|;
    assert forall k :: 0 <= k < |ms| ==> ps[k] == Some(ms[k].body.payload);
  }

  /** A sender waiting for channel room never holds the ratchet, and a sender
      that does hold it can finish in one step whatever the channel's state,
      after which the receive loop can take it. */
  lemma RatchetNeverBlocked(ours: Key32, peer: Key32, trace: seq<State>, steps: seq<Step>, i: nat, t: Task)
    requires Run(ours, peer, trace, steps) && i < |trace|
    ensures trace[i].pc(t).InHand? ==> trace[i].ratchetLock != Sender(t)
    ensures trace[i].ratchetLock == Sender(t) ==>
      forall ok: bool :: Enabled(trace[i], peer, EncryptNow(t, ok))
        && Enabled(Next(trace[i], EncryptNow(t, ok)), peer, ReceiverTakesRatchet)
  {
    RunKeepsInv(ours, peer, trace, steps, i);
  }

  // ---- counts and locks, read off the steps ----

  function Encryptions(steps: seq<Step>): nat
  {
    if steps == [] then 0
    else
      var last := steps[|steps| - 1];
      Encryptions(steps[..|steps| - 1]) + if last.EncryptNow? && last.ok then 1 else 0
  }

  /** Whether the receive loop holds the ratchet. */
  function Receiving(steps: seq<Step>): bool
  {
    if steps == [] then false
    else
      var last := steps[|steps| - 1];
      last.ReceiverTakesRatchet? || (!last.ReceiverDecrypts? && Receiving(steps[..|steps| - 1]))
  }

  lemma StepCounts(s: State, peer: Key32, step: Step)
    requires Locking(s) && Enabled(s, peer, step) && (step.ReceiverDecrypts? ==> InStep(s.ratchet, peer, Bob))
    ensures Next(s, step).ratchet.sendNumber == s.ratchet.sendNumber + if step.EncryptNow? && step.ok then 1 else 0
    ensures Next(s, step).ratchetLock.ReceiveLoop?
            <==> step.ReceiverTakesRatchet? || (!step.ReceiverDecrypts? && s.ratchetLock.ReceiveLoop?)
    ensures Next(s, step).closed <==> s.closed || step.WriterCloses?
  {
    match step
    case ReceiverDecrypts(m, drawn) => InStepDecrypts(s.ratchet, m, peer, Bob, drawn);
    case _ =>
  }

  /** A number is used by every encryption that succeeds and by nothing else; the
      receive loop holds the ratchet from taking it to decrypting; the channel is
      closed once the writer has closed it. */
  lemma {:induction false} CountedBySteps(ours: Key32, peer: Key32, trace: seq<State>, steps: seq<Step>, i: nat)
    requires Run(ours, peer, trace, steps) && i < |trace|
    ensures trace[i].ratchet.sendNumber == Encryptions(steps[..i])
    ensures trace[i].ratchetLock.ReceiveLoop? <==> Receiving(steps[..i])
    ensures trace[i].closed <==> WriterCloses in steps[..i]
  {
    if i > 0 {
      CountedBySteps(ours, peer, trace, steps, i - 1);
      RunKeepsInv(ours, peer, trace, steps, i - 1);
      StepCounts(trace[i - 1], peer, steps[i - 1]);
      assert steps[..i] == steps[..i - 1] + [steps[i - 1]];
      assert steps[..i][..i - 1] == steps[..i - 1];
    }
  }

  // ---- the receive loop ----

  /** The messages the receive loop has decrypted, in order. */
  function Received(steps: seq<Step>): seq<Message>
  {
    if steps == [] then []
    else
      var last := steps[|steps| - 1];
      Received(steps[..|steps| - 1]) + if last.ReceiverDecrypts? then [last.m] else []
  }

  /** A party that has sent as `p` has and received as `alone` has. */
  function SentAs(alone: Party, p: Party): Party { alone.(sendKey := p.sendKey, sendNumber := p.sendNumber) }

  lemma StepReceives(s: State, peer: Key32, step: Step, alone: Party, drawn: Key32)
    requires Enabled(s, peer, step) && InStep(alone, peer, Bob) && s.ratchet == SentAs(alone, s.ratchet)
    ensures var later := if step.ReceiverDecrypts? then Decrypt(alone, step.m, drawn).0 else alone;
      Next(s, step).ratchet == SentAs(later, Next(s, step).ratchet) && InStep(later, peer, Bob)
    ensures step.ReceiverDecrypts? ==> Decrypt(s.ratchet, step.m, step.drawn).1 == Decrypt(alone, step.m, drawn).1
  {
    match step
    case ReceiverDecrypts(m, d) =>
      SendingApart(alone, s.ratchet.sendKey, s.ratchet.sendNumber, m, peer, Bob, d, drawn);
      InStepDecrypts(alone, m, peer, Bob, drawn);
    case _ =>
  }

  lemma {:induction false} ReceivesAlong(ours: Key32, peer: Key32, trace: seq<State>, steps: seq<Step>, i: nat, drawn: nat -> Key32)
    requires Run(ours, peer, trace, steps) && i < |trace|
    ensures var alone := DecryptAll(Start(ours, Alice), Received(steps[..i]), drawn).0;
      trace[i].ratchet == SentAs(alone, trace[i].ratchet) && InStep(alone, peer, Bob)
  {
    if i > 0 {
      ReceivesAlong(ours, peer, trace, steps, i - 1, drawn);
      assert steps[..i][..i - 1] == steps[..i - 1];
      ReceivedStep(ours, peer, trace[i - 1], steps[i - 1], Received(steps[..i - 1]), Received(steps[..i]), drawn);
    }
  }

  /** However sends and receives interleave on the one ratchet, the receive loop
      gets what a party that never sends would get, message by message. */
  lemma ReceivesAsIfAlone(ours: Key32, peer: Key32, trace: seq<State>, steps: seq<Step>, i: nat, drawn: nat -> Key32)
    requires Run(ours, peer, trace, steps) && i < |steps| && steps[i].ReceiverDecrypts?
    ensures var results := DecryptAll(Start(ours, Alice), Received(steps[..i + 1]), drawn).1;
      results != [] && results[|results| - 1] == Decrypt(trace[i].ratchet, steps[i].m, steps[i].drawn).1
  {
    ReceivesAlong(ours, peer, trace, steps, i, drawn);
    assert steps[..i + 1][..i] == steps[..i];
    ReceivedStep(ours, peer, trace[i], steps[i], Received(steps[..i]), Received(steps[..i + 1]), drawn);
  }

  lemma ReceivedStep(ours: Key32, peer: Key32, s: State, step: Step, before: seq<Message>, after: seq<Message>, drawn: nat -> Key32)
    requires Enabled(s, peer, step) && after == before + if step.ReceiverDecrypts? then [step.m] else []
    requires var alone := DecryptAll(Start(ours, Alice), before, drawn).0;
      s.ratchet == SentAs(alone, s.ratchet) && InStep(alone, peer, Bob)
    ensures var later := DecryptAll(Start(ours, Alice), after, drawn).0;
      Next(s, step).ratchet == SentAs(later, Next(s, step).ratchet) && InStep(later, peer, Bob)
    ensures step.ReceiverDecrypts? ==>
      var results := DecryptAll(Start(ours, Alice), after, drawn).1;
      results != [] && results[|results| - 1] == Decrypt(s.ratchet, step.m, step.drawn).1
  {
    var alone := DecryptAll(Start(ours, Alice), before, drawn).0;
    StepReceives(s, peer, step, alone, drawn(|before|));
    if step.ReceiverDecrypts? { assert after[..|before|] == before; } else { assert after == before; }
  }
}
