/** One direction of one flow, end to end: the send loop, the wire, the
    receiver's dispatch channel, its consumer, and the grants that return. */
module FlowSystem {
  import opened Common
  import opened SendLoop

  /** Frames the dispatch channel holds. */
  const DISPATCH_CAP := 256

  /** Chunks the channel in front of the send loop holds. */
  const SEND_CAP := 256

  /** The task that drains the dispatch channel: it takes a payload, writes it
      to the local socket, then grants its length back. The same task feeds the
      other direction, and takes nothing while it is busy waiting for room
      there. */
  datatype Consumer = Idle | Writing(data: seq<byte>) | Granting(n: nat) | Busy(waiting: seq<byte>) | Gone

  /** Credit lost for good, by cause. */
  datatype Losses = Losses(sendFailed: nat, unknownFlow: nat, dispatchFull: nat,
                           writeFailed: nat, abandoned: nat, updateFailed: nat, grantUnknown: nat)
  {
    function Data(): nat { sendFailed + unknownFlow + dispatchFull + writeFailed + abandoned }
    function Total(): nat { Data() + updateFailed + grantUnknown }
  }

  /** `offered` is every byte handed to the send loop's channel and `unsent` what
      the loop has not framed yet; its first element has left the channel, or is
      the carried tail, if `loaded`. */
  datatype Flow = Flow(offered: seq<byte>, unsent: seq<seq<byte>>, loaded: bool, sending: bool, credits: nat,
                       inflight: seq<seq<byte>>, registered: bool, queue: seq<seq<byte>>,
                       consumer: Consumer, written: seq<byte>,
                       grants: seq<nat>, senderKnows: bool, lost: Losses)

  function Start(): Flow
  {
    Flow([], [], false, true, INITIAL_FLOW_WINDOW, [], true, [], Idle, [], [], true, Losses(0, 0, 0, 0, 0, 0, 0))
  }

  datatype Step =
    | Offer(chunk: seq<byte>)
    | Load           // the loop takes the next chunk off its channel
    | SkipEmpty
    | SendFrame
    | SendFails      // encode, pad or send error: the loop ends
    | GateCloses     // the loop ends parked: closed or stalled, perhaps as a grant lands
    | Arrive         // the receive loop dispatches the oldest frame
    | Blocks(held: seq<byte>)  // the consumer's task waits for room in the other direction
    | Unblocks
    | Take
    | Write
    | WriteFails     // the consumer ends; its channel is dropped
    | Quits          // it ends between two payloads: local end of file, a read error, a closed channel
    | Grant
    | GrantFails
    | GrantArrives
    | SenderForgets  // the sender removes the flow's state
    | ReceiverForgets

  /** The channel in front of the send loop takes another chunk. */
  predicate Room(s: Flow) { |s.unsent| - (if s.loaded then 1 else 0) < SEND_CAP }

  /** The loop has a chunk in hand to send from. */
  predicate HasData(s: Flow) { s.sending && s.loaded && s.unsent != [] && s.unsent[0] != [] }

  ghost predicate Enabled(s: Flow, step: Step)
  {
    match step
    case Offer(_) => s.sending && Room(s)
    case Load => s.sending && !s.loaded && s.unsent != []
    case SkipEmpty => s.sending && s.loaded && s.unsent != [] && s.unsent[0] == []
    case SendFrame => HasData(s) && s.credits > 0 && FrameSize(s) <= MAX_SENDABLE
    case SendFails => HasData(s) && s.credits > 0
    case GateCloses => HasData(s)
    case Arrive => s.inflight != []
    case Blocks(_) => s.consumer.Idle?
    case Unblocks => s.consumer.Busy?
    case Take => s.consumer.Idle? && s.queue != []
    case Write => s.consumer.Writing?
    case WriteFails => s.consumer.Writing?
    case Quits => s.consumer.Idle? || s.consumer.Busy?
    case Grant => s.consumer.Granting?
    case GrantFails => s.consumer.Granting?
    case GrantArrives => s.grants != []
    case SenderForgets => true
    case ReceiverForgets => true
  }

  /** Bytes of the next frame: the head chunk, cut to the credit. */
  function FrameSize(s: Flow): nat
    requires s.unsent != []
  {
    Min(s.credits, |s.unsent[0]|)
  }

  ghost function Next(s: Flow, step: Step): Flow
    requires Enabled(s, step)
  {
    match step
    case Offer(chunk) => s.(offered := s.offered + chunk, unsent := s.unsent + [chunk])
    case Load => s.(loaded := true)
    case SkipEmpty => s.(unsent := s.unsent[1..], loaded := false)
    case SendFrame =>
      var n := FrameSize(s);
      var rest := if n == |s.unsent[0]| then s.unsent[1..] else [s.unsent[0][n..]] + s.unsent[1..];
      s.(credits := s.credits - n, unsent := rest, loaded := n < |s.unsent[0]|, inflight := s.inflight + [s.unsent[0][..n]])
    case SendFails =>
      s.(credits := s.credits - FrameSize(s), sending := false,
         lost := s.lost.(sendFailed := s.lost.sendFailed + FrameSize(s)))
    case GateCloses => s.(sending := false)
    case Arrive =>
      var d, t := s.inflight[0], s.(inflight := s.inflight[1..]);
      if !s.registered then t.(lost := s.lost.(unknownFlow := s.lost.unknownFlow + |d|))
      else if s.consumer.Gone? then
        t.(registered := false, lost := s.lost.(abandoned := s.lost.abandoned + |d|))
      else if |s.queue| >= DISPATCH_CAP then t.(lost := s.lost.(dispatchFull := s.lost.dispatchFull + |d|))
      else t.(queue := s.queue + [d])
    case Blocks(held) => s.(consumer := Busy(held))
    case Unblocks => s.(consumer := Idle)
    case Take => s.(consumer := Writing(s.queue[0]), queue := s.queue[1..])
    case Write => s.(written := s.written + s.consumer.data, consumer := Granting(|s.consumer.data|))
    case WriteFails =>
      s.(consumer := Gone, queue := [],
         lost := s.lost.(writeFailed := s.lost.writeFailed + |s.consumer.data|,
                         abandoned := s.lost.abandoned + |Flatten(s.queue)|))
    case Quits =>
      s.(consumer := Gone, queue := [], lost := s.lost.(abandoned := s.lost.abandoned + |Flatten(s.queue)|))
    case Grant => s.(grants := s.grants + [s.consumer.n], consumer := Idle)
    case GrantFails =>
      s.(consumer := Idle, lost := s.lost.(updateFailed := s.lost.updateFailed + s.consumer.n))
    case GrantArrives =>
      var t := s.(grants := s.grants[1..]);
      if s.senderKnows then t.(credits := Min(s.credits + s.grants[0], U64_MAX))
      else t.(lost := s.lost.(grantUnknown := s.lost.grantUnknown + s.grants[0]))
    case SenderForgets => s.(senderKnows := false)
    case ReceiverForgets => s.(registered := false)
  }

  // ---- conservation ----

  function Sum(ns: seq<nat>): nat
  {
    if ns == [] then 0 else Sum(ns[..|ns| - 1]) + ns[|ns| - 1]
  }

  lemma {:induction false} SumHead(ns: seq<nat>)
    requires ns != []
    ensures Sum(ns) == ns[0] + Sum(ns[1..])
  {
    if |ns| > 1 {
      SumHead(ns[..|ns| - 1]);
      assert ns[1..][..|ns| - 2] == ns[..|ns| - 1][1..];
    }
  }

  function InConsumer(c: Consumer): nat
  {
    match c case Writing(d) => |d| case Granting(n) => n case _ => 0
  }

  function Total(s: Flow): nat
  {
    s.credits + |Flatten(s.inflight)| + |Flatten(s.queue)| + InConsumer(s.consumer)
      + Sum(s.grants) + s.lost.Total()
  }

  lemma SendConserves(s: Flow)
    requires Enabled(s, SendFrame)
    ensures Total(Next(s, SendFrame)) == Total(s)
  {
    FlattenSnoc(s.inflight, s.unsent[0][..FrameSize(s)]);
  }

  /** The oldest frame in flight is queued, or lost. */
  lemma ArriveMoves(s: Flow, t: Flow, d: seq<byte>)
    requires s.inflight != [] && d == s.inflight[0] && t.inflight == s.inflight[1..]
    requires t.credits == s.credits && t.consumer == s.consumer && t.grants == s.grants
    requires (t.queue == s.queue + [d] && t.lost == s.lost)
          || (t.queue == s.queue && t.lost.Total() == s.lost.Total() + |d|)
    ensures Total(t) == Total(s)
  {
    FlattenHead(s.inflight);
    FlattenSnoc(s.queue, d);
  }

  lemma ArriveConserves(s: Flow)
    requires Enabled(s, Arrive)
    ensures Total(Next(s, Arrive)) == Total(s)
  {
    ArriveMoves(s, Next(s, Arrive), s.inflight[0]);
  }

  lemma ConsumerConserves(s: Flow, step: Step)
    requires Enabled(s, step) && (step.Take? || step.Write? || step.WriteFails? || step.Quits? || step.Grant? || step.GrantFails?)
    ensures Total(Next(s, step)) == Total(s)
  {
    match step
    case Take => FlattenHead(s.queue);
    case WriteFails => assert Flatten<byte>([]) == [];
    case Quits => assert Flatten<byte>([]) == [];
    case Grant => assert (s.grants + [s.consumer.n])[..|s.grants|] == s.grants;
    case _ =>
  }

  /** The saturating add never clips, because the whole window is accounted for. */
  lemma GrantConserves(s: Flow)
    requires Enabled(s, GrantArrives) && Total(s) == INITIAL_FLOW_WINDOW
    ensures Total(Next(s, GrantArrives)) == Total(s)
    ensures s.senderKnows ==> Next(s, GrantArrives).credits == s.credits + s.grants[0]
  {
    SumHead(s.grants);
  }

  lemma StepConserves(s: Flow, step: Step)
    requires Enabled(s, step) && Total(s) == INITIAL_FLOW_WINDOW
    ensures Total(Next(s, step)) == INITIAL_FLOW_WINDOW
  {
    match step
    case SendFrame => SendConserves(s);
    case Arrive => ArriveConserves(s);
    case GrantArrives => GrantConserves(s);
    case Take => ConsumerConserves(s, step);
    case Write => ConsumerConserves(s, step);
    case WriteFails => ConsumerConserves(s, step);
    case Quits => ConsumerConserves(s, step);
    case Grant => ConsumerConserves(s, step);
    case GrantFails => ConsumerConserves(s, step);
    case _ =>
  }

  ghost predicate Run(trace: seq<Flow>, steps: seq<Step>)
  {
    && |trace| == |steps| + 1 && trace[0] == Start()
    && forall i :: 0 <= i < |steps| ==> Enabled(trace[i], steps[i]) && trace[i + 1] == Next(trace[i], steps[i])
  }

  /** In every state of every run, credits held, payload in flight, payload
      queued or being written, bytes written and not yet granted, grants in
      flight and named losses add up to the initial window. Hence the receiver
      never holds more than one window of unconsumed data. */
  lemma {:induction false} CreditIsConserved(trace: seq<Flow>, steps: seq<Step>, i: nat)
    requires Run(trace, steps) && i < |trace|
    ensures Total(trace[i]) == INITIAL_FLOW_WINDOW
    ensures |Flatten(trace[i].queue)| + InConsumer(trace[i].consumer) <= INITIAL_FLOW_WINDOW
  {
    if i > 0 {
      CreditIsConserved(trace, steps, i - 1);
      StepConserves(trace[i - 1], steps[i - 1]);
    }
  }

  // ---- the byte stream ----

  function BeingWritten(c: Consumer): seq<byte> { if c.Writing? then c.data else [] }

  function Cat5(w: seq<byte>, b: seq<byte>, q: seq<byte>, i: seq<byte>, u: seq<byte>): seq<byte>
  {
    w + b + q + i + u
  }

  /** Moving `d` across a boundary, from any stage to the one before it. */
  lemma Cat5Moves(w: seq<byte>, b: seq<byte>, q: seq<byte>, i: seq<byte>, u: seq<byte>, d: seq<byte>)
    ensures Cat5(w + d, [], q, i, u) == Cat5(w, d, q, i, u)
    ensures Cat5(w, d, q, i, u) == Cat5(w, [], d + q, i, u)
    ensures Cat5(w, b, q + d, i, u) == Cat5(w, b, q, d + i, u)
    ensures Cat5(w, b, q, i + d, u) == Cat5(w, b, q, i, d + u)
    ensures Cat5(w, b, q, i, u + d) == Cat5(w, b, q, i, u) + d
  {
  }

  /** Everything offered, read from the receiver's socket back to the sender. */
  function Stream(s: Flow): seq<byte>
  {
    Cat5(s.written, BeingWritten(s.consumer), Flatten(s.queue), Flatten(s.inflight), Flatten(s.unsent))
  }

  ghost predicate NoDataLost(s: Flow) { s.lost.Data() == 0 && !s.consumer.Gone? }

  lemma SendKeepsStream(s: Flow)
    requires Enabled(s, SendFrame)
    ensures Stream(Next(s, SendFrame)) == Stream(s)
  {
    var n, head := FrameSize(s), s.unsent[0];
    var t := Next(s, SendFrame);
    FlattenSnoc(s.inflight, head[..n]);
    SplitHead(s.unsent, n);
    Cat5Moves(s.written, BeingWritten(s.consumer), Flatten(s.queue), Flatten(s.inflight), Flatten(t.unsent), head[..n]);
  }

  /** Cutting `n` bytes off the head chunk. */
  lemma SplitHead(chunks: seq<seq<byte>>, n: nat)
    requires chunks != [] && n <= |chunks[0]|
    ensures var rest := if n == |chunks[0]| then chunks[1..] else [chunks[0][n..]] + chunks[1..];
      Flatten(chunks) == chunks[0][..n] + Flatten(rest)
  {
    FlattenHead(chunks);
    if n < |chunks[0]| {
      var rest := [chunks[0][n..]] + chunks[1..];
      FlattenHead(rest);
      assert rest[1..] == chunks[1..];
    }
  }

  lemma ArriveKeepsStream(s: Flow)
    requires Enabled(s, Arrive) && NoDataLost(Next(s, Arrive)) && NoDataLost(s)
    ensures Stream(Next(s, Arrive)) == Stream(s)
  {
    var d := s.inflight[0];
    var i := Flatten(s.inflight[1..]);
    FlattenHead(s.inflight);
    FlattenSnoc(s.queue, d);
    Cat5Moves(s.written, BeingWritten(s.consumer), Flatten(s.queue), i, Flatten(s.unsent), d);
    if Next(s, Arrive).queue == s.queue { assert d == [] && d + i == i; }
  }

  lemma ConsumeKeepsStream(s: Flow, step: Step)
    requires Enabled(s, step) && (step.Take? || step.Write?)
    ensures Stream(Next(s, step)) == Stream(s)
  {
    var i, u := Flatten(s.inflight), Flatten(s.unsent);
    if step.Take? {
      FlattenHead(s.queue);
      Cat5Moves(s.written, [], Flatten(s.queue[1..]), i, u, s.queue[0]);
    } else {
      Cat5Moves(s.written, [], Flatten(s.queue), i, u, s.consumer.data);
    }
  }

  lemma StepKeepsStream(s: Flow, step: Step)
    requires Enabled(s, step) && Stream(s) == s.offered && NoDataLost(s) && NoDataLost(Next(s, step))
    ensures Stream(Next(s, step)) == Next(s, step).offered
  {
    match step
    case Offer(chunk) =>
      FlattenSnoc(s.unsent, chunk);
      Cat5Moves(s.written, BeingWritten(s.consumer), Flatten(s.queue), Flatten(s.inflight), Flatten(s.unsent), chunk);
    case SkipEmpty => FlattenHead(s.unsent);
    case SendFrame => SendKeepsStream(s);
    case Arrive => ArriveKeepsStream(s);
    case Take => ConsumeKeepsStream(s, step);
    case Write => ConsumeKeepsStream(s, step);
    case _ =>
  }

  lemma NoLossBefore(s: Flow, step: Step)
    requires Enabled(s, step) && NoDataLost(Next(s, step))
    ensures NoDataLost(s)
  {
  }

  ghost predicate Intact(s: Flow) { NoDataLost(s) ==> Stream(s) == s.offered }

  lemma EmptyIsIntact(s: Flow)
    requires s.written == [] && s.consumer.Idle? && s.queue == [] && s.inflight == [] && s.unsent == [] && s.offered == []
    ensures Intact(s)
  {
    assert |Stream(s)| == 0;
  }

  lemma StepKeepsIntact(s: Flow, step: Step)
    requires Enabled(s, step) && Intact(s)
    ensures Intact(Next(s, step))
  {
    if NoDataLost(Next(s, step)) {
      NoLossBefore(s, step);
      StepKeepsStream(s, step);
    }
  }

  /** In every run the stages hold, in order, exactly the bytes offered, as long
      as none was lost. */
  lemma {:induction false} StreamIsKept(trace: seq<Flow>, steps: seq<Step>, i: nat)
    requires Run(trace, steps) && i < |trace|
    ensures Intact(trace[i])
  {
    if i == 0 {
      EmptyIsIntact(trace[0]);
    } else {
      StreamIsKept(trace, steps, i - 1);
      StepKeepsIntact(trace[i - 1], steps[i - 1]);
    }
  }

  /** While no data was lost, what reached the receiver's socket is a prefix of
      what was offered: nothing reordered, repeated or invented. */
  lemma WrittenIsPrefix(trace: seq<Flow>, steps: seq<Step>, i: nat)
    requires Run(trace, steps) && i < |trace| && NoDataLost(trace[i])
    ensures trace[i].written <= trace[i].offered
  {
    StreamIsKept(trace, steps, i);
  }
}
