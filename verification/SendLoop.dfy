/** The per-flow send loop: chunks in, credit-limited frames out. */
module SendLoop {
  import opened Common

  /** Bytes of credit each direction of a flow starts with. */
  const INITIAL_FLOW_WINDOW := 256 * 1024
  const U64_MAX := 0xffff_ffff_ffff_ffff

  type u64 = n: int | 0 <= n <= U64_MAX

  /** Largest payload that a padded message can carry behind its header. */
  const MAX_SENDABLE := 16 * 1024 - 2 - 6

  /** The credit gate shared by the send loop and the grant path. */
  class FlowSendCredits {
    var credits: u64
    var closed: bool

    constructor ()
      ensures credits == INITIAL_FLOW_WINDOW && !closed
    {
      credits, closed := INITIAL_FLOW_WINDOW, false;
    }

    method TryConsume(max: nat) returns (taken: nat)
      modifies this`credits
      ensures taken == Min(max, old(credits)) && credits == old(credits) - taken
    {
      if credits == 0 { return 0; }
      taken := Min(credits, max);
      credits := credits - taken;
    }

    method Grant(n: nat)
      modifies this`credits
      ensures credits == Min(old(credits) + n, U64_MAX)
    {
      credits := Min(credits + n, U64_MAX);
    }

    method Close()
      modifies this`closed
      ensures closed
    {
      closed := true;
    }
  }

  /** What the environment does between two looks at the gate: how much credit
      arrives, whether the flow is closed, whether a send goes through; and
      whether, if the loop is parked, its stall timer fires just before. */
  datatype Event = Event(grant: nat, close: bool, sendOk: bool, expire: bool)

  datatype Outcome = ChannelClosed | FlowClosed | Stalled | SendFailed | TooLarge

  function Granted(events: seq<Event>): nat
  {
    if events == [] then 0 else Granted(events[..|events| - 1]) + events[|events| - 1].grant
  }

  /** What is still to send: the carried tail, then the untouched chunks. */
  function Unsent(pending: Option<seq<byte>>, chunks: seq<seq<byte>>): seq<byte>
  {
    (if pending.Some? then pending.value else []) + Flatten(chunks)
  }

  /** Credit held and bytes framed account for the credit received, exactly
      unless the saturating counter had to clip. */
  ghost predicate Balanced(credits: nat, sent: nat, events: seq<Event>, e: nat)
    requires e <= |events|
  {
    && credits + sent <= INITIAL_FLOW_WINDOW + Granted(events[..e])
    && (INITIAL_FLOW_WINDOW + Granted(events) <= U64_MAX ==>
          credits + sent == INITIAL_FLOW_WINDOW + Granted(events[..e]))
  }

  /** The gate is closed only if an event seen has closed it. */
  ghost predicate CloseSeen(closed: bool, events: seq<Event>, e: nat)
    requires e <= |events|
  {
    closed ==> exists k :: 0 <= k < e && events[k].close
  }

  /** The gate after the next event, if there is one. */
  method Observe(gate: FlowSendCredits, events: seq<Event>, e: nat, ghost sent: nat) returns (e': nat)
    requires e <= |events| && Balanced(gate.credits, sent, events, e) && CloseSeen(gate.closed, events, e)
    modifies gate
    ensures e' == Min(e + 1, |events|) && e' <= |events| && Balanced(gate.credits, sent, events, e')
    ensures CloseSeen(gate.closed, events, e')
    ensures gate.credits == if e < |events| then Min(old(gate.credits) + events[e].grant, U64_MAX) else old(gate.credits)
  {
    e' := e;
    if e < |events| {
      GrantedStep(events, e);
      gate.Grant(events[e].grant);
      if events[e].close { gate.Close(); }
      e' := e + 1;
    }
  }

  /** The last event fired the stall timer of a parked loop: what its grant
      left comes too late. */
  predicate LateGrant(credits: nat, events: seq<Event>, e: nat)
    requires e <= |events|
  {
    e > 0 && events[e - 1].expire && credits == Min(events[e - 1].grant, U64_MAX)
  }

  /** Park at zero credit until some arrives, the flow closes, the stall timer
      fires or the schedule, and with it the wait, ends. A grant or close that
      lands as the timer fires is seen only after the wait is over. */
  method Park(gate: FlowSendCredits, events: seq<Event>, e: nat, ghost sent: nat) returns (e': nat, quit: bool)
    requires e <= |events| && gate.credits == 0 && Balanced(0, sent, events, e) && CloseSeen(gate.closed, events, e)
    modifies gate
    ensures e <= e' <= |events| && Balanced(gate.credits, sent, events, e')
    ensures CloseSeen(gate.closed, events, e')
    ensures !quit ==> gate.credits > 0 && e < e'
    ensures quit ==> gate.credits == 0 || LateGrant(gate.credits, events, e')
    ensures quit ==> gate.closed || e' == |events| || (e' > 0 && events[e' - 1].expire)
  {
    e' := e;
    while gate.credits == 0 && !gate.closed && e' < |events|
      invariant e <= e' <= |events| && Balanced(gate.credits, sent, events, e') && CloseSeen(gate.closed, events, e')
      invariant gate.credits > 0 ==> e < e'
    {
      var expired := events[e'].expire;
      e' := Observe(gate, events, e', sent);
      if expired { return e', true; }
    }
    quit := gate.credits == 0;
  }

  /** Credit for up to `want` bytes, parking if there is none. */
  method Acquire(gate: FlowSendCredits, want: nat, events: seq<Event>, e: nat, ghost sent: nat)
    returns (e': nat, n: nat, quit: bool)
    requires e <= |events| && want > 0 && Balanced(gate.credits, sent, events, e) && CloseSeen(gate.closed, events, e)
    modifies gate
    ensures e <= e' <= |events| && n <= want && Balanced(gate.credits, sent + n, events, e')
    ensures CloseSeen(gate.closed, events, e') && (e < |events| ==> e < e')
    ensures n == 0 && !quit ==> e < e'
    ensures n > 0 ==> (n == want || gate.credits == 0) && (old(gate.credits) == 0 ==> e < e')
    ensures quit ==> n == 0 && (gate.credits == 0 || LateGrant(gate.credits, events, e'))
    ensures quit ==> gate.closed || e' == |events| || (e' > 0 && events[e' - 1].expire)
  {
    e' := Observe(gate, events, e, sent);
    n := gate.TryConsume(want);
    quit := false;
    if n == 0 { e', quit := Park(gate, events, e', sent); }
  }

  /** The carried tail if there is one, else the next chunk, else nothing. */
  method NextData(pending: Option<seq<byte>>, chunks: seq<seq<byte>>, i: nat)
    returns (data: Option<seq<byte>>, i': nat)
    requires i <= |chunks|
    ensures i <= i' <= |chunks|
    ensures data.None? ==> Unsent(pending, chunks[i..]) == []
    ensures data.Some? ==> Unsent(pending, chunks[i..]) == data.value + Flatten(chunks[i'..])
    ensures data == Some([]) && pending != Some([]) ==> i < i'
    ensures data.Some? ==> i' == i + 1 - CarriedCount(pending)
  {
    data, i' := pending, i;
    if pending.None? && i < |chunks| {
      FlattenHead(chunks[i..]);
      assert chunks[i..][1..] == chunks[i + 1..];
      data, i' := Some(chunks[i]), i + 1;
    }
  }

  function CarriedCount(pending: Option<seq<byte>>): nat { if pending.Some? then 1 else 0 }

  /** Frames made, with a tail carried or not: each has used up a chunk, or else
      all the credit, which it took an event to bring. */
  predicate Paced(frames: nat, carried: nat, i: nat, e: nat, credits: nat)
  {
    frames + carried <= i + e + if credits == 0 then 1 else 0
  }

  lemma FramePaces(frames: nat, i: nat, e: nat, was: nat, e': nat, credits: nat, whole: bool)
    requires frames + 1 <= i + e + (if was == 0 then 1 else 0) && e <= e' && (was == 0 ==> e < e')
    requires whole || credits == 0
    ensures Paced(frames + 1, if whole then 0 else 1, i, e', credits)
  {
  }

  ghost predicate Sendable(frames: seq<seq<byte>>)
  {
    forall k :: 0 <= k < |frames| ==> 1 <= |frames[k]| <= MAX_SENDABLE
  }

  /** One more frame of `n` bytes: the stream is cut at another place. */
  lemma FrameMoves(frames: seq<seq<byte>>, data: seq<byte>, n: nat, rest: seq<byte>, all: seq<byte>)
    requires Sendable(frames) && 1 <= n <= |data| && n <= MAX_SENDABLE && Flatten(frames) + (data + rest) == all
    ensures Sendable(frames + [data[..n]]) && Flatten(frames + [data[..n]]) == Flatten(frames) + data[..n]
    ensures Flatten(frames + [data[..n]]) + (data[n..] + rest) == all
  {
    FlattenSnoc(frames, data[..n]);
    Cut(Flatten(frames), data, n, rest);
  }

  lemma Cut(sent: seq<byte>, data: seq<byte>, n: nat, rest: seq<byte>)
    requires n <= |data|
    ensures sent + (data + rest) == (sent + data[..n]) + (data[n..] + rest)
  {
  }

  /** Why the loop ended, other than by running out of data: the flow was closed
      or the wait for credit ended, with no credit unless a grant came too late;
      or a frame could not be sent, and its credit is spoilt. */
  ghost predicate Ended(how: Outcome, credits: nat, spoilt: nat, events: seq<Event>, e: nat)
    requires e <= |events|
  {
    && (how == Stalled || how == FlowClosed ==> spoilt == 0 && (credits == 0 || LateGrant(credits, events, e)))
    && (how == FlowClosed ==> exists k :: 0 <= k < e && events[k].close)
    && (how == Stalled ==> e == |events| || (e > 0 && events[e - 1].expire))
    && (how == TooLarge ==> spoilt > MAX_SENDABLE)
    && (how == SendFailed ==> spoilt > 0 && exists k :: 0 <= k < e && !events[k].sendOk)
  }

  /** One try at sending from `data`: how much went out, or, once the loop must
      end, how much credit went with the frame that failed. */
  method SendSome(gate: FlowSendCredits, data: seq<byte>, events: seq<Event>, e: nat, ghost sent: nat)
    returns (e': nat, n: nat, ended: Option<Outcome>)
    requires e <= |events| && data != [] && Balanced(gate.credits, sent, events, e) && CloseSeen(gate.closed, events, e)
    modifies gate
    ensures e <= e' <= |events| && n <= |data| && Balanced(gate.credits, sent + n, events, e')
    ensures CloseSeen(gate.closed, events, e')
    ensures ended.None? && n == 0 ==> e < e'
    ensures ended.None? && n > 0 ==>
      n <= MAX_SENDABLE && (n == |data| || gate.credits == 0) && (old(gate.credits) == 0 ==> e < e')
    ensures ended.Some? ==> ended.value != ChannelClosed && Ended(ended.value, gate.credits, n, events, e')
  {
    var sendOk := e < |events| ==> events[e].sendOk;
    var quit;
    e', n, quit := Acquire(gate, |data|, events, e, sent);
    ended := if quit then Some(if gate.closed then FlowClosed else Stalled)
             else if n > MAX_SENDABLE then Some(TooLarge)
             else if n > 0 && !sendOk then Some(SendFailed)
             else None;
  }

  /** The loop itself. `rest` is what it leaves unsent. */
  method FlowLoop(chunks: seq<seq<byte>>, events: seq<Event>)
    returns (frames: seq<seq<byte>>, outcome: Outcome, left: nat, spoilt: nat, used: nat, ghost rest: seq<byte>)
    ensures used <= |events| && Sendable(frames) && |frames| <= |chunks| + used + 1
    ensures Flatten(frames) + rest == Flatten(chunks)
    ensures Balanced(left, |Flatten(frames)| + spoilt, events, used)
    ensures if outcome == ChannelClosed then rest == [] && spoilt == 0 else rest != [] && Ended(outcome, left, spoilt, events, used)
  {
    var gate := new FlowSendCredits();
    frames, spoilt, used := [], 0, 0;
    var pending: Option<seq<byte>> := None;
    var i: nat, e: nat := 0, 0;
    assert chunks[0..] == chunks && events[..0] == [];
    ghost var sent := [];
    while true
      invariant i <= |chunks| && e <= |events| && spoilt == 0
      invariant sent == Flatten(frames) && sent + Unsent(pending, chunks[i..]) == Flatten(chunks)
      invariant Sendable(frames)
      invariant Balanced(gate.credits, |sent|, events, e) && CloseSeen(gate.closed, events, e)
      invariant pending != Some([])
      invariant Paced(|frames|, CarriedCount(pending), i, e, gate.credits)
      decreases |events| - e + |Unsent(pending, chunks[i..])| + |chunks| - i
    {
      var next, i' := NextData(pending, chunks, i);
      if next.None? {
        left, outcome, used, rest := gate.credits, ChannelClosed, e, [];
        return;
      }
      var data := next.value;
      i, pending := i', None;
      if data == [] { continue; }
      var n, ended;
      ghost var e0, credits0 := e, gate.credits;
      e, n, ended := SendSome(gate, data, events, e, |sent|);
      if ended.Some? {
        left, outcome, spoilt, used, rest := gate.credits, ended.value, n, e, data + Flatten(chunks[i..]);
        return;
      }
      if n == 0 {
        pending := Some(data);
        continue;
      }
      FrameMoves(frames, data, n, Flatten(chunks[i..]), Flatten(chunks));
      FramePaces(|frames|, i, e0, credits0, e, gate.credits, n == |data|);
      sent := sent + data[..n];
      frames := frames + [data[..n]];
      if n < |data| { pending := Some(data[n..]); }
    }
  }

  /** `flow_to_ws_loop` on the chunks its channel delivers before it closes,
      against any schedule of grants, closes and send results. */
  method FlowToWs(chunks: seq<seq<byte>>, events: seq<Event>)
    returns (frames: seq<seq<byte>>, outcome: Outcome, left: nat, spoilt: nat, used: nat)
    // The frames carry a prefix of the input, and all of it on a clean close.
    ensures Flatten(frames) <= Flatten(chunks)
    ensures outcome == ChannelClosed ==> Flatten(frames) == Flatten(chunks)
    // No frame is empty, and none is larger than a message can carry.
    ensures Sendable(frames)
    // Each frame is as large as it can be: it ends its chunk or takes all the
    // credit there is, so there are no more frames than chunks and grants seen,
    // and one.
    ensures |frames| <= |chunks| + used + 1
    // Credit left, bytes framed and bytes spoilt by a failure never exceed the
    // credit received in the events seen; something is spoilt exactly when a
    // send failed.
    ensures used <= |events| && left + |Flatten(frames)| + spoilt <= INITIAL_FLOW_WINDOW + Granted(events[..used])
    ensures spoilt > 0 <==> outcome == SendFailed || outcome == TooLarge
    // The loop gives up only with data left and no credit to send it, or with
    // a grant that landed as its stall timer fired; and it stalls only once
    // every byte granted before has been used.
    ensures outcome == Stalled || outcome == FlowClosed ==>
      |Flatten(frames)| < |Flatten(chunks)| && (left == 0 || LateGrant(left, events, used))
    ensures outcome == Stalled ==> used == |events| || (used > 0 && events[used - 1].expire)
    // It ends early only because an event closed the flow, failed the send, or
    // a frame came out larger than a message can carry.
    ensures outcome == FlowClosed ==> exists k :: 0 <= k < used && events[k].close
    ensures outcome == SendFailed ==> exists k :: 0 <= k < used && !events[k].sendOk
    ensures outcome == TooLarge ==> spoilt > MAX_SENDABLE
    ensures outcome == Stalled && INITIAL_FLOW_WINDOW + Granted(events) <= U64_MAX ==>
      |Flatten(frames)| + left == INITIAL_FLOW_WINDOW + Granted(events[..used])
  {
    ghost var rest;
    frames, outcome, left, spoilt, used, rest := FlowLoop(chunks, events);
  }

  lemma GrantedStep(events: seq<Event>, e: nat)
    requires e <= |events|
    ensures e < |events| ==> Granted(events[..e + 1]) == Granted(events[..e]) + events[e].grant
    ensures Granted(events[..e]) <= Granted(events)
    ensures e < |events| ==> Granted(events[..e + 1]) <= Granted(events)
  {
    GrantedMonotone(events, e);
    if e < |events| {
      assert events[..e + 1][..e] == events[..e];
      GrantedMonotone(events, e + 1);
    }
  }

  lemma {:induction false} GrantedMonotone(events: seq<Event>, e: nat)
    requires e <= |events|
    ensures Granted(events[..e]) <= Granted(events)
    decreases |events| - e
  {
    if e == |events| {
      assert events[..e] == events;
    } else {
      GrantedMonotone(events, e + 1);
      assert events[..e + 1][..e] == events[..e];
    }
  }
}
