/** Coalescing of uplink packets into one message per batch. */
module UplinkBatch {
  import opened Common
  import opened Framing

  const MAX_FRAMES := 16
  const MAX_BYTES := 14 * 1024

  type Packet = seq<byte>

  /** What one wait on the packet channel can bring. A `Deadline` counts only
      while a batch is being collected; no timer runs before its first packet. */
  datatype Rx = Got(packet: Packet) | Deadline | Closed | Shutdown

  /** Why a batch stopped growing. */
  datatype Why = Full | Overflow | TimedOut | ChannelClosed | ShutDown

  datatype End = Finished | Stopped | SendFailed

  function AsSeq<T>(o: Option<T>): seq<T> { if o.Some? then [o.value] else [] }

  /** The packets among events `a` up to `b`, in order. */
  function Packets(rx: seq<Rx>, a: nat, b: nat): seq<Packet>
    requires b <= |rx|
    decreases b
  {
    if b <= a then []
    else Packets(rx, a, b - 1) + if rx[b - 1].Got? then [rx[b - 1].packet] else []
  }

  function Bytes(batch: seq<Packet>): nat { |Flatten(batch)| }

  /** One to sixteen packets; more than one only within the byte limit. */
  predicate GoodBatch(batch: seq<Packet>)
  {
    1 <= |batch| <= MAX_FRAMES && (|batch| > 1 ==> Bytes(batch) + 6 <= MAX_BYTES)
  }

  lemma {:induction false} PacketsSplit(rx: seq<Rx>, m: nat, n: nat)
    requires m <= n <= |rx|
    ensures Packets(rx, 0, n) == Packets(rx, 0, m) + Packets(rx, m, n)
    decreases n
  {
    if m < n { PacketsSplit(rx, m, n - 1); }
  }

  /** Every packet that arrived in between is there once, where it arrived. */
  lemma {:induction false} PacketsAt(rx: seq<Rx>, a: nat, k: nat, b: nat)
    requires a <= k < b <= |rx|
    ensures Packets(rx, a, b) == Packets(rx, a, k) + (if rx[k].Got? then [rx[k].packet] else []) + Packets(rx, k + 1, b)
    decreases b
  {
    if k + 1 < b { PacketsAt(rx, a, k, b - 1); }
  }

  // ---- one message ----

  /** A batch as data frames of flow 1. */
  function Frames(batch: seq<Packet>): seq<Frame>
  {
    seq(|batch|, i requires 0 <= i < |batch| => Frame(1, batch[i]))
  }

  /** Six bytes of header a packet; only a payload above 65535 cannot be encoded. */
  lemma {:induction false} EncodedSize(batch: seq<Packet>)
    ensures EncodeAll(Frames(batch)).Some? <==> forall p :: p in batch ==> |p| <= MAX_PAYLOAD
    ensures EncodeAll(Frames(batch)).Some? ==> |EncodeAll(Frames(batch)).value| == Bytes(batch) + 6 * |batch|
  {
    if batch != [] {
      EncodedSize(batch[1..]);
      FlattenHead(batch);
      assert Frames(batch)[1..] == Frames(batch[1..]);
      assert batch == [batch[0]] + batch[1..];
    }
  }

  lemma {:induction false} MemberFits(batch: seq<Packet>, p: Packet)
    requires p in batch
    ensures |p| <= Bytes(batch)
  {
    if p != batch[|batch| - 1] {
      assert batch == batch[..|batch| - 1] + [batch[|batch| - 1]];
      MemberFits(batch[..|batch| - 1], p);
    }
  }

  /** A batch the loop builds is always sendable, except a lone packet that is
      too large to pad. */
  lemma BatchFits(batch: seq<Packet>)
    requires GoodBatch(batch)
    ensures (EncodeAll(Frames(batch)).Some? && |EncodeAll(Frames(batch)).value| <= MAX_PADDED - 2) <==>
            (|batch| > 1 || |batch[0]| <= MAX_PADDED - 8)
  {
    EncodedSize(batch);
    forall p | p in batch ensures |p| <= Bytes(batch) { MemberFits(batch, p); }
    if |batch| == 1 { assert batch == [] + [batch[0]]; FlattenSnoc([], batch[0]); }
  }

  /** Packets of at most 14330 bytes make at most 14426 bytes of frames. */
  lemma EncodedBound(batch: seq<Packet>)
    requires GoodBatch(batch) && forall p :: p in batch ==> |p| <= MAX_BYTES - 6
    ensures EncodeAll(Frames(batch)).Some? && |EncodeAll(Frames(batch)).value| <= 14426
  {
    EncodedSize(batch);
    if |batch| == 1 { assert batch == [] + [batch[0]]; FlattenSnoc([], batch[0]); }
  }

  method EncodeBatch(batch: seq<Packet>) returns (plaintext: Option<seq<byte>>)
    ensures plaintext == EncodeAll(Frames(batch))
  {
    EncodedSize(batch);
    var bytes: seq<byte> := [];
    ghost var fs := Frames(batch);
    for i := 0 to |batch|
      invariant EncodeAll(fs[..i]) == Some(bytes)
    {
      var frame := Encode(Frame(1, batch[i]));
      EncodeSnoc(fs[..i], fs[i]);
      assert fs[..i + 1] == fs[..i] + [fs[i]];
      if frame.None? {
        assert batch[i] in batch;
        return None;
      }
      bytes := bytes + frame.value;
    }
    assert fs[..|batch|] == fs;
    plaintext := Some(bytes);
  }

  /** The padded plaintext of one batch: whatever the filler, the peer reads
      back exactly the batch. */
  method BuildMessage(batch: seq<Packet>, noise: nat -> byte) returns (r: Option<seq<byte>>)
    ensures batch == [] ==> r.None?
    ensures r.Some? ==> Receive(r.value) == Some(Frames(batch)) && |r.value| <= MAX_PADDED
    ensures GoodBatch(batch) ==> (r.Some? <==> |batch| > 1 || |batch[0]| <= MAX_PADDED - 8)
  {
    if batch == [] { return None; }
    if GoodBatch(batch) { BatchFits(batch); }
    var plaintext := EncodeBatch(batch);
    if plaintext.None? { return None; }
    r := Pad(plaintext.value, noise);
    PadRoundTrip(plaintext.value, noise);
    if r.Some? { ReceivedIsSent(Frames(batch), noise); }
  }

  // ---- the loop ----

  /** Grow a batch from its first packet. It stops only for one of five causes,
      and then holds every packet that came since, save one that did not fit. */
  method Collect(rx: seq<Rx>, start: nat, first: Packet)
    returns (batch: seq<Packet>, carry: Option<Packet>, next: nat, why: Why)
    requires start <= |rx|
    ensures start <= next <= |rx| && GoodBatch(batch)
    ensures batch + AsSeq(carry) == [first] + Packets(rx, start, next)
    ensures carry.Some? <==> why == Overflow
    ensures why == Full ==> |batch| == MAX_FRAMES || Bytes(batch) >= MAX_BYTES
    ensures why == Overflow ==> next > start && Bytes(batch) + 6 + |carry.value| > MAX_BYTES
    ensures why == TimedOut ==> next > start && rx[next - 1] == Deadline
    ensures why == ChannelClosed ==> next > start && rx[next - 1] == Closed
    ensures why == ShutDown ==> next == |rx| || rx[next] == Shutdown
  {
    batch, carry, next, why := [first], None, start, Full;
    var bytes := |first|;
    assert batch == [] + [first];
    FlattenSnoc([], first);
    while |batch| < MAX_FRAMES && bytes < MAX_BYTES
      invariant start <= next <= |rx| && GoodBatch(batch) && bytes == Bytes(batch)
      invariant batch == [first] + Packets(rx, start, next)
      decreases |rx| - next
    {
      if next == |rx| || rx[next] == Shutdown { return batch, None, next, ShutDown; }
      next := next + 1;
      match rx[next - 1] {
        case Deadline => return batch, None, next, TimedOut;
        case Closed => return batch, None, next, ChannelClosed;
        case Got(p) =>
          if bytes + 6 + |p| > MAX_BYTES { return batch, Some(p), next, Overflow; }
          FlattenSnoc(batch, p);
          bytes, batch := bytes + |p|, batch + [p];
      }
    }
  }

  /** Wait for the first packet of a batch. */
  method AwaitFirst(rx: seq<Rx>, start: nat) returns (first: Option<Packet>, next: nat, end: End)
    requires start <= |rx|
    ensures start <= next <= |rx| && Packets(rx, 0, next) == Packets(rx, 0, start) + AsSeq(first)
    ensures first.Some? ==> next > start
    ensures first.None? ==> end == if next < |rx| && rx[next] == Closed then Finished else Stopped
    ensures first.None? ==> next == |rx| || rx[next] in {Closed, Shutdown}
  {
    next, end := start, Stopped;
    while next < |rx| && rx[next] == Deadline
      invariant start <= next <= |rx| && Packets(rx, 0, next) == Packets(rx, 0, start)
    {
      next := next + 1;
    }
    if next == |rx| { return None, next, Stopped; }
    match rx[next] {
      case Got(p) =>
        return Some(p), next + 1, Stopped;
      case Closed => return None, next, Finished;
      case _ => return None, next, Stopped;
    }
  }

  lemma Regroup<T>(done: seq<T>, first: seq<T>, more: seq<T>, batch: seq<T>, carry: seq<T>)
    requires first + more == batch + carry
    ensures done + first + more == done + batch + carry
  {
    assert done + first + more == done + (first + more);
  }

  /** One round: the carried packet or the next to arrive, and what follows it.
      `batch` is empty only when the wait for a first packet ended. */
  method NextBatch(rx: seq<Rx>, start: nat, held: Option<Packet>, ghost done: seq<Packet>)
    returns (batch: seq<Packet>, carry: Option<Packet>, next: nat, why: Why)
    requires start <= |rx| && Packets(rx, 0, start) == done + AsSeq(held)
    ensures start <= next <= |rx| && Packets(rx, 0, next) == done + batch + AsSeq(carry)
    ensures batch == [] || GoodBatch(batch)
    ensures batch == [] ==> why == ChannelClosed || why == ShutDown
    ensures next == start ==> carry.None? && (held.None? ==> batch == [])
    ensures carry.Some? <==> why == Overflow
    ensures why == ShutDown ==> next == |rx| || rx[next] == Shutdown
  {
    var first, end;
    first, next := held, start;
    if first.None? {
      first, next, end := AwaitFirst(rx, start);
      if first.None? { return [], None, next, if end == Finished then ChannelClosed else ShutDown; }
    }
    ghost var from := next;
    batch, carry, next, why := Collect(rx, next, first.value);
    PacketsSplit(rx, from, next);
    Regroup(done, [first.value], Packets(rx, from, next), batch, AsSeq(carry));
  }

  /** Each message on the wire reads back as one good batch. */
  ghost predicate OnWire(sent: seq<seq<Packet>>, wire: seq<seq<byte>>)
  {
    && |wire| == |sent|
    && forall i :: 0 <= i < |sent| ==> GoodBatch(sent[i]) && Receive(wire[i]) == Some(Frames(sent[i]))
  }

  /** What was taken so far is what was sent, then the carried packet. */
  ghost predicate TakenIs(rx: seq<Rx>, next: nat, sent: seq<seq<Packet>>, carry: Option<Packet>)
    requires next <= |rx|
  {
    Packets(rx, 0, next) == Flatten(sent) + AsSeq(carry)
  }

  lemma WireGrows(sent: seq<seq<Packet>>, wire: seq<seq<byte>>, batch: seq<Packet>, message: seq<byte>)
    requires OnWire(sent, wire) && GoodBatch(batch) && Receive(message) == Some(Frames(batch))
    ensures OnWire(sent + [batch], wire + [message])
    ensures Flatten(sent + [batch]) == Flatten(sent) + batch
  {
    FlattenSnoc(sent, batch);
  }

  /** Build a batch's message and send it; nothing if either fails. */
  method Transmit(batch: seq<Packet>, noise: nat -> byte, accepted: bool) returns (message: Option<seq<byte>>)
    requires GoodBatch(batch)
    ensures message.Some? ==> Receive(message.value) == Some(Frames(batch))
    ensures message.None? ==> !accepted || (|batch| == 1 && |batch[0]| > MAX_PADDED - 8)
  {
    message := BuildMessage(batch, noise);
    if !accepted { message := None; }
  }

  /** The whole task, for every schedule of arrivals and timeouts and every
      outcome of each send. `inHand` and `carry` are what is thrown away when it
      ends; everything else taken from the channel was sent, in order. */
  method RunTx(rx: seq<Rx>, accepts: nat -> bool, noise: nat -> (nat -> byte))
    returns (sent: seq<seq<Packet>>, wire: seq<seq<byte>>, inHand: seq<Packet>, carry: Option<Packet>, next: nat, end: End)
    ensures next <= |rx| && Packets(rx, 0, next) == Flatten(sent) + inHand + AsSeq(carry)
    ensures OnWire(sent, wire)
    ensures inHand == [] || GoodBatch(inHand)
    ensures end == Finished ==> inHand == [] && carry == None
    ensures end == Stopped ==> carry == None && (next == |rx| || rx[next] == Shutdown)
    ensures end == SendFailed ==>
      GoodBatch(inHand) && (!accepts(|sent|) || (|inHand| == 1 && |inHand[0]| > MAX_PADDED - 8))
  {
    sent, wire, inHand, carry, next := [], [], [], None, 0;
    while true
      invariant next <= |rx| && TakenIs(rx, next, sent, carry) && OnWire(sent, wire)
      decreases |rx| - next, carry.Some?
    {
      var why;
      inHand, carry, next, why := NextBatch(rx, next, carry, Flatten(sent));
      if why == ShutDown { end := Stopped; return; }
      if inHand == [] { end := Finished; return; }
      var message := Transmit(inHand, noise(|sent|), accepts(|sent|));
      if message.None? { end := SendFailed; return; }
      WireGrows(sent, wire, inHand, message.value);
      sent, wire, inHand := sent + [inHand], wire + [message.value], [];
      if why == ChannelClosed { end := Finished; return; }
    }
  }

  /** What the peer reads out of the messages, put together, is what the task
      sent, in order. */
  function Payloads(fs: seq<Frame>): seq<Packet>
  {
    seq(|fs|, i requires 0 <= i < |fs| => fs[i].payload)
  }

  function ReadBack(wire: seq<seq<byte>>): seq<Packet>
  {
    if wire == [] then []
    else
      var fs := Receive(wire[|wire| - 1]);
      ReadBack(wire[..|wire| - 1]) + if fs.Some? then Payloads(fs.value) else []
  }

  lemma {:induction false} PeerReadsStream(sent: seq<seq<Packet>>, wire: seq<seq<byte>>)
    requires OnWire(sent, wire)
    ensures ReadBack(wire) == Flatten(sent)
  {
    if sent != [] {
      var n := |sent| - 1;
      PeerReadsStream(sent[..n], wire[..n]);
      assert Payloads(Frames(sent[n])) == sent[n];
    }
  }
}
