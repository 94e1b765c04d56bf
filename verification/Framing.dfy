/** The frame codec and the padding that every tunnel message goes through. */
module Framing {
  import opened Common

  const MAX_PAYLOAD := 65535
  const BLOCK := 1024
  const MAX_PADDED := 16 * 1024

  type u32 = n: int | 0 <= n < 0x1_0000_0000

  datatype Frame = Frame(flowId: u32, payload: seq<byte>)

  function Be16(n: nat): (r: seq<byte>)
    requires n <= 65535
    ensures |r| == 2
  {
    [n / 256, n % 256]
  }

  function FromBe16(hi: byte, lo: byte): (n: nat)
    ensures n <= 65535
  {
    hi * 256 + lo
  }

  /** The big-endian word at `i`. */
  function Word(p: seq<byte>, i: nat): (w: nat)
    requires i + 1 < |p|
    ensures w <= 65535
  {
    FromBe16(p[i], p[i + 1])
  }

  lemma Be16Inverse(n: nat, hi: byte, lo: byte)
    requires n <= 65535
    ensures Be16(n) == [hi, lo] <==> FromBe16(hi, lo) == n
  {
  }

  function Be32(n: u32): (r: seq<byte>)
    ensures |r| == 4
  {
    Be16(n / 0x1_0000) + Be16(n % 0x1_0000)
  }

  function FromBe32(a: byte, b: byte, c: byte, d: byte): u32
  {
    FromBe16(a, b) * 0x1_0000 + FromBe16(c, d)
  }

  lemma Be32Inverse(n: u32, a: byte, b: byte, c: byte, d: byte)
    ensures Be32(n) == [a, b, c, d] <==> FromBe32(a, b, c, d) == n
  {
    var hi, lo := n / 0x1_0000, n % 0x1_0000;
    Be16Inverse(hi, a, b);
    Be16Inverse(lo, c, d);
    assert Be32(n)[..2] == Be16(hi) && Be32(n)[2..] == Be16(lo);
    assert [a, b, c, d][..2] == [a, b] && [a, b, c, d][2..] == [c, d];
    if FromBe32(a, b, c, d) == n {
      assert hi == FromBe16(a, b) && lo == FromBe16(c, d);
    }
    if Be16(hi) == [a, b] && Be16(lo) == [c, d] {
      assert Be32(n) == [a, b, c, d];
    }
  }

  /** A frame on the wire: flow id, payload length, payload. */
  function Encode(f: Frame): Option<seq<byte>>
  {
    if |f.payload| > MAX_PAYLOAD then None
    else Some(Be32(f.flowId) + Be16(|f.payload|) + f.payload)
  }

  function Decode(data: seq<byte>): (r: Option<Frame>)
    ensures r.Some? ==> 6 + |r.value.payload| <= |data|
  {
    if |data| < 6 then None
    else
      var len := FromBe16(data[4], data[5]);
      if |data| < 6 + len then None
      else Some(Frame(FromBe32(data[0], data[1], data[2], data[3]), data[6..6 + len]))
  }

  lemma DecodeEncoded(f: Frame, rest: seq<byte>)
    requires |f.payload| <= MAX_PAYLOAD
    ensures Decode(Encode(f).value + rest) == Some(f)
  {
    var data := Encode(f).value + rest;
    var h, l := Be32(f.flowId), Be16(|f.payload|);
    assert data[0] == h[0] && data[1] == h[1] && data[2] == h[2] && data[3] == h[3];
    assert data[4] == l[0] && data[5] == l[1];
    assert h == [h[0], h[1], h[2], h[3]] && l == [l[0], l[1]];
    Be32Inverse(f.flowId, h[0], h[1], h[2], h[3]);
    Be16Inverse(|f.payload|, l[0], l[1]);
    assert data[6..6 + |f.payload|] == f.payload;
  }

  lemma EncodeDecoded(data: seq<byte>)
    requires Decode(data).Some?
    ensures var f := Decode(data).value;
      |f.payload| <= MAX_PAYLOAD && 6 + |f.payload| <= |data| && Encode(f) == Some(data[..6 + |f.payload|])
  {
    var f := Decode(data).value;
    var head := data[..6 + |f.payload|];
    assert head == data[0..4] + data[4..6] + data[6..6 + |f.payload|];
    assert data[0..4] == [data[0], data[1], data[2], data[3]];
    assert data[4..6] == [data[4], data[5]];
    Be32Inverse(f.flowId, data[0], data[1], data[2], data[3]);
    Be16Inverse(|f.payload|, data[4], data[5]);
  }

  /** All frames at the front of `data`. */
  function ParseFrames(data: seq<byte>): seq<Frame>
  {
    if Decode(data).None? then []
    else
      var f := Decode(data).value;
      [f] + ParseFrames(data[6 + |f.payload|..])
  }

  function EncodeAll(fs: seq<Frame>): Option<seq<byte>>
  {
    if fs == [] then Some([])
    else
      var head, tail := Encode(fs[0]), EncodeAll(fs[1..]);
      if head.None? || tail.None? then None else Some(head.value + tail.value)
  }

  lemma {:induction false} ParseCons(fs: seq<Frame>, head: seq<byte>, more: seq<byte>)
    requires fs != [] && Encode(fs[0]) == Some(head) && ParseFrames(more) == fs[1..]
    ensures ParseFrames(head + more) == fs
  {
    DecodeEncoded(fs[0], more);
    assert (head + more)[|head|..] == more;
  }

  /** Parsing gives back exactly the frames that were concatenated; a tail that
      holds no whole frame is left alone. */
  lemma {:induction false} ParseEncoded(fs: seq<Frame>, bytes: seq<byte>, tail: seq<byte>)
    requires EncodeAll(fs) == Some(bytes) && ParseFrames(tail) == []
    ensures ParseFrames(bytes + tail) == fs
  {
    if fs == [] {
      assert bytes + tail == tail;
    } else {
      var head, rest := Encode(fs[0]).value, EncodeAll(fs[1..]).value;
      ParseEncoded(fs[1..], rest, tail);
      ParseCons(fs, head, rest + tail);
      Regroup(head, rest, tail);
    }
  }

  lemma Regroup(a: seq<byte>, b: seq<byte>, c: seq<byte>)
    ensures a + b + c == a + (b + c)
  {
  }

  lemma {:induction false} EncodeStep(data: seq<byte>, f: Frame, fs: seq<Frame>, k: nat, n: nat)
    requires k + n <= |data| && Encode(f) == Some(data[..k]) && EncodeAll(fs) == Some(data[k..][..n])
    ensures EncodeAll([f] + fs) == Some(data[..k + n])
  {
    assert ([f] + fs)[1..] == fs;
    assert data[..k] + data[k..][..n] == data[..k + n];
  }

  /** Conversely, on any bytes at all, the frames parsed re-encode to exactly
      the first `n` of them, and no frame fits in the rest. */
  lemma {:induction false} EncodeParsed(data: seq<byte>) returns (n: nat)
    ensures n <= |data| && EncodeAll(ParseFrames(data)) == Some(data[..n])
    ensures Decode(data[n..]).None?
  {
    var d := Decode(data);
    if d.None? {
      assert data[..0] == [] && data[0..] == data;
      n := 0;
    } else {
      var k := 6 + |d.value.payload|;
      EncodeDecoded(data);
      var m := EncodeParsed(data[k..]);
      EncodeStep(data, d.value, ParseFrames(data[k..]), k, m);
      n := k + m;
      assert data[k..][m..] == data[n..];
    }
  }

  /** Decoding the exact slice of a frame is decoding from its start. */
  lemma SliceDecodes(data: seq<byte>, pos: nat, total: nat)
    requires pos + 6 <= |data| && total == 6 + FromBe16(data[pos + 4], data[pos + 5]) && pos + total <= |data|
    ensures Decode(data[pos..pos + total]).Some?
    ensures Decode(data[pos..pos + total]) == Decode(data[pos..])
    ensures 6 + |Decode(data[pos..]).value.payload| == total
  {
    var a, b := data[pos..pos + total], data[pos..];
    assert forall k :: 0 <= k < total ==> a[k] == b[k] == data[pos + k];
    assert a[6..total] == b[6..total];
  }

  lemma {:induction false} EncodeSnoc(fs: seq<Frame>, f: Frame)
    ensures EncodeAll(fs + [f]).Some? <==> EncodeAll(fs).Some? && Encode(f).Some?
    ensures EncodeAll(fs + [f]).Some? ==> EncodeAll(fs + [f]).value == EncodeAll(fs).value + Encode(f).value
  {
    if fs == [] {
      assert fs + [f] == [f] && [f][1..] == [];
    } else {
      assert (fs + [f])[1..] == fs[1..] + [f];
      EncodeSnoc(fs[1..], f);
    }
  }

  /** One more frame decoded in place extends the bytes covered. */
  lemma CoverStep(data: seq<byte>, pos: nat, total: nat, frames: seq<Frame>)
    requires pos + 6 <= |data| && total == 6 + FromBe16(data[pos + 4], data[pos + 5]) && pos + total <= |data|
    requires EncodeAll(frames) == Some(data[..pos])
    ensures Decode(data[pos..pos + total]).Some?
    ensures EncodeAll(frames + [Decode(data[pos..pos + total]).value]) == Some(data[..pos + total])
  {
    SliceDecodes(data, pos, total);
    var f := Decode(data[pos..]).value;
    EncodeDecoded(data[pos..]);
    assert data[pos..][..total] == data[pos..pos + total];
    EncodeSnoc(frames, f);
    assert data[..pos] + data[pos..pos + total] == data[..pos + total];
  }

  lemma TailIsPartial(data: seq<byte>, pos: nat)
    requires pos <= |data|
    requires pos + 6 <= |data| ==> pos + 6 + FromBe16(data[pos + 4], data[pos + 5]) > |data|
    ensures Decode(data[pos..]).None?
  {
    if pos + 6 <= |data| { assert data[pos..][4] == data[pos + 4] && data[pos..][5] == data[pos + 5]; }
  }

  lemma PrefixParsed(data: seq<byte>, pos: nat, frames: seq<Frame>)
    requires pos <= |data| && EncodeAll(frames) == Some(data[..pos]) && Decode(data[pos..]).None?
    ensures frames == ParseFrames(data)
  {
    ParseEncoded(frames, data[..pos], data[pos..]);
    assert data[..pos] + data[pos..] == data;
  }

  method ParseFramesLoop(data: seq<byte>) returns (frames: seq<Frame>, pos: nat)
    ensures frames == ParseFrames(data)
    ensures pos <= |data| && EncodeAll(frames) == Some(data[..pos])
  {
    frames, pos := [], 0;
    while pos + 6 <= |data|
      invariant pos <= |data| && EncodeAll(frames) == Some(data[..pos])
      decreases |data| - pos
    {
      var len := FromBe16(data[pos + 4], data[pos + 5]);
      var total := 6 + len;
      if pos + total > |data| { break; }
      CoverStep(data, pos, total, frames);
      frames := frames + [Decode(data[pos..pos + total]).value];
      pos := pos + total;
    }
    TailIsPartial(data, pos);
    PrefixParsed(data, pos, frames);
  }

  // ---- padding ----

  /** The padded size chosen for `n` bytes of data. */
  function PaddedSize(n: nat): nat
  {
    if n == 0 then BLOCK else Min(((n + 2 + BLOCK - 1) / BLOCK) * BLOCK, MAX_PADDED)
  }

  /** Padding of `data`; `noise` supplies the filler bytes. */
  function Pad(data: seq<byte>, noise: nat -> byte): Option<seq<byte>>
  {
    var size := PaddedSize(|data|);
    if |data| > size - 2 then None
    else
      var fill := size - 2 - |data|;
      Some(data + seq(fill, (i: nat) => noise(i)) + Be16(fill))
  }

  function Unpad(data: seq<byte>): Option<seq<byte>>
  {
    if |data| < 2 then None
    else
      var fill := FromBe16(data[|data| - 2], data[|data| - 1]);
      if fill > |data| - 2 then None else Some(data[..|data| - 2 - fill])
  }

  /** Padding succeeds exactly up to 16382 bytes, makes the fewest whole blocks
      that hold the data and its length, and whatever the filler is, unpadding
      undoes it. */
  lemma PadRoundTrip(data: seq<byte>, noise: nat -> byte)
    ensures Pad(data, noise).Some? <==> |data| <= MAX_PADDED - 2
    ensures Pad(data, noise).Some? ==>
      var p := Pad(data, noise).value;
      |p| % BLOCK == 0 && |p| - BLOCK < |data| + 2 <= |p| <= MAX_PADDED && Unpad(p) == Some(data)
  {
    if Pad(data, noise).Some? {
      var p := Pad(data, noise).value;
      var fill := PaddedSize(|data|) - 2 - |data|;
      var l := Be16(fill);
      assert p[|p| - 2] == l[0] && p[|p| - 1] == l[1] && l == [l[0], l[1]];
      Be16Inverse(fill, l[0], l[1]);
      assert p[..|p| - 2 - fill] == data;
    }
  }

  /** Anything unpads whose last two bytes give a filler that fits, to what
      stands before the filler. */
  lemma UnpadIff(padded: seq<byte>, data: seq<byte>)
    ensures Unpad(padded) == Some(data) <==>
      |padded| >= 2 && data <= padded && |data| + FromBe16(padded[|padded| - 2], padded[|padded| - 1]) + 2 == |padded|
  {
    if data <= padded { assert data == padded[..|data|]; }
  }

  /** What a receiver makes of one padded tunnel message: unpad, parse. */
  function Receive(message: seq<byte>): Option<seq<Frame>>
  {
    if Unpad(message).None? then None else Some(ParseFrames(Unpad(message).value))
  }

  lemma ReceivedIsSent(fs: seq<Frame>, noise: nat -> byte)
    requires EncodeAll(fs).Some? && |EncodeAll(fs).value| <= MAX_PADDED - 2
    ensures Pad(EncodeAll(fs).value, noise).Some?
    ensures Receive(Pad(EncodeAll(fs).value, noise).value) == Some(fs)
  {
    PadRoundTrip(EncodeAll(fs).value, noise);
    ParseEncoded(fs, EncodeAll(fs).value, []);
    assert EncodeAll(fs).value + [] == EncodeAll(fs).value;
  }
}
