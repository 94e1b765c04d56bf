/** Unpadded base32 (section 6 of RFC 4648) by way of bits, most significant
    first; decoding is strict about length and trailing bits. */
module Base32 {
  import opened Common

  type Bits = seq<bool>

  /** The low `w` bits of `n`. */
  function ToBits(n: nat, w: nat): (r: Bits)
    ensures |r| == w
  {
    if w == 0 then [] else ToBits(n / 2, w - 1) + [n % 2 == 1]
  }

  function FromBits(b: Bits): (n: nat)
    ensures n < Pow2(|b|)
  {
    if b == [] then 0 else 2 * FromBits(b[..|b| - 1]) + if b[|b| - 1] then 1 else 0
  }

  lemma {:induction false} FromTo(n: nat, w: nat)
    requires n < Pow2(w)
    ensures FromBits(ToBits(n, w)) == n
  {
    if w > 0 {
      FromTo(n / 2, w - 1);
      assert ToBits(n, w)[..w - 1] == ToBits(n / 2, w - 1);
    }
  }

  lemma {:induction false} ToFrom(b: Bits)
    ensures ToBits(FromBits(b), |b|) == b
  {
    if b != [] {
      ToFrom(b[..|b| - 1]);
      assert b == b[..|b| - 1] + [b[|b| - 1]];
    }
  }

  // ---- groups of a fixed width ----

  ghost predicate Below(ns: seq<nat>, w: nat)
  {
    forall i :: 0 <= i < |ns| ==> ns[i] < Pow2(w)
  }

  function Spread(ns: seq<nat>, w: nat): (r: Bits)
    ensures |r| == |ns| * w
  {
    if ns == [] then [] else ToBits(ns[0], w) + Spread(ns[1..], w)
  }

  function Gather(b: Bits, w: nat): (r: seq<nat>)
    requires w > 0
    ensures Below(r, w)
  {
    if |b| < w then [] else [FromBits(b[..w])] + Gather(b[w..], w)
  }

  /** The bits too few for another group. */
  function Rest(b: Bits, w: nat): (r: Bits)
    requires w > 0
    ensures |r| < w
  {
    if |b| < w then b else Rest(b[w..], w)
  }

  lemma {:induction false} GatherSpread(ns: seq<nat>, w: nat, tail: Bits)
    requires w > 0 && Below(ns, w) && |tail| < w
    ensures Gather(Spread(ns, w) + tail, w) == ns
    ensures Rest(Spread(ns, w) + tail, w) == tail
  {
    if ns == [] {
      assert [] + tail == tail;
    } else {
      var head, more := ToBits(ns[0], w), Spread(ns[1..], w);
      var b := Spread(ns, w) + tail;
      assert b == head + (more + tail);
      assert b[..w] == head && b[w..] == more + tail;
      FromTo(ns[0], w);
      GatherSpread(ns[1..], w, tail);
      assert [ns[0]] + ns[1..] == ns;
    }
  }

  lemma {:induction false} SpreadGather(b: Bits, w: nat)
    requires w > 0
    ensures Spread(Gather(b, w), w) + Rest(b, w) == b
  {
    if |b| >= w {
      SpreadGather(b[w..], w);
      ToFrom(b[..w]);
      var ns := Gather(b[w..], w);
      assert Gather(b, w)[1..] == ns;
      assert Spread(Gather(b, w), w) == b[..w] + Spread(ns, w);
      assert b == b[..w] + b[w..];
    }
  }

  // ---- base32 ----

  function Zeros(n: nat): Bits { seq(n, _ => false) }

  /** Bits filled up with zeros to whole groups of five. */
  function Fill(b: Bits): Bits
  {
    var r := |Rest(b, 5)|;
    if r == 0 then b else b + Zeros(5 - r)
  }

  type Symbol = n: nat | n < 32

  lemma Widths()
    ensures Pow2(5) == 32 && Pow2(8) == 256
  {
    assert Pow2(4) == 16 && Pow2(5) == 32 && Pow2(7) == 128;
  }

  function Encode(bytes: seq<byte>): seq<Symbol>
  {
    Widths();
    Gather(Fill(Spread(bytes, 8)), 5)
  }

  /** Fewer than five bits may be left over, and only zeros. */
  function Decode(symbols: seq<Symbol>): Option<seq<byte>>
  {
    var b := Spread(symbols, 5);
    var tail := Rest(b, 8);
    Widths();
    if |tail| < 5 && tail == Zeros(|tail|) then Some(Gather(b, 8)) else None
  }

  lemma {:induction false} RestCount(b: Bits, w: nat) returns (groups: nat)
    requires w > 0
    ensures |b| == groups * w + |Rest(b, w)|
  {
    groups := 0;
    if |b| >= w {
      groups := RestCount(b[w..], w);
      groups := groups + 1;
    }
  }

  /** Filling adds fewer than five zeros and leaves nothing over. */
  lemma FillFits(b: Bits) returns (k: nat, groups: nat)
    ensures Fill(b) == b + Zeros(k) && k < 5 && |b| + k == 5 * groups && Rest(Fill(b), 5) == []
  {
    var g := RestCount(b, 5);
    var r := |Rest(b, 5)|;
    k, groups := if r == 0 then 0 else 5 - r, if r == 0 then g else g + 1;
    assert b + Zeros(0) == b;
    var h := RestCount(Fill(b), 5);
    assert 5 * groups == 5 * h + |Rest(Fill(b), 5)|;
  }

  lemma DecodeEncoded(bytes: seq<byte>)
    ensures Decode(Encode(bytes)) == Some(bytes)
  {
    Widths();
    var b := Spread(bytes, 8);
    var k, _ := FillFits(b);
    SpreadGather(Fill(b), 5);
    assert Spread(Encode(bytes), 5) == b + Zeros(k);
    GatherSpread(bytes, 8, Zeros(k));
  }

  /** There is only one way to fill up. */
  lemma FillIsUnique(b: Bits, tail: Bits, n: nat)
    requires |tail| < 5 && tail == Zeros(|tail|) && |b| + |tail| == 5 * n
    ensures Fill(b) == b + tail
  {
    var k, groups := FillFits(b);
    assert k == |tail|;
  }

  /** Decoding is injective: whatever is accepted is what encoding writes. */
  lemma EncodeDecoded(symbols: seq<Symbol>)
    requires Decode(symbols).Some?
    ensures Encode(Decode(symbols).value) == symbols
  {
    Widths();
    var s := Spread(symbols, 5);
    SpreadGather(s, 8);
    FillIsUnique(Spread(Gather(s, 8), 8), Rest(s, 8), |symbols|);
    GatherSpread(symbols, 5, []);
    assert s + [] == s;
  }

  /** 32 bytes take 52 symbols, and no other length decodes to 32 bytes. */
  lemma PinLength(symbols: seq<Symbol>)
    requires Decode(symbols).Some?
    ensures |Decode(symbols).value| == 32 <==> |symbols| == 52
  {
    var s := Spread(symbols, 5);
    SpreadGather(s, 8);
  }
}
