/** Rewriting one address of an IPv4 packet in place, with the incremental
    checksum update of RFC 1624. */
module NatRewrite {
  import opened Common
  import opened Framing

  type u16 = n: int | 0 <= n < 0x1_0000

  /** An IPv4 address as its two 16-bit words. */
  datatype Ip = Ip(hi: u16, lo: u16)

  datatype Slot = Source | Destination

  function Offset(s: Slot): nat { if s.Source? then 12 else 16 }

  // ---- one's-complement sums ----

  /** Sum of the 16-bit words of `s`; a last odd byte is a high byte. */
  function Sum16(s: seq<byte>): nat
  {
    if |s| == 0 then 0 else if |s| == 1 then s[0] * 256 else s[0] * 256 + s[1] + Sum16(s[2..])
  }

  /** End-around carry until the sum fits in 16 bits. */
  function Fold(n: nat): u16
  {
    if n < 0x1_0000 then n else Fold(n % 0x1_0000 + n / 0x1_0000)
  }

  /** Folding keeps the value modulo 65535 and gives zero only for zero. */
  lemma {:induction false} FoldIsResidue(n: nat)
    ensures Fold(n) == if n == 0 then 0 else (n - 1) % 65535 + 1
  {
    if n >= 0x1_0000 {
      var m := n % 0x1_0000 + n / 0x1_0000;
      FoldIsResidue(m);
      assert n == m + 65535 * (n / 0x1_0000);
      assert (n - 1) % 65535 == (m - 1) % 65535 by { ShiftedResidue(m - 1, n / 0x1_0000); }
    }
  }

  lemma {:induction false} ShiftedResidue(a: nat, k: nat)
    ensures (a + 65535 * k) % 65535 == a % 65535
  {
    if k > 0 {
      ShiftedResidue(a, k - 1);
      assert a + 65535 * k == (a + 65535 * (k - 1)) + 65535;
    }
  }

  /** A checksummed range is valid when its folded sum is all ones. */
  predicate Valid(sum: nat) { Fold(sum) == 0xffff }

  // ---- the incremental update ----

  function UpdateSum(csum: u16, was: Ip, now: Ip): nat
  {
    (0xffff - csum) + (0xffff - was.hi) + (0xffff - was.lo) + now.hi + now.lo
  }

  function Update(csum: u16, was: Ip, now: Ip): u16 { 0xffff - Fold(UpdateSum(csum, was, now)) }

  method UpdateLoop(csum: u16, was: Ip, now: Ip) returns (r: u16)
    ensures r == Update(csum, was, now)
  {
    var sum := (0xffff - csum) + (0xffff - was.hi);
    sum := sum + (0xffff - was.lo);
    sum := sum + now.hi;
    sum := sum + now.lo;
    while sum / 0x1_0000 != 0
      invariant sum >= 0 && Fold(sum) == Fold(UpdateSum(csum, was, now))
      decreases sum
    {
      sum := sum % 0x1_0000 + sum / 0x1_0000;
    }
    r := 0xffff - sum;
  }

  /** The new checksum differs from the old one by the change of the words,
      up to a multiple of 65535; it is all ones in one corner only. */
  lemma UpdateIsDelta(csum: u16, was: Ip, now: Ip) returns (k: int)
    ensures Update(csum, was, now) + now.hi + now.lo == csum + was.hi + was.lo + 65535 * k
    ensures Update(csum, was, now) == 0xffff <==> csum == 0xffff && was == Ip(0xffff, 0xffff) && now == Ip(0, 0)
  {
    var s: int := UpdateSum(csum, was, now);
    FoldIsResidue(s);
    if s == 0 { k := -2; } else { k := (s - 1) / 65535 - 2; }
  }

  // ---- the packet ----

  function Set16(p: seq<byte>, i: nat, v: u16): (q: seq<byte>)
    requires i + 1 < |p|
    ensures |q| == |p|
  {
    p[i := v / 256][i + 1 := v % 256]
  }

  function Addr(p: seq<byte>, off: nat): Ip
    requires off + 3 < |p|
  {
    Ip(Word(p, off), Word(p, off + 2))
  }

  function SetAddr(p: seq<byte>, off: nat, a: Ip): (q: seq<byte>)
    requires off + 3 < |p|
    ensures |q| == |p|
  {
    Set16(Set16(p, off, a.hi), off + 2, a.lo)
  }

  /** Header length in bytes, from the IHL nibble. */
  function HeaderLength(p: seq<byte>): nat
    requires |p| >= 1
  {
    (p[0] % 16) * 4
  }

  predicate Usable(p: seq<byte>)
  {
    |p| >= 20 && p[0] / 16 == 4 && HeaderLength(p) >= 20 && |p| >= HeaderLength(p)
  }

  function FragmentOffset(p: seq<byte>): nat
    requires |p| >= 20
  {
    Word(p, 6) % 0x2000
  }

  /** Where a TCP checksum would be, or else a UDP one. */
  function ChecksumPlace(p: seq<byte>): nat
    requires |p| >= 20
  {
    HeaderLength(p) + if p[9] == 6 then 16 else 6
  }

  /** Where the transport checksum to adjust sits, if there is one: first
      fragment, TCP or UDP, header not truncated, UDP checksum not disabled. */
  function TransportChecksum(p: seq<byte>): Option<nat>
    requires Usable(p)
  {
    var at := ChecksumPlace(p);
    if FragmentOffset(p) != 0 || (p[9] != 6 && p[9] != 17) || |p| < at + 2 then None
    else if p[9] == 17 && Word(p, at) == 0 then None
    else Some(at)
  }

  /** A UDP checksum that comes out as zero is sent as all ones. */
  function Adjusted(p: seq<byte>, at: nat, was: Ip, now: Ip): u16
    requires at + 1 < |p| && |p| >= 20
  {
    var c := Update(Word(p, at), was, now);
    if p[9] == 17 && c == 0 then 0xffff else c
  }

  /** The packet before its transport checksum is adjusted. */
  function HeaderRewritten(p: seq<byte>, slot: Slot, now: Ip): (q: seq<byte>)
    requires Usable(p)
    ensures |q| == |p|
  {
    Set16(SetAddr(p, Offset(slot), now), 10, Update(Word(p, 10), Addr(p, Offset(slot)), now))
  }

  /** The whole rewrite on a usable packet. */
  function Rewritten(p: seq<byte>, slot: Slot, now: Ip): (q: seq<byte>)
    requires Usable(p)
    ensures |q| == |p|
  {
    var was := Addr(p, Offset(slot));
    if was == now then p
    else
      var q := HeaderRewritten(p, slot, now);
      var at := TransportChecksum(p);
      if at.None? then q else Set16(q, at.value, Adjusted(p, at.value, was, now))
  }

  method Write16(packet: array<byte>, i: nat, v: u16)
    requires i + 1 < packet.Length
    modifies packet
    ensures packet[..] == Set16(old(packet[..]), i, v)
  {
    packet[i], packet[i + 1] := v / 256, v % 256;
  }

  method RewriteAddr(packet: array<byte>, slot: Slot, now: Ip) returns (ok: bool)
    modifies packet
    ensures ok == Usable(old(packet[..]))
    ensures packet[..] == if ok then Rewritten(old(packet[..]), slot, now) else old(packet[..])
  {
    if packet.Length < 20 || packet[0] / 16 != 4 { return false; }
    var ihl: nat := (packet[0] % 16) * 4;
    if ihl < 20 || packet.Length < ihl { return false; }
    ghost var p := packet[..];
    var off := Offset(slot);
    var was := Addr(packet[..], off);
    if was == now { return true; }
    Write16(packet, off, now.hi);
    Write16(packet, off + 2, now.lo);
    var c := UpdateLoop(Word(packet[..], 10), was, now);
    Write16(packet, 10, c);
    ghost var q := HeaderRewritten(p, slot, now);
    assert packet[..] == q && Word(SetAddr(p, off, now), 10) == Word(p, 10);
    HeaderKeepsTransport(p, slot, now);
    ok := true;
    RewriteTransport(packet, ihl, was, now, p);
  }

  lemma FieldsTouch(p: seq<byte>, off: nat, now: Ip, c: u16)
    requires |p| >= 20 && (off == 12 || off == 16)
    ensures forall k :: 0 <= k < |p| && !(10 <= k < 12) && !(off <= k < off + 4) ==>
      Set16(SetAddr(p, off, now), 10, c)[k] == p[k]
  {
  }

  /** Everything the transport step looks at is as it was. */
  lemma HeaderKeepsTransport(p: seq<byte>, slot: Slot, now: Ip)
    requires Usable(p)
    ensures var q := HeaderRewritten(p, slot, now);
      && Usable(q) && HeaderLength(q) == HeaderLength(p) && TransportChecksum(q) == TransportChecksum(p)
      && (TransportChecksum(p).Some? ==>
            Word(q, TransportChecksum(p).value) == Word(p, TransportChecksum(p).value) && q[9] == p[9])
  {
    var q := HeaderRewritten(p, slot, now);
    FieldsTouch(p, Offset(slot), now, Update(Word(p, 10), Addr(p, Offset(slot)), now));
    SameFields(p, q);
  }

  lemma SameFields(p: seq<byte>, q: seq<byte>)
    requires Usable(p) && |q| == |p| && q[0] == p[0] && q[6] == p[6] && q[7] == p[7] && q[9] == p[9]
    requires forall k :: 20 <= k < |p| ==> q[k] == p[k]
    ensures Usable(q) && HeaderLength(q) == HeaderLength(p) && TransportChecksum(q) == TransportChecksum(p)
    ensures TransportChecksum(p).Some? ==> Word(q, TransportChecksum(p).value) == Word(p, TransportChecksum(p).value)
  {
    var at := ChecksumPlace(p);
    if at + 2 <= |p| { assert q[at] == p[at] && q[at + 1] == p[at + 1]; }
  }

  method RewriteTransport(packet: array<byte>, ihl: nat, was: Ip, now: Ip, ghost p: seq<byte>)
    requires Usable(packet[..]) && Usable(p) && |p| == packet.Length && ihl == HeaderLength(packet[..])
    requires TransportChecksum(packet[..]) == TransportChecksum(p)
    requires TransportChecksum(p).Some? ==>
      Word(packet[..], TransportChecksum(p).value) == Word(p, TransportChecksum(p).value) && packet[9] == p[9]
    modifies packet
    ensures var at := TransportChecksum(p);
      packet[..] == if at.None? then old(packet[..])
                    else Set16(old(packet[..]), at.value, Adjusted(p, at.value, was, now))
  {
    if Word(packet[..], 6) % 0x2000 != 0 { return; }
    var proto := packet[9];
    if proto != 6 && proto != 17 { return; }
    var at := ihl + if proto == 6 then 16 else 6;
    if packet.Length < at + 2 { return; }
    var t := Word(packet[..], at);
    if proto == 17 && t == 0 { return; }
    var t' := UpdateLoop(t, was, now);
    if proto == 17 && t' == 0 { t' := 0xffff; }
    Write16(packet, at, t');
  }

  // ---- what the rewrite preserves ----

  lemma {:induction false} SumAfterSet(s: seq<byte>, i: nat, v: u16)
    requires i % 2 == 0 && i + 1 < |s|
    ensures Sum16(Set16(s, i, v)) == Sum16(s) - Word(s, i) + v
  {
    var t := Set16(s, i, v);
    if i == 0 {
      assert t[2..] == s[2..];
    } else {
      SumAfterSet(s[2..], i - 2, v);
      assert t[2..] == Set16(s[2..], i - 2, v);
    }
  }

  /** The rewrite changes the address, the header checksum and the transport
      checksum, and no other byte. */
  lemma RewriteTouches(p: seq<byte>, slot: Slot, now: Ip)
    requires Usable(p)
    ensures var q := Rewritten(p, slot, now);
      var off := if slot.Source? then 12 else 16;
      && Usable(q) && HeaderLength(q) == HeaderLength(p) && Addr(q, off) == now
      && q[off..off + 4] == [now.hi / 256, now.hi % 256, now.lo / 256, now.lo % 256]
      && forall k :: 0 <= k < |p| && q[k] != p[k] ==>
           || off <= k < off + 4 || 10 <= k < 12
           || (TransportChecksum(p).Some? && TransportChecksum(p).value <= k < TransportChecksum(p).value + 2)
  {
  }

  lemma SumAfterAddr(s: seq<byte>, off: nat, now: Ip)
    requires off % 2 == 0 && off + 3 < |s|
    ensures Sum16(SetAddr(s, off, now)) + Addr(s, off).hi + Addr(s, off).lo == Sum16(s) + now.hi + now.lo
  {
    var t := Set16(s, off, now.hi);
    SumAfterSet(s, off, now.hi);
    SumAfterSet(t, off + 2, now.lo);
  }

  lemma {:induction false} SumCoversWord(s: seq<byte>, i: nat)
    requires i % 2 == 0 && i + 1 < |s|
    ensures Word(s, i) <= Sum16(s)
  {
    if i > 0 {
      SumCoversWord(s[2..], i - 2);
      assert Word(s[2..], i - 2) == Word(s, i);
    }
  }

  lemma SetPrefix(p: seq<byte>, i: nat, v: u16, n: nat)
    requires i + 1 < |p| && n <= |p|
    ensures i + 1 < n ==> Set16(p, i, v)[..n] == Set16(p[..n], i, v)
    ensures n <= i ==> Set16(p, i, v)[..n] == p[..n]
  {
  }

  lemma FieldsPrefix(p: seq<byte>, off: nat, now: Ip, c: u16, n: nat)
    requires 20 <= n <= |p| && (off == 12 || off == 16)
    ensures Set16(SetAddr(p, off, now), 10, c)[..n] == Set16(SetAddr(p[..n], off, now), 10, c)
  {
    var q1 := Set16(p, off, now.hi);
    SetPrefix(p, off, now.hi, n);
    SetPrefix(q1, off + 2, now.lo, n);
    SetPrefix(Set16(q1, off + 2, now.lo), 10, c, n);
  }

  lemma WordsOfPrefix(p: seq<byte>, off: nat, n: nat)
    requires 20 <= n <= |p| && (off == 12 || off == 16)
    ensures Word(p[..n], 10) == Word(p, 10) && Addr(p[..n], off) == Addr(p, off)
  {
  }

  /** The transport step leaves the header alone. */
  lemma TransportKeepsHeader(p: seq<byte>, slot: Slot, now: Ip)
    requires Usable(p) && Addr(p, Offset(slot)) != now
    ensures Rewritten(p, slot, now)[..HeaderLength(p)] == HeaderRewritten(p, slot, now)[..HeaderLength(p)]
  {
    var at, was := TransportChecksum(p), Addr(p, Offset(slot));
    if at.Some? {
      SetPrefix(HeaderRewritten(p, slot, now), at.value, Adjusted(p, at.value, was, now), HeaderLength(p));
    }
  }

  lemma HeaderSlice(p: seq<byte>, slot: Slot, now: Ip)
    requires Usable(p) && Addr(p, Offset(slot)) != now
    ensures var h := p[..HeaderLength(p)];
      Rewritten(p, slot, now)[..HeaderLength(p)]
        == Set16(SetAddr(h, Offset(slot), now), 10, Update(Word(h, 10), Addr(h, Offset(slot)), now))
  {
    var n, off := HeaderLength(p), Offset(slot);
    TransportKeepsHeader(p, slot, now);
    WordsOfPrefix(p, off, n);
    FieldsPrefix(p, off, now, Update(Word(p, 10), Addr(p, off), now), n);
  }

  /** Rewriting an address and its checksum keeps the sum modulo 65535. */
  lemma HeaderResidue(h: seq<byte>, off: nat, now: Ip) returns (k: int)
    requires |h| >= 20 && (off == 12 || off == 16)
    ensures Sum16(Set16(SetAddr(h, off, now), 10, Update(Word(h, 10), Addr(h, off), now))) == Sum16(h) + 65535 * k
  {
    k := UpdateIsDelta(Word(h, 10), Addr(h, off), now);
    SumAfterAddr(h, off, now);
    SumAfterSet(SetAddr(h, off, now), 10, Update(Word(h, 10), Addr(h, off), now));
  }

  /** The header checksum is valid after the rewrite exactly if it was before. */
  lemma HeaderStaysValid(p: seq<byte>, slot: Slot, now: Ip)
    requires Usable(p)
    ensures var q := Rewritten(p, slot, now);
      Valid(Sum16(q[..HeaderLength(p)])) <==> Valid(Sum16(p[..HeaderLength(p)]))
  {
    var h, g := p[..HeaderLength(p)], Rewritten(p, slot, now)[..HeaderLength(p)];
    if Addr(p, Offset(slot)) != now {
      HeaderSlice(p, slot, now);
      var k := HeaderResidue(h, Offset(slot), now);
      SumCoversWord(h, 0);
      SumCoversWord(g, 0);
      assert Word(g, 0) == Word(h, 0) >= 0x4000;
      SumsValidTogether(Sum16(h), Sum16(g), k);
    }
  }

  /** What a TCP or UDP checksum covers for the segment from `start` to `end`:
      both addresses, the protocol, the segment length and the segment. */
  function TransportSum(p: seq<byte>, start: nat, end: nat): nat
    requires 20 <= start <= end <= |p|
  {
    Sum16(p[12..20]) + p[9] + (end - start) + Sum16(p[start..end])
  }

  lemma TransportSlices(p: seq<byte>, slot: Slot, now: Ip, end: nat)
    requires Usable(p) && Addr(p, Offset(slot)) != now
    requires TransportChecksum(p).Some? && TransportChecksum(p).value + 2 <= end <= |p|
    ensures var q, at := Rewritten(p, slot, now), TransportChecksum(p).value;
      && q[9] == p[9]
      && q[12..20] == SetAddr(p[12..20], Offset(slot) - 12, now)
      && q[HeaderLength(p)..end]
           == Set16(p[HeaderLength(p)..end], at - HeaderLength(p), Adjusted(p, at, Addr(p, Offset(slot)), now))
      && Word(p[HeaderLength(p)..end], at - HeaderLength(p)) == Word(p, at)
      && Addr(p[12..20], Offset(slot) - 12) == Addr(p, Offset(slot))
  {
    var q, at, ihl := Rewritten(p, slot, now), TransportChecksum(p).value, HeaderLength(p);
    var r := HeaderRewritten(p, slot, now);
    assert r[ihl..end] == p[ihl..end];
    assert q[12..20] == r[12..20];
  }

  /** Whenever the rewrite adjusts a transport checksum, that checksum is valid
      afterwards exactly if it was valid before. */
  lemma TransportStaysValid(p: seq<byte>, slot: Slot, now: Ip, start: nat, end: nat)
    requires Usable(p) && start == HeaderLength(p)
    requires TransportChecksum(p).Some? && TransportChecksum(p).value + 2 <= end <= |p|
    ensures Valid(TransportSum(Rewritten(p, slot, now), start, end)) <==> Valid(TransportSum(p, start, end))
  {
    var was := Addr(p, Offset(slot));
    var at := TransportChecksum(p).value;
    var q := Rewritten(p, slot, now);
    if was == now {
      assert q == p;
    } else {
      TransportSlices(p, slot, now, end);
      var k := AdjustedIsDelta(p, at, was, now);
      TransportDelta(p, q, Offset(slot), start, end, at, now, Adjusted(p, at, was, now), k);
    }
  }

  /** Read off the bytes: the first fragment of a TCP segment or of a UDP
      datagram whose checksum field is in the packet and, for UDP, in use. */
  predicate HasChecksum(p: seq<byte>, at: nat)
  {
    && |p| >= 20 && p[6] % 32 == 0 && p[7] == 0 && at + 2 <= |p|
    && ((p[9] == 6 && at == 4 * (p[0] % 16) + 16)
        || (p[9] == 17 && at == 4 * (p[0] % 16) + 6 && (p[at] != 0 || p[at + 1] != 0)))
  }

  lemma FirstFragment(p: seq<byte>)
    requires |p| >= 20
    ensures FragmentOffset(p) == 0 <==> p[6] % 32 == 0 && p[7] == 0
  {
    var high: int, low: int := p[6], p[7];
    assert Word(p, 6) == 256 * high + low;
    assert (256 * high + low) % 0x2000 == 256 * (high % 32) + low;
  }

  lemma AdjustsIff(p: seq<byte>, at: nat)
    requires Usable(p)
    ensures TransportChecksum(p) == Some(at) <==> HasChecksum(p, at)
  {
    FirstFragment(p);
  }

  /** A packet with a transport checksum keeps it valid or invalid as it was,
      for a segment of any length that reaches past it, and a UDP checksum
      never becomes the zero that would disable it; of any other packet nothing
      past the header changes. */
  lemma SegmentStaysValid(p: seq<byte>, slot: Slot, now: Ip)
    requires Usable(p)
    ensures forall at: nat, end: nat :: HasChecksum(p, at) && at + 2 <= end <= |p| ==>
      (Valid(TransportSum(Rewritten(p, slot, now), HeaderLength(p), end)) <==> Valid(TransportSum(p, HeaderLength(p), end)))
    ensures forall at: nat :: HasChecksum(p, at) ==> HasChecksum(Rewritten(p, slot, now), at)
    ensures (forall at: nat :: !HasChecksum(p, at)) ==> Rewritten(p, slot, now)[HeaderLength(p)..] == p[HeaderLength(p)..]
  {
    forall at: nat, end: nat | HasChecksum(p, at) && at + 2 <= end <= |p|
      ensures Valid(TransportSum(Rewritten(p, slot, now), HeaderLength(p), end)) <==> Valid(TransportSum(p, HeaderLength(p), end))
    {
      AdjustsIff(p, at);
      TransportStaysValid(p, slot, now, HeaderLength(p), end);
    }
    forall at: nat | HasChecksum(p, at) ensures HasChecksum(Rewritten(p, slot, now), at) {
      AdjustsIff(p, at);
      ChecksumStays(p, slot, now, at);
    }
    if forall at: nat :: !HasChecksum(p, at) {
      if TransportChecksum(p).Some? { AdjustsIff(p, TransportChecksum(p).value); }
      RewriteTouches(p, slot, now);
    }
  }

  lemma ChecksumStays(p: seq<byte>, slot: Slot, now: Ip, at: nat)
    requires Usable(p) && TransportChecksum(p) == Some(at)
    ensures HasChecksum(Rewritten(p, slot, now), at)
  {
    AdjustsIff(p, at);
    RewriteTouches(p, slot, now);
    var q, was := Rewritten(p, slot, now), Addr(p, Offset(slot));
    if was != now && p[9] == 17 {
      var v := Adjusted(p, at, was, now);
      assert q[at] == v / 256 && q[at + 1] == v % 256;
    }
  }

  lemma TransportDelta(p: seq<byte>, q: seq<byte>, off: nat, ihl: nat, end: nat, at: nat, now: Ip, c: u16, k: int)
    requires 20 <= ihl <= at && at + 2 <= end <= |p| == |q| && (off == 12 || off == 16) && (at == ihl + 16 || at == ihl + 6)
    requires q[9] == p[9] && p[9] > 0
    requires q[12..20] == SetAddr(p[12..20], off - 12, now) && q[ihl..end] == Set16(p[ihl..end], at - ihl, c)
    requires c + now.hi + now.lo
             == Word(p[ihl..end], at - ihl) + Addr(p[12..20], off - 12).hi + Addr(p[12..20], off - 12).lo + 65535 * k
    ensures Valid(TransportSum(q, ihl, end)) <==> Valid(TransportSum(p, ihl, end))
  {
    SumAfterAddr(p[12..20], off - 12, now);
    SumAfterSet(p[ihl..end], at - ihl, c);
    SumsValidTogether(TransportSum(p, ihl, end), TransportSum(q, ihl, end), k);
  }

  /** Rewriting to a session address and back restores every byte, except in
      one case: a TCP or header checksum of all ones comes back as zero. The
      two mean the same, but the packet is not the original one. UDP never
      loses its all-ones checksum, because zero is spelt that way. */
  lemma RoundTripIff(p: seq<byte>, slot: Slot, now: Ip)
    requires Usable(p)
    ensures Usable(Rewritten(p, slot, now))
    ensures Rewritten(Rewritten(p, slot, now), slot, Addr(p, Offset(slot))) == p <==>
      || now == Addr(p, Offset(slot))
      || (Word(p, 10) != 0xffff
          && !(TransportChecksum(p).Some? && p[9] == 6 && Word(p, TransportChecksum(p).value) == 0xffff))
  {
    RewriteTouches(p, slot, now);
    var was, q := Addr(p, Offset(slot)), Rewritten(p, slot, now);
    if now != was {
      RewriteWords(p, slot, now);
      TransportKept(p, slot, now);
      RewriteBackWords(p, q, slot, was);
      BackIff(p, q, Rewritten(q, slot, was), Offset(slot), TransportChecksum(p), was, now);
    }
  }

  /** A packet with a header checksum of all ones, there and back. */
  lemma RoundTripCanFail() returns (p: seq<byte>, now: Ip)
    ensures Usable(p) && Usable(Rewritten(p, Source, now))
    ensures Rewritten(Rewritten(p, Source, now), Source, Addr(p, 12)) != p
  {
    p := [0x45, 0, 0, 20, 0, 0, 0, 0, 64, 1, 0xff, 0xff, 10, 200, 0, 2, 8, 8, 8, 8];
    now := Ip(0x0ac8, 7);
    assert Word(p, 10) == 0xffff && Addr(p, 12).lo == 2;
    RoundTripIff(p, Source, now);
  }

  /** The second rewrite's words, said with the first packet's checksum place. */
  lemma RewriteBackWords(p: seq<byte>, q: seq<byte>, slot: Slot, was: Ip)
    requires Usable(p) && Usable(q) && |q| == |p| && TransportChecksum(q) == TransportChecksum(p)
    requires Addr(q, Offset(slot)) != was
    ensures var r, at := Rewritten(q, slot, was), TransportChecksum(p);
      && Addr(r, Offset(slot)) == was
      && Word(r, 10) == Update(Word(q, 10), Addr(q, Offset(slot)), was)
      && (at.Some? ==> Word(r, at.value) == Adjusted(q, at.value, Addr(q, Offset(slot)), was))
      && forall k :: 0 <= k < |p| && r[k] != q[k] ==>
           Offset(slot) <= k < Offset(slot) + 4 || 10 <= k < 12 || (at.Some? && at.value <= k < at.value + 2)
  {
    RewriteTouches(q, slot, was);
    RewriteWords(q, slot, was);
  }

  lemma BackIff(p: seq<byte>, q: seq<byte>, r: seq<byte>, off: nat, at: Option<nat>, was: Ip, now: Ip)
    requires 20 <= |p| == |q| == |r| && (off == 12 || off == 16) && was != now && q[9] == p[9]
    requires at.Some? ==> 20 <= at.value && at.value + 1 < |p| && (p[9] == 17 ==> Word(p, at.value) != 0)
    requires at.Some? ==> p[9] == 6 || p[9] == 17
    requires Addr(p, off) == was && Addr(r, off) == was
    requires Word(q, 10) == Update(Word(p, 10), was, now) && Word(r, 10) == Update(Word(q, 10), now, was)
    requires at.Some? ==> Word(q, at.value) == Adjusted(p, at.value, was, now)
                          && Word(r, at.value) == Adjusted(q, at.value, now, was)
    requires forall k :: 0 <= k < |p| && (r[k] != q[k] || q[k] != p[k]) ==>
      off <= k < off + 4 || 10 <= k < 12 || (at.Some? && at.value <= k < at.value + 2)
    ensures r == p <==> Word(p, 10) != 0xffff && !(at.Some? && p[9] == 6 && Word(p, at.value) == 0xffff)
  {
    ThereAndBack(Word(p, 10), was, now);
    if at.Some? { AdjustedBack(p, q, at.value, was, now); }
    EqualByWords(p, r, off, at);
  }

  lemma RewriteWords(p: seq<byte>, slot: Slot, now: Ip)
    requires Usable(p) && Addr(p, Offset(slot)) != now
    ensures var q := Rewritten(p, slot, now);
      && Word(q, 10) == Update(Word(p, 10), Addr(p, Offset(slot)), now)
      && (TransportChecksum(p).Some? ==>
            var at := TransportChecksum(p).value;
            Word(q, at) == Adjusted(p, at, Addr(p, Offset(slot)), now))
  {
  }

  lemma TransportKept(p: seq<byte>, slot: Slot, now: Ip)
    requires Usable(p) && Usable(Rewritten(p, slot, now)) && Addr(p, Offset(slot)) != now
    ensures TransportChecksum(Rewritten(p, slot, now)) == TransportChecksum(p)
    ensures Rewritten(p, slot, now)[9] == p[9]
  {
    RewriteTouches(p, slot, now);
    RewriteWords(p, slot, now);
    SameTransport(p, Rewritten(p, slot, now));
  }

  lemma SameTransport(p: seq<byte>, q: seq<byte>)
    requires Usable(p) && Usable(q) && |q| == |p| && forall k :: 0 <= k < 10 ==> q[k] == p[k]
    requires forall k :: HeaderLength(p) <= k < |p| && q[k] != p[k] ==>
      TransportChecksum(p).Some? && TransportChecksum(p).value <= k < TransportChecksum(p).value + 2
    requires TransportChecksum(p).Some? && p[9] == 17 ==> Word(q, TransportChecksum(p).value) != 0
    ensures TransportChecksum(q) == TransportChecksum(p) && q[9] == p[9]
  {
    assert q[0] == p[0] && q[6] == p[6] && q[7] == p[7] && q[9] == p[9];
    var at := ChecksumPlace(p);
    assert at == ChecksumPlace(q);
    if TransportChecksum(p).None? && at + 2 <= |p| {
      assert q[at] == p[at] && q[at + 1] == p[at + 1];
    }
  }

  /** Words that differ by a multiple of 65535 are equal, or the two zeros. */
  lemma SameWord(c: u16, d: u16, m: int)
    requires d == c + 65535 * m
    ensures d != 0xffff ==> d == if c == 0xffff then 0 else c
    ensures c != 0 && d != 0 ==> d == c
  {
    assert m == 0 || m == 1 || m == -1;
  }

  lemma AdjustedBack(p: seq<byte>, q: seq<byte>, at: nat, was: Ip, now: Ip)
    requires was != now && at + 1 < |p| == |q| && |p| >= 20 && q[9] == p[9]
    requires Word(q, at) == Adjusted(p, at, was, now)
    requires p[9] == 17 ==> Word(p, at) != 0
    ensures Adjusted(q, at, now, was) == if p[9] != 17 && Word(p, at) == 0xffff then 0 else Word(p, at)
  {
    if p[9] == 17 {
      var j := AdjustedIsDelta(p, at, was, now);
      var k := AdjustedIsDelta(q, at, now, was);
      SameWord(Word(p, at), Adjusted(q, at, now, was), j + k);
    } else {
      ThereAndBack(Word(p, at), was, now);
    }
  }

  /** Two packets that agree outside the rewritten fields and on the address
      are equal exactly if they agree on the checksum words. */
  lemma EqualByWords(p: seq<byte>, r: seq<byte>, off: nat, at: Option<nat>)
    requires |p| == |r| && 20 <= |p| && (off == 12 || off == 16) && (at.Some? ==> 20 <= at.value && at.value + 1 < |p|)
    requires Addr(r, off) == Addr(p, off)
    requires forall k :: 0 <= k < |p| && r[k] != p[k] ==>
      off <= k < off + 4 || 10 <= k < 12 || (at.Some? && at.value <= k < at.value + 2)
    ensures r == p <==> Word(r, 10) == Word(p, 10) && (at.Some? ==> Word(r, at.value) == Word(p, at.value))
  {
  }

  lemma ThereAndBack(c: u16, was: Ip, now: Ip)
    requires was != now
    ensures Update(Update(c, was, now), now, was) == if c == 0xffff then 0 else c
  {
    var j := UpdateIsDelta(c, was, now);
    var k := UpdateIsDelta(Update(c, was, now), now, was);
    SameWord(c, Update(Update(c, was, now), now, was), j + k);
  }

  lemma SumsValidTogether(x: nat, y: nat, k: int)
    requires y == x + 65535 * k && x > 0 && y > 0
    ensures Valid(x) <==> Valid(y)
  {
    FoldIsResidue(x);
    FoldIsResidue(y);
    if k >= 0 { ShiftedResidue(x - 1, k); } else { ShiftedResidue(y - 1, -k); }
  }

  lemma AdjustedIsDelta(p: seq<byte>, at: nat, was: Ip, now: Ip) returns (k: int)
    requires at + 1 < |p| && |p| >= 20
    ensures Adjusted(p, at, was, now) + now.hi + now.lo == Word(p, at) + was.hi + was.lo + 65535 * k
  {
    k := UpdateIsDelta(Word(p, at), was, now);
    if Adjusted(p, at, was, now) != Update(Word(p, at), was, now) { k := k + 1; }
  }
}
