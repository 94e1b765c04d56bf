/** Server identity pins: printing, parsing, matching. SHA-256 is a parameter,
    and so is the upper-casing of characters outside ASCII, except that white
    space stays itself. */
module IdentityPin {
  import opened Common
  import B = Base32

  const PREFIX := "ik:"
  const VERSION := 1
  const KEY_LEN := 32

  type Hash = h: seq<byte> | |h| == 32 witness seq(32, _ => 0)

  /** Version 0 is the legacy form: 16 bytes of the key itself, then zeros. */
  datatype Pin = Pin(version: nat, hash: Hash)

  // ---- strings ----

  /** Unicode White_Space. */
  predicate IsWhite(c: char)
  {
    var n := c as int;
    || 9 <= n <= 13 || n == 32 || n == 0x85 || n == 0xA0 || n == 0x1680 || 0x2000 <= n <= 0x200A
    || n == 0x2028 || n == 0x2029 || n == 0x202F || n == 0x205F || n == 0x3000
  }

  /** ASCII white space, which leaves out the vertical tab. */
  predicate IsAsciiWhite(c: char) { c in {' ', '\t', '\n', '\r', 12 as char} }

  function TrimLeft(s: string): string { if s != [] && IsWhite(s[0]) then TrimLeft(s[1..]) else s }

  function TrimRight(s: string): string
  {
    if s != [] && IsWhite(s[|s| - 1]) then TrimRight(s[..|s| - 1]) else s
  }

  function Trim(s: string): string { TrimRight(TrimLeft(s)) }

  lemma TrimNothing(s: string)
    requires s != [] && !IsWhite(s[0]) && !IsWhite(s[|s| - 1])
    ensures Trim(s) == s
  {
  }

  ghost predicate AllWhite(s: string) { forall c :: c in s ==> IsWhite(c) }

  lemma {:induction false} LeftWhite(a: string, t: string)
    requires AllWhite(a) && (t == [] || !IsWhite(t[0]))
    ensures TrimLeft(a + t) == t
  {
    if a == [] {
      assert a + t == t;
    } else {
      assert a[0] in a && (a + t)[1..] == a[1..] + t;
      LeftWhite(a[1..], t);
    }
  }

  lemma {:induction false} RightWhite(t: string, b: string)
    requires AllWhite(b) && (t == [] || !IsWhite(t[|t| - 1]))
    ensures TrimRight(t + b) == t
  {
    if b == [] {
      assert t + b == t;
    } else {
      assert b[|b| - 1] in b && (t + b)[..|t + b| - 1] == t + b[..|b| - 1];
      RightWhite(t, b[..|b| - 1]);
    }
  }

  /** Trimming takes off all white space before and after, and nothing else. */
  lemma TrimsEnds(a: string, t: string, b: string)
    requires AllWhite(a) && AllWhite(b) && t != [] && !IsWhite(t[0]) && !IsWhite(t[|t| - 1])
    ensures Trim(a + t + b) == t
  {
    assert a + t + b == a + (t + b);
    LeftWhite(a, t + b);
    RightWhite(t, b);
  }

  /** What stands before and after the first colon. */
  function SplitColon(s: string): Option<(string, string)>
  {
    if s == [] then None
    else if s[0] == ':' then Some(([], s[1..]))
    else
      var r := SplitColon(s[1..]);
      if r.None? then None else Some(([s[0]] + r.value.0, r.value.1))
  }

  lemma {:induction false} JoinSplits(before: string, after: string)
    requires ':' !in before
    ensures SplitColon(before + [':'] + after) == Some((before, after))
  {
    var s := before + [':'] + after;
    if before == [] {
      assert s[1..] == after;
    } else {
      assert before == [before[0]] + before[1..] && before[0] in before;
      assert s[1..] == before[1..] + [':'] + after;
      JoinSplits(before[1..], after);
    }
  }

  lemma {:induction false} SplitJoins(s: string)
    requires SplitColon(s).Some?
    ensures ':' !in SplitColon(s).value.0 && s == SplitColon(s).value.0 + [':'] + SplitColon(s).value.1
  {
    if s[0] != ':' { SplitJoins(s[1..]); }
    assert s == [s[0]] + s[1..];
  }

  function Value(digits: string): Option<nat>
  {
    if digits == [] then Some(0)
    else
      var front, c := Value(digits[..|digits| - 1]), digits[|digits| - 1];
      if front.Some? && '0' <= c <= '9' then Some(10 * front.value + (c as int - '0' as int)) else None
  }

  /** An unsigned byte in decimal: an optional plus sign, then digits. */
  function ParseU8(s: string): Option<nat>
  {
    var digits := if s != [] && s[0] == '+' then s[1..] else s;
    if digits == [] then None
    else
      var n := Value(digits);
      if n.Some? && n.value <= 255 then n else None
  }

  function Upper(s: string, other: char -> string): string
  {
    if s == [] then []
    else Upper(s[..|s| - 1], other) + UpperChar(s[|s| - 1], other)
  }

  function UpperChar(c: char, other: char -> string): string
  {
    if 'a' <= c <= 'z' then [(c as int - 32) as char]
    else if c as int < 128 || IsWhite(c) then [c]
    else other(c)
  }

  // ---- base32 text ----

  function Upper32(n: B.Symbol): char { if n < 26 then ('A' as int + n) as char else ('2' as int + n - 26) as char }

  function Lower32(n: B.Symbol): char { if n < 26 then ('a' as int + n) as char else ('2' as int + n - 26) as char }

  function Symbol(c: char): Option<B.Symbol>
  {
    if 'A' <= c <= 'Z' then Some(c as int - 'A' as int)
    else if '2' <= c <= '7' then Some(c as int - '2' as int + 26)
    else None
  }

  function UpperText(ns: seq<B.Symbol>): string { seq(|ns|, i requires 0 <= i < |ns| => Upper32(ns[i])) }

  function LowerText(ns: seq<B.Symbol>): string { seq(|ns|, i requires 0 <= i < |ns| => Lower32(ns[i])) }

  function Symbols(s: string): Option<seq<B.Symbol>>
  {
    if s == [] then Some([])
    else
      var front, last := Symbols(s[..|s| - 1]), Symbol(s[|s| - 1]);
      if front.Some? && last.Some? then Some(front.value + [last.value]) else None
  }

  lemma {:induction false} TextHasSymbols(ns: seq<B.Symbol>)
    ensures Symbols(UpperText(ns)) == Some(ns)
  {
    if ns != [] {
      var ns' := ns[..|ns| - 1];
      TextHasSymbols(ns');
      assert UpperText(ns)[..|ns| - 1] == UpperText(ns');
      assert ns == ns' + [ns[|ns| - 1]];
    }
  }

  lemma {:induction false} SymbolsHaveText(s: string)
    requires Symbols(s).Some?
    ensures UpperText(Symbols(s).value) == s
  {
    if s != [] {
      SymbolsHaveText(s[..|s| - 1]);
      assert s == s[..|s| - 1] + [s[|s| - 1]];
    }
  }

  lemma {:induction false} UpperOfLower(ns: seq<B.Symbol>, other: char -> string)
    ensures Upper(LowerText(ns), other) == UpperText(ns)
  {
    if ns != [] {
      var ns' := ns[..|ns| - 1];
      UpperOfLower(ns', other);
      assert LowerText(ns)[..|ns| - 1] == LowerText(ns');
      assert UpperText(ns) == UpperText(ns') + [Upper32(ns[|ns| - 1])];
    }
  }

  // ---- hexadecimal ----

  function HexValue(c: char): Option<nat>
  {
    if '0' <= c <= '9' then Some(c as int - '0' as int)
    else if 'a' <= c <= 'f' then Some(c as int - 'a' as int + 10)
    else if 'A' <= c <= 'F' then Some(c as int - 'A' as int + 10)
    else None
  }

  function HexDecode(s: string): Option<seq<byte>>
  {
    if s == [] then Some([])
    else if |s| == 1 then None
    else
      var hi, lo, rest := HexValue(s[0]), HexValue(s[1]), HexDecode(s[2..]);
      if hi.None? || lo.None? || rest.None? then None else Some([16 * hi.value + lo.value] + rest.value)
  }

  function HexDigit(n: nat): char
    requires n < 16
  {
    if n < 10 then ('0' as int + n) as char else ('a' as int + n - 10) as char
  }

  function HexText(bytes: seq<byte>): (s: string)
    ensures |s| == 2 * |bytes| && forall c :: c in s ==> HexValue(c).Some?
  {
    if bytes == [] then [] else [HexDigit(bytes[0] / 16), HexDigit(bytes[0] % 16)] + HexText(bytes[1..])
  }

  function LowerChar(c: char): char { if 'A' <= c <= 'Z' then (c as int + 32) as char else c }

  function LowerHex(s: string): string { seq(|s|, i requires 0 <= i < |s| => LowerChar(s[i])) }

  lemma HexChar(c: char, n: nat)
    requires n < 16
    ensures HexValue(c) == Some(n) <==> LowerChar(c) == HexDigit(n)
  {
  }

  lemma HexPair(hi: char, lo: char, b: byte)
    ensures HexValue(hi).Some? && HexValue(lo).Some? && 16 * HexValue(hi).value + HexValue(lo).value == b <==>
      LowerChar(hi) == HexDigit(b / 16) && LowerChar(lo) == HexDigit(b % 16)
  {
    HexChar(hi, b / 16);
    HexChar(lo, b % 16);
    assert HexValue(hi).Some? ==> HexValue(hi).value < 16;
    assert HexValue(lo).Some? ==> HexValue(lo).value < 16;
  }

  lemma {:induction false} HexTextDecodes(s: string, bytes: seq<byte>)
    requires LowerHex(s) == HexText(bytes)
    ensures HexDecode(s) == Some(bytes)
  {
    if bytes != [] {
      assert LowerHex(s)[0] == LowerChar(s[0]) && LowerHex(s)[1] == LowerChar(s[1]);
      HexPair(s[0], s[1], bytes[0]);
      assert LowerHex(s)[2..] == LowerHex(s[2..]) && HexText(bytes)[2..] == HexText(bytes[1..]);
      HexTextDecodes(s[2..], bytes[1..]);
      assert bytes == [bytes[0]] + bytes[1..];
    }
  }

  lemma {:induction false} HexDecodedText(s: string)
    requires HexDecode(s).Some?
    ensures LowerHex(s) == HexText(HexDecode(s).value)
  {
    if s != [] {
      var bytes := HexDecode(s).value;
      HexPair(s[0], s[1], bytes[0]);
      HexDecodedText(s[2..]);
      assert bytes[1..] == HexDecode(s[2..]).value;
      assert LowerHex(s) == [LowerChar(s[0]), LowerChar(s[1])] + LowerHex(s[2..]);
    }
  }

  /** Without ASCII white space and colons. */
  function Squeeze(s: string): string
  {
    if s == [] then []
    else
      var front, c := Squeeze(s[..|s| - 1]), s[|s| - 1];
      if IsAsciiWhite(c) || c == ':' then front else front + [c]
  }

  /** Squeezing drops every colon and every ASCII white space, wherever it
      stands, and keeps everything else, in order. */
  lemma {:induction false} SqueezeDrops(a: string, c: char, b: string)
    ensures Squeeze(a + [c] + b) == Squeeze(a) + (if c == ':' || IsAsciiWhite(c) then [] else [c]) + Squeeze(b)
  {
    var s := a + [c] + b;
    if b == [] {
      assert s[..|s| - 1] == a;
    } else {
      assert s[..|s| - 1] == a + [c] + b[..|b| - 1];
      SqueezeDrops(a, c, b[..|b| - 1]);
    }
  }

  // ---- pins ----

  function Canonical(hash: Hash): string { PREFIX + "1:" + LowerText(B.Encode(hash)) }

  function EncodePin(key: seq<byte>, sha: seq<byte> -> Hash): Option<string>
  {
    if |key| != KEY_LEN then None else Some(Canonical(sha(key)))
  }

  function ParseBody(body: string, other: char -> string): Option<Hash>
  {
    var symbols := Symbols(Upper(Trim(body), other));
    if symbols.None? then None
    else
      var bytes := B.Decode(symbols.value);
      if bytes.None? || |bytes.value| != 32 then None else Some(bytes.value)
  }

  /** The 16 bytes of a legacy pin in the place of a hash. */
  function Padded(bytes: seq<byte>): Hash
    requires |bytes| == 16
  {
    bytes + seq(16, _ => 0)
  }

  function FromHex(hex: string): Option<Pin>
  {
    var bytes := HexDecode(hex);
    if bytes.None? then None
    else if |hex| == 64 && |bytes.value| == 32 then Some(Pin(VERSION, bytes.value))
    else if |hex| == 32 && |bytes.value| == 16 then Some(Pin(0, Padded(bytes.value)))
    else None
  }

  function FromParts(version: string, body: string, other: char -> string): Option<Pin>
  {
    if ParseU8(version) != Some(VERSION) then None
    else
      var hash := ParseBody(body, other);
      if hash.None? then None else Some(Pin(VERSION, hash.value))
  }

  function ParsePin(input: string, other: char -> string): Option<Pin>
  {
    var s := Trim(input);
    if PREFIX <= s then
      var parts := SplitColon(s[|PREFIX|..]);
      if parts.None? then None else FromParts(parts.value.0, parts.value.1, other)
    else FromHex(Squeeze(s))
  }

  /** Whether a key is the one pinned; `None` for a pin that does not parse. */
  function Matches(pin: Option<Pin>, key: seq<byte>, sha: seq<byte> -> Hash): Option<bool>
  {
    if pin.None? then None
    else if pin.value.version == 0 then Some(|key| >= 16 && pin.value.hash[..16] == key[..16])
    else Some(pin.value.hash == sha(key))
  }

  /** In the `ik:` form a pin is accepted exactly when it has version one, in any
      spelling, and a body that upper-cases to the one text of its hash. */
  lemma BodyIff(body: string, hash: Hash, other: char -> string)
    ensures ParseBody(body, other) == Some(hash) <==> Upper(Trim(body), other) == UpperText(B.Encode(hash))
  {
    var text := Upper(Trim(body), other);
    var ns := B.Encode(hash);
    TextHasSymbols(ns);
    B.DecodeEncoded(hash);
    if ParseBody(body, other) == Some(hash) {
      SymbolsHaveText(text);
      B.EncodeDecoded(Symbols(text).value);
    }
  }

  lemma PinParts(input: string, v: string, body: string, other: char -> string)
    requires ':' !in v && Trim(input) == PREFIX + v + ":" + body
    ensures ParsePin(input, other) == FromParts(v, body, other)
  {
    var s := Trim(input);
    assert s[|PREFIX|..] == v + [':'] + body;
    JoinSplits(v, body);
  }

  lemma PinIff(input: string, v: string, body: string, hash: Hash, other: char -> string)
    requires ':' !in v && Trim(input) == PREFIX + v + ":" + body
    ensures ParsePin(input, other) == Some(Pin(VERSION, hash)) <==>
      ParseU8(v) == Some(VERSION) && Upper(Trim(body), other) == UpperText(B.Encode(hash))
  {
    PinParts(input, v, body, other);
    BodyIff(body, hash, other);
  }

  /** And everything accepted in that form has these parts. */
  lemma AcceptedHasParts(input: string, other: char -> string) returns (v: string, body: string)
    requires ParsePin(input, other).Some? && PREFIX <= Trim(input)
    ensures ':' !in v && Trim(input) == PREFIX + v + ":" + body
  {
    var s := Trim(input);
    SplitJoins(s[|PREFIX|..]);
    v, body := SplitColon(s[|PREFIX|..]).value.0, SplitColon(s[|PREFIX|..]).value.1;
    assert s == PREFIX + s[|PREFIX|..];
  }

  lemma CanonicalText(hash: Hash, other: char -> string)
    ensures Upper(Trim(LowerText(B.Encode(hash))), other) == UpperText(B.Encode(hash))
    ensures Trim(Canonical(hash)) == Canonical(hash)
  {
    var ns := B.Encode(hash);
    B.DecodeEncoded(hash);
    B.PinLength(ns);
    TrimNothing(LowerText(ns));
    UpperOfLower(ns, other);
    var s := Canonical(hash);
    assert s[|s| - 1] == LowerText(ns)[|ns| - 1];
    TrimNothing(s);
  }

  lemma VersionOne()
    ensures ParseU8("1") == Some(VERSION)
  {
    assert "1"[..0] == [] && Value([]) == Some(0);
  }

  lemma {:induction false} ZeroIff(digits: string)
    ensures Value(digits) == Some(0) <==> forall i :: 0 <= i < |digits| ==> digits[i] == '0'
  {
    if digits != [] {
      var front := digits[..|digits| - 1];
      ZeroIff(front);
      assert digits == front + [digits[|digits| - 1]];
      assert forall i :: 0 <= i < |front| ==> front[i] == digits[i];
    }
  }

  /** Version one may be spelt with a plus sign and with leading zeros, and in
      no other way. */
  lemma VersionIff(v: string)
    ensures ParseU8(v) == Some(VERSION) <==>
      var digits := if v != [] && v[0] == '+' then v[1..] else v;
      digits != [] && digits[|digits| - 1] == '1' && forall i :: 0 <= i < |digits| - 1 ==> digits[i] == '0'
  {
    var digits := if v != [] && v[0] == '+' then v[1..] else v;
    if digits != [] {
      var front := digits[..|digits| - 1];
      ZeroIff(front);
      assert forall i :: 0 <= i < |front| ==> front[i] == digits[i];
    }
  }

  lemma UpperSymbol(n: B.Symbol, other: char -> string)
    ensures UpperChar(Upper32(n), other) == [Upper32(n)]
  {
  }

  lemma {:induction false} UpperOfUpper(ns: seq<B.Symbol>, other: char -> string)
    ensures Upper(UpperText(ns), other) == UpperText(ns)
  {
    if ns != [] {
      var ns' := ns[..|ns| - 1];
      UpperOfUpper(ns', other);
      UpperSymbol(ns[|ns| - 1], other);
      assert UpperText(ns)[..|ns| - 1] == UpperText(ns');
      assert UpperText(ns) == UpperText(ns') + [Upper32(ns[|ns| - 1])];
    }
  }

  /** A pin whose body is in upper case is the same pin. */
  lemma UppercaseParses(hash: Hash, other: char -> string)
    ensures ParsePin(PREFIX + "1:" + UpperText(B.Encode(hash)), other) == Some(Pin(VERSION, hash))
  {
    var ns := B.Encode(hash);
    var body := UpperText(ns);
    var s := PREFIX + "1:" + body;
    B.DecodeEncoded(hash);
    B.PinLength(ns);
    TrimNothing(body);
    UpperOfUpper(ns, other);
    assert s[|s| - 1] == body[|ns| - 1];
    TrimNothing(s);
    VersionOne();
    assert s == PREFIX + "1" + ":" + body;
    PinIff(s, "1", body, hash, other);
  }

  /** Printing then parsing gives the hash back, for every hash. */
  lemma CanonicalParses(hash: Hash, other: char -> string)
    ensures ParsePin(Canonical(hash), other) == Some(Pin(VERSION, hash))
  {
    var body := LowerText(B.Encode(hash));
    CanonicalText(hash, other);
    VersionOne();
    assert Canonical(hash) == PREFIX + "1" + ":" + body;
    PinIff(Canonical(hash), "1", body, hash, other);
  }

  /** A key is given a pin exactly if it has 32 bytes, and that pin reads back as
      the hash of the key. */
  lemma EncodedPinParses(key: seq<byte>, sha: seq<byte> -> Hash, other: char -> string)
    ensures EncodePin(key, sha).Some? <==> |key| == KEY_LEN
    ensures EncodePin(key, sha).Some? ==> ParsePin(EncodePin(key, sha).value, other) == Some(Pin(VERSION, sha(key)))
  {
    if |key| == KEY_LEN { CanonicalParses(sha(key), other); }
  }

  lemma PaddedApart(a: seq<byte>, b: seq<byte>)
    requires |a| == 16 && |b| == 16
    ensures Padded(a) == Padded(b) <==> a == b
  {
    assert Padded(a)[..16] == a && Padded(b)[..16] == b;
  }

  lemma FromHexIff(hex: string, bytes: seq<byte>)
    requires |bytes| == 16 || |bytes| == 32
    ensures FromHex(hex) == Some(if |bytes| == 32 then Pin(VERSION, bytes) else Pin(0, Padded(bytes))) <==>
      LowerHex(hex) == HexText(bytes)
  {
    if LowerHex(hex) == HexText(bytes) { HexTextDecodes(hex, bytes); }
    if HexDecode(hex).Some? {
      HexDecodedText(hex);
      var d := HexDecode(hex).value;
      if |d| == 16 && |bytes| == 16 { PaddedApart(d, bytes); }
    }
  }

  /** The two hexadecimal forms, in either case and with colons and ASCII white
      space anywhere: 64 digits are a full hash, 32 a legacy pin. */
  lemma HexIff(input: string, bytes: seq<byte>, other: char -> string)
    requires !(PREFIX <= Trim(input)) && (|bytes| == 16 || |bytes| == 32)
    ensures ParsePin(input, other) == Some(if |bytes| == 32 then Pin(VERSION, bytes) else Pin(0, Padded(bytes))) <==>
      LowerHex(Squeeze(Trim(input))) == HexText(bytes)
  {
    FromHexIff(Squeeze(Trim(input)), bytes);
  }

  /** And every other pin accepted is one of these. */
  lemma HexAccepted(input: string, other: char -> string) returns (bytes: seq<byte>)
    requires !(PREFIX <= Trim(input)) && ParsePin(input, other).Some?
    ensures (|bytes| == 16 || |bytes| == 32) && LowerHex(Squeeze(Trim(input))) == HexText(bytes)
    ensures ParsePin(input, other).value == if |bytes| == 32 then Pin(VERSION, bytes) else Pin(0, Padded(bytes))
  {
    HexDecodedText(Squeeze(Trim(input)));
    bytes := HexDecode(Squeeze(Trim(input))).value;
  }

  lemma {:induction false} SqueezeKeepsFirst(s: string)
    requires s != [] && !IsAsciiWhite(s[0]) && s[0] != ':'
    ensures Squeeze(s) != [] && Squeeze(s)[0] == s[0]
  {
    if |s| > 1 { SqueezeKeepsFirst(s[..|s| - 1]); }
  }

  lemma BrokenPrefixRefused(input: string, other: char -> string)
    requires Trim(input) != [] && Trim(input)[0] == 'i' && !(PREFIX <= Trim(input))
    ensures ParsePin(input, other).None?
  {
    SqueezeKeepsFirst(Trim(input));
  }
}
