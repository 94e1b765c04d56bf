/** Which white space in a pin is forgiven. */
module PinSpacing {
  import opened Common
  import opened IdentityPin
  import B = Base32

  function NoWhite(s: string): string
  {
    if s == [] then []
    else
      var front, c := NoWhite(s[..|s| - 1]), s[|s| - 1];
      if IsWhite(c) then front else front + [c]
  }

  ghost predicate Clean(s: string) { forall c :: c in s ==> !IsWhite(c) }

  lemma {:induction false} NoWhiteConcat(a: string, b: string)
    ensures NoWhite(a + b) == NoWhite(a) + NoWhite(b)
  {
    if b == [] {
      assert a + b == a;
    } else {
      assert (a + b)[..|a + b| - 1] == a + b[..|b| - 1];
      NoWhiteConcat(a, b[..|b| - 1]);
    }
  }

  lemma {:induction false} NoWhiteIsClean(s: string)
    ensures Clean(NoWhite(s)) && (Clean(s) ==> NoWhite(s) == s)
  {
    if s != [] {
      assert s == s[..|s| - 1] + [s[|s| - 1]];
      NoWhiteIsClean(s[..|s| - 1]);
    }
  }

  lemma CleanTrims(s: string)
    requires Clean(s)
    ensures Trim(s) == s
  {
    if s != [] {
      assert s[0] in s && s[|s| - 1] in s;
      TrimNothing(s);
    }
  }

  lemma {:induction false} TrimLeftNoWhite(s: string)
    ensures NoWhite(TrimLeft(s)) == NoWhite(s)
    ensures TrimLeft(s) == [] || !IsWhite(TrimLeft(s)[0])
  {
    if s != [] && IsWhite(s[0]) {
      TrimLeftNoWhite(s[1..]);
      assert s == [s[0]] + s[1..];
      NoWhiteConcat([s[0]], s[1..]);
      assert [s[0]][..0] == [] && NoWhite([s[0]]) == [];
    }
  }

  lemma {:induction false} TrimRightNoWhite(s: string)
    ensures NoWhite(TrimRight(s)) == NoWhite(s)
    ensures TrimRight(s) <= s
  {
    if s != [] && IsWhite(s[|s| - 1]) { TrimRightNoWhite(s[..|s| - 1]); }
  }

  lemma TrimNoWhite(s: string)
    ensures NoWhite(Trim(s)) == NoWhite(s)
    ensures Trim(s) == [] || !IsWhite(Trim(s)[0])
  {
    TrimLeftNoWhite(s);
    TrimRightNoWhite(TrimLeft(s));
  }

  lemma {:induction false} NoWhiteKeepsFirst(s: string)
    requires s != [] && !IsWhite(s[0])
    ensures NoWhite(s) != [] && NoWhite(s)[0] == s[0]
  {
    if |s| > 1 { NoWhiteKeepsFirst(s[..|s| - 1]); }
  }

  lemma {:induction false} DigitsAreClean(digits: string)
    requires Value(digits).Some?
    ensures Clean(digits)
  {
    if digits != [] {
      DigitsAreClean(digits[..|digits| - 1]);
      assert digits == digits[..|digits| - 1] + [digits[|digits| - 1]];
    }
  }

  lemma VersionIsClean(v: string)
    requires ParseU8(v).Some?
    ensures Clean(v)
  {
    if v[0] == '+' {
      DigitsAreClean(v[1..]);
      assert v == [v[0]] + v[1..];
    } else {
      DigitsAreClean(v);
    }
  }

  lemma {:induction false} UpperKeepsWhite(s: string, c: char, other: char -> string)
    requires c in s && IsWhite(c)
    ensures c in Upper(s, other)
  {
    var front := s[..|s| - 1];
    assert s == front + [s[|s| - 1]];
    if c in front { UpperKeepsWhite(front, c, other); } else { assert UpperChar(c, other) == [c]; }
  }

  lemma BodyIsClean(body: string, other: char -> string)
    requires ParseBody(body, other).Some?
    ensures Clean(Trim(body))
  {
    BodyIff(body, ParseBody(body, other).value, other);
    forall c | c in Trim(body) ensures !IsWhite(c) {
      if IsWhite(c) { UpperKeepsWhite(Trim(body), c, other); }
    }
  }

  /** White space only around the whole and around the body. */
  ghost predicate Unbroken(input: string)
  {
    var s := Trim(input);
    && PREFIX <= s
    && var parts := SplitColon(s[|PREFIX|..]);
       parts.Some? && Clean(parts.value.0) && Clean(Trim(parts.value.1))
  }

  /** Taking all white space out of an unbroken pin changes nothing else. */
  lemma UnbrokenParts(input: string)
    requires Unbroken(input)
    ensures var parts := SplitColon(Trim(input)[|PREFIX|..]).value;
      NoWhite(input) == PREFIX + parts.0 + ":" + Trim(parts.1)
  {
    var s := Trim(input);
    var v, body := SplitColon(s[|PREFIX|..]).value.0, SplitColon(s[|PREFIX|..]).value.1;
    TrimNoWhite(input);
    SplitJoins(s[|PREFIX|..]);
    var head := PREFIX + v + ":";
    assert s == head + body;
    NoWhiteConcat(head, body);
    NoWhiteIsClean(head);
    TrimNoWhite(body);
    NoWhiteIsClean(Trim(body));
  }

  lemma TrimmedBody(v: string, body: string, other: char -> string)
    requires Clean(Trim(body))
    ensures FromParts(v, Trim(body), other) == FromParts(v, body, other)
  {
    CleanTrims(Trim(body));
  }

  lemma UnbrokenForgiven(input: string, other: char -> string)
    requires Unbroken(input)
    ensures ParsePin(input, other) == ParsePin(NoWhite(input), other)
  {
    var parts := SplitColon(Trim(input)[|PREFIX|..]).value;
    UnbrokenParts(input);
    NoWhiteIsClean(input);
    CleanTrims(NoWhite(input));
    SplitJoins(Trim(input)[|PREFIX|..]);
    PinParts(NoWhite(input), parts.0, Trim(parts.1), other);
    TrimmedBody(parts.0, parts.1, other);
  }

  lemma ForgivenIsUnbroken(input: string, other: char -> string)
    requires ParsePin(input, other).Some? && PREFIX <= NoWhite(input)
    ensures Unbroken(input)
  {
    var s := Trim(input);
    TrimNoWhite(input);
    assert s != [];
    NoWhiteKeepsFirst(s);
    if !(PREFIX <= s) { BrokenPrefixRefused(input, other); }
    var parts := SplitColon(s[|PREFIX|..]).value;
    VersionIsClean(parts.0);
    BodyIsClean(parts.1, other);
  }

  /** When white space is forgiven: a text that is a pin of the `ik:` form once all
      white space is taken out is read as that pin if and only if it had none
      within the prefix, the version or the body. */
  lemma WhiteSpaceIff(input: string, other: char -> string)
    requires PREFIX <= NoWhite(input) && ParsePin(NoWhite(input), other).Some?
    ensures ParsePin(input, other) == ParsePin(NoWhite(input), other) <==> Unbroken(input)
  {
    if Unbroken(input) { UnbrokenForgiven(input, other); }
    if ParsePin(input, other).Some? { ForgivenIsUnbroken(input, other); }
  }

  // ---- the hexadecimal forms ----

  /** Any white space between the ends is ASCII white space. */
  ghost predicate AsciiSpaced(s: string) { forall c :: c in s && IsWhite(c) ==> IsAsciiWhite(c) }

  lemma {:induction false} SqueezeIgnoresWhite(s: string)
    requires AsciiSpaced(s)
    ensures Squeeze(NoWhite(s)) == Squeeze(s)
  {
    if s != [] {
      var front, c := s[..|s| - 1], s[|s| - 1];
      assert s == front + [c] && c in s;
      SqueezeIgnoresWhite(front);
      if !IsWhite(c) { assert NoWhite(s)[..|NoWhite(s)| - 1] == NoWhite(front); }
    }
  }

  lemma {:induction false} SqueezeKeeps(s: string, c: char)
    requires c in s && !IsAsciiWhite(c) && c != ':'
    ensures c in Squeeze(s)
  {
    var front := s[..|s| - 1];
    assert s == front + [s[|s| - 1]];
    if c in front { SqueezeKeeps(front, c); }
  }

  lemma {:induction false} HexCharsOnly(s: string)
    requires HexDecode(s).Some?
    ensures forall c :: c in s ==> HexValue(c).Some?
  {
    if s != [] {
      HexCharsOnly(s[2..]);
      assert s == [s[0], s[1]] + s[2..];
    }
  }

  lemma PrefixSurvives(s: string)
    requires PREFIX <= s
    ensures PREFIX <= NoWhite(s)
  {
    var rest := s[|PREFIX|..];
    assert s == PREFIX + rest;
    NoWhiteConcat(PREFIX, rest);
    NoWhiteIsClean(PREFIX);
  }

  lemma HexSpacedForgiven(input: string, other: char -> string)
    requires !(PREFIX <= Trim(input)) && !(PREFIX <= NoWhite(input)) && AsciiSpaced(Trim(input))
    ensures ParsePin(input, other) == ParsePin(NoWhite(input), other)
  {
    TrimNoWhite(input);
    NoWhiteIsClean(input);
    CleanTrims(NoWhite(input));
    SqueezeIgnoresWhite(Trim(input));
  }

  lemma HexForgivenIsAscii(input: string, other: char -> string)
    requires !(PREFIX <= Trim(input)) && ParsePin(input, other).Some?
    ensures AsciiSpaced(Trim(input))
  {
    var s := Trim(input);
    HexCharsOnly(Squeeze(s));
    forall c | c in s && IsWhite(c) ensures IsAsciiWhite(c) {
      if !IsAsciiWhite(c) { SqueezeKeeps(s, c); }
    }
  }

  /** The same for the hexadecimal forms: a text that is such a pin once all white
      space is taken out is read as that pin if and only if what white space it
      has between its ends is ASCII white space. */
  lemma HexWhiteSpaceIff(input: string, other: char -> string)
    requires !(PREFIX <= NoWhite(input)) && ParsePin(NoWhite(input), other).Some?
    ensures ParsePin(input, other) == ParsePin(NoWhite(input), other) <==> AsciiSpaced(Trim(input))
  {
    TrimNoWhite(input);
    if PREFIX <= Trim(input) { PrefixSurvives(Trim(input)); }
    if AsciiSpaced(Trim(input)) { HexSpacedForgiven(input, other); }
    if ParsePin(input, other).Some? { HexForgivenIsAscii(input, other); }
  }

  const NO_BREAK_SPACE := 0xA0 as char

  /** A legacy pin with a no-break space behind its first digit. */
  function BrokenHex(bytes: seq<byte>): string
    requires |bytes| == 16
  {
    HexText(bytes)[..1] + [NO_BREAK_SPACE] + HexText(bytes)[1..]
  }

  lemma HexIsClean(s: string)
    requires forall c :: c in s ==> HexValue(c).Some?
    ensures Clean(s)
  {
  }

  lemma BrokenHexText(bytes: seq<byte>)
    requires |bytes| == 16
    ensures NoWhite(BrokenHex(bytes)) == HexText(bytes) && Trim(BrokenHex(bytes)) == BrokenHex(bytes)
  {
    var t, s := HexText(bytes), BrokenHex(bytes);
    HexIsClean(t);
    NoWhiteSnoc(t[..1], NO_BREAK_SPACE);
    NoWhiteConcat(t[..1] + [NO_BREAK_SPACE], t[1..]);
    NoWhiteIsClean(t[..1]);
    NoWhiteIsClean(t[1..]);
    assert t[..1] + t[1..] == t;
    assert s[0] == t[0] && s[|s| - 1] == t[|t| - 1] && t[0] in t && t[|t| - 1] in t;
    TrimNothing(s);
  }

  lemma {:induction false} HexTextIsLower(bytes: seq<byte>)
    ensures LowerHex(HexText(bytes)) == HexText(bytes)
  {
    if bytes != [] {
      HexTextIsLower(bytes[1..]);
      var t := HexText(bytes);
      assert t[2..] == HexText(bytes[1..]);
      assert LowerHex(t) == [LowerChar(t[0]), LowerChar(t[1])] + LowerHex(t[2..]);
      assert t == [t[0], t[1]] + t[2..];
    }
  }

  lemma HexTextParses(bytes: seq<byte>, other: char -> string)
    requires |bytes| == 16
    ensures !(PREFIX <= HexText(bytes)) && ParsePin(HexText(bytes), other) == Some(Pin(0, Padded(bytes)))
  {
    var t := HexText(bytes);
    HexIsClean(t);
    CleanTrims(t);
    assert t[0] in t && HexValue(PREFIX[0]).None?;
    HexTextIsItself(t);
    HexTextIsLower(bytes);
    HexIff(t, bytes, other);
  }

  lemma {:induction false} HexTextIsItself(t: string)
    requires forall c :: c in t ==> HexValue(c).Some?
    ensures Squeeze(t) == t
  {
    if t != [] {
      assert t == t[..|t| - 1] + [t[|t| - 1]] && t[|t| - 1] in t;
      HexTextIsItself(t[..|t| - 1]);
    }
  }

  lemma BrokenHexShape(bytes: seq<byte>)
    requires |bytes| == 16
    ensures !(PREFIX <= BrokenHex(bytes)) && !AsciiSpaced(BrokenHex(bytes))
  {
    var t, s := HexText(bytes), BrokenHex(bytes);
    assert s[0] == t[0] && t[0] in t && HexValue(PREFIX[0]).None?;
    assert s[1] == NO_BREAK_SPACE && s[1] in s;
  }

  /** It is refused, although without the space it is the legacy pin. */
  lemma BrokenHexRefused(bytes: seq<byte>, other: char -> string)
    requires |bytes| == 16
    ensures NoWhite(BrokenHex(bytes)) == HexText(bytes)
    ensures ParsePin(HexText(bytes), other) == Some(Pin(0, Padded(bytes))) && ParsePin(BrokenHex(bytes), other).None?
  {
    BrokenHexText(bytes);
    BrokenHexShape(bytes);
    HexTextParses(bytes, other);
    if ParsePin(BrokenHex(bytes), other).Some? { HexForgivenIsAscii(BrokenHex(bytes), other); }
  }

  // ---- the comment's own example ----

  /** A canonical pin written with spaces around its colons. */
  function Spaced(hash: Hash): string { WithSpaces("ik", "1", LowerText(B.Encode(hash))) }

  function WithSpaces(a: string, b: string, c: string): string { a + " : " + b + " : " + c }

  lemma {:induction false} NoWhiteSnoc(s: string, c: char)
    ensures NoWhite(s + [c]) == if IsWhite(c) then NoWhite(s) else NoWhite(s) + [c]
  {
    assert (s + [c])[..|s|] == s;
  }

  lemma {:induction false} SpacedColon(a: string)
    requires Clean(a)
    ensures NoWhite(a + " : ") == a + ":"
  {
    var b := a + [' '];
    var c := b + [':'];
    NoWhiteIsClean(a);
    NoWhiteSnoc(a, ' ');
    NoWhiteSnoc(b, ':');
    NoWhiteSnoc(c, ' ');
    assert a + " : " == c + [' '];
  }

  lemma SpacedParts(a: string, b: string, c: string)
    requires Clean(a) && Clean(b) && Clean(c)
    ensures NoWhite(WithSpaces(a, b, c)) == a + ":" + b + ":" + c
  {
    SpacedColon(a);
    SpacedColon(b);
    NoWhiteIsClean(c);
    NoWhiteConcat(a + " : ", b + " : ");
    NoWhiteConcat(a + " : " + (b + " : "), c);
    assert a + " : " + (b + " : ") == a + " : " + b + " : ";
    assert a + ":" + (b + ":") == a + ":" + b + ":";
  }

  lemma TextIsClean(ns: seq<B.Symbol>)
    ensures Clean(LowerText(ns))
  {
  }

  lemma SpacedIsBroken(hash: Hash)
    ensures var s := Spaced(hash); Trim(s) == s && s[0] == 'i' && !(PREFIX <= s)
  {
    var s, body := Spaced(hash), LowerText(B.Encode(hash));
    B.DecodeEncoded(hash);
    B.PinLength(B.Encode(hash));
    TextIsClean(B.Encode(hash));
    assert s[|s| - 1] == body[|body| - 1] && body[|body| - 1] in body;
    TrimNothing(s);
    assert s[2] == ' ' && PREFIX[2] == ':';
  }

  lemma CanonicalParts(body: string)
    ensures "ik" + ":" + "1" + ":" + body == PREFIX + "1:" + body
  {
    assert "ik" + ":" + "1" + ":" == PREFIX + "1:";
  }

  lemma SpacedText(hash: Hash)
    ensures NoWhite(Spaced(hash)) == Canonical(hash)
  {
    var body := LowerText(B.Encode(hash));
    TextIsClean(B.Encode(hash));
    SpacedParts("ik", "1", body);
    CanonicalParts(body);
  }

  /** It is refused, although without its spaces it is the canonical pin. */
  lemma SpacedPinRefused(hash: Hash, other: char -> string)
    ensures NoWhite(Spaced(hash)) == Canonical(hash) && ParsePin(Canonical(hash), other) == Some(Pin(VERSION, hash))
    ensures ParsePin(Spaced(hash), other).None?
  {
    SpacedText(hash);
    CanonicalParses(hash, other);
    SpacedIsBroken(hash);
    BrokenPrefixRefused(Spaced(hash), other);
  }
}
