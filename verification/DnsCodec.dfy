/** The DNS proxy's query parser and response builder. */
module DnsCodec {
  import opened Common
  import opened Framing

  const HEADER := 12
  const MIN_TTL := 30

  datatype Error = TooShort | TruncatedName | Compressed | LabelTooLong | NotUtf8 | TruncatedQuestion

  datatype Result<T> = Ok(value: T) | Err(error: Error)

  datatype Query = Query(id: nat, labels: seq<seq<byte>>, qtype: nat)

  datatype Name = Name(labels: seq<seq<byte>>, end: nat)

  // ---- names ----

  /** What the proxy takes for a name: `labels` of 1 to 191 bytes, each with its
      length in front, then a zero byte, stand at `pos` and stop before `end`. */
  ghost predicate IsName(data: seq<byte>, pos: nat, labels: seq<seq<byte>>, end: nat, utf8: seq<byte> -> bool)
    decreases |labels|
  {
    if labels == [] then pos < |data| && data[pos] == 0 && end == pos + 1
    else
      var n := |labels[0]|;
      && 0 < n < 192 && pos + 1 + n <= |data| && data[pos] == n
      && data[pos + 1..pos + 1 + n] == labels[0] && utf8(labels[0])
      && IsName(data, pos + 1 + n, labels[1..], end, utf8)
  }

  function WithLabel(part: seq<byte>, r: Result<Name>): Result<Name>
  {
    if r.Ok? then Ok(Name([part] + r.value.labels, r.value.end)) else r
  }

  /** What walking the labels from `pos` comes to. */
  function WalkName(data: seq<byte>, pos: nat, utf8: seq<byte> -> bool): Result<Name>
    decreases |data| - pos
  {
    if pos >= |data| then Err(TruncatedName)
    else
      var n := data[pos];
      if n == 0 then Ok(Name([], pos + 1))
      else if n >= 192 then Err(Compressed)
      else if pos + 1 + n > |data| then Err(LabelTooLong)
      else
        var part := data[pos + 1..pos + 1 + n];
        if !utf8(part) then Err(NotUtf8) else WithLabel(part, WalkName(data, pos + 1 + n, utf8))
  }

  lemma {:induction false} NameWalks(data: seq<byte>, pos: nat, labels: seq<seq<byte>>, end: nat, utf8: seq<byte> -> bool)
    requires IsName(data, pos, labels, end, utf8)
    ensures WalkName(data, pos, utf8) == Ok(Name(labels, end))
    decreases |labels|
  {
    if labels != [] {
      NameWalks(data, pos + 1 + |labels[0]|, labels[1..], end, utf8);
      assert [labels[0]] + labels[1..] == labels;
    }
  }

  lemma {:induction false} WalkedIsName(data: seq<byte>, pos: nat, utf8: seq<byte> -> bool)
    requires WalkName(data, pos, utf8).Ok?
    ensures IsName(data, pos, WalkName(data, pos, utf8).value.labels, WalkName(data, pos, utf8).value.end, utf8)
    decreases |data| - pos
  {
    if data[pos] != 0 {
      var next := pos + 1 + data[pos];
      WalkedIsName(data, next, utf8);
      var part, rest := data[pos + 1..next], WalkName(data, next, utf8).value;
      assert ([part] + rest.labels)[1..] == rest.labels;
    }
  }

  /** The walk succeeds exactly on the grammar, with the only labels that fit. */
  lemma {:induction false} WalkIff(data: seq<byte>, pos: nat, labels: seq<seq<byte>>, end: nat, utf8: seq<byte> -> bool)
    ensures WalkName(data, pos, utf8) == Ok(Name(labels, end)) <==> IsName(data, pos, labels, end, utf8)
  {
    if WalkName(data, pos, utf8) == Ok(Name(labels, end)) { WalkedIsName(data, pos, utf8); }
    if IsName(data, pos, labels, end, utf8) { NameWalks(data, pos, labels, end, utf8); }
  }

  /** A name is read from its own bytes only. */
  lemma {:induction false} NameIsLocal(a: seq<byte>, b: seq<byte>, pos: nat, labels: seq<seq<byte>>, end: nat, utf8: seq<byte> -> bool)
    requires IsName(a, pos, labels, end, utf8)
    requires end <= |a| && end <= |b| && forall k :: pos <= k < end ==> a[k] == b[k]
    ensures IsName(b, pos, labels, end, utf8)
    decreases |labels|
  {
    NameSpan(a, pos, labels, end, utf8);
    if labels != [] {
      var next := pos + 1 + |labels[0]|;
      NameSpan(a, next, labels[1..], end, utf8);
      assert a[pos + 1..next] == b[pos + 1..next];
      NameIsLocal(a, b, next, labels[1..], end, utf8);
    }
  }

  lemma {:induction false} NameSpan(data: seq<byte>, pos: nat, labels: seq<seq<byte>>, end: nat, utf8: seq<byte> -> bool)
    requires IsName(data, pos, labels, end, utf8)
    ensures pos < end <= |data|
    decreases |labels|
  {
    if labels != [] { NameSpan(data, pos + 1 + |labels[0]|, labels[1..], end, utf8); }
  }

  // ---- queries ----

  function ParseQuery(data: seq<byte>, utf8: seq<byte> -> bool): Result<Query>
  {
    if |data| < HEADER + 5 then Err(TooShort)
    else
      var name := WalkName(data, HEADER, utf8);
      if name.Err? then Err(name.error)
      else
        var end := name.value.end;
        if end + 4 > |data| then Err(TruncatedQuestion)
        else Ok(Query(FromBe16(data[0], data[1]), name.value.labels, FromBe16(data[end], data[end + 1])))
  }

  /** The packets accepted are exactly those with such a name at byte 12 and four
      bytes behind it; the result is what stands there. */
  lemma {:induction false} AcceptedIff(data: seq<byte>, q: Query, end: nat, utf8: seq<byte> -> bool)
    requires IsName(data, HEADER, q.labels, end, utf8)
    ensures ParseQuery(data, utf8).Ok? <==> end + 4 <= |data|
    ensures ParseQuery(data, utf8) == Ok(q) <==>
      end + 4 <= |data| && q.id == FromBe16(data[0], data[1]) && q.qtype == FromBe16(data[end], data[end + 1])
  {
    WalkIff(data, HEADER, q.labels, end, utf8);
    NameSpan(data, HEADER, q.labels, end, utf8);
  }

  lemma {:induction false} AcceptedIsName(data: seq<byte>, utf8: seq<byte> -> bool) returns (end: nat)
    requires ParseQuery(data, utf8).Ok?
    ensures IsName(data, HEADER, ParseQuery(data, utf8).value.labels, end, utf8)
    ensures HEADER < end && end + 4 <= |data|
  {
    var name := WalkName(data, HEADER, utf8).value;
    end := name.end;
    WalkIff(data, HEADER, name.labels, end, utf8);
    NameSpan(data, HEADER, name.labels, end, utf8);
  }

  // ---- refusals ----

  /** Whole labels, good as far as they go, stand from `pos` to `at`. */
  ghost predicate LabelsUpTo(data: seq<byte>, pos: nat, labels: seq<seq<byte>>, at: nat, utf8: seq<byte> -> bool)
    decreases |labels|
  {
    if labels == [] then at == pos
    else
      var n := |labels[0]|;
      && 0 < n < 192 && pos + 1 + n <= |data| && data[pos] == n
      && data[pos + 1..pos + 1 + n] == labels[0] && utf8(labels[0])
      && LabelsUpTo(data, pos + 1 + n, labels[1..], at, utf8)
  }

  /** What is wrong at `at`: nothing is there, a pointer, a label that does not
      fit the packet, or one that is not text. */
  ghost predicate FailsAt(data: seq<byte>, at: nat, e: Error, utf8: seq<byte> -> bool)
  {
    match e
    case TruncatedName => at >= |data|
    case Compressed => at < |data| && data[at] >= 192
    case LabelTooLong => at < |data| && 0 < data[at] < 192 && at + 1 + data[at] > |data|
    case NotUtf8 => at < |data| && 0 < data[at] < 192 && at + 1 + data[at] <= |data| && !utf8(data[at + 1..at + 1 + data[at]])
    case _ => false
  }

  lemma {:induction false} FailureStops(data: seq<byte>, pos: nat, labels: seq<seq<byte>>, at: nat, e: Error, utf8: seq<byte> -> bool)
    requires LabelsUpTo(data, pos, labels, at, utf8) && FailsAt(data, at, e, utf8)
    ensures WalkName(data, pos, utf8) == Err(e)
    decreases |labels|
  {
    if labels != [] { FailureStops(data, pos + 1 + |labels[0]|, labels[1..], at, e, utf8); }
  }

  lemma {:induction false} StopHasReason(data: seq<byte>, pos: nat, utf8: seq<byte> -> bool) returns (labels: seq<seq<byte>>, at: nat)
    requires WalkName(data, pos, utf8).Err?
    ensures LabelsUpTo(data, pos, labels, at, utf8) && FailsAt(data, at, WalkName(data, pos, utf8).error, utf8)
    decreases |data| - pos
  {
    labels, at := [], pos;
    if pos < |data| && data[pos] < 192 && pos + 1 + data[pos] <= |data| && utf8(data[pos + 1..pos + 1 + data[pos]]) {
      var part, rest := data[pos + 1..pos + 1 + data[pos]], [];
      rest, at := StopHasReason(data, pos + 1 + data[pos], utf8);
      labels := [part] + rest;
      assert labels[1..] == rest;
    }
  }

  /** Which error a packet gets: too short below 17 bytes; else the first thing
      wrong with the labels from byte 12 on, given any whole labels in front of
      it; else, with a whole name, a question cut short. */
  lemma RefusedIff(data: seq<byte>, labels: seq<seq<byte>>, at: nat, e: Error, utf8: seq<byte> -> bool)
    requires LabelsUpTo(data, HEADER, labels, at, utf8)
    ensures ParseQuery(data, utf8) == Err(TooShort) <==> |data| < 17
    ensures |data| >= 17 && FailsAt(data, at, e, utf8) ==> ParseQuery(data, utf8) == Err(e)
    ensures |data| >= 17 && at < |data| && data[at] == 0 ==>
      (ParseQuery(data, utf8) == Err(TruncatedQuestion) <==> at + 5 > |data|)
  {
    if FailsAt(data, at, e, utf8) { FailureStops(data, HEADER, labels, at, e, utf8); }
    if at < |data| && data[at] == 0 { ZeroEnds(data, HEADER, labels, at, utf8); }
    if WalkName(data, HEADER, utf8).Err? { var _, q := StopHasReason(data, HEADER, utf8); }
  }

  lemma {:induction false} ZeroEnds(data: seq<byte>, pos: nat, labels: seq<seq<byte>>, at: nat, utf8: seq<byte> -> bool)
    requires LabelsUpTo(data, pos, labels, at, utf8) && at < |data| && data[at] == 0
    ensures WalkName(data, pos, utf8).Ok? && WalkName(data, pos, utf8).value.end == at + 1
    decreases |labels|
  {
    if labels != [] { ZeroEnds(data, pos + 1 + |labels[0]|, labels[1..], at, utf8); }
  }

  function Prepend(front: seq<seq<byte>>, r: Result<Name>): Result<Name>
  {
    if r.Ok? then Ok(Name(front + r.value.labels, r.value.end)) else r
  }

  lemma PrependNone(r: Result<Name>)
    ensures Prepend([], r) == r
  {
    if r.Ok? { assert [] + r.value.labels == r.value.labels; }
  }

  lemma PrependLabel(front: seq<seq<byte>>, part: seq<byte>, r: Result<Name>)
    ensures Prepend(front, WithLabel(part, r)) == Prepend(front + [part], r)
  {
    if r.Ok? { assert front + ([part] + r.value.labels) == front + [part] + r.value.labels; }
  }

  method ParseDnsQuery(data: seq<byte>, utf8: seq<byte> -> bool) returns (r: Result<Query>)
    ensures r == ParseQuery(data, utf8)
  {
    if |data| < HEADER + 5 { return Err(TooShort); }
    var id := FromBe16(data[0], data[1]);
    var pos, labels := HEADER, [];
    ghost var all := WalkName(data, HEADER, utf8);
    PrependNone(all);
    while true
      invariant HEADER <= pos && all == Prepend(labels, WalkName(data, pos, utf8))
      decreases |data| - pos
    {
      if pos >= |data| { return Err(TruncatedName); }
      var len := data[pos];
      if len == 0 {
        assert labels + [] == labels;
        pos := pos + 1;
        break;
      }
      if len >= 192 { return Err(Compressed); }
      pos := pos + 1;
      if pos + len > |data| { return Err(LabelTooLong); }
      var part := data[pos..pos + len];
      if !utf8(part) { return Err(NotUtf8); }
      PrependLabel(labels, part, WalkName(data, pos + len, utf8));
      labels := labels + [part];
      pos := pos + len;
    }
    assert all == Ok(Name(labels, pos));
    if pos + 4 > |data| { return Err(TruncatedQuestion); }
    r := Ok(Query(id, labels, FromBe16(data[pos], data[pos + 1])));
  }

  // ---- the question's end ----

  function QuestionEnd(query: seq<byte>, pos: nat): nat
    decreases |query| - pos
  {
    if pos >= |query| then |query|
    else if query[pos] == 0 then pos + 5
    else QuestionEnd(query, pos + 1 + query[pos])
  }

  method FindQuestionEnd(query: seq<byte>, start: nat) returns (end: nat)
    ensures end == QuestionEnd(query, start)
  {
    var pos := start;
    while pos < |query|
      invariant QuestionEnd(query, pos) == QuestionEnd(query, start)
      decreases |query| - pos
    {
      var len := query[pos];
      if len == 0 { return pos + 5; }
      pos := pos + 1 + len;
    }
    end := |query|;
  }

  /** Two walks that do not share code agree: on any name the parser reads, the
      end found is exactly four bytes past it. */
  lemma {:induction false} EndAfterName(data: seq<byte>, pos: nat, labels: seq<seq<byte>>, end: nat, utf8: seq<byte> -> bool)
    requires IsName(data, pos, labels, end, utf8)
    ensures QuestionEnd(data, pos) == end + 4
    decreases |labels|
  {
    if labels != [] { EndAfterName(data, pos + 1 + |labels[0]|, labels[1..], end, utf8); }
  }

  // ---- responses ----

  /** Four octets. */
  type Ipv4 = s: seq<byte> | |s| == 4 witness [0, 0, 0, 0]

  function Answer(ttl: u32, addr: Ipv4): (r: seq<byte>)
    ensures |r| == 16
  {
    [0xC0, 0x0C, 0, 1, 0, 1] + Be32(ttl) + [0, 4] + addr
  }

  function Answers(ttl: u32, addrs: seq<Ipv4>): seq<byte>
  {
    if addrs == [] then [] else Answer(ttl, addrs[0]) + Answers(ttl, addrs[1..])
  }

  lemma {:induction false} AnswersSnoc(ttl: u32, addrs: seq<Ipv4>, addr: Ipv4)
    ensures Answers(ttl, addrs + [addr]) == Answers(ttl, addrs) + Answer(ttl, addr)
  {
    if addrs == [] {
      assert [addr][1..] == [];
    } else {
      AnswersSnoc(ttl, addrs[1..], addr);
      assert (addrs + [addr])[1..] == addrs[1..] + [addr];
    }
  }

  function Header(id: nat, answers: nat): (r: seq<byte>)
    requires id <= 65535
    ensures |r| == HEADER
  {
    Be16(id) + [0x81, 0x80, 0, 1] + Be16(answers % 65536) + [0, 0, 0, 0]
  }

  function Response(query: seq<byte>, id: nat, addrs: seq<Ipv4>, ttl: u32): seq<byte>
    requires id <= 65535 && HEADER <= QuestionEnd(query, HEADER) <= |query|
  {
    Header(id, |addrs|) + query[HEADER..QuestionEnd(query, HEADER)] + Answers(Max(ttl, MIN_TTL), addrs)
  }

  method BuildDnsResponse(query: seq<byte>, id: nat, addrs: seq<Ipv4>, ttl: u32) returns (out: seq<byte>)
    requires id <= 65535 && HEADER <= QuestionEnd(query, HEADER) <= |query|
    ensures out == Response(query, id, addrs, ttl)
  {
    var ancount := |addrs| % 65536;
    out := Be16(id) + [0x81, 0x80] + [0, 1] + Be16(ancount) + [0, 0, 0, 0];
    assert out == Header(id, |addrs|);
    var end := FindQuestionEnd(query, HEADER);
    out := out + query[HEADER..end];
    out := AppendAnswers(out, Max(ttl, MIN_TTL), addrs);
  }

  method AppendAnswers(front: seq<byte>, ttl: u32, addrs: seq<Ipv4>) returns (out: seq<byte>)
    ensures out == front + Answers(ttl, addrs)
  {
    out := front;
    var ttlBytes := Be32(ttl);
    for i := 0 to |addrs|
      invariant out == front + Answers(ttl, addrs[..i])
    {
      var record := [0xC0, 0x0C] + [0, 1] + [0, 1] + ttlBytes + [0, 4] + addrs[i];
      assert record == Answer(ttl, addrs[i]);
      AnswersSnoc(ttl, addrs[..i], addrs[i]);
      assert addrs[..i + 1] == addrs[..i] + [addrs[i]];
      out := out + record;
    }
    assert addrs[..|addrs|] == addrs;
  }

  lemma Spliced(head: seq<byte>, query: seq<byte>, end: nat, tail: seq<byte>, m: seq<byte>)
    requires |head| <= end <= |query| && m == head + query[|head|..end] + tail
    ensures |m| >= end && m[..|head|] == head && m[end..] == tail
    ensures forall k :: |head| <= k < end ==> m[k] == query[k]
  {
  }

  /** The question, copied, is where it was: byte 12 up to its end. */
  lemma {:induction false} QuestionCopied(query: seq<byte>, id: nat, addrs: seq<Ipv4>, ttl: u32, labels: seq<seq<byte>>, end: nat,
                       utf8: seq<byte> -> bool, m: seq<byte>)
    requires id <= 65535 && HEADER < end && end + 4 <= |query| && QuestionEnd(query, HEADER) == end + 4
    requires IsName(query, HEADER, labels, end, utf8) && m == Response(query, id, addrs, ttl)
    ensures end + 4 <= |m| && IsName(m, HEADER, labels, end, utf8)
    ensures m[end] == query[end] && m[end + 1] == query[end + 1]
    ensures m[end + 4..] == Answers(Max(ttl, MIN_TTL), addrs)
    ensures m[..HEADER] == Header(id, |addrs|)
  {
    Spliced(Header(id, |addrs|), query, end + 4, Answers(Max(ttl, MIN_TTL), addrs), m);
    NameIsLocal(query, m, HEADER, labels, end, utf8);
  }

  /** A query that is accepted can be answered: its question is in bounds. */
  lemma {:induction false} AcceptedInBounds(query: seq<byte>, utf8: seq<byte> -> bool) returns (end: nat)
    requires ParseQuery(query, utf8).Ok?
    ensures IsName(query, HEADER, ParseQuery(query, utf8).value.labels, end, utf8)
    ensures QuestionEnd(query, HEADER) == end + 4 && HEADER < end && end + 4 <= |query|
  {
    end := AcceptedIsName(query, utf8);
    EndAfterName(query, HEADER, ParseQuery(query, utf8).value.labels, end, utf8);
  }

  /** The answer to any accepted query parses again to the same name and type,
      with the id it was built for; it is marked as a response with recursion
      available, and announces no other sections. */
  lemma {:induction false} ResponseReparses(query: seq<byte>, id: nat, addrs: seq<Ipv4>, ttl: u32, utf8: seq<byte> -> bool,
                                            q: Query, m: seq<byte>)
    requires id <= 65535 && ParseQuery(query, utf8) == Ok(q) && HEADER <= QuestionEnd(query, HEADER) <= |query|
    requires m == Response(query, id, addrs, ttl)
    ensures ParseQuery(m, utf8) == Ok(q.(id := id))
    ensures Word(m, 2) == 0x8180 && Word(m, 4) == 1 && Word(m, 8) == 0 && Word(m, 10) == 0
  {
    var end := AcceptedInBounds(query, utf8);
    QuestionCopied(query, id, addrs, ttl, q.labels, end, utf8, m);
    HeaderReads(m, id, |addrs|);
    AcceptedIff(query, q, end, utf8);
    AcceptedIff(m, q.(id := id), end, utf8);
  }

  lemma {:induction false} HeaderReads(m: seq<byte>, id: nat, answers: nat)
    requires id <= 65535 && |m| >= HEADER && m[..HEADER] == Header(id, answers)
    ensures Word(m, 0) == id && Word(m, 2) == 0x8180 && Word(m, 4) == 1 && Word(m, 6) == answers % 65536
    ensures Word(m, 8) == 0 && Word(m, 10) == 0
  {
    var h, a, b := Header(id, answers), Be16(id), Be16(answers % 65536);
    assert forall k :: 0 <= k < HEADER ==> m[k] == h[k];
    assert m[2] == 0x81 && m[3] == 0x80 && m[8] == 0 && m[9] == 0 && m[10] == 0 && m[11] == 0;
    assert m[0] == a[0] && m[1] == a[1] && m[4] == 0 && m[5] == 1 && m[6] == b[0] && m[7] == b[1];
    assert a == [a[0], a[1]] && b == [b[0], b[1]];
    Be16Inverse(id, a[0], a[1]);
    Be16Inverse(answers % 65536, b[0], b[1]);
  }
}
