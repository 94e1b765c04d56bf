/** What a reader by the standard makes of the proxy's responses. */
module DnsAnswers {
  import opened Common
  import opened Framing
  import opened DnsReader
  import opened DnsCodec

  /** On a name the proxy takes, such a reader succeeds, with the same labels, if
      and only if they are all of at most 63 bytes. */
  lemma {:induction false} LabelsRead(m: seq<byte>, pos: nat, start: nat, labels: seq<seq<byte>>, end: nat,
                                      utf8: seq<byte> -> bool)
    requires IsName(m, pos, labels, end, utf8)
    ensures ReadLabels(m, pos, start) == if Readable(labels, None) then Some(Read(labels, end)) else None
    decreases |labels|
  {
    if labels != [] {
      LabelsRead(m, pos + 1 + |labels[0]|, start, labels[1..], end, utf8);
      ReadableCons(labels);
      assert labels == [labels[0]] + labels[1..];
    }
  }

  lemma ReadableCons(labels: seq<seq<byte>>)
    requires labels != []
    ensures Readable(labels, None) <==> |labels[0]| <= MAX_LABEL && Readable(labels[1..], None)
  {
    assert labels == [labels[0]] + labels[1..];
    assert labels[0] in labels;
  }

  lemma {:induction false} NameReads(m: seq<byte>, labels: seq<seq<byte>>, end: nat, limit: Option<nat>, utf8: seq<byte> -> bool)
    requires IsName(m, HEADER, labels, end, utf8)
    ensures ReadName(m, HEADER, limit) == if Readable(labels, limit) then Some(Read(labels, end)) else None
  {
    LabelsRead(m, HEADER, HEADER, labels, end, utf8);
  }

  /** The A records (type 1, class IN) the proxy means to send. */
  function ARecords(labels: seq<seq<byte>>, ttl: u32, addrs: seq<Ipv4>): seq<Record>
  {
    seq(|addrs|, i requires 0 <= i < |addrs| => Record(labels, 1, 1, ttl, addrs[i]))
  }

  lemma {:induction false} AnswerBytes(ttl: u32, addr: Ipv4)
    ensures var a := Answer(ttl, addr);
      && a[0] == 0xC0 && a[1] == 0x0C && a[2] == 0 && a[3] == 1 && a[4] == 0 && a[5] == 1
      && FromBe32(a[6], a[7], a[8], a[9]) == ttl && a[10] == 0 && a[11] == 4 && a[12..16] == addr
  {
    var a, t := Answer(ttl, addr), Be32(ttl);
    assert t == [t[0], t[1], t[2], t[3]];
    assert a[6] == t[0] && a[7] == t[1] && a[8] == t[2] && a[9] == t[3];
    Be32Inverse(ttl, t[0], t[1], t[2], t[3]);
  }

  /** One answer, wherever it stands behind the question, reads as one A record
      of the name at byte 12. */
  lemma {:induction false} RecordReads(m: seq<byte>, pos: nat, ttl: u32, addr: Ipv4, labels: seq<seq<byte>>, end: nat, limit: Option<nat>)
    requires ReadName(m, HEADER, limit) == Some(Read(labels, end)) && HEADER < pos
    requires pos + 16 <= |m| && m[pos..pos + 16] == Answer(ttl, addr)
    ensures ReadRecord(m, pos, limit) == Some((Record(labels, 1, 1, ttl, addr), pos + 16))
  {
    var a := m[pos..pos + 16];
    AnswerBytes(ttl, addr);
    assert m[pos] == a[0] && m[pos + 1] == a[1];
    assert ReadName(m, pos, limit) == Some(Read(labels, pos + 2));
    assert m[pos + 2] == a[2] && m[pos + 3] == a[3] && m[pos + 4] == a[4] && m[pos + 5] == a[5];
    assert m[pos + 6] == a[6] && m[pos + 7] == a[7] && m[pos + 8] == a[8] && m[pos + 9] == a[9];
    assert m[pos + 10] == a[10] && m[pos + 11] == a[11] && m[pos + 12..pos + 16] == a[12..16];
  }

  /** The answers to `addrs` stand one behind the other from `pos`. */
  ghost predicate Laid(m: seq<byte>, pos: nat, ttl: u32, addrs: seq<Ipv4>)
    decreases |addrs|
  {
    addrs != [] ==>
      pos + 16 <= |m| && m[pos..pos + 16] == Answer(ttl, addrs[0]) && Laid(m, pos + 16, ttl, addrs[1..])
  }

  lemma {:induction false} AnswersLaid(m: seq<byte>, pos: nat, ttl: u32, addrs: seq<Ipv4>, n: nat)
    requires pos <= |m| && m[pos..] == Answers(ttl, addrs) && n <= |addrs|
    ensures Laid(m, pos, ttl, addrs[..n])
    decreases n
  {
    if n > 0 {
      var a := Answer(ttl, addrs[0]);
      assert m[pos..] == a + Answers(ttl, addrs[1..]);
      assert m[pos..pos + 16] == m[pos..][..16] && m[pos + 16..] == m[pos..][16..];
      AnswersLaid(m, pos + 16, ttl, addrs[1..], n - 1);
      assert addrs[..n][1..] == addrs[1..][..n - 1];
    }
  }

  lemma ARecordsUnfold(labels: seq<seq<byte>>, ttl: u32, addrs: seq<Ipv4>)
    ensures addrs == [] ==> ARecords(labels, ttl, addrs) == []
    ensures addrs != [] ==>
      ARecords(labels, ttl, addrs) == [Record(labels, 1, 1, ttl, addrs[0])] + ARecords(labels, ttl, addrs[1..])
  {
  }

  /** `read` takes every answer behind the question for what it says. */
  ghost predicate Understands(read: nat -> Option<(Record, nat)>, m: seq<byte>, ttl: u32, labels: seq<seq<byte>>)
  {
    forall pos: nat, addr: Ipv4 :: HEADER < pos && pos + 16 <= |m| && m[pos..pos + 16] == Answer(ttl, addr) ==>
      read(pos) == Some((Record(labels, 1, 1, ttl, addr), pos + 16))
  }

  lemma {:induction false} RecordsRead(read: nat -> Option<(Record, nat)>, m: seq<byte>, pos: nat, ttl: u32, addrs: seq<Ipv4>,
                                       labels: seq<seq<byte>>)
    requires Understands(read, m, ttl, labels) && HEADER < pos && Laid(m, pos, ttl, addrs)
    ensures ReadRecords(read, pos, |addrs|) == Some(ARecords(labels, ttl, addrs))
    decreases |addrs|
  {
    if addrs != [] { RecordsRead(read, m, pos + 16, ttl, addrs[1..], labels); }
    ARecordsUnfold(labels, ttl, addrs);
  }

  lemma RecordsUnderstood(m: seq<byte>, ttl: u32, labels: seq<seq<byte>>, end: nat, limit: Option<nat>)
    requires ReadName(m, HEADER, limit) == Some(Read(labels, end))
    ensures Understands(RecordsOf(m, limit), m, ttl, labels)
  {
    forall pos: nat, addr: Ipv4 | HEADER < pos && pos + 16 <= |m| && m[pos..pos + 16] == Answer(ttl, addr)
      ensures RecordsOf(m, limit)(pos) == Some((Record(labels, 1, 1, ttl, addr), pos + 16))
    {
      RecordReads(m, pos, ttl, addr, labels, end, limit);
    }
  }

  lemma {:induction false} AnswersReadAt(m: seq<byte>, ttl: u32, addrs: seq<Ipv4>, n: nat, labels: seq<seq<byte>>, end: nat,
                                         limit: Option<nat>)
    requires ReadName(m, HEADER, limit) == Some(Read(labels, end)) && HEADER < end && end + 4 <= |m| && n <= |addrs|
    requires m[end + 4..] == Answers(ttl, addrs) && Word(m, 4) == 1 && Word(m, 6) == n
    ensures ReadAnswers(m, limit) == Some(ARecords(labels, ttl, addrs[..n]))
  {
    AnswersLaid(m, end + 4, ttl, addrs, n);
    RecordsUnderstood(m, ttl, labels, end, limit);
    RecordsRead(RecordsOf(m, limit), m, end + 4, ttl, addrs[..n], labels);
  }

  /** The parts of a response that a reader looks at. */
  lemma {:induction false} ResponseParts(query: seq<byte>, id: nat, addrs: seq<Ipv4>, ttl: u32, utf8: seq<byte> -> bool,
                                         q: Query, m: seq<byte>) returns (end: nat)
    requires id <= 65535 && ParseQuery(query, utf8) == Ok(q) && HEADER <= QuestionEnd(query, HEADER) <= |query|
    requires m == Response(query, id, addrs, ttl)
    ensures HEADER < end && end + 4 <= |m| && IsName(m, HEADER, q.labels, end, utf8)
    ensures m[end + 4..] == Answers(Max(ttl, MIN_TTL), addrs)
    ensures Word(m, 4) == 1 && Word(m, 6) == |addrs| % 65536
  {
    end := AcceptedInBounds(query, utf8);
    QuestionCopied(query, id, addrs, ttl, q.labels, end, utf8, m);
    HeaderReads(m, id, |addrs|);
  }

  lemma {:induction false} PartsRead(m: seq<byte>, ttl: u32, addrs: seq<Ipv4>, n: nat, labels: seq<seq<byte>>, end: nat,
                                     utf8: seq<byte> -> bool, limit: Option<nat>)
    requires HEADER < end && end + 4 <= |m| && IsName(m, HEADER, labels, end, utf8) && n <= |addrs|
    requires m[end + 4..] == Answers(ttl, addrs) && Word(m, 4) == 1 && Word(m, 6) == n
    ensures ReadAnswers(m, limit) == if Readable(labels, limit) then Some(ARecords(labels, ttl, addrs[..n])) else None
  {
    NameReads(m, labels, end, limit, utf8);
    if Readable(labels, limit) { AnswersReadAt(m, ttl, addrs, n, labels, end, limit); }
  }

  lemma ARecordsWhole(labels: seq<seq<byte>>, ttl: u32, addrs: seq<Ipv4>, read: Option<seq<Record>>)
    requires read == Some(ARecords(labels, ttl, addrs[..|addrs| % 65536]))
    ensures read == Some(ARecords(labels, ttl, addrs)) <==> |addrs| <= 65535
  {
    if |addrs| <= 65535 { assert addrs[..|addrs| % 65536] == addrs; }
  }

  /** A reader of the response gets the addresses in order, each under the
      queried name with the raised TTL: all of them if and only if no label of
      the query is above 63 bytes, its name is within the reader's limit, and
      there are at most 65535 addresses, since the count wraps. With a longer
      label or name it gets nothing. */
  lemma {:induction false} AnswersRead(query: seq<byte>, id: nat, addrs: seq<Ipv4>, ttl: u32, utf8: seq<byte> -> bool,
                                       limit: Option<nat>, q: Query, m: seq<byte>)
    requires id <= 65535 && ParseQuery(query, utf8) == Ok(q) && HEADER <= QuestionEnd(query, HEADER) <= |query|
    requires m == Response(query, id, addrs, ttl)
    ensures ReadAnswers(m, limit)
         == if Readable(q.labels, limit) then Some(ARecords(q.labels, Max(ttl, MIN_TTL), addrs[..|addrs| % 65536])) else None
    ensures ReadAnswers(m, limit) == Some(ARecords(q.labels, Max(ttl, MIN_TTL), addrs)) <==>
      Readable(q.labels, limit) && |addrs| <= 65535
  {
    var end := ResponseParts(query, id, addrs, ttl, utf8, q, m);
    PartsRead(m, Max(ttl, MIN_TTL), addrs, |addrs| % 65536, q.labels, end, utf8, limit);
    if Readable(q.labels, limit) { ARecordsWhole(q.labels, Max(ttl, MIN_TTL), addrs, ReadAnswers(m, limit)); }
  }

  /** A query for a single label of 64 letters. */
  function LongQuery(): seq<byte>
  {
    seq(12, _ => 0) + [64] + LongLabel() + [0, 0, 1, 0, 1]
  }

  function LongLabel(): seq<byte> { seq(64, _ => 97) }

  lemma {:induction false} OneLabelParses(d: seq<byte>, part: seq<byte>, utf8: seq<byte> -> bool)
    requires |d| == 82 && |part| == 64 && d[12] == 64 && d[13..77] == part && utf8(part)
    requires d[0] == 0 && d[1] == 0 && d[77] == 0 && d[78] == 0 && d[79] == 1
    ensures ParseQuery(d, utf8) == Ok(Query(0, [part], 1))
  {
    assert [part][1..] == [];
    assert IsName(d, 77, [], 78, utf8);
    assert IsName(d, HEADER, [part], 78, utf8);
    AcceptedIff(d, Query(0, [part], 1), 78, utf8);
  }

  lemma LongQueryParses(utf8: seq<byte> -> bool)
    requires utf8(LongLabel())
    ensures ParseQuery(LongQuery(), utf8) == Ok(Query(0, [LongLabel()], 1))
  {
    var d := LongQuery();
    assert d[13..77] == LongLabel();
    OneLabelParses(d, LongLabel(), utf8);
  }

  /** The proxy accepts it, and no reader reads any response to it. */
  lemma LongLabelUnread(id: nat, addrs: seq<Ipv4>, ttl: u32, utf8: seq<byte> -> bool, limit: Option<nat>)
    requires id <= 65535 && utf8(LongLabel())
    ensures ParseQuery(LongQuery(), utf8) == Ok(Query(0, [LongLabel()], 1))
    ensures HEADER <= QuestionEnd(LongQuery(), HEADER) <= |LongQuery()|
    ensures ReadAnswers(Response(LongQuery(), id, addrs, ttl), limit) == None
  {
    LongQueryParses(utf8);
    var _ := AcceptedInBounds(LongQuery(), utf8);
    AnswersRead(LongQuery(), id, addrs, ttl, utf8, limit, Query(0, [LongLabel()], 1), Response(LongQuery(), id, addrs, ttl));
    assert LongLabel() in [LongLabel()];
  }
}
