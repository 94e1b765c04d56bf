/** A reader of DNS messages by RFC 1035 alone: names of labels of at most 63
    bytes with compression (sections 3.1 and 4.1.4), resource records (section
    4.1.3) and the answers to a message with one question. */
module DnsReader {
  import opened Common
  import opened Framing

  const MAX_LABEL := 63

  /** Labels, and where the message goes on behind the name. */
  datatype Read = Read(labels: seq<seq<byte>>, end: nat)

  datatype Record = Record(name: seq<seq<byte>>, rtype: nat, rclass: nat, ttl: u32, rdata: seq<byte>)

  /** The rest, at `pos`, of a name that begins at `start`. The two top bits of a
      length byte are 00 for a label, 11 for a pointer to an earlier name, and
      otherwise reserved. */
  function ReadLabels(m: seq<byte>, pos: nat, start: nat): Option<Read>
    decreases start, |m| - pos
  {
    if pos >= |m| then None
    else
      var n := m[pos];
      if n == 0 then Some(Read([], pos + 1))
      else if n >= 192 then
        if pos + 1 >= |m| || FromBe16(n - 192, m[pos + 1]) >= start then None
        else
          var target := FromBe16(n - 192, m[pos + 1]);
          var r := ReadLabels(m, target, target);
          if r.None? then None else Some(Read(r.value.labels, pos + 2))
      else if n > MAX_LABEL || pos + 1 + n > |m| then None
      else
        var r := ReadLabels(m, pos + 1 + n, start);
        if r.None? then None else Some(Read([m[pos + 1..pos + 1 + n]] + r.value.labels, r.value.end))
  }

  /** The size of a name: every label with its length byte, and the root. */
  function Octets(labels: seq<seq<byte>>): nat
  {
    if labels == [] then 1 else 1 + |labels[0]| + Octets(labels[1..])
  }

  /** What a reader takes for a name: labels of at most 63 bytes and, for a
      reader that enforces a size limit, at most that many octets in all
      (section 2.3.4 has 255). */
  predicate Readable(labels: seq<seq<byte>>, limit: Option<nat>)
  {
    (forall l :: l in labels ==> |l| <= MAX_LABEL) && (limit.Some? ==> Octets(labels) <= limit.value)
  }

  function ReadName(m: seq<byte>, pos: nat, limit: Option<nat>): Option<Read>
  {
    var r := ReadLabels(m, pos, pos);
    if r.Some? && limit.Some? && Octets(r.value.labels) > limit.value then None else r
  }

  /** A record and where the next one starts. */
  function ReadRecord(m: seq<byte>, pos: nat, limit: Option<nat>): Option<(Record, nat)>
  {
    var name := ReadName(m, pos, limit);
    if name.None? || name.value.end + 10 > |m| then None
    else
      var p := name.value.end;
      var n := Word(m, p + 8);
      if p + 10 + n > |m| then None
      else
        Some((Record(name.value.labels, Word(m, p), Word(m, p + 2), FromBe32(m[p + 4], m[p + 5], m[p + 6], m[p + 7]),
                     m[p + 10..p + 10 + n]), p + 10 + n))
  }

  /** `count` records one after the other, each read by `read`. */
  function ReadRecords(read: nat -> Option<(Record, nat)>, pos: nat, count: nat): Option<seq<Record>>
    decreases count
  {
    if count == 0 then Some([])
    else
      var r := read(pos);
      if r.None? then None
      else
        var rest := ReadRecords(read, r.value.1, count - 1);
        if rest.None? then None else Some([r.value.0] + rest.value)
  }

  function RecordsOf(m: seq<byte>, limit: Option<nat>): nat -> Option<(Record, nat)>
  {
    (pos: nat) => ReadRecord(m, pos, limit)
  }

  /** The answer section of a message with one question: as many records as
      the header announces, from behind the question. */
  function ReadAnswers(m: seq<byte>, limit: Option<nat>): Option<seq<Record>>
  {
    if |m| < 12 || Word(m, 4) != 1 then None
    else
      var name := ReadName(m, 12, limit);
      if name.None? || name.value.end + 4 > |m| then None
      else ReadRecords(RecordsOf(m, limit), name.value.end + 4, Word(m, 6))
  }
}
