/** Message numbering in the Double Ratchet. Keys are symbolic: a message key is
    the pair of a chain and a position in it, and a sealed message opens only
    with the key that sealed it. */
module Ratchet {
  import opened Common
  import opened Framing

  const MAX_SKIP := 1000

  type Key32 = k: seq<byte> | |k| == 32 witness seq(32, _ => 0)

  /** The initiator and the responder of a session. */
  datatype Side = Alice | Bob

  function Other(x: Side): Side { if x.Alice? then Bob else Alice }

  /** Root keys: the shared secret, then one per DH agreement mixed in. */
  datatype Root = Secret | Mixed(previous: Root, ours: Key32, theirs: Key32)

  /** Chains: one for each direction to begin with, named by who sends on it,
      then those derived with a root key. */
  datatype Chain = Initial(sender: Side) | Derived(root: Root)

  datatype MessageKey = MessageKey(chain: Chain, index: nat)

  datatype Header = Header(dh: Option<Key32>, number: nat, previousLength: nat, kind: byte)

  datatype Sealed = Sealed(key: MessageKey, kind: byte, payload: seq<byte>)

  datatype Message = Message(header: Header, body: Sealed)

  /** One end of a session. */
  datatype Party = Party(dh: Key32, remoteDh: Option<Key32>, previousRemoteDh: Option<Key32>, root: Root,
                         sendKey: MessageKey, recvKey: MessageKey,
                         sendNumber: nat, recvNumber: nat, previousLength: nat,
                         skipped: map<(seq<byte>, nat), MessageKey>)

  function Start(dh: Key32, side: Side): Party
  {
    Party(dh, None, None, Secret, MessageKey(Initial(side), 0), MessageKey(Initial(Other(side)), 0), 0, 0, 0, map[])
  }

  function Advance(k: MessageKey): MessageKey { k.(index := k.index + 1) }

  function DhBytes(dh: Option<Key32>): (r: seq<byte>)
    ensures |r| == if dh.Some? then 33 else 1
  {
    if dh.Some? then [1] + dh.value else [0]
  }

  function HeaderBytes(h: Header): (r: seq<byte>)
    ensures |r| == if h.dh.Some? then 42 else 10
  {
    DhBytes(h.dh) + Be32(h.number % 0x1_0000_0000) + Be32(h.previousLength % 0x1_0000_0000) + [h.kind]
  }

  /** Different headers, as far as their 32-bit numbers go, are looked up under
      different bytes. */
  lemma HeaderBytesTell(a: Header, b: Header)
    requires HeaderBytes(a) == HeaderBytes(b)
    ensures a.dh == b.dh && a.kind == b.kind && a.number % 0x1_0000_0000 == b.number % 0x1_0000_0000
    ensures a.previousLength % 0x1_0000_0000 == b.previousLength % 0x1_0000_0000
  {
    var m, p := a.number % 0x1_0000_0000, a.previousLength % 0x1_0000_0000;
    var n, q := b.number % 0x1_0000_0000, b.previousLength % 0x1_0000_0000;
    PartsTell(DhBytes(a.dh), Be32(m), Be32(p), a.kind, DhBytes(b.dh), Be32(n), Be32(q), b.kind);
    DhBytesTell(a.dh, b.dh);
    Be32Tells(m, n);
    Be32Tells(p, q);
  }

  lemma DhBytesTell(a: Option<Key32>, b: Option<Key32>)
    requires DhBytes(a) == DhBytes(b)
    ensures a == b
  {
    if a.Some? { assert DhBytes(a)[1..] == a.value && DhBytes(b)[1..] == b.value; }
  }

  lemma PartsTell(x: seq<byte>, m: seq<byte>, p: seq<byte>, k: byte, y: seq<byte>, n: seq<byte>, q: seq<byte>, l: byte)
    requires |m| == |p| == |n| == |q| == 4 && x + m + p + [k] == y + n + q + [l]
    ensures x == y && m == n && p == q && k == l
  {
    var s, t, i := x + m + p + [k], y + n + q + [l], |x|;
    assert s[..i] == x && t[..i] == y;
    assert s[i..i + 4] == m && t[i..i + 4] == n;
    assert s[i + 4..i + 8] == p && t[i + 4..i + 8] == q;
    assert s[i + 8] == k && t[i + 8] == l;
  }

  lemma Be32Tells(m: u32, n: u32)
    ensures Be32(m) == Be32(n) <==> m == n
  {
    var r := Be32(m);
    Be32Inverse(m, r[0], r[1], r[2], r[3]);
    Be32Inverse(n, r[0], r[1], r[2], r[3]);
    assert r == [r[0], r[1], r[2], r[3]];
  }

  function Encrypt(p: Party, payload: seq<byte>, kind: byte): (Party, Message)
  {
    (p.(sendKey := Advance(p.sendKey), sendNumber := p.sendNumber + 1),
     Message(Header(Some(p.dh), p.sendNumber, p.previousLength, kind), Sealed(p.sendKey, kind, payload)))
  }

  /** The map key under which skipped message keys are stored. */
  function SkipTag(p: Party): seq<byte>
  {
    if p.remoteDh.Some? then p.remoteDh.value else []
  }

  function SkipTo(p: Party, until: nat): Party
    decreases until - p.recvNumber
  {
    if p.recvNumber >= until then p
    else
      SkipTo(p.(skipped := p.skipped[(SkipTag(p), p.recvNumber) := p.recvKey],
                recvKey := Advance(p.recvKey), recvNumber := p.recvNumber + 1), until)
  }

  /** The skipping loop computes SkipTo. */
  method SkipMessageKeys(p: Party, until: nat) returns (q: Party)
    ensures q == SkipTo(p, until)
  {
    q := p;
    while q.recvNumber < until
      invariant SkipTo(q, until) == SkipTo(p, until)
      decreases until - q.recvNumber
    {
      q := q.(skipped := q.skipped[(SkipTag(q), q.recvNumber) := q.recvKey],
              recvKey := Advance(q.recvKey), recvNumber := q.recvNumber + 1);
    }
  }

  /** A new remote key: fresh chains, numbers restarted. The receiving chain is
      derived with the remote key before the current one, if there was one.
      `ours` is the key pair drawn for the step. */
  function DhStep(p: Party, theirs: Key32, ours: Key32): Party
  {
    var earlier := if p.previousRemoteDh.Some? then p.previousRemoteDh.value
                else if p.remoteDh.Some? then p.remoteDh.value else theirs;
    var received := Mixed(p.root, p.dh, earlier);
    var sent := Mixed(received, ours, theirs);
    p.(dh := ours, remoteDh := Some(theirs), root := sent, previousLength := p.sendNumber,
       previousRemoteDh := if p.remoteDh.Some? then p.remoteDh else p.previousRemoteDh,
       sendNumber := 0, recvNumber := 0,
       recvKey := MessageKey(Derived(received), 0), sendKey := MessageKey(Derived(sent), 0))
  }

  /** The part of `decrypt` after the skipped-key lookup, the age check and any
      DH step; `current` is the receiving number on entry to `decrypt`. */
  function OpenNext(p: Party, m: Message, current: nat): (Party, Option<seq<byte>>)
  {
    var ahead := m.header.number > current;
    if ahead && p.recvNumber + MAX_SKIP < m.header.number then (p, None)
    else
      var q := if ahead then SkipTo(p, m.header.number) else p;
      if m.body.key == q.recvKey && m.body.kind == m.header.kind then
        (q.(recvKey := Advance(q.recvKey), recvNumber := m.header.number + 1), Some(m.body.payload))
      else (q, None)
  }

  function Decrypt(p: Party, m: Message, drawn: Key32): (Party, Option<seq<byte>>)
  {
    var tag := (HeaderBytes(m.header), m.header.number);
    if tag in p.skipped then
      (p.(skipped := p.skipped - {tag}),
       if m.body.key == p.skipped[tag] && m.body.kind == m.header.kind then Some(m.body.payload) else None)
    else if m.header.number < p.recvNumber then (p, None)
    else if m.header.dh.None? then OpenNext(p, m, p.recvNumber)
    else if p.remoteDh.None? then OpenNext(p.(remoteDh := m.header.dh), m, p.recvNumber)
    else if p.remoteDh == m.header.dh then OpenNext(p, m, p.recvNumber)
    else if p.recvNumber + MAX_SKIP < m.header.previousLength then (p, None)
    else
      OpenNext(DhStep(SkipTo(p, m.header.previousLength), m.header.dh.value, drawn), m, p.recvNumber)
  }

  // ---- the skipped-key store ----

  /** Skipped keys are stored under a bare public key, or under nothing. */
  ghost predicate TagsAreBare(p: Party)
  {
    forall tag :: tag in p.skipped ==> |tag.0| == 32 || |tag.0| == 0
  }

  lemma {:induction false} SkipFacts(p: Party, until: nat)
    requires TagsAreBare(p)
    ensures var q := SkipTo(p, until);
      && TagsAreBare(q)
      && q.recvNumber == Max(p.recvNumber, until)
      && q == p.(skipped := q.skipped, recvNumber := q.recvNumber, recvKey := q.recvKey)
      && q.recvKey == p.recvKey.(index := p.recvKey.index + (q.recvNumber - p.recvNumber))
    decreases until - p.recvNumber
  {
    if p.recvNumber < until {
      SkipFacts(p.(skipped := p.skipped[(SkipTag(p), p.recvNumber) := p.recvKey],
                   recvKey := Advance(p.recvKey), recvNumber := p.recvNumber + 1), until);
    }
  }

  /** They are looked up under a whole serialised header, which is 42 bytes
      long, or 10 without a DH key: no lookup ever succeeds, so a message behind
      the receiving number is always refused. */
  lemma LateIsRefused(p: Party, m: Message, drawn: Key32)
    requires TagsAreBare(p) && m.header.number < p.recvNumber
    ensures Decrypt(p, m, drawn) == (p, None)
  {
  }

  lemma DecryptKeepsTags(p: Party, m: Message, drawn: Key32)
    requires TagsAreBare(p)
    ensures TagsAreBare(Decrypt(p, m, drawn).0)
  {
    SkipFacts(p, m.header.number);
    if m.header.dh.Some? {
      SkipFacts(p.(remoteDh := m.header.dh), m.header.number);
      SkipFacts(p, m.header.previousLength);
      SkipFacts(DhStep(SkipTo(p, m.header.previousLength), m.header.dh.value, drawn), m.header.number);
    }
  }

  /** Whatever messages arrive, in whatever order and from whomever, with or
      without a DH key, and whatever keys are drawn, no stored key is ever found
      again. */
  lemma {:induction false} SkippedKeysAreNeverFound(ours: Key32, side: Side, ms: seq<Message>, m: Message, drawn: nat -> Key32)
    ensures TagsAreBare(DecryptAll(Start(ours, side), ms, drawn).0)
    ensures (HeaderBytes(m.header), m.header.number) !in DecryptAll(Start(ours, side), ms, drawn).0.skipped
  {
    if ms != [] {
      var n := |ms| - 1;
      SkippedKeysAreNeverFound(ours, side, ms[..n], m, drawn);
      DecryptKeepsTags(DecryptAll(Start(ours, side), ms[..n], drawn).0, ms[n], drawn(n));
    }
  }

  /** Skipping stores the key of every number it passes, under the remote key
      in use, and disturbs no other stored key. */
  lemma {:induction false} SkipStores(p: Party, until: nat, tag: (seq<byte>, nat))
    ensures var q := SkipTo(p, until);
      if tag.0 == (if p.remoteDh.Some? then p.remoteDh.value else []) && p.recvNumber <= tag.1 < until then
        tag in q.skipped && q.skipped[tag] == p.recvKey.(index := p.recvKey.index + (tag.1 - p.recvNumber))
      else if tag in p.skipped then tag in q.skipped && q.skipped[tag] == p.skipped[tag]
      else tag !in q.skipped
    decreases until - p.recvNumber
  {
    if p.recvNumber < until {
      SkipStores(p.(skipped := p.skipped[(SkipTag(p), p.recvNumber) := p.recvKey],
                    recvKey := Advance(p.recvKey), recvNumber := p.recvNumber + 1), until, tag);
    }
  }

  /** A stored key that is found is used once: it opens its message or not, and
      is gone either way. */
  lemma StoredKeyUsedOnce(p: Party, m: Message, drawn: Key32)
    requires (HeaderBytes(m.header), m.header.number) in p.skipped
    ensures var tag := (HeaderBytes(m.header), m.header.number);
      var (q, r) := Decrypt(p, m, drawn);
      && (r == Some(m.body.payload) <==> p.skipped[tag] == m.body.key && m.body.kind == m.header.kind)
      && (r.Some? ==> r.value == m.body.payload)
      && tag !in q.skipped && q == p.(skipped := q.skipped)
      && forall x :: x != tag ==> (x in q.skipped <==> x in p.skipped) && (x in p.skipped ==> q.skipped[x] == p.skipped[x])
  {
  }

  /** A message under a new remote key, not behind the receiving number: it opens
      if and only if neither gap exceeds 1000 and it was sealed on the chain
      derived from the remote key before last, the current one if there is
      none; its position counts from the restart only when its number is past
      the one the receiver had reached. Unless the first gap is too wide the
      receiver has stepped, opened or not. */
  lemma NewKeyDecides(p: Party, m: Message, drawn: Key32)
    requires TagsAreBare(p) && m.header.number >= p.recvNumber
    requires p.remoteDh.Some? && m.header.dh.Some? && m.header.dh != p.remoteDh
    ensures var (q, r) := Decrypt(p, m, drawn);
      var earlier := if p.previousRemoteDh.Some? then p.previousRemoteDh.value else p.remoteDh.value;
      var ahead := m.header.number > p.recvNumber;
      var near := m.header.previousLength <= p.recvNumber + MAX_SKIP;
      && (r == Some(m.body.payload) <==>
            && near && (ahead ==> m.header.number <= MAX_SKIP) && m.body.kind == m.header.kind
            && m.body.key == MessageKey(Derived(Mixed(p.root, p.dh, earlier)), if ahead then m.header.number else 0))
      && (r.Some? ==> r == Some(m.body.payload) && q.recvNumber == m.header.number + 1)
      && (!near ==> q == p)
      && (near ==> q.dh == drawn && q.remoteDh == m.header.dh && q.previousRemoteDh == p.remoteDh
                   && q.sendNumber == 0 && q.previousLength == p.sendNumber
                   && q.root == Mixed(Mixed(p.root, p.dh, earlier), drawn, m.header.dh.value)
                   && q.sendKey == MessageKey(Derived(q.root), 0))
  {
    SkipFacts(p, m.header.previousLength);
    SkipFacts(DhStep(SkipTo(p, m.header.previousLength), m.header.dh.value, drawn), m.header.number);
  }

  // ---- one honest peer ----

  /** `m` was sealed by side `from`, with key `dh`, before any DH step. */
  ghost predicate FromPeer(m: Message, dh: Key32, from: Side)
  {
    && m.header.dh == Some(dh) && m.header.previousLength == 0
    && m.body.key == MessageKey(Initial(from), m.header.number) && m.body.kind == m.header.kind
  }

  /** A receiver in step with such a peer. */
  ghost predicate InStep(p: Party, dh: Key32, from: Side)
  {
    && TagsAreBare(p) && (p.remoteDh == None || p.remoteDh == Some(dh))
    && p.recvKey == MessageKey(Initial(from), p.recvNumber)
  }

  /** A receiver in step accepts exactly the messages from its number up to
      1000 ahead, recovers their payload and never performs a DH step. */
  lemma InStepDecrypts(p: Party, m: Message, dh: Key32, from: Side, drawn: Key32)
    requires InStep(p, dh, from) && FromPeer(m, dh, from)
    ensures var (q, r) := Decrypt(p, m, drawn);
      && InStep(q, dh, from) && q.dh == p.dh && q.sendKey == p.sendKey && q.sendNumber == p.sendNumber
      && q.previousLength == p.previousLength
      && (p.recvNumber <= m.header.number <= p.recvNumber + MAX_SKIP ==>
            r == Some(m.body.payload) && q.recvNumber == m.header.number + 1)
      && (!(p.recvNumber <= m.header.number <= p.recvNumber + MAX_SKIP) ==>
            r == None && q.recvNumber == p.recvNumber)
  {
    var q := p.(remoteDh := Some(dh));
    SkipFacts(q, m.header.number);
  }

  lemma {:induction false} SkipApart(p: Party, k: MessageKey, n: nat, until: nat)
    ensures SkipTo(p.(sendKey := k, sendNumber := n), until) == SkipTo(p, until).(sendKey := k, sendNumber := n)
    decreases until - p.recvNumber
  {
    if p.recvNumber < until {
      SkipApart(p.(skipped := p.skipped[(SkipTag(p), p.recvNumber) := p.recvKey],
                   recvKey := Advance(p.recvKey), recvNumber := p.recvNumber + 1), k, n, until);
    }
  }

  /** What a receiver in step makes of a message does not depend on what it has
      sent, nor on the keys it might draw. */
  lemma SendingApart(p: Party, k: MessageKey, n: nat, m: Message, dh: Key32, from: Side, d: Key32, e: Key32)
    requires InStep(p, dh, from) && FromPeer(m, dh, from)
    ensures Decrypt(p.(sendKey := k, sendNumber := n), m, d).0 == Decrypt(p, m, e).0.(sendKey := k, sendNumber := n)
    ensures Decrypt(p.(sendKey := k, sendNumber := n), m, d).1 == Decrypt(p, m, e).1
  {
    SkipApart(p.(remoteDh := Some(dh)), k, n, m.header.number);
  }

  /** The receiver's results on a sequence of arriving messages; `drawn(k)` is
      the key pair drawn if message `k` makes it step. */
  function DecryptAll(p: Party, ms: seq<Message>, drawn: nat -> Key32): (Party, seq<Option<seq<byte>>>)
  {
    if ms == [] then (p, [])
    else
      var n := |ms| - 1;
      var (q, rs) := DecryptAll(p, ms[..n], drawn);
      var (q', r) := Decrypt(q, ms[n], drawn(n));
      (q', rs + [r])
  }

  ghost predicate AllOpened(ms: seq<Message>, rs: seq<Option<seq<byte>>>)
  {
    |rs| == |ms| && forall k :: 0 <= k < |ms| ==> rs[k] == Some(ms[k].body.payload)
  }

  /** Numbers increase, and no gap is wider than 1000 messages. */
  ghost predicate InOrder(ms: seq<Message>)
  {
    && (ms != [] ==> ms[0].header.number <= MAX_SKIP)
    && forall k :: 0 < k < |ms| ==>
         ms[k - 1].header.number < ms[k].header.number <= ms[k - 1].header.number + 1 + MAX_SKIP
  }

  lemma InOrderSnoc(front: seq<Message>, m: Message)
    ensures InOrder(front + [m]) <==>
      InOrder(front) && (var next := if front == [] then 0 else front[|front| - 1].header.number + 1;
                         next <= m.header.number <= next + MAX_SKIP)
  {
    var ms := front + [m];
    assert forall k :: 0 <= k < |front| ==> front[k] == ms[k];
    assert ms[|front|] == m;
    if InOrder(ms) {
      forall k | 0 < k < |front|
        ensures front[k - 1].header.number < front[k].header.number <= front[k - 1].header.number + 1 + MAX_SKIP
      {
        assert ms[k] == front[k] && ms[k - 1] == front[k - 1];
      }
    }
  }

  /** Every message opens, in arrival order, if and only if the numbers
      increase with gaps of at most 1000: any reordering loses a message. */
  lemma {:induction false} OpensIffInOrder(dh: Key32, ours: Key32, side: Side, drawn: nat -> Key32, ms: seq<Message>)
    requires forall k :: 0 <= k < |ms| ==> FromPeer(ms[k], dh, Other(side))
    ensures var (q, rs) := DecryptAll(Start(ours, side), ms, drawn);
      && InStep(q, dh, Other(side)) && |rs| == |ms|
      && (AllOpened(ms, rs) <==> InOrder(ms))
      && (InOrder(ms) ==> q.recvNumber == if ms == [] then 0 else ms[|ms| - 1].header.number + 1)
  {
    if ms != [] {
      var n := |ms| - 1;
      var front := ms[..n];
      OpensIffInOrder(dh, ours, side, drawn, front);
      var (q, rs) := DecryptAll(Start(ours, side), front, drawn);
      InStepDecrypts(q, ms[n], dh, Other(side), drawn(n));
      assert ms == front + [ms[n]];
      InOrderSnoc(front, ms[n]);
      OpenedSnoc(front, ms[n], rs, Decrypt(q, ms[n], drawn(n)).1);
    }
  }

  lemma OpenedSnoc(front: seq<Message>, m: Message, rs: seq<Option<seq<byte>>>, r: Option<seq<byte>>)
    requires |rs| == |front|
    ensures AllOpened(front + [m], rs + [r]) <==> AllOpened(front, rs) && r == Some(m.body.payload)
  {
    var ms, ss := front + [m], rs + [r];
    if AllOpened(ms, ss) {
      assert forall k :: 0 <= k < |front| ==> front[k] == ms[k] && rs[k] == ss[k];
      assert ms[|front|] == m && ss[|front|] == r;
    }
  }

  // ---- two honest parties ----

  /** Two parties and every message ever sent. The network may delay, reorder,
      duplicate and lose messages, but not forge them. */
  datatype Session = Session(alice: Party, bob: Party, sent: set<(Side, Message)>)

  function At(s: Session, x: Side): Party { if x.Alice? then s.alice else s.bob }

  function Put(s: Session, x: Side, p: Party): Session
  {
    if x.Alice? then s.(alice := p) else s.(bob := p)
  }

  datatype Act = Send(from: Side, payload: seq<byte>, kind: byte) | Deliver(to: Side, m: Message, drawn: Key32)

  ghost predicate CanAct(s: Session, a: Act)
  {
    match a
    case Send(_, _, _) => true
    case Deliver(x, m, _) => (Other(x), m) in s.sent
  }

  function Acted(s: Session, a: Act): Session
  {
    match a
    case Send(x, payload, kind) =>
      var (p, m) := Encrypt(At(s, x), payload, kind);
      Put(s, x, p).(sent := s.sent + {(x, m)})
    case Deliver(x, m, drawn) => Put(s, x, Decrypt(At(s, x), m, drawn).0)
  }

  predicate Unstepped(p: Party, side: Side)
  {
    p.previousLength == 0 && p.sendKey == MessageKey(Initial(side), p.sendNumber)
  }

  ghost predicate SessionInv(s: Session, a: Key32, b: Key32)
  {
    && s.alice.dh == a && s.bob.dh == b
    && InStep(s.alice, b, Bob) && InStep(s.bob, a, Alice)
    && Unstepped(s.alice, Alice) && Unstepped(s.bob, Bob)
    && (forall x, m :: (x, m) in s.sent ==>
          FromPeer(m, At(s, x).dh, x) && m.header.number < At(s, x).sendNumber)
  }

  lemma SendKeepsInv(s: Session, x: Side, payload: seq<byte>, kind: byte, a: Key32, b: Key32)
    requires SessionInv(s, a, b)
    ensures SessionInv(Acted(s, Send(x, payload, kind)), a, b)
    ensures forall y :: At(s, y).sendNumber <= At(Acted(s, Send(x, payload, kind)), y).sendNumber
  {
  }

  lemma DeliverKeepsInv(s: Session, x: Side, m: Message, drawn: Key32, a: Key32, b: Key32)
    requires SessionInv(s, a, b) && CanAct(s, Deliver(x, m, drawn))
    ensures SessionInv(Acted(s, Deliver(x, m, drawn)), a, b)
    ensures forall y :: At(s, y).sendNumber <= At(Acted(s, Deliver(x, m, drawn)), y).sendNumber
  {
    InStepDecrypts(At(s, x), m, At(s, Other(x)).dh, Other(x), drawn);
  }

  lemma ActKeepsInv(s: Session, act: Act, a: Key32, b: Key32)
    requires SessionInv(s, a, b) && CanAct(s, act)
    ensures SessionInv(Acted(s, act), a, b)
    ensures forall x :: At(s, x).sendNumber <= At(Acted(s, act), x).sendNumber
  {
    match act
    case Send(x, payload, kind) => SendKeepsInv(s, x, payload, kind, a, b);
    case Deliver(x, m, drawn) => DeliverKeepsInv(s, x, m, drawn, a, b);
  }

  /** Consecutive states of a session related by what the parties and the
      network do. */
  ghost predicate SessionRun(a: Key32, b: Key32, trace: seq<Session>, acts: seq<Act>)
  {
    && |trace| == |acts| + 1 && trace[0] == Session(Start(a, Alice), Start(b, Bob), {})
    && forall i :: 0 <= i < |acts| ==> CanAct(trace[i], acts[i]) && trace[i + 1] == Acted(trace[i], acts[i])
  }

  /** In every session of two parties, however the network reorders, repeats or
      loses messages, neither ever changes its DH key: the DH ratchet never
      steps, message numbers never restart, and each message number is used
      once by each side. */
  lemma {:induction false} DhNeverSteps(a: Key32, b: Key32, trace: seq<Session>, acts: seq<Act>, n: nat)
    requires SessionRun(a, b, trace, acts) && n < |trace|
    ensures SessionInv(trace[n], a, b)
    ensures n > 0 ==> forall x :: At(trace[n - 1], x).sendNumber <= At(trace[n], x).sendNumber
  {
    if n > 0 {
      DhNeverSteps(a, b, trace, acts, n - 1);
      ActKeepsInv(trace[n - 1], acts[n - 1], a, b);
    }
  }

  lemma {:induction false} SentWasHanded(a: Key32, b: Key32, trace: seq<Session>, acts: seq<Act>, n: nat, x: Side, m: Message)
    requires SessionRun(a, b, trace, acts) && n < |trace| && (x, m) in trace[n].sent
    ensures exists k :: 0 <= k < n && acts[k] == Send(x, m.body.payload, m.header.kind)
  {
    if (x, m) in trace[n - 1].sent {
      SentWasHanded(a, b, trace, acts, n - 1, x, m);
    } else {
      assert acts[n - 1] == Send(x, m.body.payload, m.header.kind);
    }
  }

  /** A delivered message opens if and only if its number is at or after the
      receiver's and at most 1000 ahead; what it opens to is what the other
      side handed over, payload and type, in some earlier send. */
  lemma DeliveryOpensWhatWasSent(a: Key32, b: Key32, trace: seq<Session>, acts: seq<Act>, n: nat)
    requires SessionRun(a, b, trace, acts) && n < |acts| && acts[n].Deliver?
    ensures var p, m := At(trace[n], acts[n].to), acts[n].m;
      var r := Decrypt(p, m, acts[n].drawn).1;
      && (r.Some? <==> p.recvNumber <= m.header.number <= p.recvNumber + MAX_SKIP)
      && (r.Some? ==>
            exists k :: 0 <= k < n && acts[k] == Send(Other(acts[n].to), r.value, m.header.kind))
  {
    var x, m := acts[n].to, acts[n].m;
    DhNeverSteps(a, b, trace, acts, n);
    SentWasHanded(a, b, trace, acts, n, Other(x), m);
    InStepDecrypts(At(trace[n], x), m, At(trace[n], Other(x)).dh, Other(x), acts[n].drawn);
  }
}
