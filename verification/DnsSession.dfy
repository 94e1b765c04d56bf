/** The proxy's pending queries across any number of tunnel sessions. */
module DnsSession {
  import opened Common

  const PENDING_TIMEOUT := 10

  type QueryId = nat

  datatype Response = Response(id: QueryId, body: seq<byte>)

  /** How a query's reply channel ends: with a response, with an explicit
      failure, or dropped unanswered. */
  datatype Outcome = Answered(response: Response) | Failed | Abandoned

  datatype Phase = Down | Draining | Up

  /** A query written to a tunnel, and on which session. */
  datatype Sent = Sent(id: QueryId, epoch: nat)

  /** What the connection manager owns: the queue it reads, the queries awaiting
      an answer with their send times, the channels ended, and the wire. */
  datatype Conn = Conn(queue: seq<QueryId>, pending: map<QueryId, nat>, outcome: map<QueryId, Outcome>,
                       wire: seq<Sent>, phase: Phase, epoch: nat)

  datatype ConnStep =
    | Connect
    | DrainOne
    | DrainDone
    | Send(now: nat, ok: bool, onWire: bool)
    | QueueClosed
    | Reply(response: Response)
    | PeerGone
    | Tick(at: nat)

  function AsSet(ids: seq<QueryId>): set<QueryId> { set id | id in ids }

  lemma AsSetStep(ids: seq<QueryId>, n: nat)
    requires n < |ids|
    ensures AsSet(ids[..n + 1]) == AsSet(ids[..n]) + {ids[n]}
  {
    assert ids[..n + 1] == ids[..n] + [ids[n]];
  }

  /** The channels of `ids` end `how`. */
  function EndFor(outcome: map<QueryId, Outcome>, ids: set<QueryId>, how: Outcome): map<QueryId, Outcome>
  {
    outcome + map id | id in ids :: how
  }

  lemma EndForNone(outcome: map<QueryId, Outcome>, how: Outcome)
    ensures EndFor(outcome, {}, how) == outcome
  {
  }

  lemma EndForOneMore(outcome: map<QueryId, Outcome>, ids: set<QueryId>, id: QueryId, how: Outcome)
    ensures EndFor(outcome, ids, how)[id := how] == EndFor(outcome, ids + {id}, how)
  {
  }

  function Settle(c: Conn, how: Outcome): Conn
  {
    c.(pending := map[], phase := Down, outcome := EndFor(c.outcome, c.pending.Keys, how))
  }

  ghost predicate Overdue(pending: map<QueryId, nat>, now: nat)
  {
    exists id :: id in pending && now - pending[id] >= PENDING_TIMEOUT
  }

  ghost predicate ConnEnabled(c: Conn, step: ConnStep)
  {
    match step
    case Connect => c.phase == Down
    case DrainOne => c.phase == Draining && c.queue != []
    case DrainDone => c.phase == Draining && c.queue == []
    case Send(_, ok, onWire) => c.phase == Up && c.queue != [] && (ok ==> onWire)
    case QueueClosed => c.phase == Up && c.queue == []
    case Reply(_) => c.phase == Up
    case PeerGone => c.phase == Up
    case Tick(_) => c.phase == Up && c.pending != map[]
  }

  ghost function ConnNext(c: Conn, step: ConnStep): Conn
    requires ConnEnabled(c, step)
  {
    match step
    case Connect => c.(phase := Draining, epoch := c.epoch + 1)
    case DrainOne => c.(queue := c.queue[1..], outcome := c.outcome[c.queue[0] := Failed])
    case DrainDone => c.(phase := Up)
    case Send(now, ok, onWire) =>
      var id := c.queue[0];
      var d := c.(queue := c.queue[1..], wire := if onWire then c.wire + [Sent(id, c.epoch)] else c.wire);
      if ok then d.(pending := d.pending[id := now])
      else Settle(d.(outcome := d.outcome[id := Abandoned]), Abandoned)
    case QueueClosed => Settle(c, Abandoned)
    case Reply(r) =>
      if r.id in c.pending then c.(pending := c.pending - {r.id}, outcome := c.outcome[r.id := Answered(r)]) else c
    case PeerGone => Settle(c, Failed)
    case Tick(now) => if Overdue(c.pending, now) then Settle(c, Failed) else c
  }

  // ---- the manager's own code ----

  class Manager {
    var queue: seq<QueryId>
    var pending: map<QueryId, nat>
    var outcome: map<QueryId, Outcome>
    var wire: seq<Sent>
    var phase: Phase
    var epoch: nat

    ghost function State(): Conn
      reads this
    {
      Conn(queue, pending, outcome, wire, phase, epoch)
    }

    constructor ()
      ensures State() == Conn([], map[], map[], [], Down, 0)
    {
      queue, pending, outcome, wire, phase, epoch := [], map[], map[], [], Down, 0;
    }

    /** Fail whatever was queued while there was no session. */
    method DrainQueue()
      requires phase == Draining
      modifies this`queue, this`outcome, this`phase
      ensures phase == Up && queue == []
      ensures outcome == EndFor(old(outcome), AsSet(old(queue)), Failed)
    {
      ghost var was, n := queue, 0;
      EndForNone(outcome, Failed);
      assert AsSet(was[..0]) == {};
      while queue != []
        invariant n <= |was| && queue == was[n..] && phase == Draining
        invariant outcome == EndFor(old(outcome), AsSet(was[..n]), Failed)
        decreases |queue|
      {
        AsSetStep(was, n);
        EndForOneMore(old(outcome), AsSet(was[..n]), queue[0], Failed);
        outcome := outcome[queue[0] := Failed];
        queue, n := queue[1..], n + 1;
      }
      assert was[..|was|] == was;
      phase := Up;
    }

    /** End the session: every pending reply channel is settled `how`. */
    method SettleAll(how: Outcome)
      modifies this`pending, this`outcome, this`phase
      ensures State() == Settle(old(State()), how)
    {
      var todo := pending.Keys;
      ghost var was := todo;
      assert was - todo == {};
      EndForNone(outcome, how);
      while todo != {}
        invariant todo <= was && outcome == EndFor(old(outcome), was - todo, how)
        decreases todo
      {
        var id :| id in todo;
        assert was - (todo - {id}) == (was - todo) + {id};
        EndForOneMore(old(outcome), was - todo, id, how);
        todo, outcome := todo - {id}, outcome[id := how];
      }
      assert was - todo == was;
      pending, phase := map[], Down;
    }

    method TakeQuery(now: nat, ok: bool, onWire: bool)
      requires ConnEnabled(State(), Send(now, ok, onWire))
      modifies this
      ensures State() == ConnNext(old(State()), Send(now, ok, onWire))
    {
      var id := queue[0];
      queue := queue[1..];
      if onWire { wire := wire + [Sent(id, epoch)]; }
      if !ok {
        outcome := outcome[id := Abandoned];
        SettleAll(Abandoned);
        return;
      }
      pending := pending[id := now];
    }

    method OnReply(r: Response)
      requires phase == Up
      modifies this`pending, this`outcome
      ensures State() == ConnNext(old(State()), Reply(r))
    {
      if r.id in pending {
        pending := pending - {r.id};
        outcome := outcome[r.id := Answered(r)];
      }
    }

    /** The oldest send time is found by a scan, and only it is compared. */
    method OnTick(now: nat)
      requires phase == Up && pending != map[]
      modifies this`pending, this`outcome, this`phase
      ensures State() == ConnNext(old(State()), Tick(now))
    {
      var todo := pending.Keys;
      var first :| first in todo;
      var oldest := pending[first];
      todo := todo - {first};
      while todo != {}
        invariant todo <= pending.Keys
        invariant exists id :: id in pending && pending[id] == oldest
        invariant forall id :: id in pending && id !in todo ==> oldest <= pending[id]
        decreases |todo|
      {
        var id :| id in todo;
        if pending[id] < oldest { oldest := pending[id]; }
        todo := todo - {id};
      }
      if now - oldest >= PENDING_TIMEOUT { SettleAll(Failed); }
    }
  }

  // ---- all runs ----

  /** `handling` are queries whose handler is still deciding, `local` those
      answered without the tunnel. */
  datatype Sys = Sys(next: QueryId, handling: set<QueryId>, local: set<QueryId>, closed: bool, conn: Conn)

  datatype Step =
    | Arrive
    | Submit(id: QueryId)
    | AnswerLocally(lid: QueryId)
    | CloseQueue
    | Tunnel(step: ConnStep)

  ghost predicate Enabled(s: Sys, step: Step)
  {
    match step
    case Arrive => !s.closed
    case Submit(id) => id in s.handling
    case AnswerLocally(id) => id in s.handling
    case CloseQueue => s.handling == {}
    case Tunnel(t) => ConnEnabled(s.conn, t) && (t.QueueClosed? ==> s.closed)
  }

  ghost function Next(s: Sys, step: Step): Sys
    requires Enabled(s, step)
  {
    match step
    case Arrive => s.(next := s.next + 1, handling := s.handling + {s.next})
    case Submit(id) => s.(handling := s.handling - {id}, conn := s.conn.(queue := s.conn.queue + [id]))
    case AnswerLocally(id) => s.(handling := s.handling - {id}, local := s.local + {id})
    case CloseQueue => s.(closed := true)
    case Tunnel(t) => s.(conn := ConnNext(s.conn, t))
  }

  ghost predicate Run(trace: seq<Sys>, steps: seq<Step>)
  {
    && |trace| == |steps| + 1
    && trace[0] == Sys(0, {}, {}, false, Conn([], map[], map[], [], Down, 0))
    && forall i :: 0 <= i < |steps| ==> Enabled(trace[i], steps[i]) && trace[i + 1] == Next(trace[i], steps[i])
  }

  function One(b: bool): nat { if b then 1 else 0 }

  /** In how many places a query is. */
  function Places(s: Sys, id: QueryId): nat
  {
    One(id in s.handling) + One(id in s.local) + One(id in s.conn.queue) + One(id in s.conn.pending) + One(id in s.conn.outcome)
  }

  ghost predicate Accounted(s: Sys)
  {
    && (forall id: QueryId :: Places(s, id) == One(id < s.next))
    && (forall i, j :: 0 <= i < j < |s.conn.queue| ==> s.conn.queue[i] != s.conn.queue[j])
  }

  /** What is on the wire is pending or over, once each; what is pending went
      out on the running session; an answer carries the id it answers. */
  ghost predicate Honest(c: Conn)
  {
    && (forall i :: 0 <= i < |c.wire| ==> c.wire[i].id in c.pending || c.wire[i].id in c.outcome)
    && (forall i, j :: 0 <= i < j < |c.wire| ==> c.wire[i].id != c.wire[j].id)
    && (forall id :: id in c.pending ==> Sent(id, c.epoch) in c.wire)
    && (forall id :: id in c.outcome && c.outcome[id].Answered? ==>
          c.outcome[id].response.id == id && exists e :: Sent(id, e) in c.wire)
    && (c.phase != Up ==> c.pending == map[])
  }

  ghost predicate Inv(s: Sys) { Accounted(s) && Honest(s.conn) }

  // ---- the tunnel's steps ----

  lemma SettleKeepsPlaces(s: Sys, c: Conn, how: Outcome)
    requires Accounted(s) && c == Settle(s.conn, how)
    ensures Accounted(s.(conn := c))
  {
    forall id: QueryId ensures Places(s.(conn := c), id) == One(id < s.next) {
      assert Places(s, id) == One(id < s.next);
    }
  }

  lemma SettleKeepsHonest(c: Conn, how: Outcome)
    requires Honest(c) && !how.Answered?
    ensures Honest(Settle(c, how))
  {
  }

  /** The head of the queue moves on: to pending or to an outcome. */
  lemma TakeKeepsPlaces(s: Sys, c: Conn)
    requires Accounted(s) && s.conn.queue != [] && c.queue == s.conn.queue[1..]
    requires (c.pending.Keys == s.conn.pending.Keys + {s.conn.queue[0]} && c.outcome == s.conn.outcome)
          || (c.outcome.Keys == s.conn.outcome.Keys + {s.conn.queue[0]} && c.pending == s.conn.pending)
    ensures Accounted(s.(conn := c))
  {
    var q := s.conn.queue;
    assert q == [q[0]] + q[1..];
    forall id: QueryId ensures Places(s.(conn := c), id) == One(id < s.next) {
      assert Places(s, id) == One(id < s.next);
      assert id in q <==> id == q[0] || id in q[1..];
    }
  }

  lemma ReplyKeepsInv(s: Sys, r: Response)
    requires Inv(s) && s.conn.phase == Up
    ensures Inv(s.(conn := ConnNext(s.conn, Reply(r))))
  {
    var c := ConnNext(s.conn, Reply(r));
    forall id: QueryId ensures Places(s.(conn := c), id) == One(id < s.next) {
      assert Places(s, id) == One(id < s.next);
    }
  }

  lemma DrainKeepsInv(s: Sys)
    requires Inv(s) && s.conn.phase == Draining && s.conn.queue != []
    ensures Inv(s.(conn := ConnNext(s.conn, DrainOne)))
  {
    TakeKeepsPlaces(s, ConnNext(s.conn, DrainOne));
  }

  /** The head of the queue has never been sent or settled before. */
  lemma HeadIsNew(s: Sys)
    requires Inv(s) && s.conn.queue != []
    ensures s.conn.queue[0] !in s.conn.pending && s.conn.queue[0] !in s.conn.outcome
    ensures forall i :: 0 <= i < |s.conn.wire| ==> s.conn.wire[i].id != s.conn.queue[0]
  {
    assert Places(s, s.conn.queue[0]) == One(s.conn.queue[0] < s.next);
  }

  lemma WireKeepsHonest(c: Conn, d: Conn, id: QueryId, now: nat)
    requires Honest(c) && c.phase == Up && (forall i :: 0 <= i < |c.wire| ==> c.wire[i].id != id)
    requires d.wire == c.wire + [Sent(id, c.epoch)] && d.epoch == c.epoch && d.phase == Up
    requires (d.pending == c.pending[id := now] && d.outcome == c.outcome)
          || (d.pending == c.pending && d.outcome == c.outcome[id := Abandoned] && id !in c.outcome)
    ensures Honest(d)
  {
  }

  lemma SendKeepsInv(s: Sys, now: nat, ok: bool, onWire: bool)
    requires Inv(s) && ConnEnabled(s.conn, Send(now, ok, onWire))
    ensures Inv(s.(conn := ConnNext(s.conn, Send(now, ok, onWire))))
  {
    var c, id := s.conn, s.conn.queue[0];
    HeadIsNew(s);
    var d := c.(queue := c.queue[1..], wire := if onWire then c.wire + [Sent(id, c.epoch)] else c.wire);
    if ok {
      var e := d.(pending := d.pending[id := now]);
      WireKeepsHonest(c, e, id, now);
      TakeKeepsPlaces(s, e);
    } else {
      var e := d.(outcome := d.outcome[id := Abandoned]);
      if onWire { WireKeepsHonest(c, e, id, now); }
      TakeKeepsPlaces(s, e);
      SettleKeepsPlaces(s.(conn := e), Settle(e, Abandoned), Abandoned);
      SettleKeepsHonest(e, Abandoned);
    }
  }

  lemma TunnelKeepsInv(s: Sys, t: ConnStep)
    requires Inv(s) && ConnEnabled(s.conn, t)
    ensures Inv(s.(conn := ConnNext(s.conn, t)))
  {
    var c := ConnNext(s.conn, t);
    match t
    case Connect => assert forall id :: Places(s.(conn := c), id) == Places(s, id);
    case DrainDone => assert forall id :: Places(s.(conn := c), id) == Places(s, id);
    case DrainOne => DrainKeepsInv(s);
    case Send(now, ok, onWire) => SendKeepsInv(s, now, ok, onWire);
    case Reply(r) => ReplyKeepsInv(s, r);
    case QueueClosed => SettleKeepsPlaces(s, c, Abandoned); SettleKeepsHonest(s.conn, Abandoned);
    case PeerGone => SettleKeepsPlaces(s, c, Failed); SettleKeepsHonest(s.conn, Failed);
    case Tick(now) =>
      if Overdue(s.conn.pending, now) { SettleKeepsPlaces(s, c, Failed); SettleKeepsHonest(s.conn, Failed); }
      else { assert s.(conn := c) == s; }
  }

  lemma SubmitKeepsInv(s: Sys, id: QueryId)
    requires Inv(s) && id in s.handling
    ensures Inv(Next(s, Submit(id)))
  {
    var t := Next(s, Submit(id));
    assert Places(s, id) == One(id < s.next);
    forall i: QueryId ensures Places(t, i) == One(i < t.next) {
      assert Places(s, i) == One(i < s.next);
      assert i in t.conn.queue <==> i in s.conn.queue || i == id;
    }
  }

  lemma StepKeepsInv(s: Sys, step: Step)
    requires Inv(s) && Enabled(s, step)
    ensures Inv(Next(s, step))
  {
    match step
    case Submit(id) => SubmitKeepsInv(s, id);
    case Tunnel(t) => TunnelKeepsInv(s, t);
    case _ =>
      var t := Next(s, step);
      forall i: QueryId ensures Places(t, i) == One(i < t.next) { assert Places(s, i) == One(i < s.next); }
  }

  /** Over every run and any number of reconnects. */
  lemma {:induction false} RunKeepsInv(trace: seq<Sys>, steps: seq<Step>, i: nat)
    requires Run(trace, steps) && i < |trace|
    ensures Inv(trace[i])
  {
    if i > 0 {
      RunKeepsInv(trace, steps, i - 1);
      StepKeepsInv(trace[i - 1], steps[i - 1]);
    }
  }

  /** No query is ever written to the wire twice, on whatever sessions. */
  lemma TransmittedOnce(trace: seq<Sys>, steps: seq<Step>, i: nat, a: nat, b: nat)
    requires Run(trace, steps) && i < |trace| && a < |trace[i].conn.wire| && b < |trace[i].conn.wire|
    requires trace[i].conn.wire[a].id == trace[i].conn.wire[b].id
    ensures a == b
  {
    RunKeepsInv(trace, steps, i);
  }

  /** A session that is over leaves nothing pending, and every answer given was
      for the query that was asked, which had been sent. */
  lemma ExitsCleanAnswersHonest(trace: seq<Sys>, steps: seq<Step>, i: nat, id: QueryId)
    requires Run(trace, steps) && i < |trace|
    ensures trace[i].conn.phase != Up ==> trace[i].conn.pending == map[]
    ensures id in trace[i].conn.outcome && trace[i].conn.outcome[id].Answered? ==>
      trace[i].conn.outcome[id].response.id == id && exists e :: Sent(id, e) in trace[i].conn.wire
  {
    RunKeepsInv(trace, steps, i);
  }

  lemma StepKeepsOutcome(s: Sys, step: Step, id: QueryId)
    requires Inv(s) && Enabled(s, step) && id in s.conn.outcome
    ensures id in Next(s, step).conn.outcome && Next(s, step).conn.outcome[id] == s.conn.outcome[id]
  {
    assert Places(s, id) == One(id < s.next);
    if s.conn.queue != [] { HeadIsNew(s); }
    match step
    case Tunnel(t) =>
      match t {
        case Send(_, ok, _) =>
        case Reply(_) =>
        case _ =>
      }
    case _ =>
  }

  /** A reply channel is resolved or dropped once: its outcome never changes,
      whatever arrives later. */
  lemma {:induction false} OutcomeIsFinal(trace: seq<Sys>, steps: seq<Step>, i: nat, j: nat, id: QueryId)
    requires Run(trace, steps) && i <= j < |trace| && id in trace[i].conn.outcome
    ensures id in trace[j].conn.outcome && trace[j].conn.outcome[id] == trace[i].conn.outcome[id]
    decreases j
  {
    if i < j {
      OutcomeIsFinal(trace, steps, i, j - 1, id);
      RunKeepsInv(trace, steps, j - 1);
      StepKeepsOutcome(trace[j - 1], steps[j - 1], id);
    }
  }

  /** A response to a query that is over, or was never sent, changes nothing. */
  lemma LateReplyIgnored(trace: seq<Sys>, steps: seq<Step>, i: nat, r: Response)
    requires Run(trace, steps) && i < |trace| && trace[i].conn.phase == Up
    requires r.id in trace[i].conn.outcome || !(exists e :: Sent(r.id, e) in trace[i].conn.wire)
    ensures Next(trace[i], Tunnel(Reply(r))) == trace[i]
  {
    RunKeepsInv(trace, steps, i);
    assert Places(trace[i], r.id) == One(r.id < trace[i].next);
  }

  /** Queued before the session is up: failed, and never sent. */
  ghost predicate Stale(s: Sys, id: QueryId)
  {
    || (s.conn.phase == Draining && id in s.conn.queue)
    || (id in s.conn.outcome && s.conn.outcome[id] == Failed && Unsent(s.conn.wire, id))
  }

  ghost predicate Unsent(wire: seq<Sent>, id: QueryId)
  {
    forall e :: Sent(id, e) !in wire
  }

  lemma StaleStays(s: Sys, step: Step, t: Sys, id: QueryId)
    requires Inv(s) && Enabled(s, step) && t == Next(s, step) && Stale(s, id)
    ensures Stale(t, id)
  {
    assert Places(s, id) == One(id < s.next);
    if s.conn.queue != [] {
      HeadIsNew(s);
      var q := s.conn.queue;
      assert id in q <==> id == q[0] || id in q[1..];
    }
    if id in s.conn.outcome { StepKeepsOutcome(s, step, id); }
  }

  lemma StaleStep(trace: seq<Sys>, steps: seq<Step>, j: nat, id: QueryId)
    requires Run(trace, steps) && j + 1 < |trace| && Stale(trace[j], id)
    ensures Stale(trace[j + 1], id)
  {
    RunKeepsInv(trace, steps, j);
    StaleStays(trace[j], steps[j], trace[j + 1], id);
  }

  lemma {:induction false} StaleForever(trace: seq<Sys>, steps: seq<Step>, i: nat, j: nat, id: QueryId)
    requires Run(trace, steps) && i <= j < |trace| && Stale(trace[i], id)
    ensures Stale(trace[j], id)
    decreases j
  {
    if i < j {
      StaleForever(trace, steps, i, j - 1, id);
      StaleStep(trace, steps, j - 1, id);
    }
  }

  lemma QueuedNotSent(s: Sys, id: QueryId, e: nat)
    requires Inv(s) && id in s.conn.queue
    ensures Sent(id, e) !in s.conn.wire
  {
    assert Places(s, id) == One(id < s.next);
  }

  /** A query waiting when a session starts is never sent on it or any other. */
  lemma StaleNeverSent(trace: seq<Sys>, steps: seq<Step>, i: nat, j: nat, id: QueryId, e: nat)
    requires Run(trace, steps) && i <= j < |trace| && trace[i].conn.phase == Draining && id in trace[i].conn.queue
    ensures Sent(id, e) !in trace[j].conn.wire
    ensures trace[j].conn.phase != Draining ==> id in trace[j].conn.outcome && trace[j].conn.outcome[id] == Failed
  {
    StaleForever(trace, steps, i, j, id);
    RunKeepsInv(trace, steps, j);
    if id in trace[j].conn.queue { QueuedNotSent(trace[j], id, e); }
  }

  /** After a check that lets the session go on, no query has waited ten
      seconds; otherwise all pending ones are failed at once. */
  lemma TickBoundsWait(s: Sys, now: nat)
    requires Inv(s) && Enabled(s, Tunnel(Tick(now)))
    ensures var t := Next(s, Tunnel(Tick(now))).conn;
      if t.phase == Up then t == s.conn && forall id :: id in t.pending ==> now - t.pending[id] < PENDING_TIMEOUT
      else forall id :: id in s.conn.pending ==> id in t.outcome && t.outcome[id] == Failed
  {
  }

  // ---- what ends a query, and how ----

  /** On a session that is up, the pending queries are those written to it and
      not over. */
  lemma PendingIff(trace: seq<Sys>, steps: seq<Step>, i: nat, id: QueryId)
    requires Run(trace, steps) && i < |trace|
    ensures trace[i].conn.phase == Up ==>
      (id in trace[i].conn.pending <==> Sent(id, trace[i].conn.epoch) in trace[i].conn.wire && id !in trace[i].conn.outcome)
  {
    RunKeepsInv(trace, steps, i);
    assert Places(trace[i], id) == One(id < trace[i].next);
  }

  /** A reply to a query written on this session and not over answers it, with
      all it carries, and touches nothing else; any other changes nothing. */
  lemma ReplyAnswers(trace: seq<Sys>, steps: seq<Step>, i: nat, r: Response)
    requires Run(trace, steps) && i < |trace| && trace[i].conn.phase == Up
    ensures var s, t := trace[i], Next(trace[i], Tunnel(Reply(r)));
      && (r.id in s.conn.pending <==> Sent(r.id, s.conn.epoch) in s.conn.wire && r.id !in s.conn.outcome)
      && if r.id in s.conn.pending then
        && r.id in t.conn.outcome && t.conn.outcome[r.id] == Answered(r) && r.id !in t.conn.pending
        && (forall id :: id != r.id ==>
              && (id in t.conn.pending <==> id in s.conn.pending)
              && (id in s.conn.pending ==> t.conn.pending[id] == s.conn.pending[id])
              && (id in t.conn.outcome <==> id in s.conn.outcome)
              && (id in s.conn.outcome ==> t.conn.outcome[id] == s.conn.outcome[id]))
        && t == s.(conn := s.conn.(pending := t.conn.pending, outcome := t.conn.outcome))
      else t == s
  {
    PendingIff(trace, steps, i, r.id);
  }

  /** The step ends query `id`, and how: a stale or refused query by itself, the
      rest with their session, an answered one by its reply. */
  ghost predicate EndsAs(c: Conn, step: ConnStep, id: QueryId, how: Outcome)
  {
    match step
    case DrainOne => c.queue != [] && id == c.queue[0] && how == Failed
    case Send(_, ok, _) => c.queue != [] && !ok && (id == c.queue[0] || id in c.pending) && how == Abandoned
    case QueueClosed => id in c.pending && how == Abandoned
    case Reply(r) => id == r.id && id in c.pending && how == Answered(r)
    case PeerGone => id in c.pending && how == Failed
    case Tick(now) =>
      id in c.pending && how == Failed && exists late :: late in c.pending && now - c.pending[late] >= PENDING_TIMEOUT
    case _ => false
  }

  lemma StepEnds(s: Sys, step: Step, id: QueryId, how: Outcome)
    requires Inv(s) && Enabled(s, step) && id !in s.conn.outcome
    ensures (id in Next(s, step).conn.outcome && Next(s, step).conn.outcome[id] == how)
            <==> step.Tunnel? && EndsAs(s.conn, step.step, id, how)
  {
  }

  /** Every step of every run ends exactly these queries, exactly so. */
  lemma RunEnds(trace: seq<Sys>, steps: seq<Step>, i: nat, id: QueryId, how: Outcome)
    requires Run(trace, steps) && i < |steps| && id !in trace[i].conn.outcome
    ensures (id in trace[i + 1].conn.outcome && trace[i + 1].conn.outcome[id] == how)
            <==> steps[i].Tunnel? && EndsAs(trace[i].conn, steps[i].step, id, how)
  {
    RunKeepsInv(trace, steps, i);
    StepEnds(trace[i], steps[i], id, how);
  }

  /** So every outcome has its cause; an answer is the whole response of an
      earlier reply. */
  lemma {:induction false} OutcomeHasCause(trace: seq<Sys>, steps: seq<Step>, i: nat, id: QueryId)
    requires Run(trace, steps) && i < |trace| && id in trace[i].conn.outcome
    ensures exists k :: 0 <= k < i && steps[k].Tunnel? && EndsAs(trace[k].conn, steps[k].step, id, trace[i].conn.outcome[id])
    ensures trace[i].conn.outcome[id].Answered? ==>
      exists k :: 0 <= k < i && steps[k] == Tunnel(Reply(trace[i].conn.outcome[id].response))
  {
    if id in trace[i - 1].conn.outcome {
      OutcomeHasCause(trace, steps, i - 1, id);
      OutcomeIsFinal(trace, steps, i - 1, i, id);
    } else {
      RunEnds(trace, steps, i - 1, id, trace[i].conn.outcome[id]);
    }
  }

  // ---- what is written, and in what order ----

  /** The queries handed to the tunnel, in order. */
  function Submitted(steps: seq<Step>): seq<QueryId>
  {
    if steps == [] then []
    else Submitted(steps[..|steps| - 1]) + if steps[|steps| - 1].Submit? then [steps[|steps| - 1].id] else []
  }

  function Connects(steps: seq<Step>): nat
  {
    if steps == [] then 0
    else Connects(steps[..|steps| - 1]) + if steps[|steps| - 1] == Tunnel(Connect) then 1 else 0
  }

  ghost predicate EndsWith<T(!new)>(all: seq<T>, tail: seq<T>)
  {
    |tail| <= |all| && all[|all| - |tail|..] == tail
  }

  lemma QueueMoves(s: Sys, step: Step)
    requires Enabled(s, step)
    ensures var q := Next(s, step).conn.queue;
      if step.Submit? then q == s.conn.queue + [step.id]
      else q == s.conn.queue || (s.conn.queue != [] && q == s.conn.queue[1..])
    ensures Next(s, step).conn.epoch == s.conn.epoch + if step == Tunnel(Connect) then 1 else 0
  {
  }

  lemma TailMoves(all: seq<QueryId>, q: seq<QueryId>, id: QueryId)
    requires EndsWith(all, q)
    ensures EndsWith(all + [id], q + [id]) && (q != [] ==> EndsWith(all, q[1..]))
  {
  }

  /** The queue is what was submitted last: queries leave it in the order they
      entered, and the session number is the number of connects so far. */
  lemma {:induction false} QueueIsFifo(trace: seq<Sys>, steps: seq<Step>, i: nat)
    requires Run(trace, steps) && i < |trace|
    ensures EndsWith(Submitted(steps[..i]), trace[i].conn.queue)
    ensures trace[i].conn.epoch == Connects(steps[..i])
  {
    if i > 0 {
      QueueIsFifo(trace, steps, i - 1);
      var before, step := trace[i - 1], steps[i - 1];
      assert steps[..i][..i - 1] == steps[..i - 1];
      QueueMoves(before, step);
      TailMoves(Submitted(steps[..i - 1]), before.conn.queue, if step.Submit? then step.id else 0);
    }
  }

  /** A send writes the head of the queue on the running session, if anything;
      nothing else is ever written. */
  lemma WireGrows(trace: seq<Sys>, steps: seq<Step>, i: nat)
    requires Run(trace, steps) && i < |steps|
    ensures trace[i + 1].conn.wire == trace[i].conn.wire +
      if steps[i].Tunnel? && steps[i].step.Send? && steps[i].step.onWire
      then [Sent(trace[i].conn.queue[0], trace[i].conn.epoch)] else []
  {
  }

  /** A pending query has waited since the very send that wrote it. */
  lemma {:induction false} PendingSince(trace: seq<Sys>, steps: seq<Step>, i: nat, id: QueryId)
    requires Run(trace, steps) && i < |trace| && id in trace[i].conn.pending
    ensures exists k :: 0 <= k < i && steps[k] == Tunnel(Send(trace[i].conn.pending[id], true, true))
                        && trace[k].conn.queue != [] && trace[k].conn.queue[0] == id
  {
    if id in trace[i - 1].conn.pending && trace[i].conn.pending[id] == trace[i - 1].conn.pending[id] {
      PendingSince(trace, steps, i - 1, id);
    }
  }

  /** How the manager stands, read off the steps: draining from each connect
      until the queue is empty, up from then until a failed send, a closed
      queue, a peer that is gone or an overdue query, and down otherwise. */
  lemma PhaseMoves(trace: seq<Sys>, steps: seq<Step>, i: nat)
    requires Run(trace, steps) && i < |steps|
    ensures var c, after := trace[i].conn, trace[i + 1].conn.phase;
      if !steps[i].Tunnel? then after == c.phase
      else
        match steps[i].step
        case Connect => after == Draining
        case DrainOne => after == Draining
        case DrainDone => after == Up && c.queue == []
        case Send(_, ok, _) => after == if ok then Up else Down
        case QueueClosed => after == Down
        case Reply(_) => after == Up
        case PeerGone => after == Down
        case Tick(now) =>
          after == Down <==> exists late :: late in c.pending && now - c.pending[late] >= PENDING_TIMEOUT
  {
  }

  lemma {:induction false} ClosedBySteps(trace: seq<Sys>, steps: seq<Step>, i: nat)
    requires Run(trace, steps) && i < |trace|
    ensures trace[i].closed <==> CloseQueue in steps[..i]
  {
    if i > 0 {
      ClosedBySteps(trace, steps, i - 1);
      assert steps[..i] == steps[..i - 1] + [steps[i - 1]];
    }
  }
}
