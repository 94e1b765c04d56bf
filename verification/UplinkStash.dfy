/** Packets routed to a secondary exit before its address is known. */
module UplinkStash {
  import opened Common
  import opened NatRewrite

  /** Packets stashed at most; past it the oldest is dropped. */
  const PENDING_UPLINK_CAP := 32

  type Packet = seq<byte>

  function Push<T>(stash: seq<T>, x: T): seq<T>
  {
    (if |stash| >= PENDING_UPLINK_CAP then stash[1..] else stash) + [x]
  }

  /** Drop-oldest keeps exactly the newest 32. */
  lemma PushKeepsNewest<T>(log: seq<T>, x: T)
    ensures Push(Newest(log, PENDING_UPLINK_CAP), x) == Newest(log + [x], PENDING_UPLINK_CAP)
  {
  }

  // ---- the session's own methods ----

  /** What reaches a channel with room for `room` more packets: the usable ones,
      rewritten, in order, as far as they fit. */
  function Flushed(stash: seq<Packet>, ip: Ip, room: nat): seq<Packet>
  {
    if stash == [] then []
    else
      var sent := Flushed(stash[..|stash| - 1], ip, room);
      var p := stash[|stash| - 1];
      if Usable(p) && |sent| < room then sent + [Rewritten(p, Source, ip)] else sent
  }

  /** `at` lists the positions of the usable packets, in order. */
  ghost predicate UsableAt(stash: seq<Packet>, at: seq<nat>)
  {
    && (forall j, k :: 0 <= j < k < |at| ==> at[j] < at[k])
    && (forall i: nat :: i in at <==> i < |stash| && Usable(stash[i]))
  }

  /** `q` is packet `i` of the stash, rewritten to come from `ip`. */
  ghost predicate SentFrom(q: Packet, stash: seq<Packet>, i: nat, ip: Ip)
  {
    i < |stash| && Usable(stash[i]) && q == Rewritten(stash[i], Source, ip)
  }

  /** `sent` are the first usable packets, as many as there is room for, each
      rewritten to come from `ip`. */
  ghost predicate FirstUsable(sent: seq<Packet>, stash: seq<Packet>, ip: Ip, room: nat, at: seq<nat>)
  {
    && UsableAt(stash, at) && |sent| == Min(room, |at|)
    && forall k :: 0 <= k < |sent| ==> SentFrom(sent[k], stash, at[k], ip)
  }

  lemma UsableAtSnoc(front: seq<Packet>, p: Packet, at: seq<nat>)
    requires UsableAt(front, at)
    ensures UsableAt(front + [p], if Usable(p) then at + [|front|] else at)
  {
    var all, more := front + [p], if Usable(p) then at + [|front|] else at;
    forall i: nat ensures i in more <==> i < |all| && Usable(all[i]) {
      assert i in more <==> i in at || (Usable(p) && i == |front|);
      assert i in at <==> i < |front| && Usable(front[i]);
    }
    assert forall j :: 0 <= j < |at| ==> at[j] in at;
  }

  lemma SentStays(sent: seq<Packet>, front: seq<Packet>, p: Packet, ip: Ip, at: seq<nat>)
    requires |sent| <= |at| && forall k :: 0 <= k < |sent| ==> SentFrom(sent[k], front, at[k], ip)
    ensures forall k :: 0 <= k < |sent| ==> SentFrom(sent[k], front + [p], at[k], ip)
  {
  }

  lemma SentGrows(sent: seq<Packet>, stash: seq<Packet>, ip: Ip, at: seq<nat>, q: Packet, i: nat)
    requires |sent| == |at| && (forall k :: 0 <= k < |sent| ==> SentFrom(sent[k], stash, at[k], ip)) && SentFrom(q, stash, i, ip)
    ensures forall k :: 0 <= k < |sent + [q]| ==> SentFrom((sent + [q])[k], stash, (at + [i])[k], ip)
  {
  }

  /** One more packet in the stash: it is sent if it is usable and fits. */
  lemma FirstUsableSnoc(sent: seq<Packet>, front: seq<Packet>, p: Packet, ip: Ip, room: nat, at: seq<nat>)
    requires FirstUsable(sent, front, ip, room, at)
    ensures Usable(p) && |sent| < room ==>
      FirstUsable(sent + [Rewritten(p, Source, ip)], front + [p], ip, room, at + [|front|])
    ensures Usable(p) && |sent| >= room ==> FirstUsable(sent, front + [p], ip, room, at + [|front|])
    ensures !Usable(p) ==> FirstUsable(sent, front + [p], ip, room, at)
  {
    UsableAtSnoc(front, p, at);
    SentStays(sent, front, p, ip, at);
    if Usable(p) && |sent| < room {
      SentGrows(sent, front + [p], ip, at, Rewritten(p, Source, ip), |front|);
    }
  }

  lemma {:induction false} FlushedIsFirstUsable(stash: seq<Packet>, ip: Ip, room: nat) returns (at: seq<nat>)
    ensures FirstUsable(Flushed(stash, ip, room), stash, ip, room, at)
  {
    if stash == [] {
      at := [];
    } else {
      var front, p := stash[..|stash| - 1], stash[|stash| - 1];
      var before := FlushedIsFirstUsable(front, ip, room);
      var sent := Flushed(front, ip, room);
      FirstUsableSnoc(sent, front, p, ip, room, before);
      assert stash == front + [p];
      if Usable(p) && |sent| < room { assert Flushed(stash, ip, room) == sent + [Rewritten(p, Source, ip)]; }
      at := if Usable(p) then before + [|front|] else before;
    }
  }

  ghost predicate Grew(before: seq<Packet>, after: seq<Packet>, stash: seq<Packet>, ip: Ip, room: nat)
  {
    before <= after && exists at :: FirstUsable(after[|before|..], stash, ip, room, at)
  }

  datatype Enqueued = Stashed | SentOn | BadHeader | ChannelFull

  class Session {
    const capacity: nat
    var pending: seq<Packet>
    var tunnelIp: Option<Ip>
    var channel: seq<Packet>

    constructor (capacity: nat)
      ensures this.capacity == capacity && pending == [] && tunnelIp == None && channel == []
    {
      this.capacity := capacity;
      pending, tunnelIp, channel := [], None, [];
    }

    method TrySend(p: Packet) returns (ok: bool)
      modifies this`channel
      ensures ok == (|old(channel)| < capacity)
      ensures channel == if ok then old(channel) + [p] else old(channel)
    {
      ok := |channel| < capacity;
      if ok { channel := channel + [p]; }
    }

    method EnqueueUplink(p: Packet) returns (r: Enqueued)
      modifies this`pending, this`channel
      ensures r == Stashed <==> old(tunnelIp).None?
      ensures r == BadHeader <==> tunnelIp.Some? && !Usable(p)
      ensures r == SentOn ==> channel == old(channel) + [Rewritten(p, Source, tunnelIp.value)]
      ensures r == ChannelFull <==> tunnelIp.Some? && Usable(p) && |old(channel)| >= capacity
      ensures r != SentOn ==> channel == old(channel)
      ensures pending == if r == Stashed then Push(old(pending), p) else old(pending)
    {
      if tunnelIp.Some? {
        var q, ok := RewriteCopy(p, tunnelIp.value);
        if !ok { return BadHeader; }
        ok := TrySend(q);
        return if ok then SentOn else ChannelFull;
      }
      if |pending| >= PENDING_UPLINK_CAP { pending := pending[1..]; }
      pending := pending + [p];
      r := Stashed;
    }

    method FlushPending()
      modifies this`pending, this`channel
      ensures tunnelIp.None? ==> pending == old(pending) && channel == old(channel)
      ensures tunnelIp.Some? ==> pending == []
      ensures tunnelIp.Some? ==>
        channel == old(channel) + Flushed(old(pending), tunnelIp.value, Max(capacity - |old(channel)|, 0))
      ensures tunnelIp.Some? ==>
        Grew(old(channel), channel, old(pending), tunnelIp.value, Max(capacity - |old(channel)|, 0))
    {
      if tunnelIp.None? { return; }
      var ip := tunnelIp.value;
      ghost var all, room, n := pending, Max(capacity - |channel|, 0), 0;
      assert all[..0] == [];
      while pending != []
        invariant n <= |all| && pending == all[n..]
        invariant channel == old(channel) + Flushed(all[..n], ip, room)
        decreases |pending|
      {
        assert all[..n + 1][..n] == all[..n] && all[n] == pending[0];
        var q, ok := RewriteCopy(pending[0], ip);
        pending, n := pending[1..], n + 1;
        if ok { var _ := TrySend(q); }
      }
      assert all[..|all|] == all;
      ghost var at := FlushedIsFirstUsable(all, ip, room);
      assert channel[|old(channel)|..] == Flushed(all, ip, room);
    }

    method DropPending()
      modifies this`pending
      ensures pending == []
    {
      pending := [];
    }
  }

  /** Rewrite the source address of a packet the caller owns. */
  method RewriteCopy(p: Packet, ip: Ip) returns (q: Packet, ok: bool)
    ensures ok == Usable(p)
    ensures ok ==> q == Rewritten(p, Source, ip)
  {
    var a := new byte[|p|](i requires 0 <= i < |p| => p[i]);
    assert a[..] == p;
    ok := RewriteAddr(a, Source, ip);
    q := a[..];
  }

  // ---- all interleavings ----

  datatype Item = Item(id: nat, packet: Packet)

  datatype Cause = Oldest | Malformed | Refused | Discarded

  datatype Fate = Sent(packet: Packet, ip: Ip) | Dropped(cause: Cause)

  /** `held` are packets whose sender saw an address and has let go of the stash
      lock; `flushing` is the address a flush has read before taking it. `log`
      is everything stashed since the stash was last emptied, `arrived` every
      packet there has been, by number, and `stored` every address. */
  datatype State = State(stash: seq<Item>, ip: Option<Ip>, held: map<nat, (Packet, Ip)>,
                         flushing: Option<Ip>, log: seq<Item>, fate: map<nat, Fate>,
                         arrived: seq<Packet>, flushed: bool, stored: set<Ip>)

  datatype Step =
    | Enqueue(packet: Packet)
    | SendHeld(id: nat, accepted: bool)
    | StoreIp(ip: Ip)
    | FlushReadsIp
    | FlushEmpties(accepts: nat -> bool)
    | DropAll

  ghost predicate Enabled(s: State, step: Step)
  {
    match step
    case Enqueue(_) => true
    case SendHeld(id, _) => id in s.held
    case StoreIp(_) => true
    case FlushReadsIp => s.ip.Some? && s.flushing.None?
    case FlushEmpties(_) => s.flushing.Some?
    case DropAll => true
  }

  function Attempt(p: Packet, ip: Ip, accepted: bool): Fate
  {
    if !Usable(p) then Dropped(Malformed)
    else if accepted then Sent(Rewritten(p, Source, ip), ip) else Dropped(Refused)
  }

  /** Fates of a sequence of stashed packets when the stash is emptied. */
  function Emptied(stash: seq<Item>, ip: Option<Ip>, accepts: nat -> bool): map<nat, Fate>
  {
    if stash == [] then map[]
    else
      var x := stash[|stash| - 1];
      Emptied(stash[..|stash| - 1], ip, accepts)
        [x.id := if ip.Some? then Attempt(x.packet, ip.value, accepts(x.id)) else Dropped(Discarded)]
  }

  function Next(s: State, step: Step): State
    requires step.SendHeld? ==> step.id in s.held
  {
    match step
    case Enqueue(p) =>
      var x, u := Item(|s.arrived|, p), s.(arrived := s.arrived + [p]);
      if s.ip.Some? then u.(held := s.held[x.id := (p, s.ip.value)])
      else
        u.(stash := Push(s.stash, x), log := s.log + [x],
           fate := if |s.stash| >= PENDING_UPLINK_CAP then s.fate[s.stash[0].id := Dropped(Oldest)] else s.fate)
    case SendHeld(id, accepted) =>
      s.(held := s.held - {id}, fate := s.fate[id := Attempt(s.held[id].0, s.held[id].1, accepted)])
    case StoreIp(ip) => s.(ip := Some(ip), stored := s.stored + {ip})
    case FlushReadsIp => s.(flushing := s.ip)
    case FlushEmpties(accepts) =>
      s.(stash := [], log := [], flushing := None, flushed := true,
         fate := s.fate + Emptied(s.stash, s.flushing, accepts))
    case DropAll => s.(stash := [], log := [], fate := s.fate + Emptied(s.stash, None, (_: nat) => false))
  }

  ghost predicate Run(trace: seq<State>, steps: seq<Step>)
  {
    && |trace| == |steps| + 1
    && trace[0] == State([], None, map[], None, [], map[], [], false, {})
    && forall i :: 0 <= i < |steps| ==> Enabled(trace[i], steps[i]) && trace[i + 1] == Next(trace[i], steps[i])
  }

  ghost predicate IdsRise(stash: seq<Item>)
  {
    forall i, j :: 0 <= i < j < |stash| ==> stash[i].id < stash[j].id
  }

  ghost predicate LogRises(log: seq<Item>, n: nat)
  {
    IdsRise(log) && forall x :: x in log ==> x.id < n
  }

  lemma LogGrows(log: seq<Item>, x: Item, k: nat)
    requires LogRises(log, x.id)
    ensures LogRises(log + [x], x.id + 1) && IdsRise(Newest(log, k))
  {
    assert forall i :: 0 <= i < |log| ==> log[i] in log;
  }

  function Ids(stash: seq<Item>): set<nat> { set x | x in stash :: x.id }

  /** A packet that has arrived is in exactly one of three places, any other in
      none. */
  predicate OnePlace(stashed: bool, held: bool, settled: bool, arrived: bool)
  {
    && (arrived <==> stashed || held || settled)
    && !(stashed && held) && !(stashed && settled) && !(held && settled)
  }

  /** The stash holds the newest packets since it was last emptied; once a flush
      is under way an address is known, and once one is done the stash stays
      empty; every packet ever enqueued is in exactly one place. */
  ghost predicate Inv(s: State)
  {
    && s.stash == Newest(s.log, PENDING_UPLINK_CAP)
    && LogRises(s.log, |s.arrived|)
    && (s.flushing.Some? || s.flushed ==> s.ip.Some?)
    && (s.flushed ==> s.stash == [])
    && Places(s)
  }

  ghost predicate Places(s: State)
  {
    forall id: nat :: OnePlace(id in Ids(s.stash), id in s.held, id in s.fate, id < |s.arrived|)
  }

  lemma {:induction false} EmptiedKeys(stash: seq<Item>, ip: Option<Ip>, accepts: nat -> bool)
    ensures Emptied(stash, ip, accepts).Keys == Ids(stash)
  {
    if stash != [] {
      var n := |stash| - 1;
      EmptiedKeys(stash[..n], ip, accepts);
      assert stash == stash[..n] + [stash[n]];
      assert Ids(stash) == Ids(stash[..n]) + {stash[n].id};
    }
  }

  lemma AppendIds(stash: seq<Item>, x: Item)
    ensures Ids(stash + [x]) == Ids(stash) + {x.id}
  {
    assert forall y :: y in stash + [x] <==> y in stash || y == x;
  }

  lemma TailIds(stash: seq<Item>)
    requires IdsRise(stash) && stash != []
    ensures Ids(stash[1..]) == Ids(stash) - {stash[0].id}
  {
    AppendTail(stash);
    assert forall y :: y in stash[1..] ==> y.id != stash[0].id;
  }

  lemma AppendTail(stash: seq<Item>)
    requires stash != []
    ensures forall y :: y in stash <==> y == stash[0] || y in stash[1..]
  {
    assert stash == [stash[0]] + stash[1..];
  }

  lemma PushIds(stash: seq<Item>, x: Item)
    requires IdsRise(stash)
    ensures |stash| < PENDING_UPLINK_CAP ==> Ids(Push(stash, x)) == Ids(stash) + {x.id}
    ensures |stash| >= PENDING_UPLINK_CAP ==> Ids(Push(stash, x)) == Ids(stash) - {stash[0].id} + {x.id}
  {
    if |stash| >= PENDING_UPLINK_CAP {
      TailIds(stash);
      AppendIds(stash[1..], x);
    } else {
      AppendIds(stash, x);
    }
  }

  /** Some packets leave the stash for good and some enter it. */
  lemma SettleKeepsPlaces(s: State, t: State, gone: set<nat>, added: set<nat>)
    requires Places(s) && t.held == s.held && t.fate.Keys == s.fate.Keys + gone
    requires gone <= Ids(s.stash) && Ids(t.stash) == Ids(s.stash) - gone + added
    requires forall id: nat :: id in added <==> |s.arrived| <= id < |t.arrived|
    requires |s.arrived| <= |t.arrived|
    ensures Places(t)
  {
    forall id: nat ensures OnePlace(id in Ids(t.stash), id in t.held, id in t.fate, id < |t.arrived|) {
      assert OnePlace(id in Ids(s.stash), id in s.held, id in s.fate, id < |s.arrived|);
    }
  }

  lemma StashKeepsPlaces(s: State, t: State, x: Item)
    requires Places(s) && IdsRise(s.stash) && x.id == |s.arrived| && |t.arrived| == |s.arrived| + 1
    requires t.stash == Push(s.stash, x) && t.held == s.held
    requires |s.stash| < PENDING_UPLINK_CAP ==> t.fate == s.fate
    requires |s.stash| >= PENDING_UPLINK_CAP ==> t.fate.Keys == s.fate.Keys + {s.stash[0].id}
    ensures Places(t)
  {
    PushIds(s.stash, x);
    if |s.stash| >= PENDING_UPLINK_CAP {
      assert s.stash[0] in s.stash;
      SettleKeepsPlaces(s, t, {s.stash[0].id}, {x.id});
    } else {
      SettleKeepsPlaces(s, t, {}, {x.id});
    }
  }

  lemma StashKeepsInv(s: State, p: Packet)
    requires Inv(s) && s.ip.None?
    ensures Inv(Next(s, Enqueue(p)))
  {
    var x := Item(|s.arrived|, p);
    PushKeepsNewest(s.log, x);
    LogGrows(s.log, x, PENDING_UPLINK_CAP);
    StashKeepsPlaces(s, Next(s, Enqueue(p)), x);
  }

  lemma EmptyKeepsInv(s: State, step: Step)
    requires Inv(s) && Enabled(s, step) && (step.FlushEmpties? || step.DropAll?)
    ensures Inv(Next(s, step))
  {
    var ip := if step.FlushEmpties? then s.flushing else None;
    var accepts := if step.FlushEmpties? then step.accepts else ((_: nat) => false);
    EmptiedKeys(s.stash, ip, accepts);
    SettleKeepsPlaces(s, Next(s, step), Ids(s.stash), {});
  }

  lemma SendKeepsInv(s: State, step: Step)
    requires Inv(s) && Enabled(s, step) && (step.SendHeld? || (step.Enqueue? && s.ip.Some?))
    ensures Inv(Next(s, step))
  {
    var t := Next(s, step);
    forall id: nat ensures OnePlace(id in Ids(t.stash), id in t.held, id in t.fate, id < |t.arrived|) {
      assert OnePlace(id in Ids(s.stash), id in s.held, id in s.fate, id < |s.arrived|);
    }
  }

  lemma StepKeepsInv(s: State, step: Step)
    requires Inv(s) && Enabled(s, step)
    ensures Inv(Next(s, step))
  {
    match step
    case Enqueue(p) => if s.ip.None? { StashKeepsInv(s, p); } else { SendKeepsInv(s, step); }
    case SendHeld(_, _) => SendKeepsInv(s, step);
    case FlushEmpties(_) => EmptyKeepsInv(s, step);
    case DropAll => EmptyKeepsInv(s, step);
    case _ =>
  }

  /** Over every interleaving of enqueues, address stores, flushes and drops. */
  lemma {:induction false} RunKeepsInv(trace: seq<State>, steps: seq<Step>, i: nat)
    requires Run(trace, steps) && i < |trace|
    ensures Inv(trace[i]) && |trace[i].stash| <= PENDING_UPLINK_CAP
  {
    if i > 0 {
      RunKeepsInv(trace, steps, i - 1);
      StepKeepsInv(trace[i - 1], steps[i - 1]);
    }
  }

  // ---- what becomes of a packet ----

  /** A settled fate tells the truth about the packet that arrived: it was sent
      rewritten to a stored address, or dropped, as malformed only if it is. */
  ghost predicate Truthful(f: Fate, p: Packet, stored: set<Ip>)
  {
    match f
    case Sent(q, ip) => Usable(p) && q == Rewritten(p, Source, ip) && ip in stored
    case Dropped(Malformed) => !Usable(p)
    case Dropped(_) => true
  }

  ghost predicate Stored(ip: Option<Ip>, stored: set<Ip>) { ip.Some? ==> ip.value in stored }

  ghost predicate Faithful(s: State)
  {
    && Stored(s.ip, s.stored) && Stored(s.flushing, s.stored)
    && (forall x :: x in s.stash ==> x.id < |s.arrived| && x.packet == s.arrived[x.id])
    && (forall id :: id in s.held ==>
          id < |s.arrived| && s.held[id].0 == s.arrived[id] && s.held[id].1 in s.stored)
    && (forall id :: id in s.fate ==> id < |s.arrived| && Truthful(s.fate[id], s.arrived[id], s.stored))
  }

  lemma {:induction false} EmptiedTruthful(stash: seq<Item>, ip: Option<Ip>, accepts: nat -> bool, arrived: seq<Packet>,
                                           stored: set<Ip>)
    requires Stored(ip, stored)
    requires forall x :: x in stash ==> x.id < |arrived| && x.packet == arrived[x.id]
    ensures forall id :: id in Emptied(stash, ip, accepts) ==>
      id < |arrived| && Truthful(Emptied(stash, ip, accepts)[id], arrived[id], stored)
  {
    if stash != [] {
      assert stash[|stash| - 1] in stash;
      EmptiedTruthful(stash[..|stash| - 1], ip, accepts, arrived, stored);
    }
  }

  lemma EmptyKeepsFaith(s: State, t: State, emptied: map<nat, Fate>)
    requires Faithful(s) && t.stash == [] && t.held == s.held && t.arrived == s.arrived && t.fate == s.fate + emptied
    requires t.stored == s.stored && t.ip == s.ip && (t.flushing == s.flushing || t.flushing == None)
    requires forall id :: id in emptied ==> id < |s.arrived| && Truthful(emptied[id], s.arrived[id], s.stored)
    ensures Faithful(t)
  {
  }

  lemma ArrivalKeepsFaith(s: State, p: Packet)
    requires Faithful(s)
    ensures Faithful(s.(arrived := s.arrived + [p]))
  {
  }

  lemma StashKeepsFaith(u: State, t: State, x: Item, dropped: set<nat>)
    requires Faithful(u) && x.id < |u.arrived| && x.packet == u.arrived[x.id]
    requires t.arrived == u.arrived && t.held == u.held && t.stored == u.stored && t.ip == u.ip && t.flushing == u.flushing
    requires forall y :: y in t.stash ==> y in u.stash || y == x
    requires forall id :: id in dropped ==> id < |u.arrived|
    requires t.fate == u.fate + map id | id in dropped :: Dropped(Oldest)
    ensures Faithful(t)
  {
  }

  lemma HoldKeepsFaith(u: State, id: nat, ip: Ip)
    requires Faithful(u) && id < |u.arrived| && ip in u.stored
    ensures Faithful(u.(held := u.held[id := (u.arrived[id], ip)]))
  {
  }

  lemma StashedKeepsFaith(s: State, p: Packet, u: State)
    requires Faithful(u) && s.ip.None? && u == s.(arrived := s.arrived + [p])
    ensures Faithful(Next(s, Enqueue(p)))
  {
    var x := Item(|s.arrived|, p);
    if |s.stash| >= PENDING_UPLINK_CAP {
      AppendTail(s.stash);
      StashKeepsFaith(u, Next(s, Enqueue(p)), x, {s.stash[0].id});
    } else {
      StashKeepsFaith(u, Next(s, Enqueue(p)), x, {});
    }
  }

  lemma EnqueueKeepsFaith(s: State, p: Packet)
    requires Faithful(s)
    ensures Faithful(Next(s, Enqueue(p)))
  {
    ArrivalKeepsFaith(s, p);
    var u := s.(arrived := s.arrived + [p]);
    if s.ip.Some? { HoldKeepsFaith(u, |s.arrived|, s.ip.value); } else { StashedKeepsFaith(s, p, u); }
  }

  lemma SendKeepsFaith(s: State, id: nat, accepted: bool)
    requires Faithful(s) && id in s.held
    ensures Faithful(Next(s, SendHeld(id, accepted)))
  {
  }

  lemma StepKeepsFaith(s: State, step: Step)
    requires Faithful(s) && Enabled(s, step)
    ensures Faithful(Next(s, step))
  {
    match step
    case Enqueue(p) => EnqueueKeepsFaith(s, p);
    case SendHeld(id, accepted) => SendKeepsFaith(s, id, accepted);
    case FlushEmpties(accepts) =>
      EmptiedTruthful(s.stash, s.flushing, accepts, s.arrived, s.stored);
      EmptyKeepsFaith(s, Next(s, step), Emptied(s.stash, s.flushing, accepts));
    case DropAll =>
      EmptiedTruthful(s.stash, None, (_: nat) => false, s.arrived, s.stored);
      EmptyKeepsFaith(s, Next(s, step), Emptied(s.stash, None, (_: nat) => false));
    case _ =>
  }

  lemma {:induction false} RunIsFaithful(trace: seq<State>, steps: seq<Step>, i: nat)
    requires Run(trace, steps) && i < |trace|
    ensures Faithful(trace[i])
  {
    if i > 0 {
      RunIsFaithful(trace, steps, i - 1);
      StepKeepsFaith(trace[i - 1], steps[i - 1]);
    }
  }

  /** The addresses stored are those of the steps that store one, and no others:
      so a packet sent by state `i` carries the address of an earlier store. */
  lemma {:induction false} StoredBySteps(trace: seq<State>, steps: seq<Step>, i: nat, ip: Ip)
    requires Run(trace, steps) && i < |trace|
    ensures ip in trace[i].stored <==> exists k :: 0 <= k < i && steps[k] == StoreIp(ip)
  {
    if i > 0 { StoredBySteps(trace, steps, i - 1, ip); }
  }

  lemma StepKeepsFates(s: State, step: Step, id: nat)
    requires Inv(s) && Enabled(s, step) && id in s.fate
    ensures id in Next(s, step).fate && Next(s, step).fate[id] == s.fate[id]
    ensures s.flushed ==> Next(s, step).flushed
  {
    match step
    case FlushEmpties(accepts) => EmptiedKeys(s.stash, s.flushing, accepts);
    case DropAll => EmptiedKeys(s.stash, None, (_: nat) => false);
    case Enqueue(p) => if |s.stash| >= PENDING_UPLINK_CAP { assert s.stash[0] in s.stash; }
    case _ =>
  }

  /** A packet's fate, once settled, never changes. */
  lemma {:induction false} FateIsFinal(trace: seq<State>, steps: seq<Step>, i: nat, j: nat, id: nat)
    requires Run(trace, steps) && i <= j < |trace| && id in trace[i].fate
    ensures id in trace[j].fate && trace[j].fate[id] == trace[i].fate[id]
    decreases j
  {
    if i < j {
      FateIsFinal(trace, steps, i, j - 1, id);
      RunKeepsInv(trace, steps, j - 1);
      StepKeepsFates(trace[j - 1], steps[j - 1], id);
    }
  }

  /** From the end of the first flush on, the stash is empty for ever. */
  lemma {:induction false} EmptyAfterFlush(trace: seq<State>, steps: seq<Step>, i: nat, j: nat)
    requires Run(trace, steps) && i <= j < |trace| && trace[i].flushed
    ensures trace[j].flushed && trace[j].stash == []
    decreases j
  {
    RunKeepsInv(trace, steps, j);
    if i < j { EmptyAfterFlush(trace, steps, i, j - 1); }
  }

  // ---- what settles a packet, and where an arriving one goes ----

  /** The step settles packet `id`: its own send, the flush or the drop of the
      stash it is in, or an arrival that pushes it out of a full stash. */
  ghost predicate Settles(s: State, step: Step, id: nat)
  {
    match step
    case SendHeld(i, _) => i == id
    case FlushEmpties(_) => id in Ids(s.stash)
    case DropAll => id in Ids(s.stash)
    case Enqueue(_) => s.ip.None? && |s.stash| == PENDING_UPLINK_CAP && s.stash[0].id == id
    case _ => false
  }

  /** The outcome of one attempt to send: malformed, refused, or on the channel
      with its source rewritten. */
  ghost predicate Attempted(f: Fate, p: Packet, ip: Ip, accepted: bool)
  {
    && (!Usable(p) ==> f == Dropped(Malformed))
    && (Usable(p) && !accepted ==> f == Dropped(Refused))
    && (Usable(p) && accepted ==> f == Sent(Rewritten(p, Source, ip), ip))
  }

  /** The fate that the step settles packet `id` to. */
  ghost predicate SettledAs(s: State, step: Step, id: nat, f: Fate)
  {
    match step
    case SendHeld(_, accepted) =>
      id in s.held && id < |s.arrived| && Attempted(f, s.arrived[id], s.held[id].1, accepted)
    case FlushEmpties(accepts) =>
      s.flushing.Some? && id < |s.arrived| && Attempted(f, s.arrived[id], s.flushing.value, accepts(id))
    case DropAll => f == Dropped(Discarded)
    case Enqueue(_) => f == Dropped(Oldest)
    case _ => false
  }

  lemma {:induction false} EmptiedAt(stash: seq<Item>, ip: Option<Ip>, accepts: nat -> bool, i: nat)
    requires IdsRise(stash) && i < |stash|
    ensures stash[i].id in Emptied(stash, ip, accepts)
    ensures Emptied(stash, ip, accepts)[stash[i].id] ==
      if ip.Some? then Attempt(stash[i].packet, ip.value, accepts(stash[i].id)) else Dropped(Discarded)
  {
    var n := |stash| - 1;
    if i < n {
      assert stash[..n][i] == stash[i] && stash[i].id != stash[n].id;
      EmptiedAt(stash[..n], ip, accepts, i);
    }
  }

  lemma EmptiedFates(stash: seq<Item>, ip: Option<Ip>, accepts: nat -> bool, x: Item)
    requires IdsRise(stash) && x in stash
    ensures x.id in Emptied(stash, ip, accepts)
    ensures ip.None? ==> Emptied(stash, ip, accepts)[x.id] == Dropped(Discarded)
    ensures ip.Some? ==> Attempted(Emptied(stash, ip, accepts)[x.id], x.packet, ip.value, accepts(x.id))
  {
    var i :| 0 <= i < |stash| && stash[i] == x;
    EmptiedAt(stash, ip, accepts, i);
  }

  /** What emptying a stash adds to the fates. */
  lemma EmptySettles(fate: map<nat, Fate>, stash: seq<Item>, ip: Option<Ip>, accepts: nat -> bool, arrived: seq<Packet>, id: nat)
    requires IdsRise(stash) && id !in fate && forall x :: x in stash ==> x.id < |arrived| && x.packet == arrived[x.id]
    ensures id in fate + Emptied(stash, ip, accepts) <==> id in Ids(stash)
    ensures id in Ids(stash) ==>
      && id < |arrived|
      && (ip.None? ==> (fate + Emptied(stash, ip, accepts))[id] == Dropped(Discarded))
      && (ip.Some? ==> Attempted((fate + Emptied(stash, ip, accepts))[id], arrived[id], ip.value, accepts(id)))
  {
    EmptiedKeys(stash, ip, accepts);
    if id in Ids(stash) {
      var x :| x in stash && x.id == id;
      EmptiedFates(stash, ip, accepts, x);
    }
  }

  /** The facts about the stash that settling needs. */
  ghost predicate Stashes(s: State)
  {
    && |s.stash| <= PENDING_UPLINK_CAP && IdsRise(s.stash)
    && forall x :: x in s.stash ==> x.id < |s.arrived| && x.packet == s.arrived[x.id]
  }

  ghost predicate SettledRight(s: State, step: Step, fate: map<nat, Fate>, id: nat)
  {
    && (id in fate <==> Settles(s, step, id))
    && (id in fate ==> SettledAs(s, step, id, fate[id]))
  }

  lemma FlushSettles(s: State, accepts: nat -> bool, id: nat)
    requires Stashes(s) && s.flushing.Some? && id !in s.fate
    ensures SettledRight(s, FlushEmpties(accepts), Next(s, FlushEmpties(accepts)).fate, id)
  {
    EmptySettles(s.fate, s.stash, s.flushing, accepts, s.arrived, id);
  }

  lemma DropSettles(s: State, id: nat)
    requires Stashes(s) && id !in s.fate
    ensures SettledRight(s, DropAll, Next(s, DropAll).fate, id)
  {
    EmptySettles(s.fate, s.stash, None, (_: nat) => false, s.arrived, id);
  }

  lemma SendSettles(s: State, i: nat, accepted: bool, id: nat)
    requires i in s.held && i < |s.arrived| && s.held[i].0 == s.arrived[i] && id !in s.fate
    ensures SettledRight(s, SendHeld(i, accepted), Next(s, SendHeld(i, accepted)).fate, id)
  {
  }

  lemma EnqueueSettles(s: State, p: Packet, id: nat)
    requires Stashes(s) && id !in s.fate
    ensures SettledRight(s, Enqueue(p), Next(s, Enqueue(p)).fate, id)
  {
  }

  lemma LogTail(log: seq<Item>, k: nat)
    requires IdsRise(log)
    ensures IdsRise(Newest(log, k)) && |Newest(log, k)| <= k
  {
  }

  lemma StepSettles(s: State, step: Step, id: nat)
    requires Stashes(s) && Faithful(s) && Enabled(s, step) && id !in s.fate
    ensures SettledRight(s, step, Next(s, step).fate, id)
  {
    match step
    case FlushEmpties(accepts) => FlushSettles(s, accepts, id);
    case DropAll => DropSettles(s, id);
    case SendHeld(i, accepted) => SendSettles(s, i, accepted, id);
    case Enqueue(p) => EnqueueSettles(s, p, id);
    case _ =>
  }

  /** Every step of every run settles exactly these packets, to exactly these
      fates. */
  lemma RunSettles(trace: seq<State>, steps: seq<Step>, i: nat, id: nat)
    requires Run(trace, steps) && i < |steps| && id !in trace[i].fate
    ensures id in trace[i + 1].fate <==> Settles(trace[i], steps[i], id)
    ensures id in trace[i + 1].fate ==> SettledAs(trace[i], steps[i], id, trace[i + 1].fate[id])
  {
    RunKeepsInv(trace, steps, i);
    RunIsFaithful(trace, steps, i);
    LogTail(trace[i].log, PENDING_UPLINK_CAP);
    StepSettles(trace[i], steps[i], id);
  }

  /** So every fate has its cause: what was sent was accepted, what was refused
      was refused, what was discarded was dropped with the stash, and what was
      dropped as the oldest left a full one. */
  lemma {:induction false} FateHasCause(trace: seq<State>, steps: seq<Step>, i: nat, id: nat)
    requires Run(trace, steps) && i < |trace| && id in trace[i].fate
    ensures exists k :: 0 <= k < i && Settles(trace[k], steps[k], id) && SettledAs(trace[k], steps[k], id, trace[i].fate[id])
  {
    if id in trace[i - 1].fate {
      FateHasCause(trace, steps, i - 1, id);
      FateIsFinal(trace, steps, i - 1, i, id);
    } else {
      RunSettles(trace, steps, i - 1, id);
    }
  }

  /** The address stored last, read off the steps. */
  function LastStored(steps: seq<Step>): Option<Ip>
  {
    if steps == [] then None
    else if steps[|steps| - 1].StoreIp? then Some(steps[|steps| - 1].ip)
    else LastStored(steps[..|steps| - 1])
  }

  lemma IpMoves(s: State, step: Step)
    requires Enabled(s, step)
    ensures Next(s, step).ip == if step.StoreIp? then Some(step.ip) else s.ip
  {
  }

  lemma {:induction false} IpIsLastStored(trace: seq<State>, steps: seq<Step>, i: nat)
    requires Run(trace, steps) && i < |trace|
    ensures trace[i].ip == LastStored(steps[..i])
  {
    if i > 0 {
      IpIsLastStored(trace, steps, i - 1);
      IpMoves(trace[i - 1], steps[i - 1]);
      assert steps[..i][..i - 1] == steps[..i - 1];
    }
  }

  /** A packet that arrives before any address is stored joins the stash, and
      one that arrives after is held for the address stored last; a flush goes
      out with the address stored last before it began. */
  lemma ArrivalGoes(trace: seq<State>, steps: seq<Step>, i: nat)
    requires Run(trace, steps) && i < |steps|
    ensures steps[i].Enqueue? ==>
      var id := |trace[i].arrived|;
      && trace[i + 1].arrived == trace[i].arrived + [steps[i].packet]
      && match LastStored(steps[..i])
         case None => trace[i + 1].stash != [] && trace[i + 1].stash[|trace[i + 1].stash| - 1] == Item(id, steps[i].packet)
         case Some(ip) => id in trace[i + 1].held && trace[i + 1].held[id] == (steps[i].packet, ip)
    ensures steps[i].FlushReadsIp? ==> trace[i + 1].flushing == LastStored(steps[..i])
  {
    IpIsLastStored(trace, steps, i);
  }
}
