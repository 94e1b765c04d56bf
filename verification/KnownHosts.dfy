/** The trust-on-first-use store of server identities. */
module KnownHosts {
  import opened Common
  import opened IdentityPin

  type Address = string

  /** A 32-byte Ed25519 public key. */
  type Key = k: seq<byte> | |k| == KEY_LEN witness seq(KEY_LEN, _ => 0)

  datatype Identity = Identity(fingerprint: string, firstSeen: nat, lastVerified: nat)

  type Store = map<Address, Identity>

  datatype Verdict = Verified | New | Mismatch(expected: string, got: string)

  /** The hash function and the pin parser. */
  datatype Env = Env(sha: seq<byte> -> Hash, parse: string -> Option<Pin>)

  /** The parser of `IdentityPin`. */
  function WithPins(sha: seq<byte> -> Hash, other: char -> string): Env
  {
    Env(sha, (s: string) => ParsePin(s, other))
  }

  /** All that the store asks of the parser. */
  ghost predicate RoundTrips(env: Env)
  {
    forall h: Hash :: env.parse(Canonical(h)) == Some(Pin(VERSION, h))
  }

  lemma PinsRoundTrip(sha: seq<byte> -> Hash, other: char -> string)
    ensures RoundTrips(WithPins(sha, other))
  {
    forall h: Hash ensures WithPins(sha, other).parse(Canonical(h)) == Some(Pin(VERSION, h)) {
      CanonicalParses(h, other);
    }
  }

  /** One verification: who was asked, what key was presented, and the
      configuration at that time. */
  datatype Call = Call(address: Address, key: Key, config: Option<string>, tofu: bool, strict: bool, now: nat)

  function Added(store: Store, address: Address, fingerprint: string, now: nat): Store
  {
    store[address := Identity(fingerprint, if address in store then store[address].firstSeen else now, now)]
  }

  function Display(pin: string, env: Env): string
  {
    var p := env.parse(pin);
    if p.Some? && p.value.version != 0 then Canonical(p.value.hash) else pin
  }

  function Fingerprint(key: Key, env: Env): string { EncodePin(key, env.sha).value }

  predicate MatchesPin(pin: string, key: Key, env: Env) { Matches(env.parse(pin), key, env.sha) == Some(true) }

  predicate IsLegacy(pin: string, env: Env)
  {
    var p := env.parse(pin);
    p.Some? && p.value.version == 0
  }

  /** Verdict, whether to go on, and the store afterwards. */
  function Verify(store: Store, c: Call, env: Env): (Verdict, bool, Store)
  {
    var got := Fingerprint(c.key, env);
    if c.config.Some? then
      if MatchesPin(c.config.value, c.key, env) then (Verified, true, store)
      else (Mismatch(Display(c.config.value, env), got), false, store)
    else if c.address in store then
      var stored := store[c.address].fingerprint;
      if !MatchesPin(stored, c.key, env) then (Mismatch(Display(stored, env), got), false, store)
      else if IsLegacy(stored, env) then (Verified, true, Added(store, c.address, got, c.now))
      else (Verified, true, store[c.address := store[c.address].(lastVerified := c.now)])
    else if c.tofu && !c.strict then (New, true, Added(store, c.address, got, c.now))
    else (New, false, store)
  }

  class Hosts {
    var servers: Store

    constructor (servers: Store)
      ensures this.servers == servers
    {
      this.servers := servers;
    }

    method AddServer(address: Address, fingerprint: string, now: nat)
      modifies this
      ensures servers == Added(old(servers), address, fingerprint, now)
    {
      var firstSeen := now;
      if address in servers { firstSeen := servers[address].firstSeen; }
      servers := servers[address := Identity(fingerprint, firstSeen, now)];
    }

    method UpdateVerified(address: Address, now: nat)
      modifies this
      ensures address !in old(servers) ==> servers == old(servers)
      ensures address in old(servers) ==>
        servers == old(servers)[address := old(servers)[address].(lastVerified := now)]
    {
      if address in servers {
        servers := servers[address := servers[address].(lastVerified := now)];
      }
    }

    method VerifyServerIdentity(c: Call, env: Env) returns (verdict: Verdict, proceed: bool)
      modifies this
      ensures (verdict, proceed, servers) == Verify(old(servers), c, env)
    {
      var got := Fingerprint(c.key, env);
      if c.config.Some? {
        var matched := Matches(env.parse(c.config.value), c.key, env.sha);
        if matched.None? { return Mismatch(c.config.value, got), false; }
        if !matched.value { return Mismatch(Display(c.config.value, env), got), false; }
        return Verified, true;
      }
      if c.address in servers {
        var stored := servers[c.address].fingerprint;
        var parsed := env.parse(stored);
        var legacy := parsed.Some? && parsed.value.version == 0;
        var matched := Matches(parsed, c.key, env.sha);
        if matched != Some(true) { return Mismatch(Display(stored, env), got), false; }
        if legacy { AddServer(c.address, got, c.now); } else { UpdateVerified(c.address, c.now); }
        return Verified, true;
      }
      if c.tofu {
        if c.strict { return New, false; }
        AddServer(c.address, got, c.now);
        return New, true;
      }
      return New, false;
    }
  }

  // ---- one call ----

  /** A call that does not go on changes nothing; one that does changes at most
      the address it was about, and forgets none. */
  lemma ChangesOnlyWhenTrusted(store: Store, c: Call, env: Env)
    ensures !Verify(store, c, env).1 ==> Verify(store, c, env).2 == store
    ensures c.config.Some? ==> Verify(store, c, env).2 == store
    ensures forall a :: a in store ==> a in Verify(store, c, env).2
    ensures forall a :: a in Verify(store, c, env).2 && a != c.address ==> a in store && Verify(store, c, env).2[a] == store[a]
  {
  }

  /** The pin text stands for this key: it holds the hash of the key, or, in the
      legacy form, the key's first 16 bytes. */
  ghost predicate StandsFor(pin: string, key: Key, sha: seq<byte> -> Hash, other: char -> string)
  {
    ParsePin(pin, other) == Some(Pin(VERSION, sha(key))) || ParsePin(pin, other) == Some(Pin(0, Padded(key[..16])))
  }

  lemma StandsForIff(pin: string, key: Key, sha: seq<byte> -> Hash, other: char -> string)
    ensures MatchesPin(pin, key, WithPins(sha, other)) <==> StandsFor(pin, key, sha, other)
    ensures StandsFor(pin, key, sha, other) ==>
      (IsLegacy(pin, WithPins(sha, other)) <==> ParsePin(pin, other) == Some(Pin(0, Padded(key[..16]))))
  {
    if ParsePin(pin, other).Some? && !(PREFIX <= Trim(pin)) {
      var bytes := HexAccepted(pin, other);
      if |bytes| == 16 { assert Padded(bytes)[..16] == bytes; }
    }
    assert Padded(key[..16])[..16] == key[..16];
  }

  /** When a call goes on. A configured pin alone decides if there is one; else
      the stored one does for a known address; an unknown one is taken on trust
      exactly when that is enabled and not overruled. */
  ghost predicate GoesOn(store: Store, c: Call, sha: seq<byte> -> Hash, other: char -> string)
  {
    if c.config.Some? then StandsFor(c.config.value, c.key, sha, other)
    else if c.address in store then StandsFor(store[c.address].fingerprint, c.key, sha, other)
    else c.tofu && !c.strict
  }

  /** The verdict and the decision, on hashes and key bytes: verified exactly
      when there is a pin and it stands for the key, new exactly when there is
      none, and a mismatch shows the fingerprint of the key that came and of the
      one expected, or the text of the pin if it holds no fingerprint. */
  lemma VerdictIff(store: Store, c: Call, sha: seq<byte> -> Hash, other: char -> string)
    ensures var (verdict, proceed, _) := Verify(store, c, WithPins(sha, other));
      && (proceed <==> GoesOn(store, c, sha, other))
      && (verdict == New <==> c.config.None? && c.address !in store)
      && (verdict == Verified <==> GoesOn(store, c, sha, other) && (c.config.Some? || c.address in store))
      && (verdict.Mismatch? ==>
            var pin := if c.config.Some? then c.config.value else store[c.address].fingerprint;
            && verdict.got == Canonical(sha(c.key))
            && (forall h: Hash :: ParsePin(pin, other) == Some(Pin(VERSION, h)) ==> verdict.expected == Canonical(h))
            && (ParsePin(pin, other).None? || ParsePin(pin, other).value.version == 0 ==> verdict.expected == pin))
  {
    if c.config.Some? {
      StandsForIff(c.config.value, c.key, sha, other);
    } else if c.address in store {
      StandsForIff(store[c.address].fingerprint, c.key, sha, other);
    }
  }

  /** What a call that goes on without a configured pin leaves behind: the date
      of this verification, the date of the first one, and the full pin of the
      key, spelt afresh unless a full pin was already there. */
  lemma StoreAfter(store: Store, c: Call, sha: seq<byte> -> Hash, other: char -> string)
    requires c.config.None? && GoesOn(store, c, sha, other)
    ensures var later := Verify(store, c, WithPins(sha, other)).2;
      && c.address in later
      && later[c.address].lastVerified == c.now
      && later[c.address].firstSeen == (if c.address in store then store[c.address].firstSeen else c.now)
      && ParsePin(later[c.address].fingerprint, other) == Some(Pin(VERSION, sha(c.key)))
      && (later[c.address].fingerprint ==
            if c.address in store && ParsePin(store[c.address].fingerprint, other) == Some(Pin(VERSION, sha(c.key)))
            then store[c.address].fingerprint else Canonical(sha(c.key)))
  {
    CanonicalParses(sha(c.key), other);
    if c.address in store { StandsForIff(store[c.address].fingerprint, c.key, sha, other); }
  }

  // ---- runs ----

  ghost predicate Run(trace: seq<Store>, calls: seq<Call>, env: Env)
  {
    && |trace| == |calls| + 1
    && forall i :: 0 <= i < |calls| ==> trace[i + 1] == Verify(trace[i], calls[i], env).2
  }

  /** The address holds a full pin of `hash`. */
  ghost predicate Pinned(store: Store, a: Address, hash: Hash, env: Env)
  {
    a in store && env.parse(store[a].fingerprint) == Some(Pin(VERSION, hash))
  }

  /** Same address, same pin, same date. */
  ghost predicate Kept(store: Store, later: Store, a: Address)
  {
    a in store && a in later && later[a].fingerprint == store[a].fingerprint && later[a].firstSeen == store[a].firstSeen
  }

  lemma PinnedStep(store: Store, c: Call, a: Address, hash: Hash, env: Env)
    requires Pinned(store, a, hash, env)
    ensures Kept(store, Verify(store, c, env).2, a)
    ensures Verify(store, c, env).1 && c.config.None? && c.address == a ==> env.sha(c.key) == hash
  {
  }

  /** Once an address has a full pin, no run of calls changes it or its date, and
      every later call about it that goes on, unless configured otherwise,
      presented a key with that hash. */
  lemma {:induction false} PinIsFinal(trace: seq<Store>, calls: seq<Call>, env: Env, i: nat, j: nat, a: Address, hash: Hash)
    requires Run(trace, calls, env) && i <= j < |trace| && Pinned(trace[i], a, hash, env)
    ensures Kept(trace[i], trace[j], a) && Pinned(trace[j], a, hash, env)
    ensures j < |calls| && Verify(trace[j], calls[j], env).1 && calls[j].config.None? && calls[j].address == a ==>
      env.sha(calls[j].key) == hash
    decreases j
  {
    if i < j {
      PinIsFinal(trace, calls, env, i, j - 1, a, hash);
      PinnedStep(trace[j - 1], calls[j - 1], a, hash, env);
    }
    if j < |calls| { PinnedStep(trace[j], calls[j], a, hash, env); }
  }

  /** Trust on first use: whatever key was taken on, its hash is the only one
      accepted from then on. */
  lemma FirstUseBinds(trace: seq<Store>, calls: seq<Call>, env: Env, i: nat, j: nat)
    requires RoundTrips(env) && Run(trace, calls, env) && i < j < |calls| && calls[i].address !in trace[i]
    requires Verify(trace[i], calls[i], env).1 && calls[i].config.None?
    requires Verify(trace[j], calls[j], env).1 && calls[j].config.None? && calls[j].address == calls[i].address
    ensures env.sha(calls[j].key) == env.sha(calls[i].key)
    ensures calls[i].address in trace[j] && trace[j][calls[i].address].firstSeen == calls[i].now
  {
    var a, hash := calls[i].address, env.sha(calls[i].key);
    PinIsFinal(trace, calls, env, i + 1, j, a, hash);
  }

  /** The full pin of `k`, with the date kept from `before`. */
  ghost predicate MigratedTo(before: Identity, store: Store, a: Address, k: Key, env: Env)
  {
    a in store && store[a].fingerprint == Fingerprint(k, env) && store[a].firstSeen == before.firstSeen
  }

  lemma LegacyStep(store: Store, c: Call, a: Address, env: Env)
    requires a in store && IsLegacy(store[a].fingerprint, env)
    ensures var later := Verify(store, c, env).2;
      Kept(store, later, a) || (MigratedTo(store[a], later, a, c.key, env) && MatchesPin(store[a].fingerprint, c.key, env))
  {
  }

  lemma MigratedStays(before: Identity, store: Store, c: Call, a: Address, k: Key, env: Env)
    requires RoundTrips(env) && MigratedTo(before, store, a, k, env)
    ensures MigratedTo(before, Verify(store, c, env).2, a, k, env)
  {
    PinnedStep(store, c, a, env.sha(k), env);
  }

  /** A legacy entry changes at most once in any run, at some call `m - 1`: to the
      full pin of the key presented there, which starts with the entry's 16
      bytes. Its date never changes. */
  lemma {:induction false} LegacyMigratesOnce(trace: seq<Store>, calls: seq<Call>, env: Env, i: nat, j: nat, a: Address)
    returns (m: nat, k: Key)
    requires RoundTrips(env) && Run(trace, calls, env) && i <= j < |trace| && a in trace[i] && IsLegacy(trace[i][a].fingerprint, env)
    ensures i < m <= j + 1
    ensures forall n :: i <= n < m ==> Kept(trace[i], trace[n], a)
    ensures forall n :: m <= n <= j ==> MigratedTo(trace[i][a], trace[n], a, k, env)
    ensures m <= j ==> k == calls[m - 1].key && MatchesPin(trace[i][a].fingerprint, k, env)
    decreases j
  {
    if i == j {
      m, k := i + 1, seq(KEY_LEN, _ => 0);
    } else {
      m, k := LegacyMigratesOnce(trace, calls, env, i, j - 1, a);
      if m < j {
        MigratedStays(trace[i][a], trace[j - 1], calls[j - 1], a, k, env);
      } else {
        assert Kept(trace[i], trace[j - 1], a);
        LegacyStep(trace[j - 1], calls[j - 1], a, env);
        if Kept(trace[j - 1], trace[j], a) { m := j + 1; } else { k := calls[j - 1].key; }
      }
    }
  }

  /** The legacy entries are those of 32 hexadecimal digits, in either case and
      with separators; their 16 bytes are compared with the key itself. */
  lemma LegacyMatch(pin: string, bytes: seq<byte>, k: Key, sha: seq<byte> -> Hash, other: char -> string)
    requires |bytes| == 16 && !(PREFIX <= Trim(pin)) && LowerHex(Squeeze(Trim(pin))) == HexText(bytes)
    ensures IsLegacy(pin, WithPins(sha, other))
    ensures MatchesPin(pin, k, WithPins(sha, other)) <==> k[..16] == bytes
  {
    HexIff(pin, bytes, other);
    assert Padded(bytes)[..16] == bytes;
  }

  lemma LegacyHasBytes(pin: string, sha: seq<byte> -> Hash, other: char -> string) returns (bytes: seq<byte>)
    requires IsLegacy(pin, WithPins(sha, other))
    ensures |bytes| == 16 && !(PREFIX <= Trim(pin)) && LowerHex(Squeeze(Trim(pin))) == HexText(bytes)
  {
    bytes := HexAccepted(pin, other);
  }

  /** An entry that does not parse is never trusted and never repaired. */
  lemma BrokenPinStays(store: Store, c: Call, env: Env)
    requires c.address in store && env.parse(store[c.address].fingerprint).None? && c.config.None?
    ensures !Verify(store, c, env).1 && Verify(store, c, env).2 == store
  {
  }
}
