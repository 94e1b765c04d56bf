/** Virtual addresses handed out for domain names. */
module FakeIp {
  import opened Common

  const FIRST := 0xC612_0000
  const LAST := 0xC613_FFFF
  const SIZE := 131072

  /** An IPv4 address as a number. */
  type Addr = n: nat | n < 0x1_0000_0000

  type Domain = string

  /** The address of the `k`-th distinct domain. */
  function Nth(k: nat): Addr { FIRST + k % SIZE }

  function Octet(ip: Addr, i: nat): byte
    requires i < 4
  {
    if i == 0 then ip / 0x100_0000 else if i == 1 then ip / 0x1_0000 % 256
    else if i == 2 then ip / 0x100 % 256 else ip % 256
  }

  predicate IsFakeIp(ip: Addr) { Octet(ip, 0) == 198 && (Octet(ip, 1) == 18 || Octet(ip, 1) == 19) }

  /** The test on octets is the range test. */
  lemma FakeIff(ip: Addr)
    ensures IsFakeIp(ip) <==> FIRST <= ip <= LAST
  {
    var hi := ip / 0x1_0000;
    assert ip / 0x100_0000 == hi / 256;
    assert hi == 256 * (hi / 256) + hi % 256;
  }

  /** The four octets, most significant first, make up the address. */
  lemma OctetsMakeAddress(ip: Addr)
    ensures ip == ((Octet(ip, 0) as int * 256 + Octet(ip, 1)) * 256 + Octet(ip, 2)) * 256 + Octet(ip, 3)
  {
    var a, b := ip / 0x1_0000, ip / 0x100;
    assert ip / 0x100_0000 == a / 256 && a == b / 256;
  }

  ghost predicate Distinct(order: seq<Domain>)
  {
    forall i, j :: 0 <= i < j < |order| ==> order[i] != order[j]
  }

  /** The two maps after the distinct domains `order` were first asked for in
      that order: every domain keeps its address, and an address names the
      latest domain it was given to. */
  ghost predicate Consistent(order: seq<Domain>, next: nat, ips: map<Domain, Addr>, domains: map<Addr, Domain>)
  {
    && Distinct(order) && next == Nth(|order|)
    && (forall d :: d in ips <==> d in order)
    && (forall k :: 0 <= k < |order| ==> ips[order[k]] == Nth(k))
    && (forall k :: 0 <= k < |order| ==> Nth(k) in domains)
    && (forall k :: 0 <= k < |order| && |order| - SIZE <= k ==> domains[Nth(k)] == order[k])
    && (forall ip :: ip in domains ==> domains[ip] in ips && ips[domains[ip]] == ip)
  }

  /** Within one window no address is given twice. */
  lemma WindowIsInjective(j: nat, k: nat)
    requires j < k < j + SIZE
    ensures Nth(j) != Nth(k)
  {
  }

  lemma NextWraps(k: nat)
    ensures Nth(k + 1) == if Nth(k) + 1 > LAST then FIRST else Nth(k) + 1
  {
  }

  lemma Allocates(order: seq<Domain>, next: nat, ips: map<Domain, Addr>, domains: map<Addr, Domain>, d: Domain)
    requires Consistent(order, next, ips, domains) && d !in order
    ensures Consistent(order + [d], Nth(|order| + 1), ips[d := Nth(|order|)], domains[Nth(|order|) := d])
  {
    var n := |order|;
    var ips', domains' := ips[d := Nth(n)], domains[Nth(n) := d];
    forall k | 0 <= k < n && n + 1 - SIZE <= k ensures domains'[Nth(k)] == order[k] { WindowIsInjective(k, n); }
    assert forall k :: 0 <= k < n ==> order[k] in order;
  }

  lemma KnownAddress(order: seq<Domain>, next: nat, ips: map<Domain, Addr>, domains: map<Addr, Domain>, d: Domain)
    requires Consistent(order, next, ips, domains) && d in ips
    ensures d in order && exists k :: 0 <= k < |order| && order[k] == d && ips[d] == Nth(k)
  {
    var k :| 0 <= k < |order| && order[k] == d;
  }

  class FakeIpPool {
    var nextIp: Addr
    var domainToIp: map<Domain, Addr>
    var ipToDomain: map<Addr, Domain>
    /** The distinct domains so far, first asked for first. */
    ghost var order: seq<Domain>

    ghost predicate Valid()
      reads this
    {
      Consistent(order, nextIp, domainToIp, ipToDomain)
    }

    constructor ()
      ensures Valid() && order == []
    {
      nextIp, domainToIp, ipToDomain, order := FIRST, map[], map[], [];
    }

    method Query(domain: Domain) returns (ip: Addr)
      requires Valid()
      modifies this
      ensures Valid() && order == if domain in old(order) then old(order) else old(order) + [domain]
      ensures exists k :: 0 <= k < |order| && order[k] == domain && ip == Nth(k)
    {
      if domain in domainToIp {
        ip := domainToIp[domain];
        KnownAddress(order, nextIp, domainToIp, ipToDomain, domain);
        return;
      }
      ip := nextIp;
      var next := if nextIp + 1 > LAST then FIRST else nextIp + 1;
      var ips, domains := domainToIp[domain := ip], ipToDomain[ip := domain];
      NextWraps(|order|);
      Allocates(order, nextIp, domainToIp, ipToDomain, domain);
      assert (order + [domain])[|order|] == domain;
      nextIp, domainToIp, ipToDomain, order := next, ips, domains, order + [domain];
    }

    /** The latest domain that was given `ip`; none if it was never given. */
    method Resolve(ip: Addr) returns (domain: Option<Domain>)
      requires Valid()
      ensures domain.None? <==> forall k :: 0 <= k < |order| ==> Nth(k) != ip
      ensures domain.Some? ==>
        exists k :: 0 <= k < |order| && |order| - SIZE <= k && Nth(k) == ip && order[k] == domain.value
    {
      domain := if ip in ipToDomain then Some(ipToDomain[ip]) else None;
      if domain.Some? { LatestHolder(order, nextIp, domainToIp, ipToDomain, ip); }
    }
  }

  /** A domain out of the window shares its address with one in it. */
  lemma NewerHolder(n: nat, k: nat) returns (newer: nat)
    requires k < n - SIZE
    ensures k < newer < n && n - SIZE <= newer && Nth(newer) == Nth(k)
  {
    newer := k + SIZE * ((n - 1 - k) / SIZE);
  }

  /** Every address handed out is in 198.18.0.0/15 and leads to a domain that
      holds it; and it leads back to the domain it was given for if and only if
      fewer than 131072 newer domains have been asked for. */
  lemma ResolveIff(order: seq<Domain>, next: nat, ips: map<Domain, Addr>, domains: map<Addr, Domain>, k: nat)
    requires Consistent(order, next, ips, domains) && k < |order|
    ensures order[k] in ips && ips[order[k]] == Nth(k) && IsFakeIp(Nth(k)) && Nth(k) in domains
    ensures domains[Nth(k)] == order[k] <==> |order| - SIZE <= k
  {
    FakeIff(Nth(k));
    if k < |order| - SIZE {
      var newer := NewerHolder(|order|, k);
      assert domains[Nth(newer)] == order[newer];
    }
  }

  lemma LatestHolder(order: seq<Domain>, next: nat, ips: map<Domain, Addr>, domains: map<Addr, Domain>, ip: Addr)
    requires Consistent(order, next, ips, domains) && ip in domains
    ensures exists k :: 0 <= k < |order| && |order| - SIZE <= k && Nth(k) == ip && order[k] == domains[ip]
  {
    KnownAddress(order, next, ips, domains, domains[ip]);
    var k :| 0 <= k < |order| && order[k] == domains[ip] && Nth(k) == ip;
    ResolveIff(order, next, ips, domains, k);
  }
}
