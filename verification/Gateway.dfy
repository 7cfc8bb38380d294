/** Ports and rules of a gateway path: the wrapping 16-bit counter that hands out
    loopback ports, and the wiring of one rule pair per traffic class. Whether a
    port can be bound, and the port the system picks as a last resort, are inputs. */
module Gateway {
  import opened Wrappers
  import opened Text

  // ----- The port counter -----

  const BASE: nat := 20000
  const RANGE: nat := 12000
  const U16: nat := 65536

  /** The port of the `d`-th draw since the counter stood at zero. */
  function PortAt(d: nat): (p: nat)
    ensures BASE <= p < BASE + RANGE
  {
    BASE + d % U16 % RANGE
  }

  /** The `i`-th draw after draw `c`. */
  function Drawn(c: nat, i: nat): nat {
    PortAt(c + i)
  }

  predicate AllDifferent(c: nat, n: nat) {
    forall i, j :: 0 <= i < j < n ==> Drawn(c, i) != Drawn(c, j)
  }

  /** The window of draws neither repeats the range nor, across a wrap of the
      counter, meets the ports of its beginning again. */
  predicate Fits(c: nat, n: nat) {
    (c + n <= U16 && n <= RANGE) || (c >= 5 * RANGE && n <= U16 - 5 * RANGE)
  }

  lemma {:induction false} DifferentDraws(c: nat, i: nat, j: nat, n: nat)
    requires c < U16 && i < j < n && Fits(c, n)
    ensures Drawn(c, i) != Drawn(c, j)
  {
    var a, b := c + i, c + j;
    if b < U16 {
      assert a % U16 == a && b % U16 == b;
      assert (b - a) < RANGE;
      NotCongruent(a, b);
    } else {
      assert b % U16 == b - U16;
      assert b - U16 < c - 5 * RANGE;
      if a < U16 {
        assert a % U16 == a && a % RANGE == a - 5 * RANGE;
      } else {
        assert a % U16 == a - U16;
      }
    }
  }

  lemma {:induction false} NotCongruent(a: nat, b: nat)
    requires a < b < a + RANGE
    ensures a % RANGE != b % RANGE
  {
    var k := b / RANGE - a / RANGE;
    assert b - a == RANGE * k + (b % RANGE - a % RANGE);
    assert k <= 0 || k >= 1;
  }

  lemma {:induction false} RangeRepeats(c: nat)
    requires c + RANGE < U16
    ensures Drawn(c, 0) == Drawn(c, RANGE)
  {
    assert (c + RANGE) % RANGE == c % RANGE;
  }

  lemma {:induction false} WrapRepeats(c: nat)
    requires 5 * RANGE <= c < U16
    ensures Drawn(c, 0) == Drawn(c, U16 - 5 * RANGE)
  {
    assert (c + U16 - 5 * RANGE) % U16 == c - 5 * RANGE;
  }

  lemma {:induction false} WrapRestarts(c: nat)
    requires c < 5 * RANGE
    ensures Drawn(c, 5 * RANGE - c) == Drawn(c, U16 - c)
  {}

  /** `n` consecutive draws are pairwise different exactly when they fit: the
      counter alone does not guarantee distinct ports across its wrap. */
  lemma {:induction false} DrawsDistinct(c: nat, n: nat)
    requires c < U16
    ensures AllDifferent(c, n) <==> Fits(c, n)
  {
    hide Drawn;
    if Fits(c, n) {
      forall i, j | 0 <= i < j < n
        ensures Drawn(c, i) != Drawn(c, j)
      {
        DifferentDraws(c, i, j, n);
      }
    } else if c + n <= U16 {
      RangeRepeats(c);
    } else if c < 5 * RANGE {
      WrapRestarts(c);
    } else {
      WrapRepeats(c);
    }
  }

  /** Wherever the counter stands, 5536 draws in a row are different. */
  lemma {:induction false} AnyShortWindow(c: nat, n: nat)
    requires c < U16 && n <= 5536
    ensures AllDifferent(c, n)
  {
    DrawsDistinct(c, n);
  }

  lemma {:induction false} PortOfWrapped(c: nat, k: nat)
    ensures Drawn(c % U16, k) == PortAt(c + k)
  {
    assert (c % U16 + k) % U16 == (c + k) % U16;
  }

  /** The counter hands out 20000, 20001 and so on up to 31999, below the ports the
      system picks itself, and begins again after that or when it wraps. */
  lemma {:induction false} NextPort(d: nat)
    ensures 20000 <= PortAt(d) <= 31999 && (d % 65536 == 0 ==> PortAt(d) == 20000)
    ensures PortAt(d + 1) == if PortAt(d) == 31999 || (d + 1) % 65536 == 0 then 20000 else PortAt(d) + 1
  {
    var k := d % U16;
    if k + 1 < U16 {
      assert (d + 1) % U16 == k + 1;
      var q, r := k / RANGE, k % RANGE;
      assert k + 1 == RANGE * q + (r + 1);
    } else {
      assert (d + 1) % U16 == 0;
    }
  }

  // ----- Reservations -----

  /** The host the reservations meet, from draw to draw: whether the port drawn then
      can be bound, and the system's own choice after so many draws, None for an error. */
  datatype Host = Host(free: nat -> bool, os: nat -> Option<nat>)

  /** The first draw of the next `tries` whose port can be bound. */
  function Search(c: nat, tries: nat, free: nat -> bool): (d: Option<nat>)
    ensures d.Some? ==> c <= d.value < c + tries && free(d.value) && forall k :: c <= k < d.value ==> !free(k)
    ensures d.None? ==> forall k :: c <= k < c + tries ==> !free(k)
    decreases tries, c
  {
    if tries == 0 then None
    else if free(c) then Some(c)
    else Search(c + 1, tries - 1, free)
  }

  /** The port of one reservation, None for an error, and the draws made by then. */
  function ReserveAt(c: nat, host: Host): (r: (Option<nat>, nat))
    ensures c < r.1 <= c + RANGE
    ensures r.1 < c + RANGE ==> r.0 == Some(PortAt(r.1 - 1))
  {
    hide PortAt;
    match Search(c, RANGE, host.free)
    case Some(d) => (Some(PortAt(d)), d + 1)
    case None => (host.os(c + RANGE), c + RANGE)
  }

  class PortCounter {
    var next: nat
    /** All draws so far, which is the time as far as the host is concerned. */
    var draws: nat

    ghost predicate Valid()
      reads this
    {
      next == draws % U16
    }

    constructor ()
      ensures Valid() && draws == 0
    {
      next, draws := 0, 0;
    }

    /** Fetches and bumps the counter. */
    method Draw() returns (port: nat)
      requires Valid()
      modifies this
      ensures Valid() && port == PortAt(old(draws)) && draws == old(draws) + 1
    {
      port := BASE + next % RANGE;
      draws := draws + 1;
      next := (next + 1) % U16;
    }

    method ReserveLocalPort(host: Host) returns (port: Option<nat>)
      requires Valid()
      modifies this
      ensures Valid() && (port, draws) == ReserveAt(old(draws), host)
    {
      for tries := 0 to RANGE
        invariant Valid() && draws == old(draws) + tries
        invariant Search(old(draws), RANGE, host.free) == Search(draws, RANGE - tries, host.free)
      {
        var p := Draw();
        if host.free(draws - 1) {
          return Some(p);
        }
      }
      port := host.os(draws);
    }
  }

  /** The draws made by the first `k` reservations starting from draw `c`. */
  function CounterAfter(c: nat, k: nat, host: Host): (after: nat)
    ensures after >= c + k
  {
    hide ReserveAt;
    if k == 0 then c else ReserveAt(CounterAfter(c, k - 1, host), host).1
  }

  /** The port of the `k`-th reservation starting from draw `c`. */
  function PortOf(c: nat, k: nat, host: Host): Option<nat> {
    ReserveAt(CounterAfter(c, k, host), host).0
  }

  lemma {:induction false} CountersGrow(c: nat, j: nat, k: nat, host: Host)
    requires j < k
    ensures CounterAfter(c, j, host) < CounterAfter(c, k, host)
  {
    hide ReserveAt;
    if j < k - 1 {
      CountersGrow(c, j, k - 1, host);
    }
  }

  /** A reservation that is one of several within `RANGE` draws found a port by drawing. */
  lemma {:induction false} FoundByDrawing(c: nat, k: nat, n: nat, host: Host)
    requires k < n && n >= 2 && CounterAfter(c, n, host) - c <= RANGE
    ensures var last := CounterAfter(c, k + 1, host) - 1;
            c <= last < CounterAfter(c, n, host) && PortOf(c, k, host) == Some(PortAt(last))
  {
    hide ReserveAt, PortAt;
    if k + 1 < n {
      CountersGrow(c, k + 1, n, host);
    }
  }

  lemma {:induction false} FitsRange(c: nat, n: nat)
    requires Fits(c, n)
    ensures n <= RANGE
  {}

  /** Reservations whose draws fit the window get pairwise different ports, all in
      the reserved range, whatever else is bound on the host. */
  lemma {:induction false} ReservationsDistinct(c: nat, j: nat, k: nat, n: nat, host: Host)
    requires j < k < n && Fits(c % U16, CounterAfter(c, n, host) - c)
    ensures PortOf(c, j, host).Some? && PortOf(c, k, host).Some? && PortOf(c, j, host) != PortOf(c, k, host)
    ensures BASE <= PortOf(c, j, host).value < BASE + RANGE
  {
    hide PortAt, Drawn, ReserveAt, CounterAfter, PortOf, Fits;
    FitsRange(c % U16, CounterAfter(c, n, host) - c);
    FoundByDrawing(c, j, n, host);
    FoundByDrawing(c, k, n, host);
    CountersGrow(c, j + 1, k + 1, host);
    var a, b := CounterAfter(c, j + 1, host) - 1 - c, CounterAfter(c, k + 1, host) - 1 - c;
    DifferentDraws(c % U16, a, b, CounterAfter(c, n, host) - c);
    PortOfWrapped(c, a);
    PortOfWrapped(c, b);
  }

  // ----- Rules -----

  datatype Family = Ipv4 | Ipv6

  function LoopbackHost(f: Family): string {
    if f.Ipv4? then "127.0.0.1" else "::1"
  }

  /** Brackets a bare IPv6 literal. */
  function JoinHostPort(host: string, port: nat): string {
    if ':' in host && host[0] != '[' then "[" + host + "]:" + Decimal(port) else host + ":" + Decimal(port)
  }

  function LoopbackSocket(f: Family, port: nat): string {
    JoinHostPort(LoopbackHost(f), port)
  }

  /** Only a bare IPv6 address is put in brackets. */
  lemma {:induction false} SocketText(port: nat)
    ensures LoopbackSocket(Ipv4, port) == "127.0.0.1:" + Decimal(port)
    ensures LoopbackSocket(Ipv6, port) == "[::1]:" + Decimal(port)
  {
    assert "127.0.0.1" + ":" + Decimal(port) == "127.0.0.1:" + Decimal(port);
    assert "[" + "::1" + "]:" + Decimal(port) == "[::1]:" + Decimal(port);
    var v6 := "::1";
    assert v6[0] == ':';
  }

  lemma {:induction false} SocketsDiffer(f: Family, p: nat, q: nat)
    requires p != q
    ensures LoopbackSocket(f, p) != LoopbackSocket(f, q)
  {
    if LoopbackSocket(f, p) == LoopbackSocket(f, q) {
      var head := if f.Ipv4? then "127.0.0.1:" else "[::1]:";
      assert LoopbackSocket(f, p) == head + Decimal(p) && LoopbackSocket(f, q) == head + Decimal(q);
      assert (head + Decimal(p))[|head|..] == Decimal(p) && (head + Decimal(q))[|head|..] == Decimal(q);
      DecimalInjective(p, q);
    }
  }

  /** What a path asks for; the provider parameters of each direction are opaque. */
  datatype SecuritySpec = SecuritySpec(
    family: Family, proto: string, trafficClass: string, encryptParams: string, decryptParams: string,
    encryptListenProto: Option<string>, encryptUpstreamProto: Option<string>,
    decryptListenProto: Option<string>, decryptUpstreamProto: Option<string>)

  datatype Rule = Rule(
    name: string, direction: string, listen: string, listenProto: string, upstream: string, upstreamProto: string,
    trafficClass: string, params: string)

  function BuildRulePair(spec: SecuritySpec, encryptName: string, decryptName: string, ingress: string, mid: string,
                         backend: string): (Rule, Rule)
  {
    (Rule(encryptName, "encrypt", ingress, spec.encryptListenProto.GetOr(spec.proto), mid,
          spec.encryptUpstreamProto.GetOr(spec.proto), spec.trafficClass, spec.encryptParams),
     Rule(decryptName, "decrypt", mid, spec.decryptListenProto.GetOr(spec.proto), backend,
          spec.decryptUpstreamProto.GetOr(spec.proto), spec.trafficClass, spec.decryptParams))
  }

  datatype Topology = SingleGateway | ScgToScg

  datatype NamedGateway = NamedGateway(name: string, rules: seq<Rule>, connections: nat)

  function GatewaysForTopology(t: Topology, encrypts: seq<Rule>, decrypts: seq<Rule>, connections: nat): seq<NamedGateway> {
    match t
    case SingleGateway => [NamedGateway("scg", encrypts + decrypts, connections)]
    case ScgToScg => [NamedGateway("scg-a", encrypts, connections), NamedGateway("scg-b", decrypts, connections)]
  }

  function AllRules(gateways: seq<NamedGateway>): seq<Rule> {
    if gateways == [] then [] else gateways[0].rules + AllRules(gateways[1..])
  }

  /** Both topologies serve the same rules; two gateways split them by direction. */
  lemma {:induction false} TopologiesServeTheSameRules(encrypts: seq<Rule>, decrypts: seq<Rule>, connections: nat)
    ensures AllRules(GatewaysForTopology(SingleGateway, encrypts, decrypts, connections)) == encrypts + decrypts
    ensures AllRules(GatewaysForTopology(ScgToScg, encrypts, decrypts, connections)) == encrypts + decrypts
  {
    var one := GatewaysForTopology(SingleGateway, encrypts, decrypts, connections);
    var two := GatewaysForTopology(ScgToScg, encrypts, decrypts, connections);
    assert one[1..] == [];
    assert two[1..][1..] == [];
    assert AllRules(two[1..]) == decrypts;
  }

  // ----- Paths -----

  datatype ClassPath = ClassPath(cls: string, ingress: string, backend: string)

  datatype Plan = Plan(paths: seq<ClassPath>, gateways: seq<NamedGateway>)

  datatype PathPlan = PathPlan(ingress: string, backend: string, gateways: seq<NamedGateway>)

  datatype Error = NoClasses | NoPort

  datatype Result<T> = Ok(value: T) | Err(error: Error)

  type Class = (string, string)

  /** The listener of reservation `k`, when it got a port. */
  function Listener(spec: SecuritySpec, c: nat, k: nat, host: Host): string {
    LoopbackSocket(spec.family, if PortOf(c, k, host).Some? then PortOf(c, k, host).value else 0)
  }

  function EncryptName(cls: string): string {
    "seshat-encrypt-" + cls
  }

  function DecryptName(cls: string): string {
    "seshat-decrypt-" + cls
  }

  /** The rule pair of class `i`, whose listeners are reservations `2i` and `2i + 1`. */
  function PairOf(spec: SecuritySpec, classes: seq<Class>, i: nat, c: nat, host: Host): (Rule, Rule)
    requires i < |classes|
  {
    BuildRulePair(spec.(trafficClass := classes[i].0), EncryptName(classes[i].0), DecryptName(classes[i].0),
                  Listener(spec, c, 2 * i, host), Listener(spec, c, 2 * i + 1, host), classes[i].1)
  }

  function Encrypts(spec: SecuritySpec, classes: seq<Class>, n: nat, c: nat, host: Host): (r: seq<Rule>)
    requires n <= |classes|
    ensures |r| == n && forall i :: 0 <= i < n ==> r[i] == PairOf(spec, classes, i, c, host).0
  {
    seq(n, i requires 0 <= i < n => PairOf(spec, classes, i, c, host).0)
  }

  function Decrypts(spec: SecuritySpec, classes: seq<Class>, n: nat, c: nat, host: Host): (r: seq<Rule>)
    requires n <= |classes|
    ensures |r| == n && forall i :: 0 <= i < n ==> r[i] == PairOf(spec, classes, i, c, host).1
  {
    seq(n, i requires 0 <= i < n => PairOf(spec, classes, i, c, host).1)
  }

  function Paths(spec: SecuritySpec, classes: seq<Class>, n: nat, c: nat, host: Host): (r: seq<ClassPath>)
    requires n <= |classes|
    ensures |r| == n
  {
    seq(n, i requires 0 <= i < n => PathOf(spec, classes, i, c, host))
  }

  predicate AllReserved(c: nat, n: nat, host: Host) {
    forall k :: 0 <= k < n ==> PortOf(c, k, host).Some?
  }

  function PlanOf(spec: SecuritySpec, topology: Topology, classes: seq<Class>, connections: nat, c: nat, host: Host): Plan {
    var n := |classes|;
    Plan(Paths(spec, classes, n, c, host),
         GatewaysForTopology(topology, Encrypts(spec, classes, n, c, host), Decrypts(spec, classes, n, c, host), connections))
  }

  /** The ingress and the middle listener of the next pair, reservations `k` and `k + 1`. */
  method ReservePair(spec: SecuritySpec, ports: PortCounter, host: Host, ghost c: nat, ghost k: nat)
    returns (pair: Option<(string, string)>)
    requires ports.Valid() && ports.draws == CounterAfter(c, k, host)
    modifies ports
    ensures ports.Valid()
    ensures pair.Some? <==> PortOf(c, k, host).Some? && PortOf(c, k + 1, host).Some?
    ensures pair.Some? ==> pair.value == (Listener(spec, c, k, host), Listener(spec, c, k + 1, host))
    ensures pair.Some? ==> ports.draws == CounterAfter(c, k + 2, host)
  {
    hide ReserveAt, PortOf, CounterAfter, LoopbackSocket;
    NextReservation(c, k, host);
    NextReservation(c, k + 1, host);
    var first := ports.ReserveLocalPort(host);
    if first.None? {
      return None;
    }
    var second := ports.ReserveLocalPort(host);
    if second.None? {
      return None;
    }
    pair := Some((LoopbackSocket(spec.family, first.value), LoopbackSocket(spec.family, second.value)));
  }

  lemma {:induction false} NextReservation(c: nat, k: nat, host: Host)
    ensures ReserveAt(CounterAfter(c, k, host), host) == (PortOf(c, k, host), CounterAfter(c, k + 1, host))
  {
    hide ReserveAt;
  }

  function PathOf(spec: SecuritySpec, classes: seq<Class>, i: nat, c: nat, host: Host): ClassPath
    requires i < |classes|
  {
    ClassPath(classes[i].0, Listener(spec, c, 2 * i, host), classes[i].1)
  }

  /** The `i`-th encrypt and the `i`-th decrypt rule of a plan, from the process that
      serves it: the only one, or the one of its direction. */
  function EncryptRule(plan: Plan, i: nat): Option<Rule> {
    if |plan.gateways| > 0 && i < |plan.gateways[0].rules| then Some(plan.gateways[0].rules[i]) else None
  }

  function DecryptRule(plan: Plan, i: nat): Option<Rule> {
    if |plan.gateways| == 1 && |plan.paths| + i < |plan.gateways[0].rules| then Some(plan.gateways[0].rules[|plan.paths| + i])
    else if |plan.gateways| == 2 && i < |plan.gateways[1].rules| then Some(plan.gateways[1].rules[i])
    else None
  }

  /** Own override of a protocol first, the path's protocol second. */
  predicate Speaks(said: string, own: Option<string>, common: string) {
    if own.Some? then said == own.value else said == common
  }

  /** What the two rules of a class are: their directions, names, parameters, protocols
      and class, each from its own part of the specification. */
  lemma {:induction false} RulesOfClass(
    spec: SecuritySpec, topology: Topology, classes: seq<Class>, connections: nat, c: nat, host: Host, i: nat)
    requires i < |classes|
    ensures var plan := PlanOf(spec, topology, classes, connections, c, host);
            && EncryptRule(plan, i).Some? && DecryptRule(plan, i).Some?
            && var (e, d) := (EncryptRule(plan, i).value, DecryptRule(plan, i).value);
            && e.direction == "encrypt" && d.direction == "decrypt" && e.params == spec.encryptParams && d.params == spec.decryptParams
            && e.name == "seshat-encrypt-" + classes[i].0 && d.name == "seshat-decrypt-" + classes[i].0
            && Speaks(e.listenProto, spec.encryptListenProto, spec.proto)
            && Speaks(e.upstreamProto, spec.encryptUpstreamProto, spec.proto)
            && Speaks(d.listenProto, spec.decryptListenProto, spec.proto)
            && Speaks(d.upstreamProto, spec.decryptUpstreamProto, spec.proto)
            && e.trafficClass == d.trafficClass == classes[i].0 && e.upstream == d.listen && d.upstream == classes[i].1
  {
    hide Listener;
    var encrypts, decrypts := Encrypts(spec, classes, |classes|, c, host), Decrypts(spec, classes, |classes|, c, host);
    assert (encrypts + decrypts)[i] == encrypts[i] && (encrypts + decrypts)[|classes| + i] == decrypts[i];
  }

  /** One process for both directions, or one for each; all of them sized alike. */
  lemma {:induction false} ProcessesOfTopology(
    spec: SecuritySpec, topology: Topology, classes: seq<Class>, connections: nat, c: nat, host: Host)
    ensures var g, n := PlanOf(spec, topology, classes, connections, c, host).gateways, |classes|;
            && (topology.SingleGateway? ==> |g| == 1 && g[0].name == "scg" && |g[0].rules| == 2 * n)
            && (topology.ScgToScg? ==> |g| == 2 && g[0].name == "scg-a" && g[1].name == "scg-b" && |g[0].rules| == |g[1].rules| == n)
            && forall k :: 0 <= k < |g| ==> g[k].connections == connections
  {}

  /** The body of the wiring loop. */
  method WireClass(spec: SecuritySpec, classes: seq<Class>, i: nat, ports: PortCounter, host: Host, ghost c: nat)
    returns (wired: Option<(ClassPath, Rule, Rule)>)
    requires i < |classes| && ports.Valid() && ports.draws == CounterAfter(c, 2 * i, host)
    modifies ports
    ensures ports.Valid()
    ensures wired.Some? <==> PortOf(c, 2 * i, host).Some? && PortOf(c, 2 * i + 1, host).Some?
    ensures wired.Some? ==> ports.draws == CounterAfter(c, 2 * i + 2, host)
    ensures wired.Some? ==> var (path, encrypt, decrypt) := wired.value;
              path == PathOf(spec, classes, i, c, host) && (encrypt, decrypt) == PairOf(spec, classes, i, c, host)
  {
    hide CounterAfter, PortOf, Listener, BuildRulePair;
    var (cls, backend) := classes[i];
    var pair := ReservePair(spec, ports, host, c, 2 * i);
    if pair.None? {
      return None;
    }
    var (ingress, mid) := pair.value;
    var (encrypt, decrypt) := BuildRulePair(
      spec.(trafficClass := cls), EncryptName(cls), DecryptName(cls), ingress, mid, backend);
    wired := Some((ClassPath(cls, ingress, backend), encrypt, decrypt));
  }

  /** The three lists the wiring loop grows. */
  datatype Wiring = Wiring(paths: seq<ClassPath>, encrypts: seq<Rule>, decrypts: seq<Rule>) {
    function Push(path: ClassPath, encrypt: Rule, decrypt: Rule): Wiring {
      Wiring(paths + [path], encrypts + [encrypt], decrypts + [decrypt])
    }
  }

  function WiringOf(spec: SecuritySpec, classes: seq<Class>, n: nat, c: nat, host: Host): Wiring
    requires n <= |classes|
  {
    Wiring(Paths(spec, classes, n, c, host), Encrypts(spec, classes, n, c, host), Decrypts(spec, classes, n, c, host))
  }

  /** Two reservations and one rule pair per class; a reservation that fails ends it. */
  method WireAll(spec: SecuritySpec, classes: seq<Class>, ports: PortCounter, host: Host) returns (w: Option<Wiring>)
    requires ports.Valid()
    modifies ports
    ensures ports.Valid()
    ensures w.Some? <==> AllReserved(old(ports.draws), 2 * |classes|, host)
    ensures w.Some? ==> w.value == WiringOf(spec, classes, |classes|, old(ports.draws), host)
    ensures w.Some? ==> ports.draws == CounterAfter(old(ports.draws), 2 * |classes|, host)
  {
    hide *;
    ghost var c := ports.draws;
    NothingYet(spec, classes, c, host);
    var wiring := Wiring([], [], []);
    for i := 0 to |classes|
      invariant ports.Valid() && ports.draws == CounterAfter(c, 2 * i, host) && AllReserved(c, 2 * i, host)
      invariant wiring == WiringOf(spec, classes, i, c, host)
    {
      TwoMore(c, 2 * i, 2 * |classes|, host);
      NextClass(spec, classes, i, c, host);
      var wired := WireClass(spec, classes, i, ports, host, c);
      match wired
      case None => return None;
      case Some((path, encrypt, decrypt)) =>
        wiring := wiring.Push(path, encrypt, decrypt);
    }
    w := Some(wiring);
  }

  method BuildMultiClassPath(spec: SecuritySpec, topology: Topology, classes: seq<Class>, connections: nat,
                             ports: PortCounter, host: Host) returns (r: Result<Plan>)
    requires ports.Valid()
    modifies ports
    ensures ports.Valid()
    ensures r == if classes == [] then Err(NoClasses)
                 else if AllReserved(old(ports.draws), 2 * |classes|, host)
                 then Ok(PlanOf(spec, topology, classes, connections, old(ports.draws), host))
                 else Err(NoPort)
    ensures r.Ok? ==> ports.draws == CounterAfter(old(ports.draws), 2 * |classes|, host)
  {
    if classes == [] {
      return Err(NoClasses);
    }
    hide AllReserved, CounterAfter, Paths, Encrypts, Decrypts, GatewaysForTopology;
    var w := WireAll(spec, classes, ports, host);
    if w.None? {
      return Err(NoPort);
    }
    var Wiring(paths, encrypts, decrypts) := w.value;
    r := Ok(Plan(paths, GatewaysForTopology(topology, encrypts, decrypts, connections)));
  }

  lemma {:induction false} TwoMore(c: nat, k: nat, n: nat, host: Host)
    requires k + 2 <= n && AllReserved(c, k, host)
    ensures PortOf(c, k, host).Some? && PortOf(c, k + 1, host).Some? <==> AllReserved(c, k + 2, host)
    ensures AllReserved(c, n, host) ==> AllReserved(c, k + 2, host)
  {
    hide PortOf;
  }

  lemma {:induction false} NothingYet(spec: SecuritySpec, classes: seq<Class>, c: nat, host: Host)
    ensures CounterAfter(c, 0, host) == c && AllReserved(c, 0, host)
    ensures WiringOf(spec, classes, 0, c, host) == Wiring([], [], [])
  {}

  lemma {:induction false} NextClass(spec: SecuritySpec, classes: seq<Class>, i: nat, c: nat, host: Host)
    requires i < |classes|
    ensures var (encrypt, decrypt) := PairOf(spec, classes, i, c, host);
            WiringOf(spec, classes, i + 1, c, host) ==
            WiringOf(spec, classes, i, c, host).Push(PathOf(spec, classes, i, c, host), encrypt, decrypt)
  {
    hide PairOf, PathOf;
  }

  /** The first rule listening on an address. */
  function RuleFor(rules: seq<Rule>, addr: string): Option<Rule> {
    if rules == [] then None else if rules[0].listen == addr then Some(rules[0]) else RuleFor(rules[1..], addr)
  }

  /** Where traffic sent to an address ends up after at most `hops` rules. */
  function Deliver(rules: seq<Rule>, addr: string, hops: nat): string
    decreases hops
  {
    if hops == 0 then addr
    else match RuleFor(rules, addr)
      case None => addr
      case Some(rule) => Deliver(rules, rule.upstream, hops - 1)
  }

  predicate DistinctListeners(rules: seq<Rule>) {
    forall i, j :: 0 <= i < j < |rules| ==> rules[i].listen != rules[j].listen
  }

  lemma {:induction false} RuleForListener(rules: seq<Rule>, k: nat)
    requires DistinctListeners(rules) && k < |rules|
    ensures RuleFor(rules, rules[k].listen) == Some(rules[k])
  {
    if k > 0 {
      assert rules[0].listen != rules[k].listen;
      RuleForListener(rules[1..], k - 1);
    }
  }

  lemma {:induction false} NoRuleFor(rules: seq<Rule>, addr: string)
    requires forall i :: 0 <= i < |rules| ==> rules[i].listen != addr
    ensures RuleFor(rules, addr) == None
  {
    if rules != [] {
      NoRuleFor(rules[1..], addr);
    }
  }

  /** Along a chain whose listeners are all different and whose end nobody listens
      on, traffic passes the encrypt rule, then the decrypt rule, and stops. */
  lemma {:induction false} ChainRoutes(encrypts: seq<Rule>, decrypts: seq<Rule>, i: nat, hops: nat)
    requires |encrypts| == |decrypts| && i < |encrypts| && hops >= 2
    requires DistinctListeners(encrypts + decrypts) && encrypts[i].upstream == decrypts[i].listen
    requires forall k :: 0 <= k < |encrypts| ==>
               encrypts[k].listen != decrypts[i].upstream && decrypts[k].listen != decrypts[i].upstream
    ensures var rules := encrypts + decrypts;
            && RuleFor(rules, encrypts[i].listen) == Some(encrypts[i])
            && RuleFor(rules, encrypts[i].upstream) == Some(decrypts[i])
            && Deliver(rules, encrypts[i].listen, hops) == decrypts[i].upstream
  {
    var rules, n := encrypts + decrypts, |encrypts|;
    assert rules[i] == encrypts[i] && rules[n + i] == decrypts[i];
    RuleForListener(rules, i);
    RuleForListener(rules, n + i);
    NoRuleFor(rules, decrypts[i].upstream);
    assert Deliver(rules, decrypts[i].listen, hops - 1) == Deliver(rules, decrypts[i].upstream, hops - 2);
  }

  lemma {:induction false} ListenersDiffer(spec: SecuritySpec, c: nat, j: nat, k: nat, n: nat, host: Host)
    requires j < n && k < n && j != k && Fits(c % U16, CounterAfter(c, n, host) - c)
    ensures Listener(spec, c, j, host) != Listener(spec, c, k, host)
  {
    hide PortOf, LoopbackSocket, CounterAfter, Fits;
    var a, b := if j < k then j else k, if j < k then k else j;
    ReservationsDistinct(c, a, b, n, host);
    SocketsDiffer(spec.family, PortOf(c, a, host).value, PortOf(c, b, host).value);
  }

  /** The reservation whose port rule `r` of `n` encrypt and `n` decrypt rules listens on. */
  function ReservationOf(r: nat, n: nat): nat
    requires r < 2 * n
  {
    if r < n then 2 * r else 2 * (r - n) + 1
  }

  lemma {:induction false} RuleListensOn(spec: SecuritySpec, classes: seq<Class>, c: nat, host: Host, r: nat)
    requires r < 2 * |classes|
    ensures var rules := Encrypts(spec, classes, |classes|, c, host) + Decrypts(spec, classes, |classes|, c, host);
            rules[r].listen == Listener(spec, c, ReservationOf(r, |classes|), host)
  {
    hide Listener;
  }

  lemma {:induction false} RulesListenApart(spec: SecuritySpec, classes: seq<Class>, c: nat, host: Host)
    requires Fits(c % U16, CounterAfter(c, 2 * |classes|, host) - c)
    ensures DistinctListeners(Encrypts(spec, classes, |classes|, c, host) + Decrypts(spec, classes, |classes|, c, host))
  {
    hide Encrypts, Decrypts, Listener, PairOf, CounterAfter, Fits;
    var n := |classes|;
    var rules := Encrypts(spec, classes, n, c, host) + Decrypts(spec, classes, n, c, host);
    forall i, j | 0 <= i < j < |rules|
      ensures rules[i].listen != rules[j].listen
    {
      RuleListensOn(spec, classes, c, host, i);
      RuleListensOn(spec, classes, c, host, j);
      ListenersDiffer(spec, c, ReservationOf(i, n), ReservationOf(j, n), 2 * n, host);
    }
  }

  lemma {:induction false} AllPortsFound(c: nat, n: nat, host: Host)
    requires n >= 2 && Fits(c % U16, CounterAfter(c, n, host) - c)
    ensures AllReserved(c, n, host)
  {
    hide PortOf, CounterAfter, Fits;
    forall k | 0 <= k < n
      ensures PortOf(c, k, host).Some?
    {
      ReservationsDistinct(c, if k == 0 then 0 else k - 1, if k == 0 then 1 else k, n, host);
    }
  }

  /** When the draws fit and the backend is none of the reserved listeners, traffic
      to a class's ingress passes its encrypt rule, then its decrypt rule, and
      ends at its backend, in either topology. */
  lemma {:induction false} ChainsDeliver(
    spec: SecuritySpec, topology: Topology, classes: seq<Class>, connections: nat, c: nat, host: Host,
    i: nat, hops: nat)
    requires i < |classes| && hops >= 2 && Fits(c % U16, CounterAfter(c, 2 * |classes|, host) - c)
    requires forall k :: 0 <= k < 2 * |classes| ==> classes[i].1 != Listener(spec, c, k, host)
    ensures AllReserved(c, 2 * |classes|, host)
    ensures var plan := PlanOf(spec, topology, classes, connections, c, host);
            var rules := AllRules(plan.gateways);
            var (encrypt, decrypt) := PairOf(spec, classes, i, c, host);
            && DistinctListeners(rules)
            && RuleFor(rules, plan.paths[i].ingress) == Some(encrypt)
            && RuleFor(rules, encrypt.upstream) == Some(decrypt)
            && encrypt.trafficClass == decrypt.trafficClass == plan.paths[i].cls == classes[i].0
            && Deliver(rules, plan.paths[i].ingress, hops) == plan.paths[i].backend == classes[i].1
  {
    hide Listener, CounterAfter, Fits, DistinctListeners, AllReserved, Deliver, RuleFor, AllRules, GatewaysForTopology;
    var n := |classes|;
    var encrypts, decrypts := Encrypts(spec, classes, n, c, host), Decrypts(spec, classes, n, c, host);
    AllPortsFound(c, 2 * n, host);
    TopologiesServeTheSameRules(encrypts, decrypts, connections);
    RulesListenApart(spec, classes, c, host);
    ChainRoutes(encrypts, decrypts, i, hops);
  }

  /** The single path: one pair, its two listeners. */
  method BuildPath(spec: SecuritySpec, topology: Topology, backend: string, connections: nat, ports: PortCounter,
                   host: Host) returns (r: Result<PathPlan>)
    requires ports.Valid()
    modifies ports
    ensures ports.Valid()
    ensures var c := old(ports.draws);
            if AllReserved(c, 2, host) then
              var (encrypt, decrypt) := BuildRulePair(
                spec, "seshat-encrypt", "seshat-decrypt", Listener(spec, c, 0, host), Listener(spec, c, 1, host), backend);
              && r == Ok(PathPlan(Listener(spec, c, 0, host), backend,
                                  GatewaysForTopology(topology, [encrypt], [decrypt], connections)))
              && ports.draws == CounterAfter(c, 2, host)
            else r == Err(NoPort)
  {
    hide CounterAfter, PortOf, Listener, BuildRulePair, GatewaysForTopology;
    NothingYet(spec, [], ports.draws, host);
    var pair := ReservePair(spec, ports, host, ports.draws, 0);
    if pair.None? {
      return Err(NoPort);
    }
    var (ingress, mid) := pair.value;
    var (encrypt, decrypt) := BuildRulePair(spec, "seshat-encrypt", "seshat-decrypt", ingress, mid, backend);
    r := Ok(PathPlan(ingress, backend, GatewaysForTopology(topology, [encrypt], [decrypt], connections)));
  }
}
