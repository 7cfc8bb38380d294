/** Expansion of the declarative benchmark matrix: compatible profiles times
    interfaces, chains, sizes and connections, with latency, cipher, handshake and
    blocked rows beside them, every row under a name of its own. What a row holds
    apart from its coordinates and its protocol is left out. */
module Matrix {
  import opened Wrappers
  import opened Text
  import opened Sorting

  datatype Tier = Catalog | Nightly | Canonical | Everything

  datatype Dimensions = Dimensions(
    streamSizes: seq<nat>, datagramSizes: seq<nat>, canonicalConns: seq<nat>, nightlyConns: seq<nat>,
    scalabilityConns: seq<nat>, catalogConns: seq<nat>, canonicalStream: nat, canonicalDatagram: nat)

  /** `kind` is the protocol's `type`, `settings` everything else stamped on its rows. */
  datatype Profile = Profile(
    id: string, kind: Option<string>, settings: string, interfaces: seq<string>, chains: seq<string>,
    messageClass: string, tiers: seq<string>, connections: seq<nat>, scalability: bool)

  datatype Limitation = Limitation(name: string, iface: string, chain: string, settings: string)

  datatype Spec = Spec(
    dimensions: Dimensions, profiles: seq<Profile>, tls12: seq<string>, tls13: seq<string>, limitations: seq<Limitation>)

  datatype Protocol =
    | OfProfile(kind: Option<string>, settings: string)
    | Tls(version: string, kernel: bool, suite: string)
    | Dtls(suite: string)
    | Auth(cert: string)
    | Kex(cert: string, group: string)
    | OfLimitation(settings: string)

  datatype Category = Throughput | Latency | Cipher | Handshake | Blocked

  datatype Row = Row(
    name: string, category: Category, source: string, iface: string, protocol: Protocol, chain: string, size: nat,
    connections: nat)

  // ----- Sizes, ladders and names -----

  function TierName(t: Tier): string {
    match t
    case Catalog => "catalog"
    case Nightly => "nightly"
    case Canonical => "canonical"
    case Everything => "everything"
  }

  function AtMostNat(a: nat, b: nat): bool {
    a <= b
  }

  function Dedup(xs: seq<nat>): seq<nat> {
    if |xs| < 2 then xs
    else if xs[0] == xs[1] then Dedup(xs[1..])
    else [xs[0]] + Dedup(xs[1..])
  }

  function UnionConnections(left: seq<nat>, right: seq<nat>): seq<nat> {
    Dedup(Sort(left + right, AtMostNat))
  }

  lemma {:induction false} DedupKeeps(xs: seq<nat>)
    requires Ordered(xs, AtMostNat)
    ensures forall x :: x in Dedup(xs) <==> x in xs
    ensures forall i, j :: 0 <= i < j < |Dedup(xs)| ==> Dedup(xs)[i] < Dedup(xs)[j]
  {
    if |xs| >= 2 {
      var rest := xs[1..];
      assert xs == [xs[0]] + rest;
      assert forall i :: 0 <= i < |rest| ==> AtMostNat(xs[0], rest[i]) && rest[i] == xs[i + 1];
      DedupKeeps(rest);
      if xs[0] != xs[1] {
        forall x | x in Dedup(rest)
          ensures xs[0] < x
        {
          assert x in rest && AtMostNat(rest[0], rest[0]);
          var k :| 0 <= k < |rest| && rest[k] == x;
          assert k == 0 || AtMostNat(rest[0], rest[k]);
        }
        forall i, j | 0 <= i < j < |Dedup(xs)|
          ensures Dedup(xs)[i] < Dedup(xs)[j]
        {
          assert Dedup(xs)[j] == Dedup(rest)[j - 1];
          assert Dedup(rest)[j - 1] in Dedup(rest);
        }
      }
    }
  }

  /** The long ladder is the two ladders' values, each once, in increasing order. */
  lemma {:induction false} UnionIsSortedUnion(left: seq<nat>, right: seq<nat>)
    ensures forall c :: c in UnionConnections(left, right) <==> c in left || c in right
    ensures var u := UnionConnections(left, right); forall i, j :: 0 <= i < j < |u| ==> u[i] < u[j]
  {
    var all := left + right;
    SortSorts(all, AtMostNat);
    DedupKeeps(Sort(all, AtMostNat));
    forall c
      ensures c in Sort(all, AtMostNat) <==> c in all
    {
      assert c in multiset(Sort(all, AtMostNat)) <==> c in multiset(all);
    }
  }

  function Select(xs: seq<nat>, keep: nat -> bool): (r: seq<nat>)
    ensures forall x :: x in r <==> x in xs && keep(x)
  {
    if xs == [] then []
    else
      assert xs == [xs[0]] + xs[1..];
      (if keep(xs[0]) then [xs[0]] else []) + Select(xs[1..], keep)
  }

  /** The largest datagram worth sending: all of it in plaintext, one jumbo frame encrypted. */
  function DatagramCap(kind: Option<string>): nat {
    if kind == Some("none") then 65507 else 9000
  }

  function ProfileSizes(p: Profile, d: Dimensions): seq<nat> {
    if p.messageClass == "datagram" then Select(d.datagramSizes, s => s <= DatagramCap(p.kind)) else d.streamSizes
  }

  function CanonicalSize(p: Profile, d: Dimensions): nat {
    if p.messageClass == "datagram" then d.canonicalDatagram else d.canonicalStream
  }

  function Sizes(t: Tier, p: Profile, d: Dimensions): seq<nat> {
    if t.Canonical? then [CanonicalSize(p, d)] else ProfileSizes(p, d)
  }

  function Ladder(t: Tier, p: Profile, d: Dimensions): seq<nat> {
    match t
    case Catalog => d.catalogConns
    case Everything => d.catalogConns
    case Nightly => if p.scalability then UnionConnections(d.nightlyConns, d.scalabilityConns) else d.nightlyConns
    case Canonical => d.canonicalConns
  }

  /** The catalog and the exhaustive tier take every profile, the others the tagged ones. */
  predicate Eligible(t: Tier, p: Profile) {
    t.Catalog? || t.Everything? || TierName(t) in p.tiers
  }

  predicate Supports(p: Profile, c: nat) {
    p.connections == [] || c in p.connections
  }

  function SizeLabel(bytes: nat): string {
    if bytes == 1024 then "1KB"
    else if bytes == 16384 then "16KB"
    else if bytes == 32768 then "32KB"
    else if bytes == 65536 then "64KB"
    else Decimal(bytes) + "B"
  }

  /** `chain.replace("scg-", "")` */
  function ShortChain(chain: string): string {
    if chain == "" then ""
    else if |chain| >= 4 && chain[..4] == "scg-" then ShortChain(chain[4..])
    else [chain[0]] + ShortChain(chain[1..])
  }

  function RowName(p: Profile, i: string, chain: string, size: nat, c: nat): string {
    "matrix_" + p.id + "_" + i + "_" + (SizeLabel(size) + "_" + Way(chain, c))
  }

  function Way(chain: string, c: nat): string {
    ShortChain(chain) + "_" + (Decimal(c) + "c")
  }

  function LatencyName(p: Profile, i: string, size: nat): string {
    "matrix_lat_" + p.id + "_" + i + "_" + SizeLabel(size) + "_direct_1c"
  }

  function DIRECT(): string {
    "scg-direct"
  }

  function ThroughputRow(p: Profile, i: string, chain: string, size: nat, c: nat): Row {
    Row(RowName(p, i, chain, size, c), Throughput, p.id, i, OfProfile(p.kind, p.settings), chain, size, c)
  }

  function LatencyRow(p: Profile, i: string, size: nat): Row {
    Row(LatencyName(p, i, size), Latency, p.id, i, OfProfile(p.kind, p.settings), DIRECT(), size, 1)
  }

  /** A latency row accompanies the direct chain of a profile that can run one connection. */
  predicate WantsLatency(t: Tier, p: Profile, chain: string) {
    !t.Catalog? && chain == DIRECT() && Supports(p, 1)
  }

  // ----- The rows of a tier, in order -----

  function FlatMap<T>(xs: seq<T>, f: T -> seq<Row>): seq<Row> {
    if xs == [] then [] else FlatMap(xs[..|xs| - 1], f) + f(xs[|xs| - 1])
  }

  function OnConns(p: Profile, i: string, chain: string, size: nat): nat -> seq<Row> {
    (c: nat) => if Supports(p, c) then [ThroughputRow(p, i, chain, size, c)] else []
  }

  function SizeBlock(spec: Spec, t: Tier, p: Profile, i: string, chain: string, size: nat): seq<Row> {
    FlatMap(Ladder(t, p, spec.dimensions), OnConns(p, i, chain, size)) +
    if WantsLatency(t, p, chain) then [LatencyRow(p, i, size)] else []
  }

  function OnSizes(spec: Spec, t: Tier, p: Profile, i: string, chain: string): nat -> seq<Row> {
    (size: nat) => SizeBlock(spec, t, p, i, chain, size)
  }

  function OnChains(spec: Spec, t: Tier, p: Profile, i: string): string -> seq<Row> {
    chain => FlatMap(Sizes(t, p, spec.dimensions), OnSizes(spec, t, p, i, chain))
  }

  function OnInterfaces(spec: Spec, t: Tier, p: Profile): string -> seq<Row> {
    i => FlatMap(p.chains, OnChains(spec, t, p, i))
  }

  function OnProfiles(spec: Spec, t: Tier): Profile -> seq<Row> {
    p => if Eligible(t, p) then FlatMap(p.interfaces, OnInterfaces(spec, t, p)) else []
  }

  /** The declared sizes among the preferred ones, or the canonical one alone. */
  function CipherSizes(t: Tier, canonical: nat, all: seq<nat>, preferred: seq<nat>): seq<nat> {
    var grid := Select(all, b => b in preferred);
    if t.Canonical? || grid == [] then [canonical] else grid
  }

  function Suites(t: Tier, suites: seq<string>): seq<string> {
    if t.Canonical? && |suites| > 1 then suites[..1] else suites
  }

  function IsAlphanumeric(c: char): bool {
    'a' <= c <= 'z' || 'A' <= c <= 'Z' || '0' <= c <= '9'
  }

  function Lower(c: char): char {
    if 'A' <= c <= 'Z' then (c as int + 32) as char else c
  }

  function TrimUnderscores(s: string): string {
    if s != "" && s[0] == '_' then TrimUnderscores(s[1..])
    else if s != "" && s[|s| - 1] == '_' then TrimUnderscores(s[..|s| - 1])
    else s
  }

  function SanitizeName(s: string): string {
    TrimUnderscores(seq(|s|, i requires 0 <= i < |s| => if IsAlphanumeric(s[i]) then Lower(s[i]) else '_'))
  }

  function CipherRow(name: string, i: string, protocol: Protocol, size: nat, canonical: nat): Row {
    Row(if size == canonical then name else name + "_" + Decimal(size) + "B", Cipher, "cipher", i, protocol, DIRECT(), size, 1)
  }

  function Short(version: string): string {
    if version == "1.2" then "12" else "13"
  }

  /** A stream suite at one size: in user space, then in the kernel. */
  function TlsPair(d: Dimensions, version: string, suite: string): nat -> seq<Row> {
    (size: nat) => [CipherRow("cipher_tls" + Short(version) + "_" + SanitizeName(suite), "tcp",
                       Tls(version, false, suite), size, d.canonicalStream),
             CipherRow("cipher_ktls" + Short(version) + "_" + SanitizeName(suite), "tcp",
                       Tls(version, true, suite), size, d.canonicalStream)]
  }

  function StreamCipherSizes(t: Tier, d: Dimensions): seq<nat> {
    CipherSizes(t, d.canonicalStream, d.streamSizes, [1024, d.canonicalStream, 16384])
  }

  function DatagramCipherSizes(t: Tier, d: Dimensions): seq<nat> {
    CipherSizes(t, d.canonicalDatagram, d.datagramSizes, [256, d.canonicalDatagram, 1400])
  }

  function OnTlsSuites(t: Tier, d: Dimensions, version: string): string -> seq<Row> {
    suite => FlatMap(StreamCipherSizes(t, d), TlsPair(d, version, suite))
  }

  function DtlsAt(d: Dimensions, suite: string): nat -> seq<Row> {
    (size: nat) => [CipherRow("cipher_dtls12_" + SanitizeName(suite), "udp", Dtls(suite), size, d.canonicalDatagram)]
  }

  function OnDtlsSuites(t: Tier, d: Dimensions): string -> seq<Row> {
    suite => FlatMap(DatagramCipherSizes(t, d), DtlsAt(d, suite))
  }

  function CipherRows(spec: Spec, t: Tier): seq<Row> {
    FlatMap(Suites(t, spec.tls12), OnTlsSuites(t, spec.dimensions, "1.2")) +
    FlatMap(Suites(t, spec.tls13), OnTlsSuites(t, spec.dimensions, "1.3")) +
    FlatMap(Suites(t, spec.tls12), OnDtlsSuites(t, spec.dimensions))
  }

  datatype Axis = Axis(base: string, protocol: Protocol)

  function HandshakeAt(axis: Axis): nat -> seq<Row> {
    (c: nat) => [Row(if c == 4 then axis.base else axis.base + "_" + Decimal(c) + "c", Handshake, "handshake", "tcp", axis.protocol,
              DIRECT(), 64, c)]
  }

  function ChurnWidths(t: Tier): seq<nat> {
    if t.Canonical? then [4] else [1, 4]
  }

  function OnAxes(t: Tier): Axis -> seq<Row> {
    axis => FlatMap(ChurnWidths(t), HandshakeAt(axis))
  }

  function AuthAxes(): seq<Axis> {
    [Axis("handshake_tls13_ecdsa", Auth("ecdsa")), Axis("handshake_tls13_rsa", Auth("rsa"))]
  }

  function KexAxes(): seq<Axis> {
    [Axis("handshake_kex_x25519", Kex("ecdsa", "X25519")), Axis("handshake_kex_p256", Kex("ecdsa", "P-256"))]
  }

  function HandshakeRows(t: Tier): seq<Row> {
    FlatMap(AuthAxes(), OnAxes(t)) + FlatMap(KexAxes(), OnAxes(t))
  }

  function OnLimitations(): Limitation -> seq<Row> {
    (l: Limitation) => [Row("blocked_" + l.name, Blocked, "blocked", l.iface, OfLimitation(l.settings), l.chain, 1024, 1)]
  }

  function TierRows(spec: Spec, t: Tier): seq<Row> {
    FlatMap(spec.profiles, OnProfiles(spec, t)) + CipherRows(spec, t) + HandshakeRows(t)
    + FlatMap(spec.limitations, OnLimitations())
  }

  // ----- One name per row -----

  /** The rows so far, or the name that was generated twice. */
  datatype Expansion = Ok(rows: seq<Row>) | Duplicate(name: string)

  function NamesOf(rows: seq<Row>): set<string> {
    set i | 0 <= i < |rows| :: rows[i].name
  }

  function Emit(have: seq<Row>, rows: seq<Row>): Expansion
    decreases rows
  {
    if rows == [] then Ok(have)
    else if rows[0].name in NamesOf(have) then Duplicate(rows[0].name)
    else Emit(have + [rows[0]], rows[1..])
  }

  predicate DistinctNames(rows: seq<Row>) {
    forall i, j :: 0 <= i < j < |rows| ==> rows[i].name != rows[j].name
  }

  lemma {:induction false} EmitConcat(have: seq<Row>, a: seq<Row>, b: seq<Row>)
    ensures Emit(have, a + b) == match Emit(have, a) case Ok(rows) => Emit(rows, b) case Duplicate(n) => Duplicate(n)
    decreases a
  {
    if a == [] {
      assert a + b == b;
    } else {
      assert (a + b)[1..] == a[1..] + b;
      if a[0].name !in NamesOf(have) {
        EmitConcat(have + [a[0]], a[1..], b);
      }
    }
  }

  lemma {:induction false} FlatMapConcat<T>(xs: seq<T>, ys: seq<T>, f: T -> seq<Row>)
    ensures FlatMap(xs + ys, f) == FlatMap(xs, f) + FlatMap(ys, f)
  {
    if ys == [] {
      assert xs + ys == xs;
    } else {
      var n := |ys| - 1;
      assert (xs + ys)[..|xs| + n] == xs + ys[..n];
      FlatMapConcat(xs, ys[..n], f);
    }
  }

  /** One step of a loop that emits a block per element: it goes on from where the
      prefix stood, and a duplicate in a block is the duplicate of the whole. */
  lemma {:induction false} Step<T>(start: seq<Row>, xs: seq<T>, i: nat, f: T -> seq<Row>, here: seq<Row>)
    requires i < |xs| && Emit(start, FlatMap(xs[..i], f)) == Ok(here)
    ensures Emit(start, FlatMap(xs[..i + 1], f)) == Emit(here, f(xs[i]))
    ensures Emit(here, f(xs[i])).Duplicate? ==> Emit(start, FlatMap(xs, f)) == Emit(here, f(xs[i]))
  {
    assert xs[..i + 1][..i] == xs[..i];
    EmitConcat(start, FlatMap(xs[..i], f), f(xs[i]));
    assert xs == xs[..i + 1] + xs[i + 1..];
    FlatMapConcat(xs[..i + 1], xs[i + 1..], f);
    EmitConcat(start, FlatMap(xs[..i + 1], f), FlatMap(xs[i + 1..], f));
  }

  lemma {:induction false} TakenName(have: seq<Row>, rows: seq<Row>)
    requires rows != [] && DistinctNames(have) && rows[0].name in NamesOf(have)
    ensures !DistinctNames(have + rows) && have + rows[..0] == have
  {
    var j :| 0 <= j < |have| && have[j].name == rows[0].name;
    assert (have + rows)[j] == have[j] && (have + rows)[|have|] == rows[0];
  }

  lemma {:induction false} MovedOn(have: seq<Row>, rows: seq<Row>, k: nat)
    requires rows != [] && k < |rows[1..]|
    ensures (have + [rows[0]]) + rows[1..][..k] == have + rows[..k + 1] && rows[k + 1] == rows[1..][k]
  {}

  lemma {:induction false} EmitMeaning(have: seq<Row>, rows: seq<Row>)
    requires DistinctNames(have)
    ensures Emit(have, rows).Ok? <==> DistinctNames(have + rows)
    ensures Emit(have, rows).Ok? ==> Emit(have, rows).rows == have + rows
    ensures Emit(have, rows).Duplicate? ==>
              (exists k :: 0 <= k < |rows| && rows[k].name == Emit(have, rows).name
                           && rows[k].name in NamesOf(have + rows[..k]) && DistinctNames(have + rows[..k]))
    decreases rows
  {
    if rows == [] {
      assert have + rows == have;
    } else if rows[0].name in NamesOf(have) {
      TakenName(have, rows);
    } else {
      var more, rest := have + [rows[0]], rows[1..];
      assert more + rest == have + rows;
      EmitMeaning(more, rest);
      if Emit(more, rest).Duplicate? {
        var k :| 0 <= k < |rest| && rest[k].name == Emit(more, rest).name
                 && rest[k].name in NamesOf(more + rest[..k]) && DistinctNames(more + rest[..k]);
        MovedOn(have, rows, k);
      }
    }
  }

  /** Expansion succeeds exactly when all names differ, and then returns the rows in
      order; otherwise it reports the first name generated again. */
  lemma {:induction false} ExpansionMeaning(rows: seq<Row>)
    ensures var e := Emit([], rows);
            && (e.Ok? <==> DistinctNames(rows))
            && (e.Ok? ==> e.rows == rows)
            && (e.Duplicate? ==> (exists k :: 0 <= k < |rows| && rows[k].name == e.name
                                             && rows[k].name in NamesOf(rows[..k]) && DistinctNames(rows[..k])))
  {
    EmitMeaning([], rows);
    assert [] + rows == rows;
    if Emit([], rows).Duplicate? {
      var k :| 0 <= k < |rows| && rows[k].name == Emit([], rows).name
               && rows[k].name in NamesOf([] + rows[..k]) && DistinctNames([] + rows[..k]);
      assert [] + rows[..k] == rows[..k];
    }
  }

  // ----- The expanding loops -----

  /** The suite being generated: the rows pushed so far and the names they took. */
  class Suite {
    var scenarios: seq<Row>
    var names: set<string>

    ghost predicate Valid()
      reads this
    {
      names == NamesOf(scenarios)
    }

    constructor ()
      ensures Valid() && scenarios == []
    {
      scenarios, names := [], {};
    }

    /** What pushing `rows` came to: None when all went in, else the name refused. */
    ghost predicate Pushed(before: seq<Row>, rows: seq<Row>, err: Option<string>)
      reads this
    {
      Emit(before, rows) == if err.None? then Ok(scenarios) else Duplicate(err.value)
    }

    method PushUnique(row: Row) returns (err: Option<string>)
      requires Valid()
      modifies this
      ensures Valid() && Pushed(old(scenarios), [row], err)
      ensures err.Some? ==> scenarios == old(scenarios)
    {
      ghost var before := scenarios;
      assert Emit(before, [row]) == if row.name in names then Duplicate(row.name) else Ok(before + [row]) by {
        assert [row][1..] == [];
      }
      if row.name in names {
        return Some(row.name);
      }
      names := names + {row.name};
      scenarios := scenarios + [row];
      NamesGrow(before, row);
      err := None;
    }
  }

  lemma {:induction false} NamesGrow(rows: seq<Row>, row: Row)
    ensures NamesOf(rows + [row]) == NamesOf(rows) + {row.name}
  {
    var more := rows + [row];
    forall n | n in NamesOf(rows)
      ensures n in NamesOf(more)
    {
      var i :| 0 <= i < |rows| && rows[i].name == n;
      assert more[i].name == n;
    }
    assert more[|rows|].name == row.name;
  }

  lemma {:induction false} Nothing<T>(have: seq<Row>, xs: seq<T>, f: T -> seq<Row>)
    ensures Emit(have, FlatMap(xs[..0], f)) == Ok(have) && xs[..|xs|] == xs
  {}

  method PushConnections(suite: Suite, t: Tier, d: Dimensions, p: Profile, i: string, chain: string, size: nat)
    returns (err: Option<string>)
    requires suite.Valid()
    modifies suite
    ensures suite.Valid() && suite.Pushed(old(suite.scenarios), FlatMap(Ladder(t, p, d), OnConns(p, i, chain, size)), err)
  {
    hide Emit, FlatMap, Ladder, ThroughputRow;
    ghost var start := suite.scenarios;
    var connections := Ladder(t, p, d);
    ghost var f := OnConns(p, i, chain, size);
    Nothing(start, connections, f);
    for k := 0 to |connections|
      invariant suite.Valid() && suite.Pushed(start, FlatMap(connections[..k], f), None)
    {
      var c := connections[k];
      Step(start, connections, k, f, suite.scenarios);
      EmitNothing(suite.scenarios);
      if !Supports(p, c) {
        continue;
      }
      var refused := suite.PushUnique(ThroughputRow(p, i, chain, size, c));
      if refused.Some? {
        return refused;
      }
    }
    err := None;
  }

  lemma {:induction false} EmitNothing(have: seq<Row>)
    ensures Emit(have, []) == Ok(have)
  {}

  /** One size: its connection ladder, then its latency row. */
  method PushSize(suite: Suite, spec: Spec, t: Tier, p: Profile, i: string, chain: string, size: nat)
    returns (err: Option<string>)
    requires suite.Valid()
    modifies suite
    ensures suite.Valid() && suite.Pushed(old(suite.scenarios), SizeBlock(spec, t, p, i, chain, size), err)
  {
    hide Emit, FlatMap, Ladder, LatencyRow, OnConns;
    ghost var start := suite.scenarios;
    ghost var rows := FlatMap(Ladder(t, p, spec.dimensions), OnConns(p, i, chain, size));
    EmitConcat(start, rows, if WantsLatency(t, p, chain) then [LatencyRow(p, i, size)] else []);
    err := PushConnections(suite, t, spec.dimensions, p, i, chain, size);
    if err.Some? {
      return;
    }
    EmitNothing(suite.scenarios);
    if WantsLatency(t, p, chain) {
      err := suite.PushUnique(LatencyRow(p, i, size));
    }
  }

  /** All sizes of one chain. */
  method PushSizes(suite: Suite, spec: Spec, t: Tier, p: Profile, i: string, chain: string) returns (err: Option<string>)
    requires suite.Valid()
    modifies suite
    ensures suite.Valid() && suite.Pushed(old(suite.scenarios), FlatMap(Sizes(t, p, spec.dimensions), OnSizes(spec, t, p, i, chain)), err)
  {
    hide Emit, FlatMap, SizeBlock, Sizes;
    ghost var start := suite.scenarios;
    var all := Sizes(t, p, spec.dimensions);
    ghost var f := OnSizes(spec, t, p, i, chain);
    Nothing(start, all, f);
    for k := 0 to |all|
      invariant suite.Valid() && suite.Pushed(start, FlatMap(all[..k], f), None)
    {
      Step(start, all, k, f, suite.scenarios);
      var refused := PushSize(suite, spec, t, p, i, chain, all[k]);
      if refused.Some? {
        return refused;
      }
    }
    err := None;
  }

  /** All chains of one interface. */
  method PushChains(suite: Suite, spec: Spec, t: Tier, p: Profile, i: string) returns (err: Option<string>)
    requires suite.Valid()
    modifies suite
    ensures suite.Valid() && suite.Pushed(old(suite.scenarios), FlatMap(p.chains, OnChains(spec, t, p, i)), err)
  {
    hide Emit, FlatMap, OnSizes, Sizes;
    ghost var start := suite.scenarios;
    var all := p.chains;
    ghost var f := OnChains(spec, t, p, i);
    Nothing(start, all, f);
    for k := 0 to |all|
      invariant suite.Valid() && suite.Pushed(start, FlatMap(all[..k], f), None)
    {
      Step(start, all, k, f, suite.scenarios);
      var refused := PushSizes(suite, spec, t, p, i, all[k]);
      if refused.Some? {
        return refused;
      }
    }
    err := None;
  }

  /** All interfaces of one profile. */
  method PushInterfaces(suite: Suite, spec: Spec, t: Tier, p: Profile) returns (err: Option<string>)
    requires suite.Valid()
    modifies suite
    ensures suite.Valid() && suite.Pushed(old(suite.scenarios), FlatMap(p.interfaces, OnInterfaces(spec, t, p)), err)
  {
    hide Emit, FlatMap, OnChains;
    ghost var start := suite.scenarios;
    var all := p.interfaces;
    ghost var f := OnInterfaces(spec, t, p);
    Nothing(start, all, f);
    for k := 0 to |all|
      invariant suite.Valid() && suite.Pushed(start, FlatMap(all[..k], f), None)
    {
      Step(start, all, k, f, suite.scenarios);
      var refused := PushChains(suite, spec, t, p, all[k]);
      if refused.Some? {
        return refused;
      }
    }
    err := None;
  }

  /** The profiles of the tier. */
  method PushProfiles(suite: Suite, spec: Spec, t: Tier) returns (err: Option<string>)
    requires suite.Valid()
    modifies suite
    ensures suite.Valid() && suite.Pushed(old(suite.scenarios), FlatMap(spec.profiles, OnProfiles(spec, t)), err)
  {
    hide Emit, FlatMap, OnInterfaces;
    ghost var start := suite.scenarios;
    var all := spec.profiles;
    ghost var f := OnProfiles(spec, t);
    Nothing(start, all, f);
    for k := 0 to |all|
      invariant suite.Valid() && suite.Pushed(start, FlatMap(all[..k], f), None)
    {
      Step(start, all, k, f, suite.scenarios);
      if !Eligible(t, all[k]) {
        EmitNothing(suite.scenarios);
        continue;
      }
      var refused := PushInterfaces(suite, spec, t, all[k]);
      if refused.Some? {
        return refused;
      }
    }
    err := None;
  }

  /** The user-space and the kernel row of a suite, size by size. */
  method PushTlsSizes(suite: Suite, t: Tier, d: Dimensions, version: string, cipher: string) returns (err: Option<string>)
    requires suite.Valid()
    modifies suite
    ensures suite.Valid()
    ensures suite.Pushed(old(suite.scenarios), FlatMap(StreamCipherSizes(t, d), TlsPair(d, version, cipher)), err)
  {
    hide Emit, FlatMap, StreamCipherSizes, CipherRow, SanitizeName, Short;
    ghost var start := suite.scenarios;
    var all := StreamCipherSizes(t, d);
    ghost var f := TlsPair(d, version, cipher);
    Nothing(start, all, f);
    for k := 0 to |all|
      invariant suite.Valid() && suite.Pushed(start, FlatMap(all[..k], f), None)
    {
      Step(start, all, k, f, suite.scenarios);
      var pair := TlsPair(d, version, cipher)(all[k]);
      assert pair == [pair[0]] + [pair[1]];
      EmitConcat(suite.scenarios, [pair[0]], [pair[1]]);
      var refused := suite.PushUnique(pair[0]);
      if refused.None? {
        refused := suite.PushUnique(pair[1]);
      }
      if refused.Some? {
        return refused;
      }
    }
    err := None;
  }

  /** The stream suites of one protocol version. */
  method PushTlsSuites(suite: Suite, spec: Spec, t: Tier, version: string, suites: seq<string>) returns (err: Option<string>)
    requires suite.Valid()
    modifies suite
    ensures suite.Valid() && suite.Pushed(old(suite.scenarios), FlatMap(Suites(t, suites), OnTlsSuites(t, spec.dimensions, version)), err)
  {
    hide Emit, FlatMap, StreamCipherSizes, TlsPair, Suites;
    ghost var start := suite.scenarios;
    var all := Suites(t, suites);
    ghost var f := OnTlsSuites(t, spec.dimensions, version);
    Nothing(start, all, f);
    for k := 0 to |all|
      invariant suite.Valid() && suite.Pushed(start, FlatMap(all[..k], f), None)
    {
      Step(start, all, k, f, suite.scenarios);
      var refused := PushTlsSizes(suite, t, spec.dimensions, version, all[k]);
      if refused.Some? {
        return refused;
      }
    }
    err := None;
  }

  /** One datagram suite, size by size. */
  method PushDtlsSizes(suite: Suite, t: Tier, d: Dimensions, cipher: string) returns (err: Option<string>)
    requires suite.Valid()
    modifies suite
    ensures suite.Valid() && suite.Pushed(old(suite.scenarios), FlatMap(DatagramCipherSizes(t, d), DtlsAt(d, cipher)), err)
  {
    hide Emit, FlatMap, DatagramCipherSizes, CipherRow, SanitizeName;
    ghost var start := suite.scenarios;
    var all := DatagramCipherSizes(t, d);
    ghost var f := DtlsAt(d, cipher);
    Nothing(start, all, f);
    for k := 0 to |all|
      invariant suite.Valid() && suite.Pushed(start, FlatMap(all[..k], f), None)
    {
      Step(start, all, k, f, suite.scenarios);
      var row := DtlsAt(d, cipher)(all[k])[0];
      assert DtlsAt(d, cipher)(all[k]) == [row];
      var refused := suite.PushUnique(row);
      if refused.Some? {
        return refused;
      }
    }
    err := None;
  }

  /** The datagram suites. */
  method PushDtlsSuites(suite: Suite, spec: Spec, t: Tier) returns (err: Option<string>)
    requires suite.Valid()
    modifies suite
    ensures suite.Valid() && suite.Pushed(old(suite.scenarios), FlatMap(Suites(t, spec.tls12), OnDtlsSuites(t, spec.dimensions)), err)
  {
    hide Emit, FlatMap, DatagramCipherSizes, DtlsAt, Suites;
    ghost var start := suite.scenarios;
    var all := Suites(t, spec.tls12);
    ghost var f := OnDtlsSuites(t, spec.dimensions);
    Nothing(start, all, f);
    for k := 0 to |all|
      invariant suite.Valid() && suite.Pushed(start, FlatMap(all[..k], f), None)
    {
      Step(start, all, k, f, suite.scenarios);
      var refused := PushDtlsSizes(suite, t, spec.dimensions, all[k]);
      if refused.Some? {
        return refused;
      }
    }
    err := None;
  }

  /** One handshake axis at every churn width. */
  method PushChurn(suite: Suite, t: Tier, axis: Axis) returns (err: Option<string>)
    requires suite.Valid()
    modifies suite
    ensures suite.Valid() && suite.Pushed(old(suite.scenarios), FlatMap(ChurnWidths(t), HandshakeAt(axis)), err)
  {
    hide Emit, FlatMap, ChurnWidths;
    ghost var start := suite.scenarios;
    var all := ChurnWidths(t);
    ghost var f := HandshakeAt(axis);
    Nothing(start, all, f);
    for k := 0 to |all|
      invariant suite.Valid() && suite.Pushed(start, FlatMap(all[..k], f), None)
    {
      Step(start, all, k, f, suite.scenarios);
      var row := HandshakeAt(axis)(all[k])[0];
      assert HandshakeAt(axis)(all[k]) == [row];
      var refused := suite.PushUnique(row);
      if refused.Some? {
        return refused;
      }
    }
    err := None;
  }

  /** A list of handshake axes. */
  method PushAxes(suite: Suite, t: Tier, axes: seq<Axis>) returns (err: Option<string>)
    requires suite.Valid()
    modifies suite
    ensures suite.Valid() && suite.Pushed(old(suite.scenarios), FlatMap(axes, OnAxes(t)), err)
  {
    hide Emit, FlatMap, ChurnWidths, HandshakeAt;
    ghost var start := suite.scenarios;
    var all := axes;
    ghost var f := OnAxes(t);
    Nothing(start, all, f);
    for k := 0 to |all|
      invariant suite.Valid() && suite.Pushed(start, FlatMap(all[..k], f), None)
    {
      Step(start, all, k, f, suite.scenarios);
      var refused := PushChurn(suite, t, all[k]);
      if refused.Some? {
        return refused;
      }
    }
    err := None;
  }

  /** The catalogued limitations, as disabled rows. */
  method PushBlocked(suite: Suite, spec: Spec) returns (err: Option<string>)
    requires suite.Valid()
    modifies suite
    ensures suite.Valid() && suite.Pushed(old(suite.scenarios), FlatMap(spec.limitations, OnLimitations()), err)
  {
    hide Emit, FlatMap;
    ghost var start := suite.scenarios;
    var all := spec.limitations;
    ghost var f := OnLimitations();
    Nothing(start, all, f);
    for k := 0 to |all|
      invariant suite.Valid() && suite.Pushed(start, FlatMap(all[..k], f), None)
    {
      Step(start, all, k, f, suite.scenarios);
      var row := OnLimitations()(all[k])[0];
      assert OnLimitations()(all[k]) == [row];
      var refused := suite.PushUnique(row);
      if refused.Some? {
        return refused;
      }
    }
    err := None;
  }

  method AppendCipherScenarios(suite: Suite, spec: Spec, t: Tier) returns (err: Option<string>)
    requires suite.Valid()
    modifies suite
    ensures suite.Valid() && suite.Pushed(old(suite.scenarios), CipherRows(spec, t), err)
  {
    hide Emit, FlatMap, OnTlsSuites, OnDtlsSuites, Suites;
    ghost var start := suite.scenarios;
    ghost var a := FlatMap(Suites(t, spec.tls12), OnTlsSuites(t, spec.dimensions, "1.2"));
    ghost var b := FlatMap(Suites(t, spec.tls13), OnTlsSuites(t, spec.dimensions, "1.3"));
    ghost var c := FlatMap(Suites(t, spec.tls12), OnDtlsSuites(t, spec.dimensions));
    EmitConcat(start, a, b);
    EmitConcat(start, a + b, c);
    err := PushTlsSuites(suite, spec, t, "1.2", spec.tls12);
    if err.None? {
      err := PushTlsSuites(suite, spec, t, "1.3", spec.tls13);
    }
    if err.None? {
      err := PushDtlsSuites(suite, spec, t);
    }
  }

  method AppendHandshakeScenarios(suite: Suite, t: Tier) returns (err: Option<string>)
    requires suite.Valid()
    modifies suite
    ensures suite.Valid() && suite.Pushed(old(suite.scenarios), HandshakeRows(t), err)
  {
    hide Emit, FlatMap, OnAxes, AuthAxes, KexAxes;
    EmitConcat(suite.scenarios, FlatMap(AuthAxes(), OnAxes(t)), FlatMap(KexAxes(), OnAxes(t)));
    err := PushAxes(suite, t, AuthAxes());
    if err.None? {
      err := PushAxes(suite, t, KexAxes());
    }
  }

  method ExpandProfiles(spec: Spec, t: Tier) returns (r: Expansion)
    ensures r == Emit([], TierRows(spec, t))
  {
    hide Emit, FlatMap, OnProfiles, CipherRows, HandshakeRows, OnLimitations;
    ghost var a, b, c, d := FlatMap(spec.profiles, OnProfiles(spec, t)), CipherRows(spec, t), HandshakeRows(t),
                            FlatMap(spec.limitations, OnLimitations());
    EmitConcat([], a, b);
    EmitConcat([], a + b, c);
    EmitConcat([], a + b + c, d);
    var suite := new Suite();
    var err := PushProfiles(suite, spec, t);
    if err.None? {
      err := AppendCipherScenarios(suite, spec, t);
    }
    if err.None? {
      err := AppendHandshakeScenarios(suite, t);
    }
    if err.None? {
      err := PushBlocked(suite, spec);
    }
    r := if err.None? then Ok(suite.scenarios) else Duplicate(err.value);
  }

  // ----- What the expansion covers -----

  lemma {:induction false} InBlock<T>(xs: seq<T>, f: T -> seq<Row>, x: T, r: Row)
    requires x in xs && r in f(x)
    ensures r in FlatMap(xs, f)
  {
    var n := |xs| - 1;
    if x in xs[..n] {
      InBlock(xs[..n], f, x, r);
    } else {
      assert xs == xs[..n] + [xs[n]];
    }
  }

  lemma {:induction false} FromBlock<T>(xs: seq<T>, f: T -> seq<Row>, r: Row) returns (x: T)
    requires r in FlatMap(xs, f)
    ensures x in xs && r in f(x)
  {
    var n := |xs| - 1;
    if r in FlatMap(xs[..n], f) {
      x := FromBlock(xs[..n], f, r);
    } else {
      x := xs[n];
    }
  }

  /** One combination of the matrix. */
  datatype Cell = Cell(p: Profile, iface: string, chain: string, size: nat, c: nat)

  predicate OnGrid(spec: Spec, t: Tier, cell: Cell) {
    && cell.p in spec.profiles && Eligible(t, cell.p)
    && cell.iface in cell.p.interfaces && cell.chain in cell.p.chains
    && cell.size in Sizes(t, cell.p, spec.dimensions)
  }

  /** A throughput row of its own. */
  predicate Compatible(spec: Spec, t: Tier, cell: Cell) {
    OnGrid(spec, t, cell) && cell.c in Ladder(t, cell.p, spec.dimensions) && Supports(cell.p, cell.c)
  }

  /** A latency row of its own. */
  predicate Measurable(spec: Spec, t: Tier, cell: Cell) {
    OnGrid(spec, t, cell) && WantsLatency(t, cell.p, cell.chain) && cell.c == 1
  }

  function RowOf(cell: Cell): Row {
    ThroughputRow(cell.p, cell.iface, cell.chain, cell.size, cell.c)
  }

  function LatencyRowOf(cell: Cell): Row {
    LatencyRow(cell.p, cell.iface, cell.size)
  }

  function ProfileRows(spec: Spec, t: Tier): seq<Row> {
    FlatMap(spec.profiles, OnProfiles(spec, t))
  }

  lemma {:induction false} GridRow(spec: Spec, t: Tier, cell: Cell, r: Row)
    requires OnGrid(spec, t, cell) && r in SizeBlock(spec, t, cell.p, cell.iface, cell.chain, cell.size)
    ensures r in ProfileRows(spec, t)
  {
    hide FlatMap, SizeBlock, Sizes;
    var Cell(p, i, chain, size, c) := cell;
    InBlock(Sizes(t, p, spec.dimensions), OnSizes(spec, t, p, i, chain), size, r);
    InBlock(p.chains, OnChains(spec, t, p, i), chain, r);
    InBlock(p.interfaces, OnInterfaces(spec, t, p), i, r);
    InBlock(spec.profiles, OnProfiles(spec, t), p, r);
  }

  lemma {:induction false} CellIsCovered(spec: Spec, t: Tier, cell: Cell)
    ensures Compatible(spec, t, cell) ==> RowOf(cell) in ProfileRows(spec, t)
    ensures Measurable(spec, t, cell) ==> LatencyRowOf(cell) in ProfileRows(spec, t)
  {
    hide FlatMap, ThroughputRow, LatencyRow, ProfileRows, Ladder, Sizes;
    var Cell(p, i, chain, size, c) := cell;
    if Compatible(spec, t, cell) {
      InBlock(Ladder(t, p, spec.dimensions), OnConns(p, i, chain, size), c, RowOf(cell));
      GridRow(spec, t, cell, RowOf(cell));
    }
    if Measurable(spec, t, cell) {
      GridRow(spec, t, cell, LatencyRowOf(cell));
    }
  }

  lemma {:induction false} RowOfSize(
    spec: Spec, t: Tier, p: Profile, i: string, chain: string, size: nat, r: Row) returns (c: nat)
    requires r in SizeBlock(spec, t, p, i, chain, size)
    ensures (c in Ladder(t, p, spec.dimensions) && Supports(p, c) && r == ThroughputRow(p, i, chain, size, c))
            || (c == 1 && WantsLatency(t, p, chain) && r == LatencyRow(p, i, size))
  {
    hide FlatMap, Ladder, ThroughputRow, LatencyRow, WantsLatency, Supports;
    if r in FlatMap(Ladder(t, p, spec.dimensions), OnConns(p, i, chain, size)) {
      c := FromBlock(Ladder(t, p, spec.dimensions), OnConns(p, i, chain, size), r);
    } else {
      c := 1;
    }
  }

  lemma {:induction false} RowHasCell(spec: Spec, t: Tier, r: Row) returns (cell: Cell)
    requires r in ProfileRows(spec, t)
    ensures (Compatible(spec, t, cell) && r == RowOf(cell)) || (Measurable(spec, t, cell) && r == LatencyRowOf(cell))
  {
    hide FlatMap, Ladder, Sizes, ThroughputRow, LatencyRow, SizeBlock, WantsLatency, Supports;
    var p := FromBlock(spec.profiles, OnProfiles(spec, t), r);
    var i := FromBlock(p.interfaces, OnInterfaces(spec, t, p), r);
    var chain := FromBlock(p.chains, OnChains(spec, t, p, i), r);
    var size := FromBlock(Sizes(t, p, spec.dimensions), OnSizes(spec, t, p, i, chain), r);
    var c := RowOfSize(spec, t, p, i, chain, size, r);
    cell := Cell(p, i, chain, size, c);
  }

  /** The rows of the profiles are exactly the compatible product, plus a latency row
      for each of its cells that can be measured at one connection. */
  lemma {:induction false} ProfileCoverage(spec: Spec, t: Tier, r: Row)
    ensures r in ProfileRows(spec, t) <==>
            (exists cell :: (Compatible(spec, t, cell) && r == RowOf(cell)) || (Measurable(spec, t, cell) && r == LatencyRowOf(cell)))
  {
    hide ProfileRows, Compatible, Measurable, RowOf, LatencyRowOf;
    if r in ProfileRows(spec, t) {
      var cell := RowHasCell(spec, t, r);
    }
    forall cell | (Compatible(spec, t, cell) && r == RowOf(cell)) || (Measurable(spec, t, cell) && r == LatencyRowOf(cell))
      ensures r in ProfileRows(spec, t)
    {
      CellIsCovered(spec, t, cell);
    }
  }

  // ----- Tiers within tiers -----

  predicate Includes(big: seq<nat>, small: seq<nat>) {
    forall c :: c in small ==> c in big
  }

  lemma {:induction false} NightlyCells(spec: Spec, cell: Cell)
    requires Includes(spec.dimensions.catalogConns, spec.dimensions.nightlyConns)
    requires Includes(spec.dimensions.catalogConns, spec.dimensions.scalabilityConns)
    ensures Compatible(spec, Nightly, cell) ==> Compatible(spec, Everything, cell)
    ensures Measurable(spec, Nightly, cell) ==> Measurable(spec, Everything, cell)
  {
    UnionIsSortedUnion(spec.dimensions.nightlyConns, spec.dimensions.scalabilityConns);
    hide UnionConnections;
  }

  /** When the catalog ladder contains the nightly and the scalability ladder, every
      nightly row is also a row of the exhaustive tier, name and all. */
  lemma {:induction false} NightlyWithinEverything(spec: Spec, r: Row)
    requires Includes(spec.dimensions.catalogConns, spec.dimensions.nightlyConns)
    requires Includes(spec.dimensions.catalogConns, spec.dimensions.scalabilityConns)
    requires r in TierRows(spec, Nightly)
    ensures r in TierRows(spec, Everything)
  {
    hide ProfileRows, OnProfiles, Compatible, Measurable, RowOf, LatencyRowOf;
    SameSweeps(spec);
    if r in FlatMap(spec.profiles, OnProfiles(spec, Nightly)) {
      assert r in ProfileRows(spec, Nightly) by {
        ProfileRowsIs(spec, Nightly);
      }
      var cell := RowHasCell(spec, Nightly, r);
      NightlyCells(spec, cell);
      CellIsCovered(spec, Everything, cell);
      ProfileRowsIs(spec, Everything);
    }
  }

  lemma {:induction false} ProfileRowsIs(spec: Spec, t: Tier)
    ensures ProfileRows(spec, t) == FlatMap(spec.profiles, OnProfiles(spec, t))
  {}

  lemma {:induction false} SameBlocks<T(!new)>(xs: seq<T>, f: T -> seq<Row>, g: T -> seq<Row>)
    requires forall x :: f(x) == g(x)
    ensures FlatMap(xs, f) == FlatMap(xs, g)
  {
    if xs != [] {
      SameBlocks(xs[..|xs| - 1], f, g);
    }
  }

  /** The cipher and the handshake sweep are the same in both tiers. */
  lemma {:induction false} SameSweeps(spec: Spec)
    ensures CipherRows(spec, Nightly) == CipherRows(spec, Everything)
    ensures HandshakeRows(Nightly) == HandshakeRows(Everything)
  {
    hide FlatMap, TlsPair, DtlsAt, HandshakeAt;
    var d := spec.dimensions;
    assert StreamCipherSizes(Nightly, d) == StreamCipherSizes(Everything, d);
    assert DatagramCipherSizes(Nightly, d) == DatagramCipherSizes(Everything, d);
    SameBlocks(spec.tls12, OnTlsSuites(Nightly, d, "1.2"), OnTlsSuites(Everything, d, "1.2"));
    SameBlocks(spec.tls13, OnTlsSuites(Nightly, d, "1.3"), OnTlsSuites(Everything, d, "1.3"));
    SameBlocks(spec.tls12, OnDtlsSuites(Nightly, d), OnDtlsSuites(Everything, d));
    SameBlocks(AuthAxes(), OnAxes(Nightly), OnAxes(Everything));
    SameBlocks(KexAxes(), OnAxes(Nightly), OnAxes(Everything));
  }

  // ----- Names tell sizes and widths apart -----

  lemma {:induction false} DecimalHasNo(n: nat, c: char)
    requires !IsDigit(c)
    ensures c !in Decimal(n)
  {}

  /** Different sizes never share a label. */
  lemma {:induction false} SizeLabelInjective(m: nat, n: nat)
    requires SizeLabel(m) == SizeLabel(n)
    ensures m == n
  {
    var a, b := Decimal(m), Decimal(n);
    assert (a + "B")[..|a|] == a && (b + "B")[..|b|] == b;
    if a == b {
      DecimalInjective(m, n);
    }
    assert 'K' !in a + "B" && 'K' !in b + "B" by {
      DecimalHasNo(m, 'K');
      DecimalHasNo(n, 'K');
    }
    assert "1KB"[1] == 'K' && "16KB"[2] == 'K' && "32KB"[2] == 'K' && "64KB"[2] == 'K';
  }

  lemma {:induction false} LabelHasNoUnderscore(n: nat)
    ensures '_' !in SizeLabel(n)
  {
    DecimalHasNo(n, '_');
  }

  /** Text up to the first underscore settles where the label ends. */
  lemma {:induction false} SplitAtUnderscore(a: string, x: string, b: string, y: string)
    requires '_' !in a && '_' !in b && a + "_" + x == b + "_" + y
    ensures a == b && x == y
  {
    var u, v := a + "_" + x, b + "_" + y;
    if a == "" || b == "" {
      assert u[0] == v[0];
      assert u[1..] == x && v[1..] == y;
    } else {
      assert u == [a[0]] + (a[1..] + "_" + x) && v == [b[0]] + (b[1..] + "_" + y);
      assert u[1..] == a[1..] + "_" + x && v[1..] == b[1..] + "_" + y;
      SplitAtUnderscore(a[1..], x, b[1..], y);
    }
  }

  lemma {:induction false} CancelHead(head: string, x: string, y: string)
    requires head + x == head + y
    ensures x == y
  {
    assert (head + x)[|head|..] == x && (head + y)[|head|..] == y;
  }

  lemma {:induction false} WaysTellWidthsApart(chain: string, c1: nat, c2: nat)
    requires Way(chain, c1) == Way(chain, c2)
    ensures c1 == c2
  {
    CancelHead(ShortChain(chain) + "_", Decimal(c1) + "c", Decimal(c2) + "c");
    assert (Decimal(c1) + "c")[..|Decimal(c1)|] == Decimal(c1) && (Decimal(c2) + "c")[..|Decimal(c2)|] == Decimal(c2);
    DecimalInjective(c1, c2);
  }

  /** On one chain of one interface of one profile, rows with the same name are the
      same cell: only different profiles, interfaces or chains can collide. */
  lemma {:induction false} NamesTellCellsApart(p: Profile, i: string, chain: string, s1: nat, c1: nat, s2: nat, c2: nat)
    requires RowName(p, i, chain, s1, c1) == RowName(p, i, chain, s2, c2)
    ensures s1 == s2 && c1 == c2
  {
    hide SizeLabel, Way;
    CancelHead("matrix_" + p.id + "_" + i + "_", SizeLabel(s1) + "_" + Way(chain, c1), SizeLabel(s2) + "_" + Way(chain, c2));
    LabelHasNoUnderscore(s1);
    LabelHasNoUnderscore(s2);
    SplitAtUnderscore(SizeLabel(s1), Way(chain, c1), SizeLabel(s2), Way(chain, c2));
    SizeLabelInjective(s1, s2);
    WaysTellWidthsApart(chain, c1, c2);
  }
}
