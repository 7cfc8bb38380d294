/** Which rows a tier has, and what stands in them, in the terms of the spec alone. */
module MatrixRows {
  import opened Wrappers
  import opened Text
  import opened Matrix

  // ----- Profile rows -----

  predicate WantedProfile(t: Tier, p: Profile) {
    match t
    case Catalog => true
    case Everything => true
    case Nightly => "nightly" in p.tiers
    case Canonical => "canonical" in p.tiers
  }

  /** The canonical tier has one size; a datagram is at most what UDP carries in one
      piece, in plaintext, and a jumbo frame otherwise. */
  predicate WantedSize(t: Tier, p: Profile, d: Dimensions, size: nat) {
    if p.messageClass == "datagram" then
      if t.Canonical? then size == d.canonicalDatagram
      else size in d.datagramSizes && size <= if p.kind == Some("none") then 65507 else 9000
    else if t.Canonical? then size == d.canonicalStream
    else size in d.streamSizes
  }

  predicate WantedWidth(t: Tier, p: Profile, d: Dimensions, c: nat) {
    && (p.connections == [] || c in p.connections)
    && match t
       case Catalog => c in d.catalogConns
       case Everything => c in d.catalogConns
       case Nightly => c in d.nightlyConns || (p.scalability && c in d.scalabilityConns)
       case Canonical => c in d.canonicalConns
  }

  predicate WantedCell(spec: Spec, t: Tier, cell: Cell) {
    && cell.p in spec.profiles && WantedProfile(t, cell.p) && cell.iface in cell.p.interfaces
    && cell.chain in cell.p.chains && WantedSize(t, cell.p, spec.dimensions, cell.size)
  }

  /** A throughput row of the cell. */
  predicate ThroughputOf(r: Row, cell: Cell) {
    && r.category.Throughput? && r.source == cell.p.id && r.iface == cell.iface && r.chain == cell.chain
    && r.size == cell.size && r.connections == cell.c && r.protocol == OfProfile(cell.p.kind, cell.p.settings)
    && r.name == "matrix_" + cell.p.id + "_" + cell.iface + "_"
                 + (SizeLabel(cell.size) + "_" + (ShortChain(cell.chain) + "_" + (Decimal(cell.c) + "c")))
  }

  /** Its latency row: one connection, on the direct chain. */
  predicate LatencyOf(r: Row, cell: Cell) {
    && r.category.Latency? && r.source == cell.p.id && r.iface == cell.iface && r.chain == "scg-direct"
    && r.size == cell.size && r.connections == 1 && r.protocol == OfProfile(cell.p.kind, cell.p.settings)
    && r.name == "matrix_lat_" + cell.p.id + "_" + cell.iface + "_" + SizeLabel(cell.size) + "_direct_1c"
  }

  predicate Timed(t: Tier, cell: Cell) {
    !t.Catalog? && cell.chain == "scg-direct" && (cell.p.connections == [] || 1 in cell.p.connections) && cell.c == 1
  }

  lemma {:induction false} SizesAreWanted(t: Tier, p: Profile, d: Dimensions, size: nat)
    ensures size in Sizes(t, p, d) <==> WantedSize(t, p, d, size)
  {}

  lemma {:induction false} WidthsAreWanted(t: Tier, p: Profile, d: Dimensions, c: nat)
    ensures c in Ladder(t, p, d) && Supports(p, c) <==> WantedWidth(t, p, d, c)
  {
    UnionIsSortedUnion(d.nightlyConns, d.scalabilityConns);
    hide UnionConnections;
  }

  lemma {:induction false} CellsAreWanted(spec: Spec, t: Tier, cell: Cell)
    ensures Compatible(spec, t, cell) <==> WantedCell(spec, t, cell) && WantedWidth(t, cell.p, spec.dimensions, cell.c)
    ensures Measurable(spec, t, cell) <==> WantedCell(spec, t, cell) && Timed(t, cell)
  {
    SizesAreWanted(t, cell.p, spec.dimensions, cell.size);
    WidthsAreWanted(t, cell.p, spec.dimensions, cell.c);
    hide Sizes, Ladder, Supports, WantedSize, WantedWidth;
    assert Supports(cell.p, 1) <==> cell.p.connections == [] || 1 in cell.p.connections by {
      WidthOne(cell.p);
    }
  }

  lemma {:induction false} WidthOne(p: Profile)
    ensures Supports(p, 1) <==> p.connections == [] || 1 in p.connections
  {}

  lemma {:induction false} RowsOfCell(r: Row, cell: Cell)
    ensures r == RowOf(cell) <==> ThroughputOf(r, cell)
    ensures r == LatencyRowOf(cell) <==> LatencyOf(r, cell)
  {
    hide SizeLabel, ShortChain, Decimal;
  }

  /** The cell asks for the row. */
  predicate Asks(spec: Spec, t: Tier, cell: Cell, r: Row) {
    && WantedCell(spec, t, cell)
    && ((WantedWidth(t, cell.p, spec.dimensions, cell.c) && ThroughputOf(r, cell)) || (Timed(t, cell) && LatencyOf(r, cell)))
  }

  lemma {:induction false} CellAsks(spec: Spec, t: Tier, cell: Cell, r: Row)
    ensures Asks(spec, t, cell, r) <==>
            (Compatible(spec, t, cell) && r == RowOf(cell)) || (Measurable(spec, t, cell) && r == LatencyRowOf(cell))
  {
    CellsAreWanted(spec, t, cell);
    RowsOfCell(r, cell);
    hide Compatible, Measurable, RowOf, LatencyRowOf, WantedCell, WantedWidth, ThroughputOf, LatencyOf, Timed;
  }

  /** A profile's row is there if and only if the spec asks for it: a throughput row for
      each interface, chain, size and width that the tier and the profile want, and a
      latency row where one connection runs on the direct chain. */
  lemma {:induction false} ProfileRowsWanted(spec: Spec, t: Tier, r: Row)
    ensures r in ProfileRows(spec, t) <==> exists cell :: Asks(spec, t, cell, r)
  {
    hide *;
    if r in ProfileRows(spec, t) {
      var cell := RowHasCell(spec, t, r);
      CellAsks(spec, t, cell, r);
    }
    if cell :| Asks(spec, t, cell, r) {
      CellAsks(spec, t, cell, r);
      CellIsCovered(spec, t, cell);
    }
  }

  // ----- Names of sizes and chains -----

  /** A label in kilobytes or in bytes: either way it says the size. */
  lemma {:induction false} LabelReads(size: nat)
    ensures if size == 1024 || size == 16384 || size == 32768 || size == 65536
            then exists k :: k * 1024 == size && SizeLabel(size) == Decimal(k) + "KB"
            else SizeLabel(size) == Decimal(size) + "B"
  {
    assert Decimal(1) == "1";
    TwoDigits(1, 6, 16);
    TwoDigits(3, 2, 32);
    TwoDigits(6, 4, 64);
    assert Decimal(1) + "KB" == "1KB" && Decimal(16) + "KB" == "16KB" && Decimal(32) + "KB" == "32KB" && Decimal(64) + "KB" == "64KB";
    hide Decimal;
    if size == 1024 {
      assert 1 * 1024 == size;
    } else if size == 16384 {
      assert 16 * 1024 == size;
    } else if size == 32768 {
      assert 32 * 1024 == size;
    } else if size == 65536 {
      assert 64 * 1024 == size;
    }
  }

  lemma {:induction false} TwoDigits(a: nat, b: nat, n: nat)
    requires 0 < a < 10 && b < 10 && n == 10 * a + b
    ensures Decimal(n) == [Digit(a), Digit(b)]
  {
    assert n / 10 == a && n % 10 == b;
    assert Decimal(n) == Decimal(a) + [Digit(b)];
  }

  predicate Occurs(chain: string, i: nat) {
    i + 4 <= |chain| && chain[i..i + 4] == "scg-"
  }

  /** Up to the first `scg-` a chain is kept, the prefix is dropped, and so on. */
  lemma {:induction false} ShortChainDrops(before: string, after: string)
    requires forall i: nat :: i < |before| ==> !Occurs(before + after, i)
    ensures ShortChain(before + after) == before + ShortChain(after)
    ensures ShortChain("scg-" + after) == ShortChain(after) && ShortChain("") == ""
    decreases before
  {
    DropPrefix(after);
    hide ShortChain;
    if before == "" {
      assert before + after == after && "" + ShortChain(after) == ShortChain(after);
    } else {
      NoneLater(before, after);
      KeepFirst(before + after);
      hide Occurs;
      ShortChainDrops(before[1..], after);
      Regroup(before, ShortChain(after));
    }
  }

  lemma {:induction false} Regroup(a: string, b: string)
    requires a != ""
    ensures [a[0]] + (a[1..] + b) == a + b
  {}

  lemma {:induction false} NoneLater(before: string, after: string)
    requires before != "" && forall i: nat :: i < |before| ==> !Occurs(before + after, i)
    ensures !Occurs(before + after, 0) && (before + after)[1..] == before[1..] + after
    ensures forall i: nat :: i < |before[1..]| ==> !Occurs(before[1..] + after, i)
  {
    var all := before + after;
    assert all[1..] == before[1..] + after;
    forall i: nat | i < |before[1..]|
      ensures !Occurs(all[1..], i)
    {
      assert !Occurs(all, i + 1);
      assert i + 4 <= |all[1..]| ==> all[1..][i..i + 4] == all[i + 1..i + 5];
    }
  }

  lemma {:induction false} DropPrefix(after: string)
    ensures ShortChain("scg-" + after) == ShortChain(after) && ShortChain("") == ""
  {
    var dropped := "scg-" + after;
    assert dropped[..4] == "scg-" && dropped[4..] == after;
  }

  lemma {:induction false} KeepFirst(chain: string)
    requires chain != "" && !Occurs(chain, 0)
    ensures ShortChain(chain) == [chain[0]] + ShortChain(chain[1..])
  {
    assert |chain| >= 4 ==> chain[0..4] == chain[..4];
  }

  /** A letter in lower case or a digit, and `_` for anything else. */
  predicate Plain(c: char, out: char) {
    if 'A' <= c <= 'Z' then out as int == c as int + 32
    else if 'a' <= c <= 'z' || '0' <= c <= '9' then out == c
    else out == '_'
  }

  lemma {:induction false} TrimIsSlice(s: string) returns (i: nat, j: nat)
    ensures i <= j <= |s| && TrimUnderscores(s) == s[i..j]
    ensures forall k :: 0 <= k < |s| && !(i <= k < j) ==> s[k] == '_'
    ensures i < j ==> s[i] != '_' && s[j - 1] != '_'
    decreases |s|
  {
    if s != "" && s[0] == '_' {
      i, j := TrimIsSlice(s[1..]);
      assert s[1..][i..j] == s[i + 1..j + 1];
      assert forall k :: 0 < k < |s| ==> s[k] == s[1..][k - 1];
      i, j := i + 1, j + 1;
    } else if s != "" && s[|s| - 1] == '_' {
      i, j := TrimIsSlice(s[..|s| - 1]);
      assert s[..|s| - 1][i..j] == s[i..j];
      assert forall k :: 0 <= k < |s| - 1 ==> s[k] == s[..|s| - 1][k];
    } else {
      i, j := 0, |s|;
      assert s[..] == s;
    }
  }

  /** A suite's name in plain characters, from its first letter or digit to its last. */
  lemma {:induction false} SanitizedIs(suite: string) returns (i: nat, j: nat)
    ensures i <= j <= |suite| && |SanitizeName(suite)| == j - i
    ensures forall k :: i <= k < j ==> Plain(suite[k], SanitizeName(suite)[k - i])
    ensures forall k :: 0 <= k < |suite| && !(i <= k < j) ==> Plain(suite[k], '_')
    ensures i < j ==> !Plain(suite[i], '_') && !Plain(suite[j - 1], '_')
  {
    var s := Mapped(suite);
    hide SanitizeName, Plain;
    i, j := TrimIsSlice(s);
    forall k | i <= k < j
      ensures Plain(suite[k], SanitizeName(suite)[k - i])
    {
      assert s[i..j][k - i] == s[k];
    }
    if i < j {
      OneWay(suite[i], s[i]);
      OneWay(suite[j - 1], s[j - 1]);
    }
  }

  lemma {:induction false} OneWay(c: char, out: char)
    requires Plain(c, out) && out != '_'
    ensures !Plain(c, '_')
  {}

  lemma {:induction false} Mapped(suite: string) returns (s: string)
    ensures |s| == |suite| && SanitizeName(suite) == TrimUnderscores(s)
    ensures forall k :: 0 <= k < |suite| ==> Plain(suite[k], s[k])
  {
    hide TrimUnderscores;
    s := seq(|suite|, k requires 0 <= k < |suite| => if IsAlphanumeric(suite[k]) then Lower(suite[k]) else '_');
  }

  // ----- Sweep rows -----

  predicate WantedSuite(t: Tier, suites: seq<string>, suite: string) {
    if t.Canonical? then suites != [] && suite == suites[0] else suite in suites
  }

  /** The sizes declared among three, or the canonical one when none is. */
  predicate WantedSweep(t: Tier, low: nat, canonical: nat, high: nat, declared: seq<nat>, size: nat) {
    if t.Canonical? || forall b :: b in declared ==> b != low && b != canonical && b != high then size == canonical
    else size in declared && (size == low || size == canonical || size == high)
  }

  /** A row of the cipher sweep: the size is in its name, unless it is the canonical one. */
  predicate SweepRow(r: Row, name: string, iface: string, protocol: Protocol, size: nat, canonical: nat) {
    && r.name == name + (if size == canonical then "" else "_" + Decimal(size) + "B")
    && r.category.Cipher? && r.source == "cipher" && r.iface == iface && r.protocol == protocol && r.chain == "scg-direct"
    && r.size == size && r.connections == 1
  }

  /** A stream suite of a version, in user space or in the kernel. */
  predicate StreamRow(r: Row, twelve: bool, kernel: bool, suite: string, size: nat, canonical: nat) {
    SweepRow(r, (if kernel then "cipher_ktls" else "cipher_tls") + (if twelve then "12_" else "13_") + SanitizeName(suite), "tcp",
             Tls(if twelve then "1.2" else "1.3", kernel, suite), size, canonical)
  }

  predicate StreamAsked(spec: Spec, t: Tier, r: Row, twelve: bool, kernel: bool, suite: string, size: nat) {
    && WantedSuite(t, if twelve then spec.tls12 else spec.tls13, suite)
    && WantedSweep(t, 1024, spec.dimensions.canonicalStream, 16384, spec.dimensions.streamSizes, size)
    && StreamRow(r, twelve, kernel, suite, size, spec.dimensions.canonicalStream)
  }

  predicate DatagramAsked(spec: Spec, t: Tier, r: Row, suite: string, size: nat) {
    var d := spec.dimensions;
    && WantedSuite(t, spec.tls12, suite)
    && WantedSweep(t, 256, d.canonicalDatagram, 1400, d.datagramSizes, size)
    && SweepRow(r, "cipher_dtls12_" + SanitizeName(suite), "udp", Dtls(suite), size, d.canonicalDatagram)
  }

  lemma {:induction false} SuitesAreWanted(t: Tier, suites: seq<string>, suite: string)
    ensures suite in Suites(t, suites) <==> WantedSuite(t, suites, suite)
  {
    if t.Canonical? && |suites| > 1 {
      assert suites[..1] == [suites[0]];
    }
  }

  lemma {:induction false} SweepsAreWanted(t: Tier, low: nat, canonical: nat, high: nat, declared: seq<nat>, size: nat)
    ensures size in CipherSizes(t, canonical, declared, [low, canonical, high])
            <==> WantedSweep(t, low, canonical, high, declared, size)
  {
    var grid := Select(declared, b => b in [low, canonical, high]);
    assert grid == [] <==> forall b :: b in declared ==> b != low && b != canonical && b != high by {
      if b :| b in declared && (b == low || b == canonical || b == high) {
        assert b in grid;
      }
      if grid != [] {
        assert grid[0] in grid;
      }
    }
  }

  lemma {:induction false} SweepRowIs(r: Row, name: string, iface: string, protocol: Protocol, size: nat, canonical: nat)
    ensures r == CipherRow(name, iface, protocol, size, canonical) <==> SweepRow(r, name, iface, protocol, size, canonical)
  {
    hide Decimal;
    assert name + "_" + Decimal(size) + "B" == name + ("_" + Decimal(size) + "B");
    assert name + "" == name;
  }

  lemma {:induction false} PairHas(d: Dimensions, twelve: bool, suite: string, size: nat, r: Row)
    ensures r in TlsPair(d, if twelve then "1.2" else "1.3", suite)(size) <==>
            StreamRow(r, twelve, false, suite, size, d.canonicalStream) || StreamRow(r, twelve, true, suite, size, d.canonicalStream)
  {
    var version, clean := if twelve then "1.2" else "1.3", SanitizeName(suite);
    var user, kern := "cipher_tls" + Short(version) + "_" + clean, "cipher_ktls" + Short(version) + "_" + clean;
    assert user == "cipher_tls" + (if twelve then "12_" else "13_") + clean;
    assert kern == "cipher_ktls" + (if twelve then "12_" else "13_") + clean;
    SweepRowIs(r, user, "tcp", Tls(version, false, suite), size, d.canonicalStream);
    SweepRowIs(r, kern, "tcp", Tls(version, true, suite), size, d.canonicalStream);
    hide SweepRow, CipherRow, SanitizeName, Short;
  }

  lemma {:induction false} DatagramHas(d: Dimensions, suite: string, size: nat, r: Row)
    ensures r in DtlsAt(d, suite)(size) <==>
            SweepRow(r, "cipher_dtls12_" + SanitizeName(suite), "udp", Dtls(suite), size, d.canonicalDatagram)
  {
    SweepRowIs(r, "cipher_dtls12_" + SanitizeName(suite), "udp", Dtls(suite), size, d.canonicalDatagram);
    hide SweepRow, CipherRow, SanitizeName;
  }

  lemma {:induction false} SweptBy<T(!new)>(xs: seq<T>, f: T -> seq<Row>, r: Row)
    ensures r in FlatMap(xs, f) <==> exists x :: x in xs && r in f(x)
  {
    if r in FlatMap(xs, f) {
      var x := FromBlock(xs, f, r);
    }
    if x :| x in xs && r in f(x) {
      InBlock(xs, f, x, r);
    }
  }

  /** The stream sweep of one version. */
  lemma {:induction false} StreamsWanted(spec: Spec, t: Tier, twelve: bool, suites: seq<string>, version: string, r: Row)
    requires suites == (if twelve then spec.tls12 else spec.tls13) && version == (if twelve then "1.2" else "1.3")
    ensures r in FlatMap(Suites(t, suites), OnTlsSuites(t, spec.dimensions, version)) <==>
            exists kernel, suite, size :: StreamAsked(spec, t, r, twelve, kernel, suite, size)
  {
    hide FlatMap, TlsPair, Suites, StreamRow, WantedSuite, WantedSweep, CipherSizes;
    var d := spec.dimensions;
    if r in FlatMap(Suites(t, suites), OnTlsSuites(t, d, version)) {
      var suite := FromBlock(Suites(t, suites), OnTlsSuites(t, d, version), r);
      var size := FromBlock(StreamCipherSizes(t, d), TlsPair(d, version, suite), r);
      SuitesAreWanted(t, suites, suite);
      SweepsAreWanted(t, 1024, d.canonicalStream, 16384, d.streamSizes, size);
      PairHas(d, twelve, suite, size, r);
      assert StreamAsked(spec, t, r, twelve, false, suite, size) || StreamAsked(spec, t, r, twelve, true, suite, size);
    }
    if kernel, suite, size :| StreamAsked(spec, t, r, twelve, kernel, suite, size) {
      SuitesAreWanted(t, suites, suite);
      SweepsAreWanted(t, 1024, d.canonicalStream, 16384, d.streamSizes, size);
      PairHas(d, twelve, suite, size, r);
      InBlock(StreamCipherSizes(t, d), TlsPair(d, version, suite), size, r);
      InBlock(Suites(t, suites), OnTlsSuites(t, d, version), suite, r);
    }
  }

  lemma {:induction false} DatagramsWanted(spec: Spec, t: Tier, r: Row)
    ensures r in FlatMap(Suites(t, spec.tls12), OnDtlsSuites(t, spec.dimensions)) <==>
            exists suite, size :: DatagramAsked(spec, t, r, suite, size)
  {
    hide FlatMap, DtlsAt, Suites, SweepRow, WantedSuite, WantedSweep, CipherSizes, SanitizeName;
    var d, suites := spec.dimensions, spec.tls12;
    if r in FlatMap(Suites(t, suites), OnDtlsSuites(t, d)) {
      var suite := FromBlock(Suites(t, suites), OnDtlsSuites(t, d), r);
      var size := FromBlock(DatagramCipherSizes(t, d), DtlsAt(d, suite), r);
      SuitesAreWanted(t, suites, suite);
      SweepsAreWanted(t, 256, d.canonicalDatagram, 1400, d.datagramSizes, size);
      DatagramHas(d, suite, size, r);
      assert DatagramAsked(spec, t, r, suite, size);
    }
    if suite, size :| DatagramAsked(spec, t, r, suite, size) {
      SuitesAreWanted(t, suites, suite);
      SweepsAreWanted(t, 256, d.canonicalDatagram, 1400, d.datagramSizes, size);
      DatagramHas(d, suite, size, r);
      InBlock(DatagramCipherSizes(t, d), DtlsAt(d, suite), size, r);
      InBlock(Suites(t, suites), OnDtlsSuites(t, d), suite, r);
    }
  }

  /** A row of the cipher sweep is there if and only if a wanted suite at a wanted size
      asks for it: over TLS in user space and in the kernel, or over DTLS. */
  lemma {:induction false} CipherRowsWanted(spec: Spec, t: Tier, r: Row)
    ensures r in CipherRows(spec, t) <==>
            || (exists twelve, kernel, suite, size :: StreamAsked(spec, t, r, twelve, kernel, suite, size))
            || (exists suite, size :: DatagramAsked(spec, t, r, suite, size))
  {
    StreamsWanted(spec, t, true, spec.tls12, "1.2", r);
    StreamsWanted(spec, t, false, spec.tls13, "1.3", r);
    DatagramsWanted(spec, t, r);
    hide FlatMap, Suites, OnTlsSuites, OnDtlsSuites, StreamAsked, DatagramAsked;
  }

  /** One of the four handshakes: the server's key, or the group of the key exchange. */
  predicate HandshakeOf(base: string, protocol: Protocol) {
    || (base == "handshake_tls13_ecdsa" && protocol == Auth("ecdsa"))
    || (base == "handshake_tls13_rsa" && protocol == Auth("rsa"))
    || (base == "handshake_kex_x25519" && protocol == Kex("ecdsa", "X25519"))
    || (base == "handshake_kex_p256" && protocol == Kex("ecdsa", "P-256"))
  }

  /** At four connections under its plain name, and at one unless the tier is canonical. */
  predicate HandshakeAsked(t: Tier, r: Row, base: string) {
    && HandshakeOf(base, r.protocol) && r.category.Handshake? && r.source == "handshake" && r.iface == "tcp"
    && r.chain == "scg-direct" && r.size == 64
    && ((r.connections == 4 && r.name == base) || (r.connections == 1 && !t.Canonical? && r.name == base + "_1c"))
  }

  lemma {:induction false} AxisHas(t: Tier, axis: Axis, r: Row)
    requires HandshakeOf(axis.base, axis.protocol)
    ensures r in OnAxes(t)(axis) <==> HandshakeAsked(t, r, axis.base) && r.protocol == axis.protocol
  {
    assert Decimal(1) == "1" && axis.base + "_" + Decimal(1) + "c" == axis.base + "_1c";
    SweptBy(ChurnWidths(t), HandshakeAt(axis), r);
    hide FlatMap, HandshakeOf, Decimal;
    assert forall c :: c in ChurnWidths(t) <==> c == 4 || (c == 1 && !t.Canonical?);
    assert HandshakeAt(axis)(4) == [Row(axis.base, Handshake, "handshake", "tcp", axis.protocol, "scg-direct", 64, 4)];
    assert HandshakeAt(axis)(1) == [Row(axis.base + "_1c", Handshake, "handshake", "tcp", axis.protocol, "scg-direct", 64, 1)];
  }

  lemma {:induction false} AxesAre(a: Axis)
    ensures a in AuthAxes() + KexAxes() <==> HandshakeOf(a.base, a.protocol)
  {
    if HandshakeOf(a.base, a.protocol) {
      assert a == AuthAxes()[0] || a == AuthAxes()[1] || a == KexAxes()[0] || a == KexAxes()[1];
    }
  }

  /** The handshake rows are exactly these. */
  lemma {:induction false} HandshakeRowsWanted(t: Tier, r: Row)
    ensures r in HandshakeRows(t) <==> exists base :: HandshakeAsked(t, r, base)
  {
    var axes := AuthAxes() + KexAxes();
    FlatMapConcat(AuthAxes(), KexAxes(), OnAxes(t));
    hide FlatMap, OnAxes, AuthAxes, KexAxes, HandshakeOf;
    if r in HandshakeRows(t) {
      var a := FromBlock(axes, OnAxes(t), r);
      AxesAre(a);
      AxisHas(t, a, r);
    }
    if base :| HandshakeAsked(t, r, base) {
      var a := Axis(base, r.protocol);
      AxesAre(a);
      AxisHas(t, a, r);
      InBlock(axes, OnAxes(t), a, r);
    }
  }

  predicate BlockedOf(r: Row, l: Limitation) {
    && r.name == "blocked_" + l.name && r.category.Blocked? && r.source == "blocked" && r.iface == l.iface
    && r.protocol == OfLimitation(l.settings) && r.chain == l.chain && r.size == 1024 && r.connections == 1
  }

  /** Every limitation has its blocked row, and there are no others. */
  lemma {:induction false} BlockedRowsWanted(ls: seq<Limitation>, r: Row)
    ensures r in FlatMap(ls, OnLimitations()) <==> exists l :: l in ls && BlockedOf(r, l)
  {
    SweptBy(ls, OnLimitations(), r);
    hide FlatMap;
    forall l: Limitation
      ensures r in OnLimitations()(l) <==> BlockedOf(r, l)
    {}
  }

  // ----- The order of rows -----

  function Rank(r: Row): nat {
    match r.category
    case Throughput => 0
    case Latency => 0
    case Cipher => if r.protocol.Dtls? then 3 else if r.protocol.Tls? && r.protocol.version == "1.3" then 2 else 1
    case Handshake => 4
    case Blocked => 5
  }

  predicate AllRanked(rows: seq<Row>, k: nat) {
    forall i :: 0 <= i < |rows| ==> Rank(rows[i]) == k
  }

  lemma {:induction false} SweepsRanked(spec: Spec, t: Tier)
    ensures var d := spec.dimensions;
            && AllRanked(FlatMap(Suites(t, spec.tls12), OnTlsSuites(t, d, "1.2")), 1)
            && AllRanked(FlatMap(Suites(t, spec.tls13), OnTlsSuites(t, d, "1.3")), 2)
            && AllRanked(FlatMap(Suites(t, spec.tls12), OnDtlsSuites(t, d)), 3)
  {
    var d := spec.dimensions;
    var a, b := FlatMap(Suites(t, spec.tls12), OnTlsSuites(t, d, "1.2")), FlatMap(Suites(t, spec.tls13), OnTlsSuites(t, d, "1.3"));
    var c := FlatMap(Suites(t, spec.tls12), OnDtlsSuites(t, d));
    hide FlatMap, Suites, OnTlsSuites, OnDtlsSuites, WantedSuite, WantedSweep, SanitizeName;
    forall i | 0 <= i < |a|
      ensures Rank(a[i]) == 1
    {
      assert a[i] in a;
      StreamsWanted(spec, t, true, spec.tls12, "1.2", a[i]);
    }
    forall i | 0 <= i < |b|
      ensures Rank(b[i]) == 2
    {
      assert b[i] in b;
      StreamsWanted(spec, t, false, spec.tls13, "1.3", b[i]);
    }
    forall i | 0 <= i < |c|
      ensures Rank(c[i]) == 3
    {
      assert c[i] in c;
      DatagramsWanted(spec, t, c[i]);
    }
  }

  lemma {:induction false} PartsRanked(spec: Spec, t: Tier)
    ensures AllRanked(ProfileRows(spec, t), 0)
    ensures AllRanked(HandshakeRows(t), 4) && AllRanked(FlatMap(spec.limitations, OnLimitations()), 5)
  {
    var a, c, d := ProfileRows(spec, t), HandshakeRows(t), FlatMap(spec.limitations, OnLimitations());
    hide ProfileRows, HandshakeRows, FlatMap, OnLimitations;
    forall i | 0 <= i < |a|
      ensures Rank(a[i]) == 0
    {
      assert a[i] in a;
      ProfileRowsWanted(spec, t, a[i]);
    }
    forall i | 0 <= i < |c|
      ensures Rank(c[i]) == 4
    {
      assert c[i] in c;
      HandshakeRowsWanted(t, c[i]);
    }
    forall i | 0 <= i < |d|
      ensures Rank(d[i]) == 5
    {
      assert d[i] in d;
      BlockedRowsWanted(spec.limitations, d[i]);
    }
  }

  /** Profile rows come first, then the stream suites of one version and the other, the
      datagram suites, the handshakes and the blocked rows. */
  lemma {:induction false} TierOrder(spec: Spec, t: Tier, i: nat, j: nat)
    requires i < j < |TierRows(spec, t)|
    ensures Rank(TierRows(spec, t)[i]) <= Rank(TierRows(spec, t)[j])
  {
    ProfileRowsIs(spec, t);
    PartsRanked(spec, t);
    SweepsRanked(spec, t);
    hide ProfileRows, HandshakeRows, FlatMap, Rank, Suites, OnTlsSuites, OnDtlsSuites, OnLimitations;
    var d := spec.dimensions;
    var a, e, f := ProfileRows(spec, t), HandshakeRows(t), FlatMap(spec.limitations, OnLimitations());
    var b, b' := FlatMap(Suites(t, spec.tls12), OnTlsSuites(t, d, "1.2")), FlatMap(Suites(t, spec.tls13), OnTlsSuites(t, d, "1.3"));
    var c := FlatMap(Suites(t, spec.tls12), OnDtlsSuites(t, d));
    assert TierRows(spec, t) == a + (b + b' + c) + e + f;
  }

  /** A tier has these rows and no others. */
  lemma {:induction false} TierRowsWanted(spec: Spec, t: Tier, r: Row)
    ensures r in TierRows(spec, t) <==>
            || (exists cell :: Asks(spec, t, cell, r))
            || (exists twelve, kernel, suite, size :: StreamAsked(spec, t, r, twelve, kernel, suite, size))
            || (exists suite, size :: DatagramAsked(spec, t, r, suite, size))
            || (exists base :: HandshakeAsked(t, r, base))
            || (exists l :: l in spec.limitations && BlockedOf(r, l))
  {
    ProfileRowsIs(spec, t);
    ProfileRowsWanted(spec, t, r);
    CipherRowsWanted(spec, t, r);
    HandshakeRowsWanted(t, r);
    BlockedRowsWanted(spec.limitations, r);
    hide ProfileRows, CipherRows, HandshakeRows, FlatMap, OnLimitations, Asks, StreamAsked, DatagramAsked, HandshakeAsked, BlockedOf;
  }
}
