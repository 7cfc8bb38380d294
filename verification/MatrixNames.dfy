/** When the rows of a tier have names of their own: the exact condition on the spec
    under which the expansion succeeds. */
module MatrixNames {
  import opened Wrappers
  import opened Text
  import opened Matrix

  // ----- When profile rows collide -----

  /** Every profile row is named alike; a latency row as if its profile's id began
      with `lat_`. */
  function FullName(id: string, i: string, size: nat, short: string, c: nat): string {
    "matrix_" + id + "_" + i + "_" + SizeLabel(size) + "_" + short + "_" + Width(c)
  }

  function Width(c: nat): string {
    Decimal(c) + "c"
  }

  function IdInName(r: Row): string {
    if r.category.Latency? then "lat_" + r.source else r.source
  }

  /** The row is named by its own coordinates, and no separator hides in them. */
  predicate WellNamed(r: Row) {
    && r.name == FullName(IdInName(r), r.iface, r.size, ShortChain(r.chain), r.connections)
    && '_' !in r.iface && '_' !in ShortChain(r.chain) && (r.category.Throughput? || r.category.Latency?)
  }

  predicate SameCell(a: Row, b: Row) {
    && a.category == b.category && a.source == b.source && a.iface == b.iface && a.size == b.size
    && ShortChain(a.chain) == ShortChain(b.chain) && a.connections == b.connections
  }

  /** A throughput row under the name of another profile's latency row. */
  predicate Clash(a: Row, b: Row) {
    && a.category.Throughput? && b.category.Latency? && a.source == "lat_" + b.source && a.iface == b.iface
    && a.size == b.size && ShortChain(a.chain) == ShortChain(b.chain) && a.connections == b.connections
  }

  lemma {:induction false} NoLaterUnderscore(x: string, a: string, y: string, b: string)
    requires '_' !in b && x + "_" + a == y + "_" + b
    ensures |x| <= |y|
  {
    var u, v := x + "_" + a, y + "_" + b;
    assert u[|x|] == '_';
    assert forall k :: |y| < k < |v| ==> v[k] == b[k - |y| - 1];
    assert forall k :: |y| < k < |v| ==> v[k] != '_';
  }

  /** Text from the last underscore on settles where the last field begins. */
  lemma {:induction false} SplitAtLast(x: string, a: string, y: string, b: string)
    requires '_' !in a && '_' !in b && x + "_" + a == y + "_" + b
    ensures x == y && a == b
  {
    var u, v := x + "_" + a, y + "_" + b;
    NoLaterUnderscore(x, a, y, b);
    NoLaterUnderscore(y, b, x, a);
    assert u[..|x|] == x && v[..|y|] == y;
    assert u[|x| + 1..] == a && v[|y| + 1..] == b;
  }

  lemma {:induction false} WidthInjective(c1: nat, c2: nat)
    ensures '_' !in Width(c1)
    ensures Width(c1) == Width(c2) ==> c1 == c2
  {
    DecimalHasNo(c1, '_');
    assert Width(c1)[..|Width(c1)| - 1] == Decimal(c1) && Width(c2)[..|Width(c2)| - 1] == Decimal(c2);
    if Width(c1) == Width(c2) {
      DecimalInjective(c1, c2);
    }
  }

  lemma {:induction false} FullNameInjective(id1: string, i1: string, s1: nat, k1: string, c1: nat,
                          id2: string, i2: string, s2: nat, k2: string, c2: nat)
    requires '_' !in i1 && '_' !in i2 && '_' !in k1 && '_' !in k2
    requires FullName(id1, i1, s1, k1, c1) == FullName(id2, i2, s2, k2, c2)
    ensures id1 == id2 && i1 == i2 && s1 == s2 && k1 == k2 && c1 == c2
  {
    hide SizeLabel, Width;
    var a1, a2 := "matrix_" + id1, "matrix_" + id2;
    var b1, b2 := a1 + "_" + i1, a2 + "_" + i2;
    var l1, l2 := b1 + "_" + SizeLabel(s1), b2 + "_" + SizeLabel(s2);
    var w1, w2 := l1 + "_" + k1, l2 + "_" + k2;
    WidthInjective(c1, c2);
    WidthInjective(c2, c1);
    SplitAtLast(w1, Width(c1), w2, Width(c2));
    SplitAtLast(l1, k1, l2, k2);
    LabelHasNoUnderscore(s1);
    LabelHasNoUnderscore(s2);
    SplitAtLast(b1, SizeLabel(s1), b2, SizeLabel(s2));
    SizeLabelInjective(s1, s2);
    SplitAtLast(a1, i1, a2, i2);
    CancelHead("matrix_", id1, id2);
  }

  /** Two profile rows share a name exactly when they are the same cell, or one is the
      latency row of `p` and the other a row of a profile called `lat_p`. */
  lemma {:induction false} SharedName(a: Row, b: Row)
    requires WellNamed(a) && WellNamed(b)
    ensures a.name == b.name <==> SameCell(a, b) || Clash(a, b) || Clash(b, a)
  {
    hide FullName, ShortChain;
    if a.name == b.name {
      FullNameInjective(IdInName(a), a.iface, a.size, ShortChain(a.chain), a.connections,
                        IdInName(b), b.iface, b.size, ShortChain(b.chain), b.connections);
      if a.category == b.category && a.category.Latency? {
        CancelHead("lat_", a.source, b.source);
      }
    }
  }

  lemma {:induction false} DirectIsShort()
    ensures ShortChain(DIRECT()) == "direct" && Width(1) == "1c"
  {
    assert DIRECT()[4..] == "direct";
    PlainChain("direct");
    assert Decimal(1) == "1";
  }

  /** A chain without `scg-` is already short. */
  lemma {:induction false} PlainChain(chain: string)
    requires 's' !in chain
    ensures ShortChain(chain) == chain
  {
    if chain != "" {
      assert chain[0] in chain && chain == [chain[0]] + chain[1..];
      PlainChain(chain[1..]);
    }
  }

  lemma {:induction false} RowsAreNamed(p: Profile, i: string, chain: string, size: nat, c: nat)
    ensures RowName(p, i, chain, size, c) == FullName(p.id, i, size, ShortChain(chain), c)
    ensures LatencyName(p, i, size) == FullName("lat_" + p.id, i, size, ShortChain(DIRECT()), 1)
  {
    DirectIsShort();
    hide ShortChain, SizeLabel, DIRECT;
    var head, mid := "matrix_" + p.id + "_" + i + "_", SizeLabel(size);
    assert head + (mid + "_" + (ShortChain(chain) + "_" + Width(c))) == head + mid + "_" + ShortChain(chain) + "_" + Width(c);
    assert "matrix_lat_" + p.id == "matrix_" + ("lat_" + p.id);
    var latency := "matrix_lat_" + p.id + "_" + i + "_" + mid;
    assert latency + "_direct_1c" == latency + "_" + "direct" + "_" + "1c";
  }

  /** Coordinates a name can be taken apart into: no separators inside interfaces and
      short chains, and nothing listed twice. */
  predicate Plain(spec: Spec, t: Tier, p: Profile) {
    && (forall i :: i in p.interfaces ==> '_' !in i) && (forall chain :: chain in p.chains ==> '_' !in ShortChain(chain))
    && NoRepeats(p.interfaces) && NoRepeats(Sizes(t, p, spec.dimensions)) && NoRepeats(Ladder(t, p, spec.dimensions))
    && (forall k, l :: 0 <= k < l < |p.chains| ==> ShortChain(p.chains[k]) != ShortChain(p.chains[l]))
  }

  predicate PlainSpec(spec: Spec, t: Tier) {
    && (forall p :: p in spec.profiles && Eligible(t, p) ==> Plain(spec, t, p))
    && (forall k, l :: 0 <= k < l < |spec.profiles| && Eligible(t, spec.profiles[k]) && Eligible(t, spec.profiles[l]) ==>
          spec.profiles[k].id != spec.profiles[l].id)
  }

  /** A profile called `lat_p` runs one connection on the direct chain where `p` has a latency row. */
  ghost predicate LatencyClash(spec: Spec, t: Tier) {
    exists a, b :: Compatible(spec, t, a) && Measurable(spec, t, b) && TakesName(a, b)
  }

  predicate TakesName(a: Cell, b: Cell) {
    && a.p.id == "lat_" + b.p.id && a.iface == b.iface && a.size == b.size
    && ShortChain(a.chain) == ShortChain(DIRECT()) && a.c == 1
  }

  predicate Apart(rows: seq<Row>) {
    forall i, j :: 0 <= i < j < |rows| ==> !SameCell(rows[i], rows[j])
  }

  ghost predicate BlocksApart<T(!new)>(xs: seq<T>, f: T -> seq<Row>) {
    && (forall k :: 0 <= k < |xs| ==> Apart(f(xs[k])))
    && (forall k, l, a, b :: 0 <= k < l < |xs| && a in f(xs[k]) && b in f(xs[l]) ==> !SameCell(a, b))
  }

  lemma {:induction false} FlatMapApart<T(!new)>(xs: seq<T>, f: T -> seq<Row>)
    requires BlocksApart(xs, f)
    ensures Apart(FlatMap(xs, f))
  {
    hide SameCell;
    if xs != [] {
      var n := |xs| - 1;
      FlatMapApart(xs[..n], f);
      var before, block := FlatMap(xs[..n], f), f(xs[n]);
      forall i, j | 0 <= i < |before| && 0 <= j < |block|
        ensures !SameCell(before[i], block[j])
      {
        var x := FromBlock(xs[..n], f, before[i]);
        var k :| 0 <= k < n && xs[k] == x;
        assert before[i] in f(xs[k]) && block[j] in f(xs[n]);
      }
      ConcatApart(before, block);
    }
  }

  lemma {:induction false} ConcatApart(a: seq<Row>, b: seq<Row>)
    requires Apart(a) && Apart(b) && forall i, j :: 0 <= i < |a| && 0 <= j < |b| ==> !SameCell(a[i], b[j])
    ensures Apart(a + b)
  {
    hide SameCell;
  }

  lemma {:induction false} SizeBlockApart(spec: Spec, t: Tier, p: Profile, i: string, chain: string, size: nat)
    requires NoRepeats(Ladder(t, p, spec.dimensions))
    ensures Apart(SizeBlock(spec, t, p, i, chain, size))
    ensures forall r :: r in SizeBlock(spec, t, p, i, chain, size) ==>
              r.source == p.id && r.iface == i && r.chain == chain && r.size == size
  {
    var widths, f := Ladder(t, p, spec.dimensions), OnConns(p, i, chain, size);
    hide FlatMap, Ladder, RowName, LatencyName, DIRECT, ShortChain;
    forall r | r in FlatMap(widths, f)
      ensures r.category.Throughput? && r.source == p.id && r.iface == i && r.chain == chain && r.size == size
    {
      var c := FromBlock(widths, f, r);
    }
    FlatMapApart(widths, f);
  }

  lemma {:induction false} SizesApart(spec: Spec, t: Tier, p: Profile, i: string, chain: string)
    requires Plain(spec, t, p)
    ensures Apart(OnChains(spec, t, p, i)(chain))
    ensures forall r :: r in OnChains(spec, t, p, i)(chain) ==> r.source == p.id && r.iface == i && r.chain == chain
  {
    var sizes, f := Sizes(t, p, spec.dimensions), OnSizes(spec, t, p, i, chain);
    hide FlatMap, Ladder, Sizes, SizeBlock, ShortChain;
    forall size: nat
      ensures Apart(f(size))
      ensures forall r :: r in f(size) ==> r.source == p.id && r.iface == i && r.chain == chain && r.size == size
    {
      SizeBlockApart(spec, t, p, i, chain, size);
    }
    FlatMapApart(sizes, f);
    forall r | r in FlatMap(sizes, f)
      ensures r.source == p.id && r.iface == i && r.chain == chain
    {
      var size := FromBlock(sizes, f, r);
    }
  }

  lemma {:induction false} ChainsApart(spec: Spec, t: Tier, p: Profile, i: string)
    requires Plain(spec, t, p)
    ensures Apart(OnInterfaces(spec, t, p)(i))
    ensures forall r :: r in OnInterfaces(spec, t, p)(i) ==> r.source == p.id && r.iface == i && r.chain in p.chains
  {
    var f := OnChains(spec, t, p, i);
    forall chain
      ensures Apart(f(chain)) && forall r :: r in f(chain) ==> r.source == p.id && r.iface == i && r.chain == chain
    {
      SizesApart(spec, t, p, i, chain);
    }
    hide FlatMap, Ladder, Sizes, OnChains, ShortChain;
    FlatMapApart(p.chains, f);
    forall r | r in FlatMap(p.chains, f)
      ensures r.source == p.id && r.iface == i && r.chain in p.chains
    {
      var chain := FromBlock(p.chains, f, r);
    }
  }

  lemma {:induction false} InterfacesApart(spec: Spec, t: Tier, p: Profile)
    requires Eligible(t, p) ==> Plain(spec, t, p)
    ensures Apart(OnProfiles(spec, t)(p))
    ensures forall r :: r in OnProfiles(spec, t)(p) ==> r.source == p.id && Eligible(t, p)
  {
    if Eligible(t, p) {
      var f := OnInterfaces(spec, t, p);
      forall i
        ensures Apart(f(i)) && forall r :: r in f(i) ==> r.source == p.id && r.iface == i
      {
        ChainsApart(spec, t, p, i);
      }
      FlatMapApart(p.interfaces, f);
      forall r | r in FlatMap(p.interfaces, f)
        ensures r.source == p.id
      {
        var i := FromBlock(p.interfaces, f, r);
      }
    }
  }

  lemma {:induction false} ProfilesApart(spec: Spec, t: Tier)
    requires PlainSpec(spec, t)
    ensures Apart(ProfileRows(spec, t))
  {
    ProfileRowsIs(spec, t);
    hide OnProfiles, FlatMap, ProfileRows;
    ProfileBlocksApart(spec, t);
    FlatMapApart(spec.profiles, OnProfiles(spec, t));
  }

  lemma {:induction false} ProfileBlocksApart(spec: Spec, t: Tier)
    requires PlainSpec(spec, t)
    ensures BlocksApart(spec.profiles, OnProfiles(spec, t))
  {
    var f := OnProfiles(spec, t);
    hide OnProfiles, Plain, Eligible;
    forall k | 0 <= k < |spec.profiles|
      ensures Apart(f(spec.profiles[k]))
      ensures forall r :: r in f(spec.profiles[k]) ==> r.source == spec.profiles[k].id && Eligible(t, spec.profiles[k])
    {
      assert spec.profiles[k] in spec.profiles;
      InterfacesApart(spec, t, spec.profiles[k]);
    }
    hide Apart;
  }

  lemma {:induction false} CellsAreNamed(spec: Spec, t: Tier, cell: Cell)
    requires PlainSpec(spec, t) && OnGrid(spec, t, cell)
    ensures WellNamed(RowOf(cell)) && (Measurable(spec, t, cell) ==> WellNamed(LatencyRowOf(cell)))
  {
    RowsAreNamed(cell.p, cell.iface, cell.chain, cell.size, cell.c);
    hide FullName, RowName, LatencyName, ShortChain, Sizes, Ladder;
  }

  lemma {:induction false} RowsAreWellNamed(spec: Spec, t: Tier, r: Row) returns (cell: Cell)
    requires PlainSpec(spec, t) && r in ProfileRows(spec, t)
    ensures WellNamed(r)
    ensures (Compatible(spec, t, cell) && r == RowOf(cell)) || (Measurable(spec, t, cell) && r == LatencyRowOf(cell))
  {
    hide PlainSpec, WellNamed, RowOf, LatencyRowOf, ProfileRows;
    cell := RowHasCell(spec, t, r);
    CellsAreNamed(spec, t, cell);
  }

  lemma {:induction false} KindsOfRows(cell: Cell)
    ensures RowOf(cell).category.Throughput? && LatencyRowOf(cell).category.Latency?
  {}

  lemma {:induction false} ClashTakesName(a: Cell, b: Cell)
    requires Clash(RowOf(a), LatencyRowOf(b))
    ensures TakesName(a, b)
  {
    hide RowName, LatencyName, ShortChain, DIRECT;
  }

  lemma {:induction false} ClashOfCells(spec: Spec, t: Tier, a: Row, b: Row)
    requires PlainSpec(spec, t) && a in ProfileRows(spec, t) && b in ProfileRows(spec, t) && Clash(a, b)
    ensures LatencyClash(spec, t)
  {
    hide PlainSpec, ProfileRows, Compatible, Measurable, RowOf, LatencyRowOf, WellNamed, TakesName;
    var x := RowsAreWellNamed(spec, t, a);
    var y := RowsAreWellNamed(spec, t, b);
    KindsOfRows(x);
    KindsOfRows(y);
    ClashTakesName(x, y);
  }

  lemma {:induction false} CellsClash(spec: Spec, t: Tier, a: Cell, b: Cell)
    requires Compatible(spec, t, a) && Measurable(spec, t, b) && TakesName(a, b)
    ensures !DistinctNames(ProfileRows(spec, t))
  {
    CellIsCovered(spec, t, a);
    CellIsCovered(spec, t, b);
    RowsAreNamed(a.p, a.iface, a.chain, a.size, a.c);
    RowsAreNamed(b.p, b.iface, b.chain, b.size, b.c);
    hide ProfileRows, Compatible, Measurable, RowName, LatencyName, FullName, ShortChain, DIRECT;
    var x, y := RowOf(a), LatencyRowOf(b);
    assert x.name == y.name && x.category != y.category;
    assert x in ProfileRows(spec, t) && y in ProfileRows(spec, t);
  }

  /** Plain coordinates and distinct ids: the profile rows have names of their own
      exactly when no profile takes the name of another's latency row. */
  lemma {:induction false} ProfileNamesDistinct(spec: Spec, t: Tier)
    requires PlainSpec(spec, t)
    ensures DistinctNames(ProfileRows(spec, t)) <==> !LatencyClash(spec, t)
  {
    hide PlainSpec, ProfileRows, SameCell, Clash, WellNamed, Compatible, Measurable, TakesName;
    var rows := ProfileRows(spec, t);
    if a, b :| Compatible(spec, t, a) && Measurable(spec, t, b) && TakesName(a, b) {
      CellsClash(spec, t, a, b);
    } else {
      ProfilesApart(spec, t);
      forall i, j | 0 <= i < j < |rows|
        ensures rows[i].name != rows[j].name
      {
        assert rows[i] in rows && rows[j] in rows;
        var x := RowsAreWellNamed(spec, t, rows[i]);
        var y := RowsAreWellNamed(spec, t, rows[j]);
        SharedName(rows[i], rows[j]);
        if Clash(rows[i], rows[j]) {
          ClashOfCells(spec, t, rows[i], rows[j]);
        } else if Clash(rows[j], rows[i]) {
          ClashOfCells(spec, t, rows[j], rows[i]);
        }
      }
    }
  }

  /** The cell of the profile whose id is the latency prefix and `b`'s. */
  function Renamed(b: Cell): Cell {
    Cell(b.p.(id := "lat_" + b.p.id), b.iface, DIRECT(), b.size, 1)
  }

  lemma {:induction false} RenamedCell(spec: Spec, t: Tier, b: Cell)
    requires Measurable(spec, t, b) && 1 in Ladder(t, b.p, spec.dimensions)
    requires Renamed(b).p in spec.profiles
    ensures Compatible(spec, t, Renamed(b)) && TakesName(Renamed(b), b)
  {
    hide ShortChain;
  }

  /** Distinct ids are not enough: beside any profile with a latency row and one
      connection on its ladder, a copy of it called `lat_` and its id makes the whole
      expansion fail. */
  lemma {:induction false} LatencyNameTaken(spec: Spec, t: Tier, b: Cell)
    requires Measurable(spec, t, b) && 1 in Ladder(t, b.p, spec.dimensions)
    requires Renamed(b).p in spec.profiles
    ensures Emit([], TierRows(spec, t)).Duplicate?
  {
    RenamedCell(spec, t, b);
    hide *;
    CellsClash(spec, t, Renamed(b), b);
    TierIs(spec, t);
    FrontFails(ProfileRows(spec, t), CipherRows(spec, t) + HandshakeRows(t) + FlatMap(spec.limitations, OnLimitations()));
  }

  lemma {:induction false} FrontFails(rows: seq<Row>, rest: seq<Row>)
    requires !DistinctNames(rows)
    ensures Emit([], rows + rest).Duplicate?
  {
    ExpansionMeaning(rows);
    EmitConcat([], rows, rest);
  }

  lemma {:induction false} TierIs(spec: Spec, t: Tier)
    ensures TierRows(spec, t) ==
            ProfileRows(spec, t) + (CipherRows(spec, t) + HandshakeRows(t) + FlatMap(spec.limitations, OnLimitations()))
  {
    ProfileRowsIs(spec, t);
    hide ProfileRows, CipherRows, HandshakeRows, FlatMap;
    var a, b, c, d := ProfileRows(spec, t), CipherRows(spec, t), HandshakeRows(t), FlatMap(spec.limitations, OnLimitations());
    assert a + b + c + d == a + (b + c + d);
  }

  // ----- Distinct names, block by block -----

  predicate NamesApart(a: seq<Row>, b: seq<Row>) {
    forall i, j :: 0 <= i < |a| && 0 <= j < |b| ==> a[i].name != b[j].name
  }

  lemma {:induction false} ConcatNames(a: seq<Row>, b: seq<Row>)
    ensures DistinctNames(a + b) <==> DistinctNames(a) && DistinctNames(b) && NamesApart(a, b)
  {
    var all := a + b;
    if DistinctNames(all) {
      assert forall i :: 0 <= i < |a| ==> a[i] == all[i];
      assert forall j :: 0 <= j < |b| ==> b[j] == all[|a| + j];
    }
  }

  ghost predicate BlockNames<T(!new)>(xs: seq<T>, f: T -> seq<Row>) {
    && (forall k :: 0 <= k < |xs| ==> DistinctNames(f(xs[k])))
    && (forall k, l :: 0 <= k < l < |xs| ==> NamesApart(f(xs[k]), f(xs[l])))
  }

  lemma {:induction false} BlockNamesSnoc<T(!new)>(xs: seq<T>, f: T -> seq<Row>)
    requires xs != []
    ensures var n := |xs| - 1;
            BlockNames(xs, f) <==>
            BlockNames(xs[..n], f) && DistinctNames(f(xs[n])) && forall k :: 0 <= k < n ==> NamesApart(f(xs[k]), f(xs[n]))
  {
    hide DistinctNames, NamesApart;
    var n := |xs| - 1;
    assert forall k :: 0 <= k < n ==> xs[..n][k] == xs[k];
  }

  lemma {:induction false} BeforeApart<T(!new)>(xs: seq<T>, f: T -> seq<Row>, b: seq<Row>)
    ensures NamesApart(FlatMap(xs, f), b) <==> forall k :: 0 <= k < |xs| ==> NamesApart(f(xs[k]), b)
  {
    if xs != [] {
      var n := |xs| - 1;
      BeforeApart(xs[..n], f, b);
      ConcatApartFrom(FlatMap(xs[..n], f), f(xs[n]), b);
      hide NamesApart, FlatMap;
      assert forall k :: 0 <= k < n ==> xs[..n][k] == xs[k];
    }
  }

  lemma {:induction false} ConcatApartFrom(a: seq<Row>, b: seq<Row>, c: seq<Row>)
    ensures NamesApart(a + b, c) <==> NamesApart(a, c) && NamesApart(b, c)
  {
    var all := a + b;
    assert forall i :: 0 <= i < |a| ==> a[i] == all[i];
    assert forall j :: 0 <= j < |b| ==> b[j] == all[|a| + j];
  }

  /** Rows emitted block by block have distinct names exactly when each block does and
      no two blocks share one. */
  lemma {:induction false} FlatMapNames<T(!new)>(xs: seq<T>, f: T -> seq<Row>)
    ensures DistinctNames(FlatMap(xs, f)) <==> BlockNames(xs, f)
  {
    if xs != [] {
      var n := |xs| - 1;
      FlatMapNames(xs[..n], f);
      ConcatNames(FlatMap(xs[..n], f), f(xs[n]));
      BeforeApart(xs[..n], f, f(xs[n]));
      BlockNamesSnoc(xs, f);
      hide NamesApart, DistinctNames, BlockNames, FlatMap;
      assert forall k :: 0 <= k < n ==> xs[..n][k] == xs[k];
    }
  }

  /** Every name begins with one of the heads. */
  ghost predicate Headed(rows: seq<Row>, heads: seq<string>) {
    forall r :: r in rows ==> exists h :: h in heads && h <= r.name
  }

  /** No head of one begins a head of the other. */
  predicate HeadsApart(a: seq<string>, b: seq<string>) {
    forall h, g :: h in a && g in b ==> !(h <= g) && !(g <= h)
  }

  lemma {:induction false} HeadedApart(a: seq<Row>, heads: seq<string>, b: seq<Row>, others: seq<string>)
    requires Headed(a, heads) && Headed(b, others) && HeadsApart(heads, others)
    ensures NamesApart(a, b)
  {
    forall i, j | 0 <= i < |a| && 0 <= j < |b|
      ensures a[i].name != b[j].name
    {
      assert a[i] in a && b[j] in b;
      var h :| h in heads && h <= a[i].name;
      var g :| g in others && g <= b[j].name;
      if a[i].name == b[j].name {
        PrefixesMeet(h, g, a[i].name);
      }
    }
  }

  lemma {:induction false} PrefixesMeet(h: string, g: string, name: string)
    requires h <= name && g <= name
    ensures h <= g || g <= h
  {
    assert h == name[..|h|] && g == name[..|g|];
  }

  lemma {:induction false} FlatMapHeaded<T(!new)>(xs: seq<T>, f: T -> seq<Row>, heads: seq<string>)
    requires forall x :: x in xs ==> Headed(f(x), heads)
    ensures Headed(FlatMap(xs, f), heads)
  {
    forall r | r in FlatMap(xs, f)
      ensures exists h :: h in heads && h <= r.name
    {
      var x := FromBlock(xs, f, r);
      assert Headed(f(x), heads);
    }
  }

  // ----- The cipher sweep -----

  function SanitizedNames(suites: seq<string>): (names: seq<string>)
    ensures |names| == |suites|
  {
    seq(|suites|, i requires 0 <= i < |suites| => SanitizeName(suites[i]))
  }

  /** A suite's name at one size; the canonical size goes without saying. */
  function SizedName(name: string, size: nat, canonical: nat): string {
    if size == canonical then name else name + "_" + (Decimal(size) + "B")
  }

  lemma {:induction false} CipherRowName(name: string, i: string, protocol: Protocol, size: nat, canonical: nat)
    ensures CipherRow(name, i, protocol, size, canonical).name == SizedName(name, size, canonical)
  {
    assert name + "_" + Decimal(size) + "B" == name + "_" + (Decimal(size) + "B");
  }

  lemma {:induction false} TrimKeepsOut(s: string, c: char)
    requires c !in s
    ensures c !in TrimUnderscores(s)
  {
    if s != "" && s[0] == '_' {
      TrimKeepsOut(s[1..], c);
    } else if s != "" && s[|s| - 1] == '_' {
      TrimKeepsOut(s[..|s| - 1], c);
    }
  }

  lemma {:induction false} SanitizedIsLower(suite: string)
    ensures 'B' !in SanitizeName(suite)
  {
    var s := seq(|suite|, i requires 0 <= i < |suite| => if IsAlphanumeric(suite[i]) then Lower(suite[i]) else '_');
    assert forall i :: 0 <= i < |s| ==> s[i] != 'B';
    TrimKeepsOut(s, 'B');
  }

  /** Under one heading, sized names tell suites and sizes apart. */
  lemma {:induction false} SizedNames(head: string, x: string, s1: nat, y: string, s2: nat, canonical: nat)
    requires 'B' !in head && 'B' !in x && 'B' !in y
    ensures SizedName(head + x, s1, canonical) == SizedName(head + y, s2, canonical) <==> x == y && s1 == s2
  {
    var a, b := SizedName(head + x, s1, canonical), SizedName(head + y, s2, canonical);
    if a == b {
      SizedNameEnds(head + x, s1, canonical);
      SizedNameEnds(head + y, s2, canonical);
      if s1 != canonical {
        DecimalHasNo(s1, '_');
        DecimalHasNo(s2, '_');
        SplitAtLast(head + x, Decimal(s1) + "B", head + y, Decimal(s2) + "B");
        assert (Decimal(s1) + "B")[..|Decimal(s1)|] == Decimal(s1) && (Decimal(s2) + "B")[..|Decimal(s2)|] == Decimal(s2);
        DecimalInjective(s1, s2);
      }
      CancelHead(head, x, y);
    }
  }

  lemma {:induction false} SizedNameEnds(name: string, size: nat, canonical: nat)
    requires 'B' !in name
    ensures 'B' in SizedName(name, size, canonical) <==> size != canonical
  {
    if size != canonical {
      var s := SizedName(name, size, canonical);
      assert s[|s| - 1] == 'B';
    }
  }

  function TlsHead(version: string, kernel: bool): string {
    if kernel then "cipher_ktls" + Short(version) + "_" else "cipher_tls" + Short(version) + "_"
  }

  lemma {:induction false} TlsPairNames(d: Dimensions, version: string, suite: string, size: nat)
    ensures var rows := TlsPair(d, version, suite)(size);
            && |rows| == 2
            && rows[0].name == SizedName(TlsHead(version, false) + SanitizeName(suite), size, d.canonicalStream)
            && rows[1].name == SizedName(TlsHead(version, true) + SanitizeName(suite), size, d.canonicalStream)
  {
    CipherRowName(TlsHead(version, false) + SanitizeName(suite), "tcp", Tls(version, false, suite), size, d.canonicalStream);
    CipherRowName(TlsHead(version, true) + SanitizeName(suite), "tcp", Tls(version, true, suite), size, d.canonicalStream);
    hide SanitizeName, SizedName;
  }

  lemma {:induction false} UserOrKernel(version: string, x: string, s1: nat, y: string, s2: nat, canonical: nat)
    ensures SizedName(TlsHead(version, false) + x, s1, canonical) != SizedName(TlsHead(version, true) + y, s2, canonical)
  {
    var a, b := SizedName(TlsHead(version, false) + x, s1, canonical), SizedName(TlsHead(version, true) + y, s2, canonical);
    assert a[7] == 't' && b[7] == 'k';
  }

  lemma {:induction false} HeadIsPlain(version: string, kernel: bool)
    ensures 'B' !in TlsHead(version, kernel)
  {}

  /** Two pairs of rows share a name exactly when suite and size agree. */
  lemma {:induction false} PairsApart(d: Dimensions, version: string, x: string, s1: nat, y: string, s2: nat)
    ensures DistinctNames(TlsPair(d, version, x)(s1))
    ensures NamesApart(TlsPair(d, version, x)(s1), TlsPair(d, version, y)(s2)) <==> SanitizeName(x) != SanitizeName(y) || s1 != s2
  {
    var a, b, c := SanitizeName(x), SanitizeName(y), d.canonicalStream;
    TlsPairNames(d, version, x, s1);
    TlsPairNames(d, version, y, s2);
    SanitizedIsLower(x);
    SanitizedIsLower(y);
    HeadIsPlain(version, false);
    HeadIsPlain(version, true);
    hide TlsPair, SanitizeName, SizedName, TlsHead;
    SizedNames(TlsHead(version, false), a, s1, b, s2, c);
    SizedNames(TlsHead(version, true), a, s1, b, s2, c);
    UserOrKernel(version, a, s1, b, s2, c);
    UserOrKernel(version, b, s2, a, s1, c);
    UserOrKernel(version, a, s1, a, s1, c);
  }

  lemma {:induction false} ApartSymmetric(a: seq<Row>, b: seq<Row>)
    ensures NamesApart(a, b) <==> NamesApart(b, a)
  {}

  lemma {:induction false} DtlsRowsApart(d: Dimensions, x: string, s1: nat, y: string, s2: nat)
    ensures DistinctNames(DtlsAt(d, x)(s1))
    ensures NamesApart(DtlsAt(d, x)(s1), DtlsAt(d, y)(s2)) <==> SanitizeName(x) != SanitizeName(y) || s1 != s2
  {
    var head, c := "cipher_dtls12_", d.canonicalDatagram;
    CipherRowName(head + SanitizeName(x), "udp", Dtls(x), s1, c);
    CipherRowName(head + SanitizeName(y), "udp", Dtls(y), s2, c);
    SanitizedIsLower(x);
    SanitizedIsLower(y);
    assert 'B' !in head;
    SizedNames(head, SanitizeName(x), s1, SanitizeName(y), s2, c);
    var a, b := DtlsAt(d, x)(s1), DtlsAt(d, y)(s2);
    assert |a| == |b| == 1 && a[0].name == SizedName(head + SanitizeName(x), s1, c);
    assert b[0].name == SizedName(head + SanitizeName(y), s2, c);
    hide SanitizeName, SizedName, DtlsAt;
  }

  /** Rows of a suite at a size, apart from all rows of other suites and other sizes. */
  ghost predicate Labelled(at: string -> nat -> seq<Row>) {
    && (forall x, s: nat :: DistinctNames(at(x)(s)))
    && (forall x, s1: nat, y, s2: nat :: NamesApart(at(x)(s1), at(y)(s2)) <==> SanitizeName(x) != SanitizeName(y) || s1 != s2)
  }

  /** One suite's rows are distinct exactly when no size is listed twice. */
  lemma {:induction false} SuiteNames(at: string -> nat -> seq<Row>, suite: string, sizes: seq<nat>)
    requires Labelled(at)
    ensures DistinctNames(FlatMap(sizes, at(suite))) <==> NoRepeats(sizes)
  {
    FlatMapNames(sizes, at(suite));
    assert forall k, l :: 0 <= k < l < |sizes| ==>
        (NamesApart(at(suite)(sizes[k]), at(suite)(sizes[l])) <==> sizes[k] != sizes[l]);
    hide NamesApart, DistinctNames, FlatMap, Labelled, SanitizeName;
  }

  /** Two suites' rows share a name exactly when their sanitized names agree. */
  lemma {:induction false} SuitesApart(at: string -> nat -> seq<Row>, x: string, y: string, sizes: seq<nat>)
    requires Labelled(at) && sizes != []
    ensures NamesApart(FlatMap(sizes, at(x)), FlatMap(sizes, at(y))) <==> SanitizeName(x) != SanitizeName(y)
  {
    hide NamesApart, FlatMap, SanitizeName;
    BeforeApart(sizes, at(x), FlatMap(sizes, at(y)));
    forall k | 0 <= k < |sizes|
      ensures NamesApart(at(x)(sizes[k]), FlatMap(sizes, at(y))) <==> SanitizeName(x) != SanitizeName(y)
    {
      OneSizeApart(at, x, sizes[k], y, sizes);
    }
    assert NamesApart(at(x)(sizes[0]), FlatMap(sizes, at(y))) <==> SanitizeName(x) != SanitizeName(y);
  }

  lemma {:induction false} OneSizeApart(at: string -> nat -> seq<Row>, x: string, size: nat, y: string, sizes: seq<nat>)
    requires Labelled(at) && size in sizes
    ensures NamesApart(at(x)(size), FlatMap(sizes, at(y))) <==> SanitizeName(x) != SanitizeName(y)
  {
    ApartSymmetric(at(x)(size), FlatMap(sizes, at(y)));
    BeforeApart(sizes, at(y), at(x)(size));
    hide NamesApart, FlatMap, SanitizeName;
    var k :| 0 <= k < |sizes| && sizes[k] == size;
    assert NamesApart(at(y)(sizes[k]), at(x)(size)) <==> SanitizeName(y) != SanitizeName(x);
  }

  /** A sweep of suites over sizes has distinct names exactly when the sanitized suite
      names differ and, with any suite, no size is listed twice. */
  lemma {:induction false} SweepNames(
    at: string -> nat -> seq<Row>, f: string -> seq<Row>, suites: seq<string>, sizes: seq<nat>)
    requires Labelled(at) && sizes != [] && forall x :: f(x) == FlatMap(sizes, at(x))
    ensures DistinctNames(FlatMap(suites, f)) <==> NoRepeats(SanitizedNames(suites)) && (suites == [] || NoRepeats(sizes))
  {
    hide NamesApart, DistinctNames, FlatMap, SanitizeName, Labelled;
    FlatMapNames(suites, f);
    forall k | 0 <= k < |suites|
      ensures DistinctNames(f(suites[k])) <==> NoRepeats(sizes)
    {
      SuiteNames(at, suites[k], sizes);
    }
    forall k, l | 0 <= k < l < |suites|
      ensures NamesApart(f(suites[k]), f(suites[l])) <==> SanitizedNames(suites)[k] != SanitizedNames(suites)[l]
    {
      SuitesApart(at, suites[k], suites[l], sizes);
    }
    if suites != [] {
      assert DistinctNames(f(suites[0])) <==> NoRepeats(sizes);
    }
  }

  lemma {:induction false} TlsNames(t: Tier, d: Dimensions, version: string, suites: seq<string>)
    ensures DistinctNames(FlatMap(suites, OnTlsSuites(t, d, version))) <==>
            NoRepeats(SanitizedNames(suites)) && (suites == [] || NoRepeats(StreamCipherSizes(t, d)))
  {
    var at := (suite: string) => TlsPair(d, version, suite);
    assert forall x :: OnTlsSuites(t, d, version)(x) == FlatMap(StreamCipherSizes(t, d), at(x));
    assert StreamCipherSizes(t, d) != [];
    hide TlsPair, NamesApart, DistinctNames, SanitizeName, FlatMap, StreamCipherSizes, OnTlsSuites;
    forall x, s1: nat, y, s2: nat
      ensures DistinctNames(at(x)(s1))
      ensures NamesApart(at(x)(s1), at(y)(s2)) <==> SanitizeName(x) != SanitizeName(y) || s1 != s2
    {
      PairsApart(d, version, x, s1, y, s2);
    }
    SweepNames(at, OnTlsSuites(t, d, version), suites, StreamCipherSizes(t, d));
  }

  lemma {:induction false} DtlsNames(t: Tier, d: Dimensions, suites: seq<string>)
    ensures DistinctNames(FlatMap(suites, OnDtlsSuites(t, d))) <==>
            NoRepeats(SanitizedNames(suites)) && (suites == [] || NoRepeats(DatagramCipherSizes(t, d)))
  {
    var at := (suite: string) => DtlsAt(d, suite);
    assert forall x :: OnDtlsSuites(t, d)(x) == FlatMap(DatagramCipherSizes(t, d), at(x));
    assert DatagramCipherSizes(t, d) != [];
    hide DtlsAt, NamesApart, DistinctNames, SanitizeName, FlatMap, DatagramCipherSizes, OnDtlsSuites;
    forall x, s1: nat, y, s2: nat
      ensures DistinctNames(at(x)(s1))
      ensures NamesApart(at(x)(s1), at(y)(s2)) <==> SanitizeName(x) != SanitizeName(y) || s1 != s2
    {
      DtlsRowsApart(d, x, s1, y, s2);
    }
    SweepNames(at, OnDtlsSuites(t, d), suites, DatagramCipherSizes(t, d));
  }

  // ----- The parts of the cipher sweep -----

  lemma {:induction false} SizedKeepsHead(head: string, x: string, size: nat, canonical: nat)
    ensures head <= SizedName(head + x, size, canonical)
  {
    assert head + x + ("_" + (Decimal(size) + "B")) == head + (x + ("_" + (Decimal(size) + "B")));
  }

  function TlsHeads(version: string): seq<string> {
    [TlsHead(version, false), TlsHead(version, true)]
  }

  lemma {:induction false} TlsHeaded(t: Tier, d: Dimensions, version: string, suites: seq<string>)
    ensures Headed(FlatMap(suites, OnTlsSuites(t, d, version)), TlsHeads(version))
  {
    var sizes, heads := StreamCipherSizes(t, d), TlsHeads(version);
    forall suite | suite in suites
      ensures Headed(OnTlsSuites(t, d, version)(suite), heads)
    {
      forall size: nat
        ensures Headed(TlsPair(d, version, suite)(size), heads)
      {
        TlsPairNames(d, version, suite, size);
        SizedKeepsHead(TlsHead(version, false), SanitizeName(suite), size, d.canonicalStream);
        SizedKeepsHead(TlsHead(version, true), SanitizeName(suite), size, d.canonicalStream);
        assert heads[0] in heads && heads[1] in heads;
        hide TlsPair, TlsHead, SizedName, SanitizeName;
      }
      hide TlsPair, Headed, FlatMap, StreamCipherSizes;
      FlatMapHeaded(sizes, TlsPair(d, version, suite), heads);
    }
    hide OnTlsSuites, Headed, FlatMap;
    FlatMapHeaded(suites, OnTlsSuites(t, d, version), heads);
  }

  lemma {:induction false} DtlsHeaded(t: Tier, d: Dimensions, suites: seq<string>)
    ensures Headed(FlatMap(suites, OnDtlsSuites(t, d)), ["cipher_dtls12_"])
  {
    var sizes, heads := DatagramCipherSizes(t, d), ["cipher_dtls12_"];
    forall suite | suite in suites
      ensures Headed(OnDtlsSuites(t, d)(suite), heads)
    {
      forall size: nat
        ensures Headed(DtlsAt(d, suite)(size), heads)
      {
        CipherRowName(heads[0] + SanitizeName(suite), "udp", Dtls(suite), size, d.canonicalDatagram);
        SizedKeepsHead(heads[0], SanitizeName(suite), size, d.canonicalDatagram);
        assert heads[0] in heads;
        hide SizedName, SanitizeName;
      }
      hide DtlsAt, Headed, FlatMap, DatagramCipherSizes;
      FlatMapHeaded(sizes, DtlsAt(d, suite), heads);
    }
    hide OnDtlsSuites, Headed, FlatMap;
    FlatMapHeaded(suites, OnDtlsSuites(t, d), heads);
  }

  lemma {:induction false} CipherHeadsApart()
    ensures HeadsApart(TlsHeads("1.2"), TlsHeads("1.3"))
    ensures HeadsApart(TlsHeads("1.2") + TlsHeads("1.3"), ["cipher_dtls12_"])
  {
    var a, b, c, d, e := TlsHead("1.2", false), TlsHead("1.2", true), TlsHead("1.3", false), TlsHead("1.3", true), "cipher_dtls12_";
    assert a == "cipher_tls12_" && b == "cipher_ktls12_" && c == "cipher_tls13_" && d == "cipher_ktls13_";
    assert a[7] == 't' && b[7] == 'k' && c[7] == 't' && d[7] == 'k' && e[7] == 'd';
    assert a[11] == '2' && c[11] == '3' && b[12] == '2' && d[12] == '3';
    assert forall h :: h in TlsHeads("1.2") ==> h == a || h == b;
    assert forall h :: h in TlsHeads("1.3") ==> h == c || h == d;
  }

  lemma {:induction false} HeadedBoth(a: seq<Row>, heads: seq<string>, b: seq<Row>, others: seq<string>)
    requires Headed(a, heads) && Headed(b, others)
    ensures Headed(a + b, heads + others)
  {
    forall r | r in a + b
      ensures exists h :: h in heads + others && h <= r.name
    {
      if r in a {
        var h :| h in heads && h <= r.name;
        assert h in heads + others;
      } else {
        var h :| h in others && h <= r.name;
        assert h in heads + others;
      }
    }
  }

  /** Sanitized suite names differ within a version, and the sizes in use are listed once. */
  predicate PlainSweep(spec: Spec, t: Tier) {
    var v12, v13, d := Suites(t, spec.tls12), Suites(t, spec.tls13), spec.dimensions;
    && NoRepeats(SanitizedNames(v12)) && NoRepeats(SanitizedNames(v13))
    && (v12 != [] || v13 != [] ==> NoRepeats(StreamCipherSizes(t, d)))
    && (v12 != [] ==> NoRepeats(DatagramCipherSizes(t, d)))
  }

  function CipherHeads(): seq<string> {
    TlsHeads("1.2") + TlsHeads("1.3") + ["cipher_dtls12_"]
  }

  /** The cipher rows have names of their own exactly for a plain sweep. */
  lemma {:induction false} CipherNames(spec: Spec, t: Tier)
    ensures DistinctNames(CipherRows(spec, t)) <==> PlainSweep(spec, t)
    ensures Headed(CipherRows(spec, t), CipherHeads())
  {
    var d := spec.dimensions;
    var a := FlatMap(Suites(t, spec.tls12), OnTlsSuites(t, d, "1.2"));
    var b := FlatMap(Suites(t, spec.tls13), OnTlsSuites(t, d, "1.3"));
    var c := FlatMap(Suites(t, spec.tls12), OnDtlsSuites(t, d));
    assert CipherRows(spec, t) == a + b + c;
    TlsNames(t, d, "1.2", Suites(t, spec.tls12));
    TlsNames(t, d, "1.3", Suites(t, spec.tls13));
    DtlsNames(t, d, Suites(t, spec.tls12));
    TlsHeaded(t, d, "1.2", Suites(t, spec.tls12));
    TlsHeaded(t, d, "1.3", Suites(t, spec.tls13));
    DtlsHeaded(t, d, Suites(t, spec.tls12));
    CipherHeadsApart();
    hide NamesApart, DistinctNames, FlatMap, SanitizedNames, StreamCipherSizes, DatagramCipherSizes, CipherRows, Headed, HeadsApart,
         TlsHeads, Suites, OnTlsSuites, OnDtlsSuites;
    HeadedApart(a, TlsHeads("1.2"), b, TlsHeads("1.3"));
    HeadedBoth(a, TlsHeads("1.2"), b, TlsHeads("1.3"));
    HeadedApart(a + b, TlsHeads("1.2") + TlsHeads("1.3"), c, ["cipher_dtls12_"]);
    HeadedBoth(a + b, TlsHeads("1.2") + TlsHeads("1.3"), c, ["cipher_dtls12_"]);
    ConcatNames(a, b);
    ConcatNames(a + b, c);
  }

  // ----- The handshake sweep -----

  lemma {:induction false} FlatMapOfTwo<T(!new)>(x: T, y: T, f: T -> seq<Row>)
    ensures FlatMap([x], f) == f(x) && FlatMap([x, y], f) == f(x) + f(y)
  {
    assert [x][..0] == [] && [x, y][..1] == [x];
    assert FlatMap([x], f) == [] + f(x);
  }

  lemma {:induction false} AxisRows(t: Tier, axis: Axis)
    ensures OnAxes(t)(axis) == if t.Canonical? then HandshakeAt(axis)(4) else HandshakeAt(axis)(1) + HandshakeAt(axis)(4)
  {
    FlatMapOfTwo<nat>(1, 4, HandshakeAt(axis));
    FlatMapOfTwo<nat>(4, 4, HandshakeAt(axis));
    hide FlatMap, HandshakeAt;
  }

  lemma {:induction false} HandshakeRow(axis: Axis)
    ensures |HandshakeAt(axis)(4)| == |HandshakeAt(axis)(1)| == 1
    ensures HandshakeAt(axis)(4)[0].name == axis.base && HandshakeAt(axis)(1)[0].name == axis.base + "_1c"
  {
    assert Decimal(1) == "1";
    assert axis.base + "_" + "1" + "c" == axis.base + "_1c";
  }

  lemma {:induction false} AxisNames(t: Tier, axis: Axis)
    ensures var rows := OnAxes(t)(axis);
            && DistinctNames(rows)
            && forall r :: r in rows ==> r.name == axis.base || r.name == axis.base + "_1c"
  {
    AxisRows(t, axis);
    HandshakeRow(axis);
    hide OnAxes, HandshakeAt;
    assert |axis.base + "_1c"| != |axis.base|;
  }

  /** Bases whose names cannot meet, with or without the suffix. */
  predicate BasesApart(a: string, b: string) {
    a != b && a != b + "_1c" && a + "_1c" != b
  }

  lemma {:induction false} AxesApart(t: Tier, a: Axis, b: Axis)
    requires BasesApart(a.base, b.base)
    ensures NamesApart(OnAxes(t)(a), OnAxes(t)(b))
  {
    AxisNames(t, a);
    AxisNames(t, b);
    var x, y := OnAxes(t)(a), OnAxes(t)(b);
    hide OnAxes;
    forall i, j | 0 <= i < |x| && 0 <= j < |y|
      ensures x[i].name != y[j].name
    {
      assert x[i] in x && y[j] in y;
      if x[i].name == a.base + "_1c" && y[j].name == b.base + "_1c" {
        assert (a.base + "_1c")[..|a.base|] == a.base && (b.base + "_1c")[..|b.base|] == b.base;
        assert x[i].name == y[j].name ==> |a.base| == |b.base|;
      }
    }
  }

  lemma {:induction false} FourBases()
    ensures var a, b, c, d := AuthAxes()[0].base, AuthAxes()[1].base, KexAxes()[0].base, KexAxes()[1].base;
            && BasesApart(a, b) && BasesApart(a, c) && BasesApart(a, d) && BasesApart(b, c) && BasesApart(b, d) && BasesApart(c, d)
  {
    var a, d := AuthAxes()[0].base, KexAxes()[1].base + "_1c";
    assert a[10] == 't' && d[10] == 'k';
  }

  /** The handshake rows always have names of their own. */
  lemma {:induction false} HandshakeNames(t: Tier)
    ensures DistinctNames(HandshakeRows(t)) && Headed(HandshakeRows(t), ["handshake_"])
  {
    var f := OnAxes(t);
    var a, b, c, d := AuthAxes()[0], AuthAxes()[1], KexAxes()[0], KexAxes()[1];
    FourBases();
    FlatMapOfTwo(a, b, f);
    FlatMapOfTwo(c, d, f);
    assert HandshakeRows(t) == (f(a) + f(b)) + (f(c) + f(d));
    assert forall axis :: axis == a || axis == b || axis == c || axis == d ==> "handshake_" <= axis.base;
    hide AuthAxes, KexAxes, BasesApart, FlatMap, HandshakeRows, OnAxes;
    AxesApart(t, a, b);
    AxesApart(t, c, d);
    AxesApart(t, a, c);
    AxesApart(t, a, d);
    AxesApart(t, b, c);
    AxesApart(t, b, d);
    forall axis | axis == a || axis == b || axis == c || axis == d
      ensures Headed(f(axis), ["handshake_"]) && DistinctNames(f(axis))
    {
      AxisHeaded(t, axis);
    }
    FourBlocks(f(a), f(b), f(c), f(d), "handshake_");
  }

  lemma {:induction false} AxisHeaded(t: Tier, axis: Axis)
    requires "handshake_" <= axis.base
    ensures Headed(OnAxes(t)(axis), ["handshake_"]) && DistinctNames(OnAxes(t)(axis))
  {
    AxisNames(t, axis);
    hide OnAxes;
    assert "handshake_" in ["handshake_"];
  }

  lemma {:induction false} FourBlocks(a: seq<Row>, b: seq<Row>, c: seq<Row>, d: seq<Row>, head: string)
    requires DistinctNames(a) && DistinctNames(b) && DistinctNames(c) && DistinctNames(d)
    requires NamesApart(a, b) && NamesApart(c, d) && NamesApart(a, c) && NamesApart(a, d) && NamesApart(b, c) && NamesApart(b, d)
    requires Headed(a, [head]) && Headed(b, [head]) && Headed(c, [head]) && Headed(d, [head])
    ensures DistinctNames((a + b) + (c + d)) && Headed((a + b) + (c + d), [head])
  {
    ConcatNames(a, b);
    ConcatNames(c, d);
    ConcatNames(a + b, c + d);
    ConcatApartFrom(a, b, c + d);
    ApartSymmetric(a, c + d);
    ApartSymmetric(b, c + d);
    ConcatApartFrom(c, d, a);
    ConcatApartFrom(c, d, b);
    ApartSymmetric(a, c);
    ApartSymmetric(a, d);
    ApartSymmetric(b, c);
    ApartSymmetric(b, d);
    hide NamesApart, DistinctNames;
  }

  // ----- The limitations -----

  function LimitationNames(ls: seq<Limitation>): (names: seq<string>)
    ensures |names| == |ls|
  {
    seq(|ls|, i requires 0 <= i < |ls| => ls[i].name)
  }

  lemma {:induction false} BlockedNames(ls: seq<Limitation>)
    ensures DistinctNames(FlatMap(ls, OnLimitations())) <==> NoRepeats(LimitationNames(ls))
    ensures Headed(FlatMap(ls, OnLimitations()), ["blocked_"])
  {
    var f := OnLimitations();
    hide NamesApart, DistinctNames, FlatMap, Headed, OnLimitations;
    FlatMapNames(ls, f);
    forall k | 0 <= k < |ls|
      ensures DistinctNames(f(ls[k])) && Headed(f(ls[k]), ["blocked_"])
    {
      BlockedRow(ls[k], ls[k]);
    }
    forall k, l | 0 <= k < l < |ls|
      ensures NamesApart(f(ls[k]), f(ls[l])) <==> LimitationNames(ls)[k] != LimitationNames(ls)[l]
    {
      BlockedRow(ls[k], ls[l]);
    }
    FlatMapHeaded(ls, f, ["blocked_"]);
  }

  lemma {:induction false} BlockedRow(k: Limitation, l: Limitation)
    ensures var f := OnLimitations();
            && DistinctNames(f(k)) && Headed(f(k), ["blocked_"])
            && (NamesApart(f(k), f(l)) <==> k.name != l.name)
  {
    var f := OnLimitations();
    assert |f(k)| == |f(l)| == 1 && f(k)[0].name == "blocked_" + k.name && f(l)[0].name == "blocked_" + l.name;
    assert "blocked_" in ["blocked_"] && "blocked_" <= f(k)[0].name;
    if "blocked_" + k.name == "blocked_" + l.name {
      CancelHead("blocked_", k.name, l.name);
    }
    hide OnLimitations;
  }

  // ----- The whole tier -----

  lemma {:induction false} ProfilesHeaded(spec: Spec, t: Tier)
    ensures Headed(ProfileRows(spec, t), ["matrix_"])
  {
    hide ProfileRows, RowOf, LatencyRowOf, Compatible, Measurable;
    forall r | r in ProfileRows(spec, t)
      ensures exists h :: h in ["matrix_"] && h <= r.name
    {
      var cell := RowHasCell(spec, t, r);
      CellHeads(cell);
      assert "matrix_" in ["matrix_"];
    }
  }

  lemma {:induction false} CellHeads(cell: Cell)
    ensures "matrix_" <= RowOf(cell).name && "matrix_" <= LatencyRowOf(cell).name
  {
    hide SizeLabel, Way;
  }

  lemma {:induction false} FirstLetters(a: seq<string>, b: seq<string>, c: char)
    requires forall h :: h in a ==> h != "" && h[0] == c
    requires forall g :: g in b ==> g != "" && g[0] != c
    ensures HeadsApart(a, b)
  {}

  lemma {:induction false} PartHeadsApart()
    ensures HeadsApart(["matrix_"], CipherHeads() + ["handshake_"] + ["blocked_"])
    ensures HeadsApart(CipherHeads(), ["handshake_"] + ["blocked_"])
    ensures HeadsApart(["handshake_"], ["blocked_"])
  {
    forall h | h in CipherHeads()
      ensures h != "" && h[0] == 'c'
    {
    }
    var m, n, b := "matrix_", "handshake_", "blocked_";
    assert m[0] == 'm' && n[0] == 'h' && b[0] == 'b';
    hide CipherHeads;
    FirstLetters([m], CipherHeads() + [n] + [b], 'm');
    FirstLetters(CipherHeads(), [n] + [b], 'c');
    FirstLetters([n], [b], 'h');
  }

  /** With plain profiles, the tier expands exactly when no profile takes the name of
      another's latency row, the sweep is plain and no limitation is named twice. */
  lemma {:induction false} TierNames(spec: Spec, t: Tier)
    requires PlainSpec(spec, t)
    ensures Emit([], TierRows(spec, t)).Ok? <==>
            !LatencyClash(spec, t) && PlainSweep(spec, t) && NoRepeats(LimitationNames(spec.limitations))
  {
    hide *;
    ExpansionMeaning(TierRows(spec, t));
    TierParts(spec, t);
    ProfileNamesDistinct(spec, t);
    CipherNames(spec, t);
    HandshakeNames(t);
    BlockedNames(spec.limitations);
  }

  /** The parts of a tier never share a name, so each may be judged alone. */
  lemma {:induction false} TierParts(spec: Spec, t: Tier)
    ensures DistinctNames(TierRows(spec, t)) <==>
            && DistinctNames(ProfileRows(spec, t)) && DistinctNames(CipherRows(spec, t))
            && DistinctNames(HandshakeRows(t)) && DistinctNames(FlatMap(spec.limitations, OnLimitations()))
  {
    hide *;
    var a, b, c, d := ProfileRows(spec, t), CipherRows(spec, t), HandshakeRows(t), FlatMap(spec.limitations, OnLimitations());
    TierIs(spec, t);
    ProfilesHeaded(spec, t);
    CipherNames(spec, t);
    HandshakeNames(t);
    BlockedNames(spec.limitations);
    PartHeadsApart();
    HeadedApart(c, ["handshake_"], d, ["blocked_"]);
    HeadedBoth(c, ["handshake_"], d, ["blocked_"]);
    HeadedApart(b, CipherHeads(), c + d, ["handshake_"] + ["blocked_"]);
    HeadedBoth(b, CipherHeads(), c + d, ["handshake_"] + ["blocked_"]);
    assert CipherHeads() + (["handshake_"] + ["blocked_"]) == CipherHeads() + ["handshake_"] + ["blocked_"];
    assert b + (c + d) == b + c + d;
    HeadedApart(a, ["matrix_"], b + c + d, CipherHeads() + ["handshake_"] + ["blocked_"]);
    ConcatNames(c, d);
    ConcatNames(b, c + d);
    ConcatNames(a, b + c + d);
  }
}
