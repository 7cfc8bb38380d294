/** Splitting the logical cores of a host into disjoint pools by weight. Core
    counts are unbounded, so `usable * weight` does not wrap. */
module Affinity {
  import opened Wrappers

  function AtLeastOne(n: nat): nat {
    if n < 1 then 1 else n
  }

  function Sum(xs: seq<nat>): nat {
    if xs == [] then 0 else Sum(xs[..|xs| - 1]) + xs[|xs| - 1]
  }

  lemma {:induction false} SumOfUpdate(xs: seq<nat>, i: nat, v: nat)
    requires i < |xs|
    ensures Sum(xs[i := v]) == Sum(xs) - xs[i] + v
  {
    var n := |xs| - 1;
    if i < n {
      SumOfUpdate(xs[..n], i, v);
      assert xs[i := v][..n] == xs[..n][i := v];
    } else {
      assert xs[i := v][..n] == xs[..n];
    }
  }

  lemma {:induction false} SumAtLeast(xs: seq<nat>, low: nat)
    requires forall i :: 0 <= i < |xs| ==> xs[i] >= low
    ensures Sum(xs) >= low * |xs|
  {
    if xs != [] {
      var n := |xs| - 1;
      SumAtLeast(xs[..n], low);
      assert low * |xs| == low * n + low;
    }
  }

  lemma {:induction false} SumOfOnes(xs: seq<nat>)
    requires forall i :: 0 <= i < |xs| ==> xs[i] <= 1
    ensures Sum(xs) <= |xs|
  {
    if xs != [] {
      SumOfOnes(xs[..|xs| - 1]);
    }
  }

  /** The last of the greatest elements, which is the one `max_by_key` picks. */
  function LastMax(xs: seq<nat>): (m: nat)
    requires xs != []
    ensures m < |xs|
    ensures forall j :: 0 <= j < |xs| ==> xs[j] <= xs[m]
    ensures forall j :: m < j < |xs| ==> xs[j] < xs[m]
  {
    var n := |xs| - 1;
    if n == 0 then 0
    else
      var m := LastMax(xs[..n]);
      assert forall j :: 0 <= j < n ==> xs[..n][j] == xs[j];
      if xs[n] >= xs[m] then n else m
  }

  // ----- Sizes of the pools -----

  function Weight(weights: seq<nat>): seq<nat> {
    seq(|weights|, i requires 0 <= i < |weights| => AtLeastOne(weights[i]))
  }

  lemma {:induction false} WeightIsPositive(weights: seq<nat>)
    requires weights != []
    ensures Sum(Weight(weights)) > 0
  {
    SumAtLeast(Weight(weights), 1);
  }

  /** A group's share of the usable cores, rounded down but at least one. */
  function Share(usable: nat, weights: seq<nat>, i: nat): (s: nat)
    requires i < |weights|
    ensures s >= 1
  {
    WeightIsPositive(weights);
    AtLeastOne(usable * AtLeastOne(weights[i]) / Sum(Weight(weights)))
  }

  function Shares(usable: nat, weights: seq<nat>): (s: seq<nat>)
    ensures |s| == |weights| && forall i :: 0 <= i < |s| ==> s[i] >= 1
  {
    seq(|weights|, i requires 0 <= i < |weights| => Share(usable, weights, i))
  }

  predicate Shrinkable(counts: seq<nat>, usable: nat) {
    0 < |counts| <= usable && forall i :: 0 <= i < |counts| ==> counts[i] >= 1
  }

  /** While too many cores are promised there is a group with more than one. */
  lemma {:induction false} SomeoneCanGive(counts: seq<nat>, usable: nat)
    requires Shrinkable(counts, usable) && Sum(counts) > usable
    ensures counts[LastMax(counts)] > 1
  {
    if counts[LastMax(counts)] <= 1 {
      SumOfOnes(counts);
    }
  }

  /** Takes cores one at a time from the last of the largest groups. */
  function Shrink(counts: seq<nat>, usable: nat): (r: seq<nat>)
    requires Shrinkable(counts, usable)
    ensures Shrinkable(r, usable) && |r| == |counts| && Sum(r) <= usable
    decreases Sum(counts)
  {
    if Sum(counts) <= usable then counts
    else
      var m := LastMax(counts);
      SomeoneCanGive(counts, usable);
      SumOfUpdate(counts, m, counts[m] - 1);
      Shrink(counts[m := counts[m] - 1], usable)
  }

  /** Gives what is left over to the last of the heaviest groups. */
  function Grow(counts: seq<nat>, weights: seq<nat>, usable: nat): (r: seq<nat>)
    requires 0 < |counts| == |weights|
    ensures |r| == |counts|
  {
    var h := LastMax(weights);
    counts[h := counts[h] + Monus(usable, Sum(counts))]
  }

  function Reserve(totalCores: nat): nat {
    if totalCores >= 4 then 1 else 0
  }

  function Usable(totalCores: nat): nat {
    totalCores - Reserve(totalCores)
  }

  function Sizes(usable: nat, weights: seq<nat>): (s: seq<nat>)
    requires 0 < |weights| <= usable
    ensures |s| == |weights|
  {
    Grow(Shrink(Shares(usable, weights), usable), weights, usable)
  }

  /** Consecutive sets of the given sizes. */
  function Layout(next: nat, sizes: seq<nat>): seq<seq<nat>> {
    if sizes == [] then []
    else
      var n := |sizes| - 1;
      Layout(next, sizes[..n]) + [Run(next + Sum(sizes[..n]), sizes[n])]
  }

  function Run(from: nat, count: nat): seq<nat> {
    seq(count, i requires 0 <= i => from + i)
  }

  function Empties(n: nat): seq<seq<nat>> {
    seq(n, _ => [])
  }

  function Partition(totalCores: nat, weights: seq<nat>): seq<seq<nat>> {
    if weights == [] then []
    else if Usable(totalCores) < |weights| then Empties(|weights|)
    else Layout(Reserve(totalCores), Sizes(Usable(totalCores), weights))
  }

  /** The index of a largest group that can spare a core, as the search finds it. */
  method Largest(counts: array<nat>) returns (idx: Option<nat>)
    ensures counts.Length > 0 && counts[LastMax(counts[..])] > 1 ==> idx == Some(LastMax(counts[..]))
    ensures idx.Some? ==> idx.value < counts.Length
  {
    idx := None;
    for i := 0 to counts.Length
      invariant idx == None ==> forall j :: 0 <= j < i ==> counts[j] <= 1
      invariant idx.Some? ==> idx.value < i && counts[idx.value] > 1
                              && (forall j :: 0 <= j < i ==> counts[j] <= counts[idx.value])
                              && (forall j :: idx.value < j < i ==> counts[j] < counts[idx.value])
    {
      if counts[i] > 1 && (idx.None? || counts[i] >= counts[idx.value]) {
        idx := Some(i);
      }
    }
    if counts.Length > 0 {
      assert forall j :: 0 <= j < counts.Length ==> counts[..][j] == counts[j];
    }
  }

  lemma {:induction false} ShrinkStep(counts: seq<nat>, usable: nat)
    requires Shrinkable(counts, usable) && Sum(counts) > usable
    ensures var m := LastMax(counts);
            counts[m] > 1 && var next := counts[m := counts[m] - 1];
            Shrinkable(next, usable) && Sum(next) == Sum(counts) - 1 && Shrink(next, usable) == Shrink(counts, usable)
  {
    var m := LastMax(counts);
    SomeoneCanGive(counts, usable);
    SumOfUpdate(counts, m, counts[m] - 1);
  }

  lemma {:induction false} ShrinkDone(counts: seq<nat>, usable: nat)
    requires Shrinkable(counts, usable) && Sum(counts) <= usable
    ensures Shrink(counts, usable) == counts
  {}

  /** `counts[idx] -= 1` */
  method TakeOne(counts: array<nat>, idx: nat)
    requires idx < counts.Length && counts[idx] > 0
    modifies counts
    ensures counts[..] == old(counts[..])[idx := old(counts[idx]) - 1]
  {
    counts[idx] := counts[idx] - 1;
  }

  /** The first reconciling loop. */
  method ShrinkInPlace(counts: array<nat>, usable: nat)
    requires Shrinkable(counts[..], usable)
    modifies counts
    ensures counts[..] == Shrink(old(counts[..]), usable)
  {
    ghost var shares := counts[..];
    var granted := Sum(counts[..]);
    assert counts.Length > 0;
    hide *;
    while granted > usable
      invariant granted == Sum(counts[..])
      invariant Shrinkable(counts[..], usable) && Shrink(counts[..], usable) == Shrink(shares, usable)
    {
      ghost var before := counts[..];
      ShrinkStep(before, usable);
      var idx := Largest(counts);
      assert idx == Some(LastMax(before)); // the search never comes back empty here
      if idx.None? {
        break;
      }
      TakeOne(counts, idx.value);
      granted := granted - 1;
    }
    ShrinkDone(counts[..], usable);
  }

  /** The second reconciling loop. */
  method GrowInPlace(counts: array<nat>, weights: seq<nat>, usable: nat)
    requires 0 < counts.Length == |weights|
    modifies counts
    ensures counts[..] == Grow(old(counts[..]), weights, usable)
  {
    ghost var shrunk := counts[..];
    var granted := Sum(counts[..]);
    ghost var heaviest := LastMax(weights);
    while granted < usable
      invariant Sum(shrunk) <= granted && (granted > Sum(shrunk) ==> granted <= usable)
      invariant counts[..] == shrunk[heaviest := shrunk[heaviest] + (granted - Sum(shrunk))]
    {
      var idx := LastMax(weights);
      counts[idx] := counts[idx] + 1;
      granted := granted + 1;
      assert counts[..] == shrunk[heaviest := shrunk[heaviest] + (granted - Sum(shrunk))];
    }
  }

  method PartitionCores(totalCores: nat, weights: seq<nat>) returns (result: seq<seq<nat>>)
    ensures result == Partition(totalCores, weights)
  {
    var groups := |weights|;
    if groups == 0 {
      return [];
    }
    var reserve := if totalCores >= 4 then 1 else 0;
    var usable := Monus(totalCores, reserve);
    if usable < groups {
      return Empties(groups);
    }
    var counts := new nat[groups](i requires 0 <= i < groups => Share(usable, weights, i));
    assert counts[..] == Shares(usable, weights);
    ShrinkInPlace(counts, usable);
    GrowInPlace(counts, weights, usable);
    result := LayOut(reserve, counts[..]);
  }

  /** The core numbers handed out in order. */
  method LayOut(reserve: nat, counts: seq<nat>) returns (result: seq<seq<nat>>)
    ensures result == Layout(reserve, counts)
  {
    var next := reserve;
    result := [];
    for i := 0 to |counts|
      invariant next == reserve + Sum(counts[..i])
      invariant result == Layout(reserve, counts[..i])
    {
      assert counts[..i + 1][..i] == counts[..i];
      var first := next;
      var pool: seq<nat> := [];
      for k := 0 to counts[i]
        invariant pool == Run(first, k) && next == first + k
      {
        pool := pool + [next];
        next := next + 1;
      }
      result := result + [pool];
    }
    assert counts[..|counts|] == counts;
  }

  // ----- What the partition is -----

  function Flatten(sets: seq<seq<nat>>): seq<nat> {
    if sets == [] then [] else Flatten(sets[..|sets| - 1]) + sets[|sets| - 1]
  }

  lemma {:induction false} LayoutIsConsecutive(next: nat, sizes: seq<nat>)
    ensures Flatten(Layout(next, sizes)) == Run(next, Sum(sizes))
    ensures |Layout(next, sizes)| == |sizes|
    ensures forall i :: 0 <= i < |sizes| ==> |Layout(next, sizes)[i]| == sizes[i]
  {
    hide Run;
    if sizes == [] {
      RunsJoin(next, 0, 0);
    } else {
      var n := |sizes| - 1;
      LayoutIsConsecutive(next, sizes[..n]);
      assert Layout(next, sizes)[..n] == Layout(next, sizes[..n]);
      RunsJoin(next, Sum(sizes[..n]), sizes[n]);
    }
  }

  lemma {:induction false} RunsJoin(next: nat, a: nat, b: nat)
    ensures Run(next, 0) == [] && Run(next, a) + Run(next + a, b) == Run(next, a + b) && |Run(next + a, b)| == b
  {}

  lemma {:induction false} SizesAddUp(usable: nat, weights: seq<nat>)
    requires 0 < |weights| <= usable
    ensures Sum(Sizes(usable, weights)) == usable
    ensures forall i :: 0 <= i < |weights| ==> Sizes(usable, weights)[i] >= 1
  {
    var shrunk := Shrink(Shares(usable, weights), usable);
    var h := LastMax(weights);
    SumOfUpdate(shrunk, h, shrunk[h] + Monus(usable, Sum(shrunk)));
  }

  lemma {:induction false} LayoutCovers(next: nat, sizes: seq<nat>, usable: nat)
    requires Sum(sizes) == usable && forall i :: 0 <= i < |sizes| ==> sizes[i] >= 1
    ensures var sets := Layout(next, sizes);
            |sets| == |sizes| && Flatten(sets) == Run(next, usable) && forall i :: 0 <= i < |sets| ==> |sets[i]| >= 1
  {
    hide Layout, Flatten, Run, Sum;
    LayoutIsConsecutive(next, sizes);
    var sets := Layout(next, sizes);
    forall i | 0 <= i < |sets|
      ensures |sets[i]| >= 1
    {
      assert |sets[i]| == sizes[i];
    }
  }

  /** With a core for every group, the sets in order are exactly the cores from the
      reserve to the last one, each set non-empty: nothing is left out and nothing
      is shared. With fewer, every set is empty. */
  lemma {:induction false} PartitionCovers(totalCores: nat, weights: seq<nat>)
    ensures |Partition(totalCores, weights)| == |weights|
    ensures weights != [] && Usable(totalCores) >= |weights| ==>
              var sets := Partition(totalCores, weights);
              && Flatten(sets) == Run(Reserve(totalCores), totalCores - Reserve(totalCores))
              && forall i :: 0 <= i < |sets| ==> |sets[i]| >= 1
    ensures Usable(totalCores) < |weights| ==>
              forall i :: 0 <= i < |weights| ==> |Partition(totalCores, weights)[i]| == 0
  {
    hide Layout, Flatten, Run, Sum, Sizes;
    if weights != [] && Usable(totalCores) >= |weights| {
      SizesAddUp(Usable(totalCores), weights);
      LayoutCovers(Reserve(totalCores), Sizes(Usable(totalCores), weights), Usable(totalCores));
    }
  }

  /** A weight of zero counts as one. A share above one is what the weight's part of the
      cores comes to, rounded down: no more, and less than one core short of it. */
  lemma {:induction false} ShareIsProportional(usable: nat, weights: seq<nat>, i: nat)
    requires i < |weights|
    ensures var s, all, own := Share(usable, weights, i), Sum(Weight(weights)), if weights[i] == 0 then 1 else weights[i];
            && s >= 1 && usable * own < (s + 1) * all && (s > 1 ==> s * all <= usable * own)
    ensures |Weight(weights)| == |weights|
    ensures forall j :: 0 <= j < |weights| ==> Weight(weights)[j] == if weights[j] == 0 then 1 else weights[j]
  {
    WeightIsPositive(weights);
    RoundedDown(usable * AtLeastOne(weights[i]), Sum(Weight(weights)));
    hide Sum;
  }

  lemma {:induction false} RoundedDown(a: nat, b: nat)
    requires b > 0
    ensures var s := AtLeastOne(a / b); a < (s + 1) * b && (s > 1 ==> s * b <= a)
  {
    var q, r := a / b, a % b;
    assert a == q * b + r;
    assert (q + 1) * b == q * b + b;
    if q == 0 {
      assert (1 + 1) * b == b + b;
    }
  }

  /** From four cores on core 0 is left to the system; below that it is handed out, when
      every group can have a core. The last core always is, then, and none beyond it. */
  lemma {:induction false} CoresHandedOut(totalCores: nat, weights: seq<nat>, core: nat)
    ensures core in Flatten(Partition(totalCores, weights)) <==>
            && weights != [] && core < totalCores
            && if totalCores >= 4 then core >= 1 && |weights| <= totalCores - 1 else |weights| <= totalCores
  {
    PartitionCovers(totalCores, weights);
    hide Layout, Sizes, Sum;
    if weights != [] && Usable(totalCores) >= |weights| {
      var r := Run(Reserve(totalCores), totalCores - Reserve(totalCores));
      if Reserve(totalCores) <= core < totalCores {
        assert r[core - Reserve(totalCores)] == core;
      }
    } else {
      FlattenEmpty(Partition(totalCores, weights));
    }
  }

  lemma {:induction false} FlattenEmpty(sets: seq<seq<nat>>)
    requires forall i :: 0 <= i < |sets| ==> |sets[i]| == 0
    ensures Flatten(sets) == []
  {
    if sets != [] {
      FlattenEmpty(sets[..|sets| - 1]);
    }
  }

  /** Shares that fit are kept by every group but the last heaviest, which also
      takes all that is left over. */
  lemma {:induction false} SharesAreKept(usable: nat, weights: seq<nat>, i: nat)
    requires 0 < |weights| <= usable && i < |weights| && Sum(Shares(usable, weights)) <= usable
    ensures Sizes(usable, weights)[i] ==
            Share(usable, weights, i) + if i == LastMax(weights) then usable - Sum(Shares(usable, weights)) else 0
  {
    ShrinkDone(Shares(usable, weights), usable);
    hide Shrink, Sum, LastMax;
  }

  /** Groups that give cores up end level, later ones first: none ends below a later
      group, nor more than one below an earlier one. */
  lemma {:induction false} ShrinkLevels(counts: seq<nat>, usable: nat, i: nat, j: nat)
    requires Shrinkable(counts, usable) && i < |counts| && j < |counts|
    ensures var r := Shrink(counts, usable);
            r[i] <= counts[i] && (r[i] < counts[i] ==> r[j] <= r[i] + if j < i then 1 else 0)
    decreases Sum(counts)
  {
    if Sum(counts) <= usable {
      ShrinkDone(counts, usable);
    } else {
      var m := LastMax(counts);
      ShrinkStep(counts, usable);
      hide Shrink, Sum, Shrinkable;
      ShrinkLevels(counts[m := counts[m] - 1], usable, i, j);
      ShrinkLevels(counts[m := counts[m] - 1], usable, j, i);
      LevelStep(counts, m, Shrink(counts, usable), i, j);
    }
  }

  lemma {:induction false} LevelStep(counts: seq<nat>, m: nat, r: seq<nat>, i: nat, j: nat)
    requires i < |counts| == |r| && j < |counts| && m < |counts| && counts[m] > 0
    requires forall k :: 0 <= k < |counts| ==> counts[k] <= counts[m]
    requires forall k :: m < k < |counts| ==> counts[k] < counts[m]
    requires var next := counts[m := counts[m] - 1];
             r[i] <= next[i] && r[j] <= next[j] && (r[i] < next[i] ==> r[j] <= r[i] + if j < i then 1 else 0)
    ensures r[i] <= counts[i] && (r[i] < counts[i] ==> r[j] <= r[i] + if j < i then 1 else 0)
  {
    assert counts[j] <= counts[m] && (m < j ==> counts[j] < counts[m]);
  }

  /** When the shares do not fit, every size is between one and the share, and a group
      below its share is at most one below any earlier group and below no later one: with
      the sizes adding up, that leaves one way to cut. */
  lemma {:induction false} SharesAreCut(usable: nat, weights: seq<nat>, i: nat, j: nat)
    requires 0 < |weights| <= usable && i < |weights| && j < |weights| && Sum(Shares(usable, weights)) > usable
    ensures var s := Sizes(usable, weights);
            1 <= s[i] <= Share(usable, weights, i) && (s[i] < Share(usable, weights, i) ==> s[j] <= s[i] + if j < i then 1 else 0)
  {
    var shares := Shares(usable, weights);
    ShrinkLevels(shares, usable, i, j);
    ShrinkExactly(shares, usable);
  }

  lemma {:induction false} ShrinkExactly(counts: seq<nat>, usable: nat)
    requires Shrinkable(counts, usable) && Sum(counts) >= usable
    ensures Sum(Shrink(counts, usable)) == usable
    decreases Sum(counts)
  {
    assert counts != [];
    hide Shrink, Sum, Shrinkable;
    if Sum(counts) == usable {
      ShrinkDone(counts, usable);
    } else {
      var m := LastMax(counts);
      ShrinkStep(counts, usable);
      ShrinkExactly(counts[m := counts[m] - 1], usable);
    }
  }

  // ----- The three pools of a run -----

  datatype CorePlan = CorePlan(sender: seq<nat>, receiver: seq<nat>, gateway: seq<nat>)

  /** Gateway, sender and receiver, in this order. */
  function PlanWeights(): seq<nat> {
    [2, 1, 1]
  }

  function PlanOf(config: CorePlan, autoAffinity: bool, totalCores: nat): CorePlan {
    if autoAffinity && config == CorePlan([], [], []) then
      var parts := Partition(totalCores, PlanWeights());
      PartitionCovers(totalCores, PlanWeights());
      CorePlan(parts[1], parts[2], parts[0])
    else config
  }

  method ResolveCorePlan(config: CorePlan, autoAffinity: bool, totalCores: nat) returns (plan: CorePlan)
    ensures plan == PlanOf(config, autoAffinity, totalCores)
  {
    var allEmpty := config.sender == [] && config.receiver == [] && config.gateway == [];
    if autoAffinity && allEmpty {
      var parts := PartitionCores(totalCores, PlanWeights());
      PartitionCovers(totalCores, PlanWeights());
      return CorePlan(parts[1], parts[2], parts[0]);
    }
    plan := config;
  }

  lemma {:induction false} SumOfThree(a: nat, b: nat, c: nat)
    ensures Sum([a, b, c]) == a + b + c
  {
    assert [a, b, c][..2] == [a, b] && [a, b][..1] == [a] && [a][..0] == [];
    assert Sum([a]) == a;
    assert Sum([a, b]) == a + b;
  }

  lemma {:induction false} PlanShares(usable: nat)
    requires usable >= 3
    ensures var w := PlanWeights(); var q := AtLeastOne(usable / 4);
            Sizes(usable, w) == [usable - 2 * q, q, q]
  {
    var w, q := PlanWeights(), AtLeastOne(usable / 4);
    assert Weight(w) == [2, 1, 1];
    SumOfThree(2, 1, 1);
    var s := Shares(usable, w);
    assert s == [AtLeastOne(usable * 2 / 4), q, q];
    SumOfThree(s[0], q, q);
    assert LastMax(w) == 0;
    SharesAreKept(usable, w, 0);
    SharesAreKept(usable, w, 1);
    SharesAreKept(usable, w, 2);
  }

  /** With at least three usable cores the sender and the receiver each get a
      quarter, at least one, the gateway gets the rest, and the pools are the
      gateway's, the sender's and the receiver's cores in a row; with fewer the run
      is unpinned. A configured pool always wins. */
  lemma {:induction false} AutomaticPlan(config: CorePlan, autoAffinity: bool, totalCores: nat)
    ensures var p := PlanOf(config, autoAffinity, totalCores);
            var q := AtLeastOne(Usable(totalCores) / 4);
            if !autoAffinity || config != CorePlan([], [], []) then p == config
            else if Usable(totalCores) < 3 then p == CorePlan([], [], [])
            else
              && |p.sender| == |p.receiver| == q && |p.gateway| == Usable(totalCores) - 2 * q
              && p.gateway + p.sender + p.receiver == Run(Reserve(totalCores), Usable(totalCores))
  {
    if autoAffinity && config == CorePlan([], [], []) {
      PartitionCovers(totalCores, PlanWeights());
      if Usable(totalCores) >= 3 {
        PlanShares(Usable(totalCores));
        LayoutIsConsecutive(Reserve(totalCores), Sizes(Usable(totalCores), PlanWeights()));
        FlattenThree(Partition(totalCores, PlanWeights()));
      }
    }
  }

  lemma {:induction false} FlattenThree(sets: seq<seq<nat>>)
    requires |sets| == 3
    ensures Flatten(sets) == sets[0] + sets[1] + sets[2]
  {
    assert sets[..2] == [sets[0], sets[1]] && sets[..2][..1] == [sets[0]] && sets[..2][..1][..0] == [];
    assert Flatten(sets[..2][..1]) == sets[0];
    assert Flatten(sets[..2]) == sets[0] + sets[1];
  }
}
