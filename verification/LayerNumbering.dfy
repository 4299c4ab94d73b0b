/** Layer ranges of the checkpoint converter and layer renumbering of the checkpoint mergers. */
module LayerNumbering {
  import opened PipelineShards

  // ---------------------------------------------------------------- the converter

  /** The half-open range of layers that a rank converts. */
  function LayerStart(sizes: seq<int>, rank: nat): int
    requires rank < |sizes|
  {
    if rank == 0 then 0 else Sum(sizes[..rank])
  }

  function LayerEnd(sizes: seq<int>, rank: nat): int
    requires rank < |sizes|
  {
    Sum(sizes[..rank + 1])
  }

  predicate Converts(sizes: seq<int>, rank: nat, layer: int)
    requires rank < |sizes|
  {
    LayerStart(sizes, rank) <= layer < LayerEnd(sizes, rank)
  }

  predicate Positive(sizes: seq<int>) {
    forall i :: 0 <= i < |sizes| ==> 0 < sizes[i]
  }

  lemma RangeLength(sizes: seq<int>, rank: nat)
    requires rank < |sizes|
    ensures LayerEnd(sizes, rank) == LayerStart(sizes, rank) + sizes[rank]
  {
    assert sizes[..rank + 1][..rank] == sizes[..rank];
    if rank == 0 { assert Sum(sizes[..0]) == 0; }
  }

  lemma {:induction false} SumMonotone(sizes: seq<int>, i: nat, j: nat)
    requires Positive(sizes) && i <= j <= |sizes|
    ensures Sum(sizes[..i]) <= Sum(sizes[..j])
    decreases j - i
  {
    if i < j {
      SumMonotone(sizes, i, j - 1);
      assert sizes[..j][..j - 1] == sizes[..j - 1];
    }
  }

  /** Some rank converts each layer. */
  lemma {:induction false} Owner(sizes: seq<int>, layer: int, n: nat) returns (rank: nat)
    requires Positive(sizes) && n <= |sizes| && 0 <= layer < Sum(sizes[..n])
    ensures rank < n && Converts(sizes, rank, layer)
  {
    assert Sum(sizes[..0]) == 0;
    assert sizes[..n][..n - 1] == sizes[..n - 1];
    if layer < Sum(sizes[..n - 1]) {
      rank := Owner(sizes, layer, n - 1);
    } else {
      rank := n - 1;
    }
  }

  /** The ranges partition the layers: each layer is converted by exactly one rank. */
  lemma RangesPartition(sizes: seq<int>, layer: int)
    requires Positive(sizes) && 0 <= layer < Sum(sizes)
    ensures exists rank: nat :: rank < |sizes| && Converts(sizes, rank, layer)
    ensures forall r: nat, t: nat :: r < |sizes| && t < |sizes| && Converts(sizes, r, layer) && Converts(sizes, t, layer) ==> r == t
  {
    assert sizes[..|sizes|] == sizes;
    var rank := Owner(sizes, layer, |sizes|);
    forall r: nat, t: nat | r < |sizes| && t < |sizes| && Converts(sizes, r, layer) && Converts(sizes, t, layer)
      ensures r == t
    {
      if r < t { Apart(sizes, r, t); } else if t < r { Apart(sizes, t, r); }
    }
  }

  lemma Apart(sizes: seq<int>, r: nat, t: nat)
    requires Positive(sizes) && r < t < |sizes|
    ensures LayerEnd(sizes, r) <= LayerStart(sizes, t)
  {
    SumMonotone(sizes, r + 1, t);
  }

  // ---------------------------------------------------------------- the mergers

  /** The highest local layer number of a state dict, or 0 if it has no layer keys. */
  function Handled(locals: seq<nat>): nat {
    if locals == [] then 0 else
    var m := Handled(locals[..|locals| - 1]);
    if m < locals[|locals| - 1] then locals[|locals| - 1] else m
  }

  /** The running layer offset before the k-th state dict. */
  function Offset(start: int, dicts: seq<seq<nat>>, k: nat): int
    requires k <= |dicts|
  {
    if k == 0 then start else Offset(start, dicts, k - 1) + Handled(dicts[k - 1]) + 1
  }

  /** The merger's loop over state dicts: every local layer number is shifted by the running offset. */
  method Renumber(start: int, dicts: seq<seq<nat>>) returns (numbers: seq<seq<int>>)
    ensures |numbers| == |dicts|
    ensures forall k :: 0 <= k < |dicts| ==>
              |numbers[k]| == |dicts[k]| &&
              forall i :: 0 <= i < |dicts[k]| ==> numbers[k][i] == dicts[k][i] + Offset(start, dicts, k)
  {
    numbers := [];
    var layersCum := start;
    for k := 0 to |dicts|
      invariant |numbers| == k && layersCum == Offset(start, dicts, k)
      invariant forall j :: 0 <= j < k ==>
                  |numbers[j]| == |dicts[j]| &&
                  forall i :: 0 <= i < |dicts[j]| ==> numbers[j][i] == dicts[j][i] + Offset(start, dicts, j)
    {
      var layersHandled := 0;
      var renamed: seq<int> := [];
      var dict := dicts[k];
      for i := 0 to |dict|
        invariant layersHandled == Handled(dict[..i]) && |renamed| == i
        invariant forall j :: 0 <= j < i ==> renamed[j] == dict[j] + layersCum
      {
        assert dict[..i + 1][..i] == dict[..i];
        layersHandled := if layersHandled < dict[i] then dict[i] else layersHandled;
        renamed := renamed + [dict[i] + layersCum];
      }
      assert dict[..|dict|] == dict;
      numbers := numbers + [renamed];
      layersCum := layersCum + layersHandled + 1;
    }
  }

  /** A state dict holds the layers 0 .. size - 1 of its rank, in any order and any number of times. */
  predicate Holds(locals: seq<nat>, size: int) {
    (forall l :: l in locals ==> l < size) && (forall l: nat :: l < size ==> l in locals)
  }

  lemma InFrontOrLast(s: seq<nat>)
    requires s != []
    ensures forall x :: x in s <==> x in s[..|s| - 1] || x == s[|s| - 1]
  {
    assert s == s[..|s| - 1] + [s[|s| - 1]];
  }

  lemma {:induction false} HandledIsMax(locals: seq<nat>)
    ensures forall l :: l in locals ==> l <= Handled(locals)
    ensures locals != [] ==> Handled(locals) in locals
  {
    if locals != [] {
      var front, last := locals[..|locals| - 1], locals[|locals| - 1];
      HandledIsMax(front);
      InFrontOrLast(locals);
      var m := Handled(front);
      if front != [] && last <= m { assert m in front; }
    }
  }

  function Empties(sizes: seq<int>, k: nat): nat
    requires k <= |sizes|
  {
    if k == 0 then 0 else Empties(sizes, k - 1) + if sizes[k - 1] == 0 then 1 else 0
  }

  /** The running offset is the number of layers so far, plus one for each state dict without layers. */
  lemma {:induction false} OffsetCounts(start: int, dicts: seq<seq<nat>>, sizes: seq<int>, k: nat)
    requires |dicts| == |sizes| && k <= |dicts|
    requires forall i :: 0 <= i < |sizes| ==> 0 <= sizes[i] && Holds(dicts[i], sizes[i])
    ensures Offset(start, dicts, k) == start + Sum(sizes[..k]) + Empties(sizes, k)
  {
    if k == 0 {
      assert sizes[..0] == [];
    } else {
      OffsetCounts(start, dicts, sizes, k - 1);
      assert sizes[..k][..k - 1] == sizes[..k - 1];
      HandledIsMax(dicts[k - 1]);
      if 0 < sizes[k - 1] { assert sizes[k - 1] - 1 in dicts[k - 1]; }
    }
  }

  /** From any start, the merger numbers the k-th state dict right behind the layers of the earlier ones exactly
      when none of these is empty. */
  lemma RenumberInverts(start: int, dicts: seq<seq<nat>>, sizes: seq<int>, k: nat)
    requires |dicts| == |sizes| && k < |sizes|
    requires forall i :: 0 <= i < |sizes| ==> 0 <= sizes[i] && Holds(dicts[i], sizes[i])
    ensures Offset(start, dicts, k) == start + LayerStart(sizes, k) <==> forall i :: 0 <= i < k ==> 0 < sizes[i]
  {
    hide Holds;
    OffsetCounts(start, dicts, sizes, k);
    EmptiesZero(sizes, k);
    if k == 0 { assert sizes[..0] == []; }
  }

  lemma {:induction false} EmptiesZero(sizes: seq<int>, k: nat)
    requires k <= |sizes|
    ensures Empties(sizes, k) == 0 <==> forall i :: 0 <= i < k ==> sizes[i] != 0
  {
    if k > 0 { EmptiesZero(sizes, k - 1); }
  }

  /** Local layer l of the k-th state dict is written under the number `layer`. */
  predicate Lands(start: int, dicts: seq<seq<nat>>, k: nat, l: nat, layer: int) {
    k < |dicts| && l in dicts[k] && l + Offset(start, dicts, k) == layer
  }

  /** State dicts that hold all layers of their sizes. */
  predicate HoldAll(dicts: seq<seq<nat>>, sizes: seq<int>) {
    |dicts| == |sizes| && forall i :: 0 <= i < |sizes| ==> Holds(dicts[i], sizes[i])
  }

  lemma LandsWhere(start: int, dicts: seq<seq<nat>>, sizes: seq<int>, k: nat, l: nat, layer: int)
    requires HoldAll(dicts, sizes) && Positive(sizes) && k < |sizes|
    ensures Lands(start, dicts, k, l, layer) <==>
              Converts(sizes, k, layer - start) && l == layer - start - LayerStart(sizes, k)
  {
    RenumberInverts(start, dicts, sizes, k);
    RangeLength(sizes, k);
    hide LayerStart, LayerEnd, Offset;
    assert Holds(dicts[k], sizes[k]);
  }

  /** A list of state dicts gives every layer of its range exactly once. */
  lemma ListLands(start: int, dicts: seq<seq<nat>>, sizes: seq<int>, layer: int)
    requires HoldAll(dicts, sizes) && Positive(sizes) && start <= layer < start + Sum(sizes)
    ensures exists k, l :: Lands(start, dicts, k, l, layer)
    ensures forall k, l, t, m :: Lands(start, dicts, k, l, layer) && Lands(start, dicts, t, m, layer) ==> k == t && l == m
  {
    hide Lands, HoldAll, Converts;
    assert |dicts| == |sizes| by { SameCount(dicts, sizes); }
    RangesPartition(sizes, layer - start);
    var k: nat :| k < |sizes| && Converts(sizes, k, layer - start);
    RangeLength(sizes, k);
    StartBelow(sizes, k, layer - start);
    LandsWhere(start, dicts, sizes, k, layer - start - LayerStart(sizes, k), layer);
    forall k, l, t, m | Lands(start, dicts, k, l, layer) && Lands(start, dicts, t, m, layer) ensures k == t && l == m {
      LandsInside(start, dicts, k, l, layer);
      LandsInside(start, dicts, t, m, layer);
      LandsWhere(start, dicts, sizes, k, l, layer);
      LandsWhere(start, dicts, sizes, t, m, layer);
    }
  }

  lemma SameCount(dicts: seq<seq<nat>>, sizes: seq<int>)
    requires HoldAll(dicts, sizes)
    ensures |dicts| == |sizes|
  {
  }

  lemma StartBelow(sizes: seq<int>, k: nat, layer: int)
    requires k < |sizes| && Converts(sizes, k, layer)
    ensures LayerStart(sizes, k) <= layer
  {
  }

  lemma LandsInside(start: int, dicts: seq<seq<nat>>, k: nat, l: nat, layer: int)
    requires Lands(start, dicts, k, l, layer)
    ensures k < |dicts|
  {
  }

  /** Whenever the layers can be divided among the ranks, converting and merging in one process, state dict by
      state dict, gives every layer back exactly once and under its own number. */
  lemma EveryLayerOnce(layers: int, ranks: int, dicts: seq<seq<nat>>, layer: int)
    requires Expected(layers, ranks).Shards? && HoldAll(dicts, Expected(layers, ranks).sizes) && 0 <= layer < layers
    ensures exists r, l :: Lands(0, dicts, r, l, layer)
    ensures forall r, l, t, m :: Lands(0, dicts, r, l, layer) && Lands(0, dicts, t, m, layer) ==> r == t && l == m
  {
    hide Expected, HoldAll, Lands;
    EvenAgain(layers, ranks);
    ListLands(0, dicts, Expected(layers, ranks).sizes, layer);
  }

  /** In the distributed merger each rank starts at its own first layer and has its own list of state dicts. */
  predicate RankLands(sizes: seq<int>, lists: seq<seq<seq<nat>>>, r: nat, k: nat, l: nat, layer: int) {
    r < |lists| == |sizes| && Lands(LayerStart(sizes, r), lists[r], k, l, layer)
  }

  /** The lists of the ranks: each divides its rank's layers, whatever the number of its state dicts. */
  ghost predicate RanksHold(sizes: seq<int>, lists: seq<seq<seq<nat>>>, parts: seq<seq<int>>) {
    && |lists| == |parts| == |sizes|
    && forall r :: 0 <= r < |sizes| ==> HoldAll(lists[r], parts[r]) && Positive(parts[r]) && Sum(parts[r]) == sizes[r]
  }

  lemma RankLandsInside(sizes: seq<int>, lists: seq<seq<seq<nat>>>, parts: seq<seq<int>>, r: nat, k: nat, l: nat, layer: int)
    requires RanksHold(sizes, lists, parts) && RankLands(sizes, lists, r, k, l, layer)
    ensures r < |sizes| && Converts(sizes, r, layer)
  {
    var start, part := LayerStart(sizes, r), parts[r];
    assert HoldAll(lists[r], part) && Positive(part) && Sum(part) == sizes[r];
    LandsWhere(start, lists[r], part, k, l, layer);
    RangeLength(sizes, r);
    SumMonotone(part, k + 1, |part|);
    SumMonotone(part, 0, k);
    assert part[..|part|] == part && part[..0] == [];
  }

  /** Whenever the layers can be divided among the ranks, merging on all ranks gives every layer back exactly once
      and under its own number. */
  lemma EveryLayerOnceAcrossRanks(layers: int, ranks: int, lists: seq<seq<seq<nat>>>, parts: seq<seq<int>>, layer: int)
    requires Expected(layers, ranks).Shards? && RanksHold(Expected(layers, ranks).sizes, lists, parts) && 0 <= layer < layers
    ensures var sizes := Expected(layers, ranks).sizes;
            && (exists r, k, l :: RankLands(sizes, lists, r, k, l, layer))
            && forall r, k, l, t, m, n :: RankLands(sizes, lists, r, k, l, layer) && RankLands(sizes, lists, t, m, n, layer) ==>
                 r == t && k == m && l == n
  {
    var sizes := Expected(layers, ranks).sizes;
    EvenAgain(layers, ranks);
    hide Expected, Lands, LayerStart, LayerEnd, HoldAll;
    RangesPartition(sizes, layer);
    var rank: nat :| rank < |sizes| && Converts(sizes, rank, layer);
    assert HoldAll(lists[rank], parts[rank]) && Positive(parts[rank]) && Sum(parts[rank]) == sizes[rank];
    RangeLength(sizes, rank);
    ListLands(LayerStart(sizes, rank), lists[rank], parts[rank], layer);
    var k, l :| Lands(LayerStart(sizes, rank), lists[rank], k, l, layer);
    assert RankLands(sizes, lists, rank, k, l, layer);
    forall r, k, l, t, m, n | RankLands(sizes, lists, r, k, l, layer) && RankLands(sizes, lists, t, m, n, layer)
      ensures r == t && k == m && l == n
    {
      RankLandsInside(sizes, lists, parts, r, k, l, layer);
      RankLandsInside(sizes, lists, parts, t, m, n, layer);
      assert r == rank && t == rank;
    }
  }

  lemma EvenAgain(layers: int, ranks: int)
    requires Expected(layers, ranks).Shards?
    ensures var sizes := Expected(layers, ranks).sizes; |sizes| == ranks && Sum(sizes) == layers && Positive(sizes)
  {
    var sizes := Expected(layers, ranks).sizes;
    SizesAddUp(layers, ranks);
    DivisionIsEven(layers, ranks, sizes, LargestOf(sizes));
  }

  function LargestOf(s: seq<int>): (m: int)
    ensures forall i :: 0 <= i < |s| ==> s[i] <= m
  {
    if s == [] then 0 else
    var m := LargestOf(s[..|s| - 1]);
    if m < s[|s| - 1] then s[|s| - 1] else m
  }
}
