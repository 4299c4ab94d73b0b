/** How the layers of a model are divided among pipeline ranks, and how they are numbered. */
module PipelineShards {

  /** What the search returns or raises. */
  datatype SearchResult = Shards(sizes: seq<int>) | TooFewLayers | BadSize | NoStrategy

  function Sum(s: seq<int>): int {
    if s == [] then 0 else Sum(s[..|s| - 1]) + s[|s| - 1]
  }

  function CeilDiv(a: int, b: int): int
    requires 0 < b
  {
    (a + b - 1) / b
  }

  // ---------------------------------------------------------------- the search

  function FirstSize(layers: int, ranks: int, middle: int): int {
    (layers - middle * (ranks - 2)) / 2
  }

  function LastSize(layers: int, ranks: int, middle: int): int {
    layers - middle * (ranks - 2) - FirstSize(layers, ranks, middle)
  }

  /** The guard of the search loop. */
  predicate Fits(layers: int, ranks: int, middle: int) {
    0 < FirstSize(layers, ranks, middle) <= middle && 0 < LastSize(layers, ranks, middle) <= middle
  }

  function Strategy(layers: int, ranks: int, middle: int): seq<int>
    requires 2 <= ranks
  {
    [FirstSize(layers, ranks, middle)] + seq(ranks - 2, _ => middle) + [LastSize(layers, ranks, middle)]
  }

  function Spread(layers: int, ranks: int, middle: int): int {
    var d := FirstSize(layers, ranks, middle) - middle;
    if d < 0 then -d else d
  }

  /** A strategy exists for at least three ranks exactly under this condition on the two sizes. */
  predicate Divisible(layers: int, ranks: int)
    requires 0 < ranks
  {
    CeilDiv(layers, ranks) * (ranks - 2) <= layers - 2
  }

  /** The loop's guard in closed form. */
  lemma FitsExactly(layers: int, ranks: int, middle: int)
    requires 3 <= ranks <= layers && 0 <= middle
    ensures Fits(layers, ranks, middle) <==> CeilDiv(layers, ranks) <= middle && middle * (ranks - 2) <= layers - 2
  {
    var ends := layers - middle * (ranks - 2);
    assert middle * ranks == middle * (ranks - 2) + 2 * middle;
    CeilMeaning(layers, ranks, middle);
    assert Fits(layers, ranks, middle) <==> 2 <= ends <= 2 * middle;
  }

  lemma CeilMeaning(a: int, b: int, m: int)
    requires 0 < b
    ensures CeilDiv(a, b) <= m <==> a <= m * b
  {
    var q := CeilDiv(a, b);
    assert q * b <= a + b - 1 < q * b + b;
    if q <= m {
      MulMonotone(q, m, b);
    } else {
      MulMonotone(m + 1, q, b);
      assert (m + 1) * b == m * b + b;
    }
  }

  lemma MulMonotone(x: int, y: int, b: int)
    requires x <= y && 0 <= b
    ensures x * b <= y * b
  {
  }

  /** Larger middle stages are strictly less even. */
  lemma SpreadIncreases(layers: int, ranks: int, m: int, n: int)
    requires 3 <= ranks && m < n && FirstSize(layers, ranks, m) <= m && FirstSize(layers, ranks, n) <= n
    ensures Spread(layers, ranks, m) < Spread(layers, ranks, n)
  {
    MulMonotone(m, n, ranks - 2);
  }

  /** One candidate of the search, with its sort key. */
  datatype Candidate = Candidate(sizes: seq<int>, spread: int)

  function CandidateOf(layers: int, ranks: int, middle: int): Candidate
    requires 3 <= ranks
  {
    Candidate(Strategy(layers, ranks, middle), Spread(layers, ranks, middle))
  }

  /** The first entry of a stable sort by spread. */
  method FirstOfSorted(candidates: seq<Candidate>) returns (best: Candidate)
    requires candidates != []
    ensures exists k :: 0 <= k < |candidates| && best == candidates[k]
              && (forall i :: 0 <= i < |candidates| ==> best.spread <= candidates[i].spread)
              && (forall i :: 0 <= i < k ==> best.spread < candidates[i].spread)
  {
    best := candidates[0];
    ghost var at := 0;
    for i := 1 to |candidates|
      invariant 0 <= at < i && best == candidates[at]
      invariant forall j :: 0 <= j < i ==> best.spread <= candidates[j].spread
      invariant forall j :: 0 <= j < at ==> best.spread < candidates[j].spread
    {
      if candidates[i].spread < best.spread {
        best, at := candidates[i], i;
      }
    }
  }

  /** What the search yields, in closed form: the middle stages get ceil(layers / ranks) layers. */
  function Expected(layers: int, ranks: int): SearchResult {
    if layers < ranks then TooFewLayers
    else if ranks < 1 then BadSize
    else if ranks == 1 then Shards([layers])
    else if ranks == 2 then Shards([layers / 2, layers - layers / 2])
    else if Divisible(layers, ranks) then Shards(Strategy(layers, ranks, CeilDiv(layers, ranks)))
    else NoStrategy
  }

  lemma CeilBounds(layers: int, ranks: int)
    requires 3 <= ranks <= layers
    ensures 1 <= CeilDiv(layers, ranks) < layers
  {
    CeilMeaning(layers, ranks, 0);
    CeilMeaning(layers, ranks, layers - 1);
    MulMonotone(3, ranks, layers - 1);
    assert ranks * (layers - 1) == (layers - 1) * ranks;
  }

  lemma CandidateCase(layers: int, ranks: int, middle: int)
    requires 3 <= ranks <= layers && 0 <= middle && Fits(layers, ranks, middle)
    ensures Divisible(layers, ranks) && CeilDiv(layers, ranks) <= middle
  {
    FitsExactly(layers, ranks, middle);
    MulMonotone(CeilDiv(layers, ranks), middle, ranks - 2);
  }

  /** For at least three ranks the search finds a strategy exactly under the divisibility condition. */
  lemma StrategyExists(layers: int, ranks: int)
    requires 3 <= ranks <= layers
    ensures (exists middle :: 0 <= middle < layers && Fits(layers, ranks, middle)) <==> Divisible(layers, ranks)
  {
    if middle :| 0 <= middle < layers && Fits(layers, ranks, middle) {
      CandidateCase(layers, ranks, middle);
    }
    CeilBounds(layers, ranks);
    FitsExactly(layers, ranks, CeilDiv(layers, ranks));
  }

  /** The search over all middle sizes, sorted by spread, equals the closed form. */
  method GetDynamicPipelineShards(layers: int, ranks: int) returns (r: SearchResult)
    ensures r == Expected(layers, ranks)
    ensures r.TooFewLayers? <==> layers < ranks
    ensures r.BadSize? <==> ranks <= layers && ranks < 1
    ensures r.NoStrategy? <==> 3 <= ranks <= layers && layers - 2 < CeilDiv(layers, ranks) * (ranks - 2)
    ensures r.Shards? ==> |r.sizes| == ranks && Sum(r.sizes) == layers && EvenEnds(r.sizes, layers)
  {
    Outcomes(layers, ranks);
    if layers < ranks { return TooFewLayers; }
    if ranks < 1 { return BadSize; }
    if ranks == 1 { return Shards([layers]); }
    if ranks == 2 { return Shards([layers / 2, layers - layers / 2]); }
    var middleSize := ranks - 2;
    ghost var best := CeilDiv(layers, ranks);
    CeilBounds(layers, ranks);
    var strategies: seq<Candidate> := [];
    for middle := 0 to layers
      invariant middle <= best || !Divisible(layers, ranks) ==> strategies == []
      invariant best < middle && Divisible(layers, ranks) ==>
                  && strategies != [] && strategies[0] == CandidateOf(layers, ranks, best)
                  && forall i :: 0 < i < |strategies| ==> strategies[0].spread < strategies[i].spread
    {
      var ends := layers - middle * middleSize;
      var first, last := ends / 2, ends - ends / 2;
      if 0 < first <= middle && 0 < last <= middle {
        CandidateCase(layers, ranks, middle);
        FitsExactly(layers, ranks, best);
        if best < middle { SpreadIncreases(layers, ranks, best, middle); }
        var spread := if first - middle < 0 then middle - first else first - middle;
        strategies := strategies + [Candidate([first] + seq(middleSize, _ => middle) + [last], spread)];
      } else {
        FitsExactly(layers, ranks, middle);
      }
    }
    if strategies == [] { return NoStrategy; }
    var chosen := FirstOfSorted(strategies);
    assert chosen == strategies[0];
    r := Shards(chosen.sizes);
  }

  // ---------------------------------------------------------------- what the division guarantees

  /** All stages between the ends have ceil(layers / ranks) layers; the ends share the rest evenly, an odd layer
      going to the last stage. */
  predicate EvenEnds(sizes: seq<int>, layers: int) {
    && 0 < |sizes|
    && (2 <= |sizes| ==> sizes[0] <= sizes[|sizes| - 1] <= sizes[0] + 1)
    && forall i :: 0 < i < |sizes| - 1 ==> sizes[i] == CeilDiv(layers, |sizes|)
  }

  lemma ExpectedEnds(layers: int, ranks: int)
    requires Expected(layers, ranks).Shards?
    ensures |Expected(layers, ranks).sizes| == ranks && EvenEnds(Expected(layers, ranks).sizes, layers)
  {
    hide CeilDiv;
  }

  /** Every outcome by its inputs. */
  lemma Outcomes(layers: int, ranks: int)
    ensures var r := Expected(layers, ranks);
            && (r.TooFewLayers? <==> layers < ranks)
            && (r.BadSize? <==> ranks <= layers && ranks < 1)
            && (r.NoStrategy? <==> 3 <= ranks <= layers && layers - 2 < CeilDiv(layers, ranks) * (ranks - 2))
            && (r.Shards? ==> |r.sizes| == ranks && Sum(r.sizes) == layers && EvenEnds(r.sizes, layers))
  {
    hide CeilDiv, Sum, EvenEnds, Strategy;
    if Expected(layers, ranks).Shards? {
      SizesAddUp(layers, ranks);
      ExpectedEnds(layers, ranks);
    }
  }

  /** Count, sum and shape leave only one division. */
  lemma EvenEndsUnique(a: seq<int>, b: seq<int>, layers: int)
    requires |a| == |b| && Sum(a) == Sum(b) && EvenEnds(a, layers) && EvenEnds(b, layers)
    ensures a == b
  {
    var n := |a|;
    SumEnds(a);
    SumEnds(b);
    if 2 <= n {
      assert a[1..n - 1] == b[1..n - 1];
    }
  }

  lemma SumEnds(s: seq<int>)
    requires s != []
    ensures Sum(s) == if |s| == 1 then s[0] else s[0] + Sum(s[1..|s| - 1]) + s[|s| - 1]
  {
    SumSingle(s[0]);
    if |s| == 1 {
      assert s == [s[0]];
    } else {
      var n := |s|;
      assert s[..n - 1] == [s[0]] + s[1..n - 1];
      SumConcat([s[0]], s[1..n - 1]);
    }
  }

  lemma {:induction false} SumConcat(a: seq<int>, b: seq<int>)
    ensures Sum(a + b) == Sum(a) + Sum(b)
    decreases |b|
  {
    if b == [] {
      assert a + b == a;
    } else {
      SumConcat(a, b[..|b| - 1]);
      assert (a + b)[..|a + b| - 1] == a + b[..|b| - 1];
    }
  }

  lemma {:induction false} SumConstant(n: nat, x: int)
    ensures Sum(seq(n, _ => x)) == n * x
  {
    if n > 0 {
      SumConstant(n - 1, x);
      assert seq(n, _ => x)[..n - 1] == seq(n - 1, _ => x);
      assert n * x == (n - 1) * x + x;
    }
  }

  lemma {:induction false} SumBounded(s: seq<int>, m: int)
    requires forall i :: 0 <= i < |s| ==> s[i] <= m
    ensures Sum(s) <= |s| * m
  {
    if s != [] {
      SumBounded(s[..|s| - 1], m);
      assert |s| * m == (|s| - 1) * m + m;
    }
  }

  lemma SizesAddUp(layers: int, ranks: int)
    requires Expected(layers, ranks).Shards?
    ensures |Expected(layers, ranks).sizes| == ranks && Sum(Expected(layers, ranks).sizes) == layers
  {
    var sizes := Expected(layers, ranks).sizes;
    if ranks == 1 {
      SumSingle(layers);
    } else if ranks == 2 {
      SumSingle(layers / 2);
      assert sizes[..1] == [layers / 2];
    } else {
      var m := CeilDiv(layers, ranks);
      var middles := seq(ranks - 2, _ => m);
      SumConstant(ranks - 2, m);
      SumConcat([FirstSize(layers, ranks, m)] + middles, [LastSize(layers, ranks, m)]);
      SumConcat([FirstSize(layers, ranks, m)], middles);
      SumSingle(FirstSize(layers, ranks, m));
      SumSingle(LastSize(layers, ranks, m));
      assert (ranks - 2) * m == m * (ranks - 2);
    }
  }

  /** Whenever sizes are returned there is one per rank, each at least one layer, they add up to all layers,
      none exceeds ceil(layers / ranks), and no division of the layers has a smaller maximum. */
  lemma DivisionIsEven(layers: int, ranks: int, other: seq<int>, bound: int)
    requires Expected(layers, ranks).Shards?
    requires |other| == ranks && Sum(other) == layers && forall i :: 0 <= i < |other| ==> other[i] <= bound
    ensures var sizes := Expected(layers, ranks).sizes;
            && |sizes| == ranks && Sum(sizes) == layers
            && forall i :: 0 <= i < |sizes| ==> 1 <= sizes[i] <= CeilDiv(layers, ranks) <= bound
  {
    hide Expected, Sum, CeilDiv;
    SizesAddUp(layers, ranks);
    EachSize(layers, ranks);
    BoundCovers(layers, ranks, other, bound);
  }

  /** A bound on the sizes of any division is at least the even share. */
  lemma BoundCovers(layers: int, ranks: int, other: seq<int>, bound: int)
    requires 1 <= ranks && |other| == ranks && Sum(other) == layers && forall i :: 0 <= i < |other| ==> other[i] <= bound
    ensures CeilDiv(layers, ranks) <= bound
  {
    hide CeilDiv, Sum;
    SumBounded(other, bound);
    CeilMeaning(layers, ranks, bound);
    assert ranks * bound == bound * ranks;
  }

  /** Every returned size is positive and at most the even share. */
  lemma EachSize(layers: int, ranks: int)
    requires Expected(layers, ranks).Shards?
    ensures 1 <= ranks
    ensures forall i :: 0 <= i < |Expected(layers, ranks).sizes| ==> 1 <= Expected(layers, ranks).sizes[i] <= CeilDiv(layers, ranks)
  {
    if 3 <= ranks {
      FitsExactly(layers, ranks, CeilDiv(layers, ranks));
      hide CeilDiv, FirstSize, LastSize;
    }
  }

  lemma SumSingle(x: int)
    ensures Sum([x]) == x
  {
    assert [x][..0] == [];
  }

  /** Having at least one layer per rank is not enough: five layers on four ranks are refused. */
  lemma EnoughLayersMayStillFail()
    ensures Expected(5, 4) == NoStrategy && 4 <= 5
  {
    assert CeilDiv(5, 4) == 2;
  }
}
