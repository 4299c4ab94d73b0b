/** Unstacking expert weights, and when it undoes the stacking. */
module MoeSplit {
  import opened Outcomes
  import opened MoeExperts

  predicate HasRows(t: Tensor, n: nat) {
    n == 0 || HasRow(t, n - 1)
  }

  /** A key that unstacking group g writes or removes. */
  ghost predicate Touched(m: StateDict, key: string, g: nat, n: nat) {
    StackedKey(g) in m && Owned(key, g, n)
  }

  ghost predicate Untouched(m: StateDict, key: string, lo: nat, hi: nat, n: nat) {
    forall g :: lo <= g < hi ==> !Touched(m, key, g, n)
  }

  /** `out` is `m` with every stack of the groups lo..hi replaced by its first n rows, and nothing else changed. */
  ghost predicate Splits(m: StateDict, out: StateDict, lo: nat, hi: nat, n: nat) {
    && (forall g :: lo <= g < hi ==> StackedKey(g) !in out && (StackedKey(g) in m ==> HasRows(m[StackedKey(g)], n)))
    && (forall g, j :: lo <= g < hi && 0 <= j < n && StackedKey(g) in m ==>
          ExpertKey(g, j) in out && out[ExpertKey(g, j)] == RowAt(m[StackedKey(g)], j))
    && forall key :: Untouched(m, key, lo, hi, n) ==> Same(m, out, key)
  }

  lemma ExpertsDistinct(g: nat, j: nat)
    ensures forall i :: 0 <= i < j ==> ExpertKey(g, i) != ExpertKey(g, j)
  {
    hide ExpertKey;
    forall i | 0 <= i < j && ExpertKey(g, i) == ExpertKey(g, j) ensures false {
      ExpertInjective(g, i, g, j);
    }
  }

  /** Pop the stack of one group, if it is there, and insert its rows. */
  method SplitGroup(m: StateDict, g: nat, n: nat) returns (r: Outcome<StateDict>)
    ensures r.Ok? <==> (StackedKey(g) in m ==> HasRows(m[StackedKey(g)], n))
    ensures r.Ok? ==> Splits(m, r.value, g, g + 1, n)
  {
    hide StackedKey, ExpertKey, RowAt;
    if StackedKey(g) !in m {
      return Ok(m);
    }
    var stacked := m[StackedKey(g)];
    var dict: StateDict := m - {StackedKey(g)};
    for j := 0 to n
      invariant j > 0 ==> HasRow(stacked, j - 1)
      invariant StackedKey(g) !in dict
      invariant forall i :: 0 <= i < j ==> ExpertKey(g, i) in dict && dict[ExpertKey(g, i)] == RowAt(stacked, i)
      invariant forall key :: key != StackedKey(g) && !IsExpert(key, g, j) ==> Same(m, dict, key)
    {
      if !HasRow(stacked, j) {
        return Crash;
      }
      ghost var before: StateDict := dict;
      StackedIsNoExpert(g, g, j);
      dict := dict[ExpertKey(g, j) := RowAt(stacked, j)];
      ExpertsDistinct(g, j);
      forall k | k != StackedKey(g) && !IsExpert(k, g, j + 1) ensures Same(m, dict, k) {
        ExpertNext(k, g, j);
        assert Same(m, before, k);
      }
    }
    forall key | Untouched(m, key, g, g + 1, n) ensures Same(m, dict, key) {
      assert !Touched(m, key, g, n);
    }
    r := Ok(dict);
  }

  /** Groups not yet unstacked still have their stack. */
  lemma OthersUntouched(m: StateDict, key: string, g: nat, lo: nat, hi: nat, n: nat)
    requires Owned(key, g, n) && !(lo <= g < hi)
    ensures Untouched(m, key, lo, hi, n)
  {
    hide Owned;
    OthersFree(key, g, lo, hi, n);
  }

  lemma SplitsNext(m: StateDict, mid: StateDict, out: StateDict, lo: nat, g: nat, n: nat)
    requires Splits(m, mid, lo, g, n) && Splits(mid, out, g, g + 1, n) && lo <= g
    ensures Splits(m, out, lo, g + 1, n)
  {
    hide StackedKey, ExpertKey, RowAt, Owned, HasRows;
    OwnedKeys(n);
    OthersUntouched(m, StackedKey(g), g, lo, g, n);
    assert Same(m, mid, StackedKey(g));
    forall h | lo <= h < g ensures Same(mid, out, StackedKey(h)) {
      OthersUntouched(mid, StackedKey(h), h, g, g + 1, n);
    }
    forall h, j | lo <= h < g && 0 <= j < n ensures Same(mid, out, ExpertKey(h, j)) {
      OthersUntouched(mid, ExpertKey(h, j), h, g, g + 1, n);
    }
    forall key | Untouched(m, key, lo, g + 1, n) ensures Same(m, out, key) {
      assert Untouched(m, key, lo, g, n) && !Touched(m, key, g, n);
      assert Untouched(mid, key, g, g + 1, n);
    }
  }

  lemma NothingSplit(m: StateDict, n: nat)
    ensures Splits(m, m, 0, 0, n)
  {
  }

  lemma StackKept(m: StateDict, mid: StateDict, g: nat, n: nat)
    requires Splits(m, mid, 0, g, n)
    ensures Same(m, mid, StackedKey(g))
  {
    hide StackedKey;
    OwnedKeys(n);
    OthersUntouched(m, StackedKey(g), g, 0, g, n);
  }

  /** Every stack among the layers has at least n rows. */
  ghost predicate Splittable(m: StateDict, hi: nat, n: nat) {
    forall g :: 0 <= g < hi && StackedKey(g) in m ==> HasRows(m[StackedKey(g)], n)
  }

  /** Unstack the experts of all layers. */
  method SplitExperts(m: StateDict, layers: nat, n: nat) returns (r: Outcome<StateDict>)
    ensures r.Ok? <==> Splittable(m, 3 * layers, n)
    ensures r.Ok? ==> Splits(m, r.value, 0, 3 * layers, n)
  {
    hide Splits, StackedKey, HasRows;
    var dict := m;
    NothingSplit(m, n);
    for i := 0 to layers
      invariant Splittable(m, 3 * i, n) && Splits(m, dict, 0, 3 * i, n)
    {
      for p := 0 to 3
        invariant Splittable(m, 3 * i + p, n) && Splits(m, dict, 0, 3 * i + p, n)
      {
        StackKept(m, dict, 3 * i + p, n);
        var next :- SplitGroup(dict, 3 * i + p, n);
        SplitsNext(m, dict, next, 0, 3 * i + p, n);
        dict := next;
      }
    }
    r := Ok(dict);
  }

  // ---------------------------------------------------------------- round trip

  ghost predicate NoStacks(sd: StateDict, hi: nat) {
    forall g :: 0 <= g < hi ==> StackedKey(g) !in sd
  }

  ghost predicate Mergeable(sd: StateDict, lo: nat, hi: nat, n: nat) {
    forall g :: lo <= g < hi ==> Stackable(sd, g, n)
  }

  /** The only stacks after merging are those it made. */
  lemma OnlyMadeStacks(sd: StateDict, m: StateDict, lo: nat, hi: nat, n: nat, g: nat)
    requires Merged(sd, m, lo, hi, n) && NoStacks(sd, hi) && g < hi && StackedKey(g) in m
    ensures lo <= g
  {
    hide StackedKey, ExpertKey, StackOf;
    if g < lo {
      OwnedKeys(n);
      OthersFree(StackedKey(g), g, lo, hi, n);
    }
  }

  lemma MergedIsSplittable(sd: StateDict, m: StateDict, lo: nat, hi: nat, n: nat)
    requires Merged(sd, m, lo, hi, n) && NoStacks(sd, hi)
    ensures Splittable(m, hi, n)
  {
    hide StackedKey, ExpertKey;
    forall g | 0 <= g < hi && StackedKey(g) in m ensures HasRows(m[StackedKey(g)], n) {
      OnlyMadeStacks(sd, m, lo, hi, n, g);
    }
  }

  lemma ExpertRestored(sd: StateDict, m: StateDict, out: StateDict, lo: nat, hi: nat, n: nat, g: nat, j: nat)
    requires Merged(sd, m, lo, hi, n) && Splits(m, out, 0, hi, n) && lo <= g < hi && j < n
    ensures Same(sd, out, ExpertKey(g, j))
  {
    hide StackedKey, ExpertKey, RowAt, Stack;
    assert StackOf(sd, g, n).Ok?;
    StackRows(Experts(sd, g, n), j);
  }

  lemma KeyRestored(sd: StateDict, m: StateDict, out: StateDict, lo: nat, hi: nat, n: nat, key: string)
    requires Merged(sd, m, lo, hi, n) && Splits(m, out, 0, hi, n) && NoStacks(sd, hi)
    ensures Same(sd, out, key)
  {
    hide StackedKey, ExpertKey, RowAt, StackOf, HasRows;
    if Free(key, lo, hi, n) {
      forall g | 0 <= g < hi ensures !Touched(m, key, g, n) {
        if StackedKey(g) in m {
          OnlyMadeStacks(sd, m, lo, hi, n, g);
        }
      }
      assert Same(sd, m, key);
      assert Untouched(m, key, 0, hi, n);
    } else {
      var g :| lo <= g < hi && Owned(key, g, n);
      if IsExpert(key, g, n) {
        var j :| 0 <= j < n && key == ExpertKey(g, j);
        ExpertRestored(sd, m, out, lo, hi, n, g, j);
      }
    }
  }

  /** Splitting a merged state dict restores it, other entries included, exactly when the original had no
      stacked entry of its own in any layer. */
  lemma SplitRestores(sd: StateDict, m: StateDict, out: StateDict, lo: nat, hi: nat, n: nat)
    requires Merged(sd, m, lo, hi, n) && Splits(m, out, 0, hi, n)
    ensures out == sd <==> NoStacks(sd, hi)
  {
    hide Merged, Splits, StackedKey;
    if NoStacks(sd, hi) {
      forall key ensures Same(sd, out, key) {
        KeyRestored(sd, m, out, lo, hi, n, key);
      }
      SameEverywhere(sd, out);
    } else {
      var g :| 0 <= g < hi && StackedKey(g) in sd;
      StackGone(m, out, hi, n, g);
    }
  }

  lemma StackGone(m: StateDict, out: StateDict, hi: nat, n: nat, g: nat)
    requires Splits(m, out, 0, hi, n) && g < hi
    ensures StackedKey(g) !in out
  {
  }

  /** Merge from layer `start` on, then split all layers. */
  method MergeThenSplit(sd: StateDict, start: nat, layers: nat, n: nat) returns (r: Outcome<StateDict>)
    ensures !Mergeable(sd, 3 * start, 3 * layers, n) ==> r.Crash?
    ensures Mergeable(sd, 3 * start, 3 * layers, n) ==> (r == Ok(sd) <==> NoStacks(sd, 3 * layers))
  {
    hide Merged, Splits, Stackable, Holds, NoStacks, Splittable;
    var merged :- MergeExperts(sd, start, layers, n);
    if NoStacks(sd, 3 * layers) {
      MergedIsSplittable(sd, merged, 3 * start, 3 * layers, n);
    }
    var out :- SplitExperts(merged, layers, n);
    SplitRestores(sd, merged, out, 3 * start, 3 * layers, n);
    r := Ok(out);
  }
}
