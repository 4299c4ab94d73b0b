/** Stacking the expert weights of every mixture-of-experts layer into one tensor per projection, and
    unstacking them again. */
module MoeExperts {
  import opened Outcomes
  import opened Decimals
  import opened IntMath
  import opened Shapes

  datatype Entries = Tensor(shape: seq<nat>, flat: seq<int>)

  /** A dense tensor: its shape, and its entries in row-major order. */
  type Tensor = t: Entries | |t.flat| == Numel(t.shape) witness Tensor([0], [])

  type StateDict = map<string, Tensor>

  // ---------------------------------------------------------------- stacking and indexing

  predicate SameShape(ts: seq<Tensor>) {
    forall i :: 0 <= i < |ts| ==> ts[i].shape == ts[0].shape
  }

  function Concat(ts: seq<Tensor>): seq<int> {
    if ts == [] then [] else Concat(ts[..|ts| - 1]) + ts[|ts| - 1].flat
  }

  ghost predicate AllSize(ts: seq<Tensor>, m: nat) {
    forall i :: 0 <= i < |ts| ==> |ts[i].flat| == m
  }

  lemma {:induction false} ConcatLength(ts: seq<Tensor>, m: nat)
    requires AllSize(ts, m)
    ensures |Concat(ts)| == Mul(|ts|, m)
  {
    if ts != [] {
      ConcatLength(ts[..|ts| - 1], m);
      MulNext(|ts| - 1, m);
    }
  }

  lemma {:induction false} ConcatSlice(ts: seq<Tensor>, m: nat, j: nat)
    requires AllSize(ts, m) && j < |ts|
    ensures Mul(j, m) + m <= |Concat(ts)| && Concat(ts)[Mul(j, m)..Mul(j, m) + m] == ts[j].flat
  {
    hide Mul;
    var n := |ts| - 1;
    var front := ts[..n];
    ConcatLength(front, m);
    var a, b := Concat(front), ts[n].flat;
    assert Concat(ts) == a + b;
    if j < n {
      ConcatSlice(front, m, j);
      assert (a + b)[Mul(j, m)..Mul(j, m) + m] == a[Mul(j, m)..Mul(j, m) + m];
    } else {
      assert (a + b)[|a|..|a| + m] == b;
    }
  }

  /** Joining tensors along a new first dimension; none at all, or unequal shapes, raise. */
  function Stack(ts: seq<Tensor>): Outcome<Tensor> {
    if ts == [] || !SameShape(ts) then Crash else
    ConcatLength(ts, Numel(ts[0].shape));
    assert ([|ts|] + ts[0].shape)[1..] == ts[0].shape;
    Ok(Tensor([|ts|] + ts[0].shape, Concat(ts)))
  }

  predicate HasRow(t: Tensor, j: nat) {
    t.shape != [] && j < t.shape[0]
  }

  lemma RowFits(t: Tensor, j: nat)
    requires HasRow(t, j)
    ensures Mul(j, Numel(t.shape[1..])) + Numel(t.shape[1..]) <= |t.flat|
  {
    var m := Numel(t.shape[1..]);
    Ahead(m, j, t.shape[0]);
    Commute(m, j);
    Commute(m, t.shape[0]);
  }

  /** Entry j along the first dimension. */
  function RowAt(t: Tensor, j: nat): Tensor
    requires HasRow(t, j)
  {
    var m := Numel(t.shape[1..]);
    RowFits(t, j);
    Tensor(t.shape[1..], t.flat[Mul(j, m)..Mul(j, m) + m])
  }

  /** Indexing a stack gives back what was stacked. */
  lemma StackRows(ts: seq<Tensor>, j: nat)
    requires Stack(ts).Ok? && j < |ts|
    ensures HasRow(Stack(ts).value, j) && RowAt(Stack(ts).value, j) == ts[j]
  {
    hide Concat, Mul;
    var t := Stack(ts).value;
    assert t.shape[1..] == ts[0].shape;
    ConcatSlice(ts, Numel(ts[0].shape), j);
  }

  /** What a stack of tensors is, entry by entry: the tensors are its rows, and it has no others. */
  ghost predicate IsStack(t: Tensor, ts: seq<Tensor>) {
    && ts != [] && t.shape == [|ts|] + ts[0].shape && |t.flat| == Mul(|ts|, |ts[0].flat|)
    && forall j, k :: 0 <= j < |ts| && 0 <= k < |ts[0].flat| ==> CellIs(t, |ts[0].flat|, j, k, ts[j])
  }

  /** Entry k of row j, for rows of m entries, is entry k of r. */
  predicate CellIs(t: Tensor, m: nat, j: nat, k: nat, r: Tensor) {
    |r.flat| == m && k < m && Mul(j, m) + k < |t.flat| && t.flat[Mul(j, m) + k] == r.flat[k]
  }

  lemma StackCell(ts: seq<Tensor>, m: nat, j: nat, k: nat)
    requires AllSize(ts, m) && j < |ts| && k < m
    ensures Mul(j, m) + k < |Concat(ts)| && Concat(ts)[Mul(j, m) + k] == ts[j].flat[k]
  {
    hide Mul, Concat;
    ConcatSlice(ts, m, j);
    assert Concat(ts)[Mul(j, m)..Mul(j, m) + m][k] == ts[j].flat[k];
  }

  /** Stacking fails exactly on no tensors or unequal shapes. */
  lemma StackExactly(ts: seq<Tensor>)
    ensures Stack(ts).Ok? <==> ts != [] && forall i :: 0 <= i < |ts| ==> ts[i].shape == ts[0].shape
    ensures Stack(ts).Ok? ==> IsStack(Stack(ts).value, ts)
  {
    if Stack(ts).Ok? {
      var t, m := Stack(ts).value, |ts[0].flat|;
      ConcatLength(ts, m);
      hide Mul, Concat;
      assert t.flat == Concat(ts) && |t.flat| == Mul(|ts|, m) && t.shape == [|ts|] + ts[0].shape;
      forall j, k | 0 <= j < |ts| && 0 <= k < m
        ensures CellIs(t, m, j, k, ts[j])
      {
        StackCell(ts, m, j, k);
      }
    }
  }

  /** Indexing the first dimension, entry by entry. */
  lemma RowCells(t: Tensor, j: nat, k: nat)
    requires HasRow(t, j) && k < |RowAt(t, j).flat|
    ensures RowAt(t, j).shape == t.shape[1..] && Mul(t.shape[0], |RowAt(t, j).flat|) == |t.flat|
    ensures Mul(j, |RowAt(t, j).flat|) + k < |t.flat| && RowAt(t, j).flat[k] == t.flat[Mul(j, |RowAt(t, j).flat|) + k]
  {
    RowFits(t, j);
  }

  // ---------------------------------------------------------------- names

  // A group is one projection of one layer, numbered 3 * layer + projection.

  function Projection(g: nat): string {
    if g % 3 == 0 then "gate_proj" else if g % 3 == 1 then "up_proj" else "down_proj"
  }

  function LayerPrefix(g: nat): string {
    "model.layers." + (Decimal(g / 3) + ".mlp.experts.")
  }

  function StackedKey(g: nat): string {
    LayerPrefix(g) + Projection(g)
  }

  function ExpertKey(g: nat, j: nat): string {
    LayerPrefix(g) + (Decimal(j) + ("." + Projection(g) + ".weight"))
  }

  lemma Cancel(p: string, x: string, y: string)
    requires p + x == p + y
    ensures x == y
  {
    assert x == (p + x)[|p|..];
    assert y == (p + y)[|p|..];
  }

  lemma NoLonger(a: string, x: string, b: string, y: string)
    requires Digits(b) && x != [] && !IsDigit(x[0]) && a + x == b + y
    ensures |b| <= |a|
  {
    assert (a + x)[|a|] == x[0];
    assert forall i :: 0 <= i < |b| ==> (b + y)[i] == b[i];
  }

  /** A run of digits ends where the digits end. */
  lemma DigitsThen(m: nat, x: string, n: nat, y: string)
    requires Decimal(m) + x == Decimal(n) + y
    requires x != [] && !IsDigit(x[0]) && y != [] && !IsDigit(y[0])
    ensures m == n && x == y
  {
    hide Decimal;
    var a, b := Decimal(m), Decimal(n);
    DecimalRoundTrip(m);
    DecimalRoundTrip(n);
    NoLonger(a, x, b, y);
    NoLonger(b, y, a, x);
    assert a == (a + x)[..|a|] && b == (b + y)[..|b|];
    Cancel(a, x, y);
  }

  lemma SameLayer(g: nat, x: string, h: nat, y: string)
    requires LayerPrefix(g) + x == LayerPrefix(h) + y
    ensures g / 3 == h / 3 && x == y
  {
    hide Decimal;
    var mid := ".mlp.experts.";
    var u, v := Decimal(g / 3) + (mid + x), Decimal(h / 3) + (mid + y);
    assert LayerPrefix(g) + x == "model.layers." + u;
    assert LayerPrefix(h) + y == "model.layers." + v;
    Cancel("model.layers.", u, v);
    DigitsThen(g / 3, mid + x, h / 3, mid + y);
    Cancel(mid, x, y);
  }

  /** The beginning of the names of layer 12. */
  lemma PrefixSpelled(g: nat)
    requires g / 3 == 12
    ensures LayerPrefix(g) == "model.layers.12.mlp.experts."
  {
    assert Decimal(12) == "12";
    assert "12" + ".mlp.experts." == "12.mlp.experts.";
  }

  /** The names, spelled out for that layer. */
  lemma NamesSpelled()
    ensures ExpertKey(36, 7) == "model.layers.12.mlp.experts." + "7.gate_proj.weight"
    ensures ExpertKey(37, 10) == "model.layers.12.mlp.experts." + "10.up_proj.weight"
    ensures ExpertKey(38, 0) == "model.layers.12.mlp.experts." + "0.down_proj.weight"
    ensures StackedKey(36) == "model.layers.12.mlp.experts." + "gate_proj"
    ensures StackedKey(37) == "model.layers.12.mlp.experts." + "up_proj"
    ensures StackedKey(38) == "model.layers.12.mlp.experts." + "down_proj"
  {
    PrefixSpelled(36);
    PrefixSpelled(37);
    PrefixSpelled(38);
    TailSpelled();
    hide LayerPrefix;
  }

  lemma TailSpelled()
    ensures Decimal(7) + ("." + Projection(36) + ".weight") == "7.gate_proj.weight"
    ensures Decimal(10) + ("." + Projection(37) + ".weight") == "10.up_proj.weight"
    ensures Decimal(0) + ("." + Projection(38) + ".weight") == "0.down_proj.weight"
  {
    NumbersSpelled();
    Appended(Projection(36));
    Appended(Projection(37));
    Appended(Projection(38));
    ProjectionsSpelled();
    Numbered();
    hide Decimal, Projection;
  }

  lemma ProjectionsSpelled()
    ensures Projection(36) == "gate_proj" && Projection(37) == "up_proj" && Projection(38) == "down_proj"
  {
  }

  lemma Numbered()
    ensures "7" + ".gate_proj.weight" == "7.gate_proj.weight"
    ensures "10" + ".up_proj.weight" == "10.up_proj.weight"
    ensures "0" + ".down_proj.weight" == "0.down_proj.weight"
  {
  }

  lemma NumbersSpelled()
    ensures Decimal(7) == "7" && Decimal(10) == "10" && Decimal(0) == "0"
  {
  }

  lemma Appended(name: string)
    ensures name == "gate_proj" ==> "." + name + ".weight" == ".gate_proj.weight"
    ensures name == "up_proj" ==> "." + name + ".weight" == ".up_proj.weight"
    ensures name == "down_proj" ==> "." + name + ".weight" == ".down_proj.weight"
  {
  }

  lemma StackedInjective(g: nat, h: nat)
    requires StackedKey(g) == StackedKey(h)
    ensures g == h
  {
    hide LayerPrefix;
    SameLayer(g, Projection(g), h, Projection(h));
    assert Projection(g)[0] == Projection(h)[0];
  }

  lemma ExpertInjective(g: nat, i: nat, h: nat, j: nat)
    requires ExpertKey(g, i) == ExpertKey(h, j)
    ensures g == h && i == j
  {
    hide LayerPrefix, Decimal;
    var x, y := "." + Projection(g) + ".weight", "." + Projection(h) + ".weight";
    SameLayer(g, Decimal(i) + x, h, Decimal(j) + y);
    DigitsThen(i, x, j, y);
    assert x[1] == Projection(g)[0] && y[1] == Projection(h)[0];
  }

  lemma StackedIsNoExpert(g: nat, h: nat, j: nat)
    ensures StackedKey(g) != ExpertKey(h, j)
  {
    hide LayerPrefix, Decimal;
    if StackedKey(g) == ExpertKey(h, j) {
      SameLayer(g, Projection(g), h, Decimal(j) + ("." + Projection(h) + ".weight"));
      DecimalRoundTrip(j);
    }
  }

  // ---------------------------------------------------------------- merging

  ghost predicate Same(a: StateDict, b: StateDict, key: string) {
    (key in a <==> key in b) && (key in a ==> b[key] == a[key])
  }

  lemma SameEverywhere(a: StateDict, b: StateDict)
    requires forall key :: Same(a, b, key)
    ensures a == b
  {
    forall key ensures key in a <==> key in b {
      assert Same(a, b, key);
    }
    forall key | key in a ensures a[key] == b[key] {
      assert Same(a, b, key);
    }
  }

  ghost predicate IsExpert(key: string, g: nat, n: nat) {
    exists j :: 0 <= j < n && key == ExpertKey(g, j)
  }

  ghost predicate Owned(key: string, g: nat, n: nat) {
    key == StackedKey(g) || IsExpert(key, g, n)
  }

  lemma OwnerIsUnique(key: string, g: nat, h: nat, n: nat)
    requires Owned(key, g, n) && Owned(key, h, n)
    ensures g == h
  {
    hide StackedKey, ExpertKey;
    if key == StackedKey(g) && key == StackedKey(h) {
      StackedInjective(g, h);
    } else if key == StackedKey(g) {
      var j :| 0 <= j < n && key == ExpertKey(h, j);
      StackedIsNoExpert(g, h, j);
    } else if key == StackedKey(h) {
      var j :| 0 <= j < n && key == ExpertKey(g, j);
      StackedIsNoExpert(h, g, j);
    } else {
      var i :| 0 <= i < n && key == ExpertKey(g, i);
      var j :| 0 <= j < n && key == ExpertKey(h, j);
      ExpertInjective(g, i, h, j);
    }
  }

  lemma OthersFree(key: string, g: nat, lo: nat, hi: nat, n: nat)
    requires Owned(key, g, n) && !(lo <= g < hi)
    ensures Free(key, lo, hi, n)
  {
    hide Owned;
    forall h | lo <= h < hi && Owned(key, h, n) ensures false {
      OwnerIsUnique(key, g, h, n);
    }
  }

  ghost predicate HasExperts(sd: StateDict, g: nat, n: nat) {
    forall j :: 0 <= j < n ==> ExpertKey(g, j) in sd
  }

  ghost function Experts(sd: StateDict, g: nat, n: nat): (ts: seq<Tensor>)
    requires HasExperts(sd, g, n)
    ensures |ts| == n && forall j :: 0 <= j < n ==> ts[j] == sd[ExpertKey(g, j)]
  {
    seq(n, j requires 0 <= j < n => sd[ExpertKey(g, j)])
  }

  /** The stacked tensor of a group; a missing expert raises, and so do experts of unequal shapes. */
  ghost function StackOf(sd: StateDict, g: nat, n: nat): Outcome<Tensor> {
    if HasExperts(sd, g, n) then Stack(Experts(sd, g, n)) else Crash
  }

  /** Every expert of the group is there, there is at least one, and all have the shape of the first. */
  ghost predicate Stackable(sd: StateDict, g: nat, n: nat) {
    && 0 < n && HasExperts(sd, g, n)
    && forall j :: 0 <= j < n ==> sd[ExpertKey(g, j)].shape == sd[ExpertKey(g, 0)].shape
  }

  /** The group's stacked entry holds the group's experts, in order, and nothing else. */
  ghost predicate Holds(sd: StateDict, out: StateDict, g: nat, n: nat) {
    && Stackable(sd, g, n) && StackedKey(g) in out
    && var t, first := out[StackedKey(g)], sd[ExpertKey(g, 0)];
       && t.shape == [n] + first.shape && |t.flat| == Mul(n, |first.flat|)
       && forall j, k :: 0 <= j < n && 0 <= k < |first.flat| ==> CellIs(t, |first.flat|, j, k, sd[ExpertKey(g, j)])
  }

  lemma StackableExactly(sd: StateDict, g: nat, n: nat)
    ensures StackOf(sd, g, n).Ok? <==> Stackable(sd, g, n)
  {
    hide Stack, StackedKey, ExpertKey;
    if HasExperts(sd, g, n) { StackExactly(Experts(sd, g, n)); }
  }

  lemma MergedHolds(sd: StateDict, out: StateDict, lo: nat, hi: nat, n: nat, g: nat)
    requires Merged(sd, out, lo, hi, n) && lo <= g < hi
    ensures Holds(sd, out, g, n)
  {
    hide Stack, StackedKey, ExpertKey, Mul, CellIs;
    StackableExactly(sd, g, n);
    var ts := Experts(sd, g, n);
    StackExactly(ts);
    assert ts[0] == sd[ExpertKey(g, 0)];
  }

  /** `out` is `sd` with the experts of the groups lo..hi replaced by their stacks, and nothing else changed. */
  ghost predicate Merged(sd: StateDict, out: StateDict, lo: nat, hi: nat, n: nat) {
    && (forall g :: lo <= g < hi ==>
          StackOf(sd, g, n).Ok? && StackedKey(g) in out && out[StackedKey(g)] == StackOf(sd, g, n).value)
    && (forall g, j :: lo <= g < hi && 0 <= j < n ==> ExpertKey(g, j) !in out)
    && forall key :: Free(key, lo, hi, n) ==> Same(sd, out, key)
  }

  ghost predicate Free(key: string, lo: nat, hi: nat, n: nat) {
    forall g :: lo <= g < hi ==> !Owned(key, g, n)
  }

  /** Groups not yet merged still have their experts. */
  lemma StackUntouched(sd: StateDict, mid: StateDict, lo: nat, hi: nat, g: nat, n: nat)
    requires Merged(sd, mid, lo, hi, n) && hi <= g
    ensures StackOf(mid, g, n) == StackOf(sd, g, n)
  {
    hide StackedKey, ExpertKey, Stack;
    forall j | 0 <= j < n ensures Same(sd, mid, ExpertKey(g, j)) {
      OthersFree(ExpertKey(g, j), g, lo, hi, n);
    }
    if HasExperts(sd, g, n) {
      assert Experts(sd, g, n) == Experts(mid, g, n);
    }
  }

  lemma MergedNext(sd: StateDict, mid: StateDict, out: StateDict, lo: nat, g: nat, n: nat)
    requires Merged(sd, mid, lo, g, n) && Merged(mid, out, g, g + 1, n) && lo <= g
    ensures Merged(sd, out, lo, g + 1, n)
  {
    hide StackedKey, ExpertKey, StackOf, Owned;
    StackUntouched(sd, mid, lo, g, g, n);
    OwnedKeys(n);
    forall h | lo <= h < g ensures Same(mid, out, StackedKey(h)) {
      OthersFree(StackedKey(h), h, g, g + 1, n);
    }
    forall h, j | lo <= h < g && 0 <= j < n ensures Same(mid, out, ExpertKey(h, j)) {
      OthersFree(ExpertKey(h, j), h, g, g + 1, n);
    }
    forall key | Free(key, lo, g + 1, n) ensures Same(sd, out, key) {
      assert Free(key, lo, g, n) && Free(key, g, g + 1, n);
    }
  }

  lemma OwnedKeys(n: nat)
    ensures forall g :: Owned(StackedKey(g), g, n)
    ensures forall g, j :: 0 <= j < n ==> Owned(ExpertKey(g, j), g, n)
  {
  }

  lemma ExpertNext(key: string, g: nat, j: nat)
    ensures IsExpert(key, g, j + 1) <==> IsExpert(key, g, j) || key == ExpertKey(g, j)
  {
    hide ExpertKey;
    if IsExpert(key, g, j) {
      var i :| 0 <= i < j && key == ExpertKey(g, i);
    }
  }

  /** Pop the experts of one group and insert their stack. */
  method MergeGroup(sd: StateDict, g: nat, n: nat) returns (r: Outcome<StateDict>)
    ensures r.Ok? <==> Stackable(sd, g, n)
    ensures r.Ok? ==> Holds(sd, r.value, g, n) && Merged(sd, r.value, g, g + 1, n)
  {
    hide StackedKey, ExpertKey, Stack, Stackable, Holds;
    StackableExactly(sd, g, n);
    var dict, parts := sd, [];
    for j := 0 to n
      invariant |parts| == j && forall i :: 0 <= i < j ==> ExpertKey(g, i) in sd && parts[i] == sd[ExpertKey(g, i)]
      invariant forall i :: 0 <= i < j ==> ExpertKey(g, i) !in dict
      invariant forall key :: !IsExpert(key, g, j) ==> Same(sd, dict, key)
    {
      var key := ExpertKey(g, j);
      if IsExpert(key, g, j) {
        var i :| 0 <= i < j && key == ExpertKey(g, i);
        ExpertInjective(g, i, g, j);
      }
      if key !in dict {
        return Crash;
      }
      ghost var before := dict;
      parts := parts + [dict[key]];
      dict := dict - {key};
      forall k | !IsExpert(k, g, j + 1) ensures Same(sd, dict, k) {
        ExpertNext(k, g, j);
        assert Same(sd, before, k);
      }
    }
    assert parts == Experts(sd, g, n);
    var stacked :- Stack(parts);
    forall j | 0 <= j < n ensures ExpertKey(g, j) != StackedKey(g) {
      StackedIsNoExpert(g, g, j);
    }
    var out: StateDict := dict[StackedKey(g) := stacked];
    forall key | Free(key, g, g + 1, n) ensures Same(sd, out, key) {
      assert !Owned(key, g, n);
      assert Same(sd, dict, key);
    }
    MergedHolds(sd, out, g, g + 1, n, g);
    r := Ok(out);
  }

  /** Stack the experts of the layers from `start` on. */
  method MergeExperts(sd: StateDict, start: nat, layers: nat, n: nat) returns (r: Outcome<StateDict>)
    ensures r.Ok? <==> forall g :: 3 * start <= g < 3 * layers ==> Stackable(sd, g, n)
    ensures r.Ok? ==> forall g :: 3 * start <= g < 3 * layers ==> Holds(sd, r.value, g, n)
    ensures r.Ok? ==> Merged(sd, r.value, 3 * start, 3 * layers, n)
  {
    hide Merged, StackOf, Stackable, Holds;
    var dict := sd;
    NothingMerged(sd, 3 * start, 3 * layers, n);
    var i := start;
    while i < layers
      invariant i <= layers || i == start
      invariant forall g :: 3 * start <= g < 3 * i ==> Stackable(sd, g, n)
      invariant Merged(sd, dict, 3 * start, if i < layers then 3 * i else 3 * layers, n)
    {
      for p := 0 to 3
        invariant forall g :: 3 * start <= g < 3 * i + p ==> Stackable(sd, g, n)
        invariant Merged(sd, dict, 3 * start, 3 * i + p, n)
      {
        StackUntouched(sd, dict, 3 * start, 3 * i + p, 3 * i + p, n);
        StackableExactly(sd, 3 * i + p, n);
        StackableExactly(dict, 3 * i + p, n);
        var next :- MergeGroup(dict, 3 * i + p, n);
        MergedNext(sd, dict, next, 3 * start, 3 * i + p, n);
        dict := next;
      }
      i := i + 1;
    }
    forall g | 3 * start <= g < 3 * layers ensures Holds(sd, dict, g, n) {
      MergedHolds(sd, dict, 3 * start, 3 * layers, n, g);
    }
    r := Ok(dict);
  }

  lemma NothingMerged(sd: StateDict, lo: nat, hi: nat, n: nat)
    ensures Merged(sd, sd, lo, lo, n) && (hi <= lo ==> Merged(sd, sd, lo, hi, n))
  {
  }
}
