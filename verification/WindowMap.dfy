/** The window map that paces activation offloading over the layers of a model. */
module WindowMap {
  import opened IntMath

  /** The layer at whose commit the i-th offloaded group is released, in closed form. */
  function Window(layers: nat, groups: nat, i: nat): int
    requires 0 < groups
  {
    (layers / groups) * (i + 1) - 1 + Min(i + 1, layers % groups)
  }

  /** The constructor's loop fills the map with exactly the closed form. */
  method BuildWindowMap(layers: nat, groups: nat) returns (window: map<nat, int>)
    ensures forall i :: i in window <==> 0 <= i < groups
    ensures forall i :: 0 <= i < groups ==> window[i] == Window(layers, groups, i)
  {
    window := map[];
    var constant := 0;
    for i := 0 to groups
      invariant forall k :: k in window <==> 0 <= k < i
      invariant forall k :: 0 <= k < i ==> window[k] == Window(layers, groups, k)
      invariant 0 < groups ==> constant == Min(i, layers % groups)
    {
      var w := (layers / groups) * (i + 1) - 1;
      if i < layers % groups {
        w := w + i + 1;
        constant := i + 1;
      } else {
        w := w + constant;
      }
      window := window[i := w];
    }
  }

  /** Consecutive windows are floor(layers / groups) apart, or one more. */
  lemma WindowGap(layers: nat, groups: nat, i: nat)
    requires 1 <= groups && i + 1 < groups
    ensures var gap := Window(layers, groups, i + 1) - Window(layers, groups, i);
            gap == layers / groups + (if i + 1 < layers % groups then 1 else 0)
  {
    var q := layers / groups;
    assert q * (i + 2) == q * (i + 1) + q;
  }

  lemma {:induction false} WindowIncreasing(layers: nat, groups: nat, i: nat, j: nat)
    requires 1 <= groups <= layers && i < j < groups
    ensures Window(layers, groups, i) < Window(layers, groups, j)
    decreases j - i
  {
    AtLeastOne(layers, groups);
    WindowGap(layers, groups, j - 1);
    if i + 1 < j {
      WindowIncreasing(layers, groups, i, j - 1);
    }
  }

  lemma AtLeastOne(layers: nat, groups: nat)
    requires 1 <= groups <= layers
    ensures 1 <= layers / groups
    ensures groups < layers ==> 2 <= layers / groups || (layers / groups == 1 && 1 <= layers % groups)
  {
    var q, r := layers / groups, layers % groups;
    assert layers == q * groups + r;
    assert q == 0 ==> q * groups == 0;
    assert q == 1 ==> q * groups == groups;
  }

  /** The last group is released at the last layer. */
  lemma WindowLast(layers: nat, groups: nat)
    requires 1 <= groups <= layers
    ensures Window(layers, groups, groups - 1) == layers - 1
  {
    assert layers == (layers / groups) * groups + layers % groups;
  }

  lemma ShareCovers(q: nat, i: nat)
    ensures 1 <= q ==> i + 1 <= q * (i + 1)
    ensures 2 <= q ==> 2 * (i + 1) <= q * (i + 1)
  {
    if 1 <= q { MulMonotone(1, q, i + 1); }
    if 2 <= q { MulMonotone(2, q, i + 1); }
  }

  lemma WindowBelow(layers: nat, groups: nat, i: nat)
    requires 1 <= groups <= layers && i < groups
    ensures Window(layers, groups, i) < layers
  {
    hide Window;
    WindowLast(layers, groups);
    if i < groups - 1 {
      WindowIncreasing(layers, groups, i, groups - 1);
    }
  }

  /** A group is complete when its window closes, and so is its successor unless every layer is offloaded. */
  lemma WindowAhead(layers: nat, groups: nat, i: nat)
    requires 1 <= groups <= layers && i < groups
    ensures i <= Window(layers, groups, i) < layers
    ensures groups < layers ==> i + 1 <= Window(layers, groups, i)
    ensures groups == layers ==> Window(layers, groups, i) == i
  {
    WindowBelow(layers, groups, i);
    AtLeastOne(layers, groups);
    ShareCovers(layers / groups, i);
    if groups == layers { Unique(layers, groups, 1); }
  }
}
