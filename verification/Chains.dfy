/** Sequences of processes whose invariant is local: one condition per process, one per neighbouring pair. */
module Chains {

  ghost predicate Chained<N(!new)>(node: (nat, N) -> bool, link: (nat, N, N) -> bool, s: seq<N>) {
    && (forall r: nat {:trigger s[r]} :: r < |s| ==> node(r, s[r]))
    && (forall r: nat {:trigger s[r]} :: r + 1 < |s| ==> link(r, s[r], s[r + 1]))
  }

  lemma ChainedAt<N(!new)>(node: (nat, N) -> bool, link: (nat, N, N) -> bool, s: seq<N>, r: nat)
    requires Chained(node, link, s) && r < |s|
    ensures node(r, s[r])
    ensures 0 < r ==> node(r - 1, s[r - 1]) && link(r - 1, s[r - 1], s[r])
    ensures r + 1 < |s| ==> node(r + 1, s[r + 1]) && link(r, s[r], s[r + 1])
  {
    if 0 < r { var p := s[r - 1]; }
    if r + 1 < |s| { var q := s[r + 1]; }
  }

  /** Replacing one process by a state that suits its neighbours. */
  lemma Replace<N(!new)>(node: (nat, N) -> bool, link: (nat, N, N) -> bool, s: seq<N>, r: nat, n: N)
    requires Chained(node, link, s) && r < |s| && node(r, n)
    requires 0 < r ==> link(r - 1, s[r - 1], n)
    requires r + 1 < |s| ==> link(r, n, s[r + 1])
    ensures Chained(node, link, s[r := n])
  {
    var s' := s[r := n];
    forall x: nat {:trigger s'[x]} | x + 1 < |s'| ensures link(x, s'[x], s'[x + 1]) {
      assert link(x, s[x], s[x + 1]);
    }
  }

  /** Replacing two neighbouring processes at once. */
  lemma ReplaceTwo<N(!new)>(node: (nat, N) -> bool, link: (nat, N, N) -> bool, s: seq<N>, r: nat, a: N, b: N)
    requires Chained(node, link, s) && r + 1 < |s| && node(r, a) && node(r + 1, b) && link(r, a, b)
    requires 0 < r ==> link(r - 1, s[r - 1], a)
    requires r + 2 < |s| ==> link(r + 1, b, s[r + 2])
    ensures Chained(node, link, s[r := a][r + 1 := b])
  {
    var s' := s[r := a][r + 1 := b];
    forall x: nat | x < |s'| ensures node(x, s'[x]) {
      TwoAt(s, r, a, b, x);
      if x != r && x != r + 1 { ChainedAt(node, link, s, x); }
    }
    forall x: nat {:trigger s'[x]} | x + 1 < |s'| ensures link(x, s'[x], s'[x + 1]) {
      TwoAt(s, r, a, b, x);
      TwoAt(s, r, a, b, x + 1);
      if x + 1 < r || r + 1 < x { ChainedAt(node, link, s, x); }
    }
  }

  lemma TwoAt<N>(s: seq<N>, r: nat, a: N, b: N, x: nat)
    requires r + 1 < |s| && x < |s|
    ensures s[r := a][r + 1 := b][x] == if x == r then a else if x == r + 1 then b else s[x]
  {
  }
}
