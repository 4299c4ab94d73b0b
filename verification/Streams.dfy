/** Stateful stream transducers that may fail, as produced by chained generators. */
module Streams {
  import opened Outcomes

  /** Feed a stream through a transducer: its final state and everything it yields. */
  function Feed<S, A, B>(step: (S, A) -> Outcome<(S, seq<B>)>, s: S, input: seq<A>): Outcome<(S, seq<B>)> {
    if input == [] then Ok((s, [])) else
    var (s1, front) :- Feed(step, s, input[..|input| - 1]);
    var (s2, last) :- step(s1, input[|input| - 1]);
    Ok((s2, front + last))
  }

  lemma {:induction false} FeedPrefix<S, A, B>(step: (S, A) -> Outcome<(S, seq<B>)>, s: S, input: seq<A>, k: nat)
    requires k <= |input| && Feed(step, s, input).Ok?
    ensures Feed(step, s, input[..k]).Ok?
    decreases |input|
  {
    if k < |input| {
      FeedPrefix(step, s, input[..|input| - 1], k);
      assert input[..|input| - 1][..k] == input[..k];
    } else {
      assert input[..k] == input;
    }
  }

  lemma FeedOne<S, A, B>(step: (S, A) -> Outcome<(S, seq<B>)>, s: S, a: A)
    ensures Feed(step, s, [a]) == step(s, a)
  {
    assert [a][..0] == [];
    assert Feed(step, s, [a][..0]) == Ok((s, []));
    if step(s, a).Ok? {
      assert [] + step(s, a).value.1 == step(s, a).value.1;
    }
  }

  /** If a whole stream goes through, so does the next item after any prefix. */
  lemma FeedNext<S, A, B>(step: (S, A) -> Outcome<(S, seq<B>)>, s: S, input: seq<A>, k: nat)
    requires k < |input| && Feed(step, s, input).Ok?
    ensures Feed(step, s, input[..k]).Ok? && step(Feed(step, s, input[..k]).value.0, input[k]).Ok?
    ensures Feed(step, s, input[..k + 1]).Ok?
    ensures var (s1, front) := Feed(step, s, input[..k]).value;
            var (s2, last) := step(s1, input[k]).value;
            Feed(step, s, input[..k + 1]).value == (s2, front + last)
  {
    FeedPrefix(step, s, input, k + 1);
    assert input[..k + 1][..k] == input[..k];
  }

  lemma FeedSnoc<S, A, B>(step: (S, A) -> Outcome<(S, seq<B>)>, s: S, input: seq<A>, a: A)
    requires Feed(step, s, input).Ok? && step(Feed(step, s, input).value.0, a).Ok?
    ensures Feed(step, s, input + [a]).Ok?
    ensures var (s1, front) := Feed(step, s, input).value;
            var (s2, last) := step(s1, a).value;
            Feed(step, s, input + [a]).value == (s2, front + last)
  {
    assert (input + [a])[..|input + [a]| - 1] == input;
  }

  lemma {:induction false} FeedConcat<S, A, B>(
      step: (S, A) -> Outcome<(S, seq<B>)>, s: S, front: seq<A>, back: seq<A>)
    requires Feed(step, s, front).Ok?
    requires Feed(step, Feed(step, s, front).value.0, back).Ok?
    ensures Feed(step, s, front + back).Ok?
    ensures var (s1, out1) := Feed(step, s, front).value;
            var (s2, out2) := Feed(step, s1, back).value;
            Feed(step, s, front + back).value == (s2, out1 + out2)
    decreases |back|
  {
    if back == [] {
      assert front + back == front;
      assert Feed(step, s, front).value.1 + [] == Feed(step, s, front).value.1;
    } else {
      var n := |back| - 1;
      FeedConcat(step, s, front, back[..n]);
      assert (front + back)[..|front + back| - 1] == front + back[..n];
      var (s1, out1) := Feed(step, s, front).value;
      var (s2, out2) := Feed(step, s1, back[..n]).value;
      var (_, last) := step(s2, back[n]).value;
      assert (out1 + out2) + last == out1 + (out2 + last);
    }
  }
}
