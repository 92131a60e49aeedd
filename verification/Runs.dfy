/** Runs of any protocol: a step function folded over a sequence of actions. */
module Runs {
  function Fold<S, A>(step: (S, A) -> S, s: S, acts: seq<A>): S {
    if acts == [] then s else step(Fold(step, s, acts[..|acts| - 1]), acts[|acts| - 1])
  }

  lemma FoldThen<S, A>(step: (S, A) -> S, s: S, acts: seq<A>, a: A)
    ensures Fold(step, s, acts + [a]) == step(Fold(step, s, acts), a)
  {
    assert (acts + [a])[..|acts|] == acts;
  }

  lemma FoldOne<S, A>(step: (S, A) -> S, s: S, a: A)
    ensures Fold(step, s, [a]) == step(s, a)
  {
    assert [a][..0] == [];
  }

  /** Running one sequence after another is running both in a row. */
  lemma {:induction false} FoldAppend<S, A>(step: (S, A) -> S, s: S, acts: seq<A>, more: seq<A>)
    ensures Fold(step, s, acts + more) == Fold(step, Fold(step, s, acts), more)
  {
    if more == [] {
      assert acts + more == acts;
    } else {
      var init, last := more[..|more| - 1], more[|more| - 1];
      FoldAppend(step, s, acts, init);
      FoldThen(step, s, acts + init, last);
      FoldThen(step, Fold(step, s, acts), init, last);
      assert acts + more == acts + init + [last] && more == init + [last];
    }
  }
}
