// Runs of a state over a list of changes, and sums taken along them.
module Runs {
  function Run<S, C>(state: S, changes: seq<C>, apply: (S, C) -> S): S {
    if changes == [] then state
    else apply(Run(state, changes[..|changes| - 1], apply), changes[|changes| - 1])
  }

  lemma {:induction false} RunAppend<S, C>(state: S, first: seq<C>, second: seq<C>, apply: (S, C) -> S)
    ensures Run(state, first + second, apply) == Run(Run(state, first, apply), second, apply)
    decreases |second|
  {
    if second == [] {
      assert first + second == first;
    } else {
      var init := second[..|second| - 1];
      assert (first + second)[..|first + second| - 1] == first + init;
      RunAppend(state, first, init, apply);
    }
  }

  lemma RunOne<S, C>(state: S, change: C, apply: (S, C) -> S)
    ensures Run(state, [change], apply) == apply(state, change)
  {
    assert [change][..0] == [];
  }

  // The sum of what each change of a run counts.
  function Tally<S, C>(state: S, changes: seq<C>, apply: (S, C) -> S, count: (S, C) -> nat): nat {
    if changes == [] then 0
    else
      var init := changes[..|changes| - 1];
      Tally(state, init, apply, count) + count(Run(state, init, apply), changes[|changes| - 1])
  }
}
