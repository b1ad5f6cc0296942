/** Runs of a transition system. A system is given by its partial step function: an event is enabled in a
    state exactly when the step function is defined there. */
module Runs {

  ghost predicate Legal<S(!new), E(!new)>(step: (S, E) --> S, s: S, run: seq<E>)
    decreases |run|
  {
    run == [] || (step.requires(s, run[0]) && Legal(step, step(s, run[0]), run[1..]))
  }

  ghost function Run<S(!new), E(!new)>(step: (S, E) --> S, s: S, run: seq<E>): S
    requires Legal(step, s, run)
    decreases |run|
  {
    if run == [] then s else Run(step, step(s, run[0]), run[1..])
  }

  lemma {:induction false} Concat<S(!new), E(!new)>(step: (S, E) --> S, s: S, first: seq<E>, second: seq<E>)
    requires Legal(step, s, first) && Legal(step, Run(step, s, first), second)
    ensures Legal(step, s, first + second)
    ensures Run(step, s, first + second) == Run(step, Run(step, s, first), second)
    decreases |first|
  {
    if first == [] {
      assert first + second == second;
    } else {
      Concat(step, step(s, first[0]), first[1..], second);
      assert (first + second)[1..] == first[1..] + second;
    }
  }

  lemma One<S(!new), E(!new)>(step: (S, E) --> S, s: S, event: E)
    requires step.requires(s, event)
    ensures Legal(step, s, [event]) && Run(step, s, [event]) == step(s, event)
  {
    assert [event][1..] == [];
    assert Run(step, step(s, event), []) == step(s, event);
  }

  /** A run with one more event at its end. */
  lemma Then<S(!new), E(!new)>(step: (S, E) --> S, s: S, run: seq<E>, event: E)
    requires Legal(step, s, run) && step.requires(Run(step, s, run), event)
    ensures Legal(step, s, run + [event])
    ensures Run(step, s, run + [event]) == step(Run(step, s, run), event)
  {
    One(step, Run(step, s, run), event);
    Concat(step, s, run, [event]);
  }
}
