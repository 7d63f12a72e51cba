/** Runs of a state machine given as a step function: `None` means that the step is not enabled. */
module Machine {
  import opened Wrappers

  function Run<S, A>(step: (S, A) -> Option<S>, s: S, actions: seq<A>): Option<S>
    decreases |actions|
  {
    if actions == [] then Some(s)
    else
      var next := step(s, actions[0]);
      if next.None? then None else Run(step, next.value, actions[1..])
  }

  lemma {:induction false} RunAppend<S, A>(step: (S, A) -> Option<S>, s: S, first: seq<A>, rest: seq<A>)
    requires Run(step, s, first).Some?
    ensures Run(step, s, first + rest) == Run(step, Run(step, s, first).value, rest)
    decreases |first|
  {
    if first == [] {
      assert first + rest == rest;
    } else {
      RunAppend(step, step(s, first[0]).value, first[1..], rest);
      assert (first + rest)[1..] == first[1..] + rest;
    }
  }

  lemma {:induction false} RunTwo<S, A>(step: (S, A) -> Option<S>, s: S, a: A, b: A, s1: S, s2: S)
    requires step(s, a) == Some(s1) && step(s1, b) == Some(s2)
    ensures Run(step, s, [a, b]) == Some(s2)
  {
    assert [a, b][1..] == [b] && [b][1..] == [];
    assert Run(step, s1, [b]) == Some(s2);
  }

  lemma {:induction false} RunThree<S, A>(step: (S, A) -> Option<S>, s: S, a: A, b: A, c: A, s1: S, s2: S, s3: S)
    requires step(s, a) == Some(s1) && step(s1, b) == Some(s2) && step(s2, c) == Some(s3)
    ensures Run(step, s, [a, b, c]) == Some(s3)
  {
    assert [a, b, c][1..] == [b, c];
    RunTwo(step, s1, b, c, s2, s3);
  }

  lemma {:induction false} RunFour<S, A>(step: (S, A) -> Option<S>, s: S, a: A, b: A, c: A, d: A, s1: S, s2: S,
                                         s3: S, s4: S)
    requires step(s, a) == Some(s1) && step(s1, b) == Some(s2) && step(s2, c) == Some(s3) && step(s3, d) == Some(s4)
    ensures Run(step, s, [a, b, c, d]) == Some(s4)
  {
    assert [a, b, c, d][1..] == [b, c, d];
    RunThree(step, s1, b, c, d, s2, s3, s4);
  }
}
