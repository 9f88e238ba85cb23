/**
  What several of the modules share: an option type, addresses, two machine widths, and runs of
  a step machine.
 */
module Common {
  const TWO_TO_32: nat := 0x1_0000_0000
  const TWO_TO_64: nat := 0x1_0000_0000_0000_0000

  /** Addresses. */
  type Ptr = nat
  const NULL: Ptr := 0

  datatype Option<+T> = None | Some(value: T)
}

/** Runs of a deterministic step machine over a sequence of events. */
module Runs {

  function Run<S, E>(step: (S, E) -> S, s: S, events: seq<E>): S
    decreases events
  {
    if events == [] then s else Run(step, step(s, events[0]), events[1..])
  }

  lemma {:induction false} RunConcat<S, E>(step: (S, E) -> S, s: S, a: seq<E>, b: seq<E>)
    ensures Run(step, s, a + b) == Run(step, Run(step, s, a), b)
    decreases a
  {
    if a == [] {
      assert a + b == b;
    } else {
      assert (a + b)[1..] == a[1..] + b;
      RunConcat(step, step(s, a[0]), a[1..], b);
    }
  }

  lemma {:induction false} Turn<S, E>(step: (S, E) -> S, s: S, e: E, rest: seq<E>)
    ensures Run(step, s, [e] + rest) == Run(step, step(s, e), rest)
  {
    assert ([e] + rest)[1..] == rest;
  }

  /** Four turns of a run, spelt out for the verifier. */
  lemma {:induction false} FourTurns<S, E>(step: (S, E) -> S, s: S, e0: E, e1: E, e2: E, e3: E, rest: seq<E>)
    ensures Run(step, s, [e0, e1, e2, e3] + rest)
            == Run(step, step(step(step(step(s, e0), e1), e2), e3), rest)
  {
    var s1 := step(s, e0);
    var s2 := step(s1, e1);
    assert [e0, e1, e2, e3] + rest == [e0] + ([e1] + ([e2] + ([e3] + rest)));
    Turn(step, s, e0, [e1] + ([e2] + ([e3] + rest)));
    Turn(step, s1, e1, [e2] + ([e3] + rest));
    Turn(step, s2, e2, [e3] + rest);
    Turn(step, step(s2, e2), e3, rest);
  }
}
