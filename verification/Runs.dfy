/** Runs of a state machine: where they end, what they put out, and whether every step of them is allowed. */
module Runs {

  function Final<S, E>(step: (S, E) -> S, s: S, run: seq<E>): S
    decreases |run|
  {
    if run == [] then s else Final(step, step(s, run[0]), run[1..])
  }

  /** The outputs of all steps, one after the other. */
  function Output<S, E, X>(step: (S, E) -> S, out: (S, E) -> seq<X>, s: S, run: seq<E>): seq<X>
    decreases |run|
  {
    if run == [] then [] else out(s, run[0]) + Output(step, out, step(s, run[0]), run[1..])
  }

  /** Every step is allowed in the state it is taken in. */
  predicate Throughout<S, E>(step: (S, E) -> S, allowed: (S, E) -> bool, s: S, run: seq<E>)
    decreases |run|
  {
    run == [] || (allowed(s, run[0]) && Throughout(step, allowed, step(s, run[0]), run[1..]))
  }

  /** Some step of the run is one of those. */
  predicate Sometime<S, E>(step: (S, E) -> S, here: (S, E) -> bool, s: S, run: seq<E>)
    decreases |run|
  {
    run != [] && (here(s, run[0]) || Sometime(step, here, step(s, run[0]), run[1..]))
  }

  lemma {:induction false} FinalConcat<S, E>(step: (S, E) -> S, s: S, a: seq<E>, b: seq<E>)
    ensures Final(step, s, a + b) == Final(step, Final(step, s, a), b)
    decreases |a|
  {
    if a == [] {
      assert a + b == b;
    } else {
      assert (a + b)[1..] == a[1..] + b;
      FinalConcat(step, step(s, a[0]), a[1..], b);
    }
  }

  lemma {:induction false} OutputConcat<S, E, X>(step: (S, E) -> S, out: (S, E) -> seq<X>, s: S, a: seq<E>, b: seq<E>)
    ensures Output(step, out, s, a + b) == Output(step, out, s, a) + Output(step, out, Final(step, s, a), b)
    decreases |a|
  {
    if a == [] {
      assert a + b == b;
    } else {
      assert (a + b)[1..] == a[1..] + b;
      OutputConcat(step, out, step(s, a[0]), a[1..], b);
    }
  }

  lemma {:induction false} ThroughoutConcat<S, E>(step: (S, E) -> S, allowed: (S, E) -> bool, s: S, a: seq<E>,
                                                  b: seq<E>)
    ensures Throughout(step, allowed, s, a + b)
            <==> Throughout(step, allowed, s, a) && Throughout(step, allowed, Final(step, s, a), b)
    decreases |a|
  {
    if a == [] {
      assert a + b == b;
    } else {
      assert (a + b)[1..] == a[1..] + b;
      ThroughoutConcat(step, allowed, step(s, a[0]), a[1..], b);
    }
  }

  /** What every event puts in, one after the other. */
  function Input<E, X>(part: E -> seq<X>, run: seq<E>): seq<X> {
    if run == [] then [] else part(run[0]) + Input(part, run[1..])
  }

  lemma {:induction false} InputConcat<E, X>(part: E -> seq<X>, a: seq<E>, b: seq<E>)
    ensures Input(part, a + b) == Input(part, a) + Input(part, b)
  {
    if a == [] {
      assert a + b == b;
    } else {
      assert (a + b)[1..] == a[1..] + b;
      InputConcat(part, a[1..], b);
    }
  }
}
