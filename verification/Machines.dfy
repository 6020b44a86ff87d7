/** Runs of a deterministic step function: the state a run ends in, what it put out,
    and how runs compose. Every state machine of the project is run with these two
    functions. */
module Machines {

  function Final<S, I, O>(step: (S, I) -> (S, O), s: S, xs: seq<I>): S
    decreases |xs|
  {
    if xs == [] then s else Final(step, step(s, xs[0]).0, xs[1..])
  }

  function Outputs<S, I, O>(step: (S, I) -> (S, O), s: S, xs: seq<I>): (os: seq<O>)
    ensures |os| == |xs|
    decreases |xs|
  {
    if xs == [] then [] else [step(s, xs[0]).1] + Outputs(step, step(s, xs[0]).0, xs[1..])
  }

  lemma {:induction false} Split<S, I, O>(step: (S, I) -> (S, O), s: S, a: seq<I>, b: seq<I>)
    ensures Final(step, s, a + b) == Final(step, Final(step, s, a), b)
    ensures Outputs(step, s, a + b) == Outputs(step, s, a) + Outputs(step, Final(step, s, a), b)
    decreases |a|
  {
    if a == [] {
      assert a + b == b;
    } else {
      assert (a + b)[1..] == a[1..] + b;
      Split(step, step(s, a[0]).0, a[1..], b);
    }
  }

  lemma One<S, I, O>(step: (S, I) -> (S, O), s: S, x: I)
    ensures Final(step, s, [x]) == step(s, x).0
    ensures Outputs(step, s, [x]) == [step(s, x).1]
  {
    assert [x][1..] == [];
  }

  lemma Append<S, I, O>(step: (S, I) -> (S, O), s: S, a: seq<I>, x: I)
    ensures Final(step, s, a + [x]) == step(Final(step, s, a), x).0
    ensures Outputs(step, s, a + [x]) == Outputs(step, s, a) + [step(Final(step, s, a), x).1]
  {
    Split(step, s, a, [x]);
    One(step, Final(step, s, a), x);
  }

  /** The i-th output is that of the step taken from where the first i inputs lead. */
  lemma At<S, I, O>(step: (S, I) -> (S, O), s: S, xs: seq<I>, i: nat)
    requires i < |xs|
    ensures Outputs(step, s, xs)[i] == step(Final(step, s, xs[..i]), xs[i]).1
    ensures Final(step, s, xs[..i + 1]) == step(Final(step, s, xs[..i]), xs[i]).0
  {
    assert xs[..i + 1] == xs[..i] + [xs[i]];
    assert xs == xs[..i + 1] + xs[i + 1..];
    Append(step, s, xs[..i], xs[i]);
    Split(step, s, xs[..i + 1], xs[i + 1..]);
  }

  /** An invariant kept by every step holds after every run. */
  lemma {:induction false} Preserved<S(!new), I(!new), O>(
      step: (S, I) -> (S, O), inv: S -> bool, s: S, xs: seq<I>)
    requires inv(s) && forall t, x :: inv(t) ==> inv(step(t, x).0)
    ensures inv(Final(step, s, xs))
    decreases |xs|
  {
    if xs != [] {
      Preserved(step, inv, step(s, xs[0]).0, xs[1..]);
    }
  }
}
