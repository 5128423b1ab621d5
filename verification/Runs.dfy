/** Runs of a state machine. A step that cannot be taken leads nowhere. */
module Runs {

  import opened Options

  ghost predicate IsRun<S, A>(advance: (S, A) -> Option<S>, s: S, steps: seq<A>)
    decreases |steps|
  {
    steps == [] || (advance(s, steps[0]).Some? && IsRun(advance, advance(s, steps[0]).value, steps[1..]))
  }

  ghost function After<S, A>(advance: (S, A) -> Option<S>, s: S, steps: seq<A>): S
    requires IsRun(advance, s, steps)
    decreases |steps|
  {
    if steps == [] then s else After(advance, advance(s, steps[0]).value, steps[1..])
  }

  lemma NoSteps<S, A>(advance: (S, A) -> Option<S>, s: S)
    ensures IsRun(advance, s, []) && After(advance, s, []) == s
  {
  }

  lemma OneStep<S, A>(advance: (S, A) -> Option<S>, s: S, step: A)
    requires advance(s, step).Some?
    ensures IsRun(advance, s, [step]) && After(advance, s, [step]) == advance(s, step).value
  {
    assert [step][1..] == [];
  }

  lemma {:induction false} RunSum<S, A>(advance: (S, A) -> Option<S>, s: S, a: seq<A>, b: seq<A>)
    requires IsRun(advance, s, a) && IsRun(advance, After(advance, s, a), b)
    ensures IsRun(advance, s, a + b) && After(advance, s, a + b) == After(advance, After(advance, s, a), b)
    decreases |a|
  {
    if a == [] {
      assert a + b == b;
    } else {
      assert (a + b)[0] == a[0] && (a + b)[1..] == a[1..] + b;
      RunSum(advance, advance(s, a[0]).value, a[1..], b);
    }
  }

  lemma Then<S, A>(advance: (S, A) -> Option<S>, s: S, steps: seq<A>, t: S, step: A) returns (longer: seq<A>)
    requires IsRun(advance, s, steps) && After(advance, s, steps) == t && advance(t, step).Some?
    ensures longer == steps + [step] && IsRun(advance, s, longer) && After(advance, s, longer) == advance(t, step).value
  {
    OneStep(advance, t, step);
    RunSum(advance, s, steps, [step]);
    longer := steps + [step];
  }

  /** How many of the steps are of this kind. */
  function Count<A>(kind: A -> bool, steps: seq<A>): nat
  {
    if steps == [] then 0 else (if kind(steps[0]) then 1 else 0) + Count(kind, steps[1..])
  }

  lemma {:induction false} RunSplit<S, A>(advance: (S, A) -> Option<S>, s: S, steps: seq<A>, i: nat)
    requires IsRun(advance, s, steps) && i <= |steps|
    ensures IsRun(advance, s, steps[..i]) && IsRun(advance, After(advance, s, steps[..i]), steps[i..])
    ensures After(advance, s, steps) == After(advance, After(advance, s, steps[..i]), steps[i..])
    decreases i
  {
    if i == 0 {
      assert steps[..0] == [] && steps[0..] == steps;
    } else {
      RunSplit(advance, advance(s, steps[0]).value, steps[1..], i - 1);
      assert steps[..i][1..] == steps[1..][..i - 1] && steps[i..] == steps[1..][i - 1..];
    }
  }

  lemma {:induction false} CountSum<A>(kind: A -> bool, a: seq<A>, b: seq<A>)
    ensures Count(kind, a + b) == Count(kind, a) + Count(kind, b)
    decreases |a|
  {
    if a == [] {
      assert a + b == b;
    } else {
      assert (a + b)[1..] == a[1..] + b;
      CountSum(kind, a[1..], b);
    }
  }
}
