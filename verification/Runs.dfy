/** Runs of any step function, and the two ways of reasoning about them used here. */
module Runs {
  /** The state after the first n operations. */
  function At<S, O>(step: (S, O) -> S, s: S, ops: seq<O>, n: nat): S
    requires n <= |ops|
  { if n == 0 then s else step(At(step, s, ops, n - 1), ops[n - 1]) }

  /** What every step keeps, every moment of a run has. */
  lemma {:induction false} Always<S(!new), O(!new)>(step: (S, O) -> S, s: S, ops: seq<O>, inv: S -> bool, n: nat)
    requires n <= |ops| && inv(s)
    requires forall s, o {:trigger step(s, o)} :: inv(s) ==> inv(step(s, o))
    ensures inv(At(step, s, ops, n))
  {
    if n > 0 { Always(step, s, ops, inv, n - 1); }
  }

  /** Good at every moment 0..n of the run. */
  ghost predicate GoodThroughout<S, O>(step: (S, O) -> S, s: S, ops: seq<O>, good: S -> bool, n: nat)
    requires n <= |ops|
  { good(At(step, s, ops, n)) && (n > 0 ==> GoodThroughout(step, s, ops, good, n - 1)) }

  /** Each of the first n operations safe when its turn comes. */
  ghost predicate SafeThroughout<S, O>(step: (S, O) -> S, s: S, ops: seq<O>, safe: (S, O) -> bool, n: nat)
    requires n <= |ops|
  { n == 0 || (safe(At(step, s, ops, n - 1), ops[n - 1]) && SafeThroughout(step, s, ops, safe, n - 1)) }

  lemma {:induction false} GoodAtEachMoment<S, O>(step: (S, O) -> S, s: S, ops: seq<O>, good: S -> bool, n: nat, k: nat)
    requires k <= n <= |ops| && GoodThroughout(step, s, ops, good, n)
    ensures good(At(step, s, ops, k))
  {
    if k < n { GoodAtEachMoment(step, s, ops, good, n - 1, k); }
  }

  /** If a good state stays good exactly under safe operations, a run is good throughout exactly
      when each of its operations is safe when its turn comes. */
  lemma {:induction false} GoodIffSafe<S(!new), O(!new)>(
      step: (S, O) -> S, s: S, ops: seq<O>, inv: S -> bool, good: S -> bool, safe: (S, O) -> bool, n: nat)
    requires n <= |ops| && inv(s) && good(s)
    requires forall s, o {:trigger step(s, o)} :: inv(s) ==> inv(step(s, o)) && (good(s) ==>
      (good(step(s, o)) <==> safe(s, o)))
    ensures GoodThroughout(step, s, ops, good, n) <==> SafeThroughout(step, s, ops, safe, n)
  {
    if n > 0 {
      GoodIffSafe(step, s, ops, inv, good, safe, n - 1);
      Always(step, s, ops, inv, n - 1);
      if GoodThroughout(step, s, ops, good, n - 1) { GoodAtEachMoment(step, s, ops, good, n - 1, n - 1); }
    }
  }

  /** Safe operations keep a good state good, so a run of safe operations is good at its end. */
  lemma {:induction false} GoodIfSafe<S(!new), O(!new)>(
      step: (S, O) -> S, s: S, ops: seq<O>, good: S -> bool, safe: (S, O) -> bool, n: nat)
    requires n <= |ops| && good(s) && SafeThroughout(step, s, ops, safe, n)
    requires forall s, o {:trigger step(s, o)} :: good(s) && safe(s, o) ==> good(step(s, o))
    ensures good(At(step, s, ops, n))
  {
    if n > 0 { GoodIfSafe(step, s, ops, good, safe, n - 1); }
  }
}
