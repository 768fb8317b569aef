/**
 The two inner loops of the model, the dictionary loop of `_solve_w` and the
 `h`/`r` loop of `_solveproj`, have one shape: take a step, compute the new
 error, stop when a test on the error held before the step and the new
 error holds, otherwise hold the new error and go on, for at most `limit`
 steps. This module states that shape once, for any state type `T`, in
 terms of the step, the error of a state and the test as function values.
 */
module Iteration {
  /** The state after `n` steps from `x`. */
  function Iterated<T>(step: T -> T, x: T, n: nat): T {
    if n == 0 then x else step(Iterated(step, x, n - 1))
  }

  /** The error after `n` steps from `x`; for `n == 0`, `e0`, the error held before the loop. */
  function ErrorAt<T>(step: T -> T, err: T -> real, x: T, e0: real, n: nat): real {
    if n == 0 then e0 else err(Iterated(step, x, n))
  }

  /** The loop stops right after step `n`: the test holds of the errors before and after it. */
  predicate StopsAt<T>(step: T -> T, err: T -> real, test: (real, real) -> bool, x: T, e0: real, n: nat) {
    n >= 1 && test(ErrorAt(step, err, x, e0, n - 1), ErrorAt(step, err, x, e0, n))
  }

  /**
   The number of steps the loop takes when `done` steps are behind it and
   it has not stopped: the first later step after which it stops, or `limit`.
   */
  function StepsFrom<T>(step: T -> T, err: T -> real, test: (real, real) -> bool, x: T, e0: real,
                        done: nat, limit: nat): nat
    requires done <= limit
    decreases limit - done
  {
    if done == limit then limit
    else if StopsAt(step, err, test, x, e0, done + 1) then done + 1
    else StepsFrom(step, err, test, x, e0, done + 1, limit)
  }

  /** The number of steps the loop takes from `x`. */
  function StepsTaken<T>(step: T -> T, err: T -> real, test: (real, real) -> bool, x: T, e0: real,
                         limit: nat): nat
  {
    StepsFrom(step, err, test, x, e0, 0, limit)
  }

  /**
   The error the loop holds when it ends after `n` steps: the error of the
   last step, unless the loop stopped there, in which case it keeps the one
   it held before that step.
   */
  function HeldError<T>(step: T -> T, err: T -> real, test: (real, real) -> bool, x: T, e0: real,
                        n: nat): real
  {
    if StopsAt(step, err, test, x, e0, n) then ErrorAt(step, err, x, e0, n - 1)
    else ErrorAt(step, err, x, e0, n)
  }

  /**
   From `done` steps on, the loop takes at most `limit` steps, does not stop
   before the step it ends with, and stops there unless it ran out of steps.
   */
  lemma {:induction false} StepsFromIsFirstStop<T>(step: T -> T, err: T -> real, test: (real, real) -> bool,
                                                   x: T, e0: real, done: nat, limit: nat)
    requires done <= limit
    decreases limit - done
    ensures var n := StepsFrom(step, err, test, x, e0, done, limit);
      done <= n <= limit
      && (forall s :: done < s < n ==> !StopsAt(step, err, test, x, e0, s))
      && (n < limit ==> StopsAt(step, err, test, x, e0, n))
  {
    if done < limit && !StopsAt(step, err, test, x, e0, done + 1) {
      StepsFromIsFirstStop(step, err, test, x, e0, done + 1, limit);
    }
  }

  /**
   The loop takes at most `limit` steps, stops after none of the steps before
   its last, and stops after its last step unless that is step `limit`.
   */
  lemma StepsTakenIsFirstStop<T>(step: T -> T, err: T -> real, test: (real, real) -> bool,
                                 x: T, e0: real, limit: nat)
    ensures var n := StepsTaken(step, err, test, x, e0, limit);
      n <= limit
      && (forall s :: 1 <= s < n ==> !StopsAt(step, err, test, x, e0, s))
      && (n < limit ==> StopsAt(step, err, test, x, e0, n))
  {
    StepsFromIsFirstStop(step, err, test, x, e0, 0, limit);
  }
}
