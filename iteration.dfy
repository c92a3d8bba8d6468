/**
 * Repeated application of a step function, with the two induction
 * principles the reader's runs need: an invariant is kept by any number of
 * steps, and a measure that every step lowers leads to a goal.
 */
module Iteration {
  /** x after n applications of f. */
  function Iterate<T>(f: T -> T, x: T, n: nat): T
    decreases n
  {
    if n == 0 then x else Iterate(f, f(x), n - 1)
  }

  /** What every step preserves holds after any number of steps. */
  lemma {:induction false} Invariant<T>(f: T -> T, inv: T -> bool, x: T, n: nat)
    requires inv(x)
    requires forall y :: inv(y) ==> inv(f(y))
    ensures inv(Iterate(f, x, n))
    decreases n
  {
    if n > 0 {
      Invariant(f, inv, f(x), n - 1);
    }
  }

  /** If every step inside `inv` either reaches `done` or lowers `measure`,
   *  and `done` is kept, then more steps than the measure reach `done`. */
  lemma {:induction false} Reaches<T>(f: T -> T, inv: T -> bool, done: T -> bool, measure: T -> nat, x: T, n: nat)
    requires inv(x) && n > measure(x)
    requires forall y :: inv(y) ==> inv(f(y))
    requires forall y :: inv(y) && done(y) ==> done(f(y))
    requires forall y :: inv(y) && !done(y) ==> done(f(y)) || measure(f(y)) < measure(y)
    ensures done(Iterate(f, x, n))
    decreases n
  {
    var kept := y => inv(y) && done(y);
    if done(x) {
      Invariant(f, kept, x, n);
    } else if done(f(x)) {
      Invariant(f, kept, f(x), n - 1);
    } else {
      Reaches(f, inv, done, measure, f(x), n - 1);
    }
  }
}
