/** Shared result types and the ways a call into the engine or its clients can fail. */
module Common {

  datatype Option<+T> = None | Some(value: T)

  /** What goes wrong at run time. In the program each of these is either an
      explicit `undefined` result turned into a crash by the next property
      access, or a JavaScript `TypeError` thrown by such an access. */
  datatype Error =
    | StackUnderflow(at: nat)          // `]` popped an empty save/restore stack
    | NoRuleSelected(symbol: char)     // selection fell off the end of a rule list
    | MissingAxiom                     // `construct`/`process` before `setAxiom`
    | TypeError(reason: string)        // any other read through `undefined`

  datatype Result<+R> = Success(value: R) | Failure(error: Error) {
    predicate IsFailure() { Failure? }

    function PropagateFailure<U>(): Result<U>
      requires Failure?
    {
      Failure(error)
    }

    function Extract(): R
      requires Success?
    {
      value
    }
  }

  /** A coherent-noise source sampled at a 2D point; the program uses
      `simplex2`, whose values lie in [-1, 1]. */
  type Noise2 = (real, real) -> real

  /** Number of occurrences of `c` in `s`. */
  function Count(s: string, c: char): (n: nat)
    ensures n <= |s|
  {
    if |s| == 0 then 0 else Count(s[..|s| - 1], c) + (if s[|s| - 1] == c then 1 else 0)
  }

  lemma {:induction false} CountAppend(a: string, b: string, c: char)
    ensures Count(a + b, c) == Count(a, c) + Count(b, c)
    decreases |b|
  {
    if |b| == 0 {
      assert a + b == a;
    } else {
      assert (a + b)[..|a + b| - 1] == a + b[..|b| - 1];
      CountAppend(a, b[..|b| - 1], c);
    }
  }
}
