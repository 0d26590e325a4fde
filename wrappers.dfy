/** Option and Result: the "may be absent" and "may throw" shapes the library uses.
    A thrown JavaScript Error is modelled as `Err(message)`. */
module Wrappers {

  datatype Option<+T> = None | Some(value: T) {
    predicate IsFailure() { None? }

    function PropagateFailure<U>(): Option<U>
      requires None?
    {
      None
    }

    function Extract(): T
      requires Some?
    {
      value
    }

    function GetOr(default: T): T {
      if Some? then value else default
    }
  }

  datatype Result<+T> = Ok(value: T) | Err(error: string) {
    predicate IsFailure() { Err? }

    function PropagateFailure<U>(): Result<U>
      requires Err?
    {
      Err(error)
    }

    function Extract(): T
      requires Ok?
    {
      value
    }
  }

  /** `n` rounds of a step that may fail, stopping at the first failure: the shape of a
      loop that returns early on an error. */
  function Iterate<S>(n: nat, init: S, step: S -> Result<S>): (r: Result<S>)
    ensures n == 0 ==> r == Ok(init)
  {
    if n == 0 then Ok(init)
    else
      var s :- Iterate(n - 1, init, step);
      step(s)
  }

  /** When every successful step extends the viewed sequence by exactly one element,
      `n` successful rounds extend it by `n`, keeping the initial elements in front. */
  lemma {:induction false} IterateExtends<S, X>(n: nat, init: S, step: S -> Result<S>, view: S -> seq<X>)
    requires forall s :: step(s).Ok? ==> |view(step(s).value)| == |view(s)| + 1
                                         && view(step(s).value)[..|view(s)|] == view(s)
    requires Iterate(n, init, step).Ok?
    ensures |view(Iterate(n, init, step).value)| == |view(init)| + n
    ensures view(Iterate(n, init, step).value)[..|view(init)|] == view(init)
  {
    if n > 0 {
      IterateExtends(n - 1, init, step, view);
      var prev := view(Iterate(n - 1, init, step).value);
      var next := view(Iterate(n, init, step).value);
      assert next[..|view(init)|] == next[..|prev|][..|view(init)|];
    }
  }

  /** Once the rounds fail, further rounds fail with the same error. */
  lemma {:induction false} IterateAborts<S>(k: nat, n: nat, init: S, step: S -> Result<S>)
    requires k <= n
    requires Iterate(k, init, step).Err?
    ensures Iterate(n, init, step) == Iterate(k, init, step)
    decreases n - k
  {
    if k < n {
      IterateAborts(k, n - 1, init, step);
    }
  }
}
