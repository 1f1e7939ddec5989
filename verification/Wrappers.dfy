/** Values that may be missing, and results of operations that may refuse. */
module Wrappers {
  datatype Option<+T> = None | Some(value: T)

  /** Failing with an error, as an Effect does; `:-` stops at the first failure. */
  datatype Result<+T, +E> = Ok(value: T) | Err(error: E) {
    predicate IsFailure() {
      Err?
    }

    function PropagateFailure<U>(): Result<U, E>
      requires Err?
    {
      Err(error)
    }

    function Extract(): T
      requires Ok?
    {
      value
    }
  }

  /** JavaScript's `filter`: the elements satisfying `keep`, in order. */
  function Filter<T(!new)>(xs: seq<T>, keep: T -> bool): (ys: seq<T>)
    ensures forall x {:trigger x in ys} :: x in ys <==> x in xs && keep(x)
    ensures |ys| <= |xs|
  {
    if xs == [] then [] else (if keep(xs[0]) then [xs[0]] else []) + Filter(xs[1..], keep)
  }
}
