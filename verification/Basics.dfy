/** Small datatypes every other module uses. */
module Basics {

  /** A key that may be absent from a Python dictionary, or a value that may be None. */
  datatype Option<+T> = None | Some(value: T)

  datatype Result<+T, +E> = Ok(value: T) | Err(error: E)

  /** The elements of a sequence that satisfy a test, in order. */
  function Filter<T(!new)>(xs: seq<T>, keep: T -> bool): (ys: seq<T>)
    ensures forall y :: y in ys <==> y in xs && keep(y)
  {
    if xs == [] then [] else (if keep(xs[0]) then [xs[0]] else []) + Filter(xs[1..], keep)
  }

  lemma FilterAppend<T(!new)>(xs: seq<T>, ys: seq<T>, keep: T -> bool)
    ensures Filter(xs + ys, keep) == Filter(xs, keep) + Filter(ys, keep)
  {
    if xs == [] {
      assert xs + ys == ys;
    } else {
      assert (xs + ys)[1..] == xs[1..] + ys;
      FilterAppend(xs[1..], ys, keep);
    }
  }

  /** The four outcomes, and the exception the evaluator does not catch. */
  datatype Outcome = PASS | FAIL | UNKNOWN | EXCLUDED | RAISED

  predicate Conclusive(o: Outcome) { o.PASS? || o.FAIL? || o.EXCLUDED? }

  /** What a verdict can say: where evaluating raises there is no verdict. */
  type Said = o: Outcome | !o.RAISED? witness UNKNOWN
}
