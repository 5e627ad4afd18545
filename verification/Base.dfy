/** Failure-carrying results shared by every module. */
module Base {

  datatype Option<+T> = None | Some(value: T)

  /** A value, or the ValueError the source raises instead (its wording is not modelled). */
  datatype Result<+T> = Ok(value: T) | ValueError {

    predicate IsFailure() {
      ValueError?
    }

    function PropagateFailure<U>(): Result<U>
      requires ValueError?
    {
      ValueError
    }

    function Extract(): T
      requires Ok?
    {
      value
    }
  }

  /** No two positions of a list hold the same element. */
  ghost predicate Distinct<T>(xs: seq<T>) {
    forall i, j :: 0 <= i < j < |xs| ==> xs[i] != xs[j]
  }

  lemma DistinctConcat<T>(xs: seq<T>, ys: seq<T>)
    requires Distinct(xs) && Distinct(ys)
    requires forall x :: x in xs ==> x !in ys
    ensures Distinct(xs + ys)
  {
    var zs := xs + ys;
    forall i, j | 0 <= i < j < |zs|
      ensures zs[i] != zs[j]
    {
      if i < |xs| <= j {
        assert zs[i] in xs && zs[j] in ys;
      }
    }
  }
}
