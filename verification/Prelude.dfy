/** Shared vocabulary: an optional value, bytes, and facts about finite sets. */
module Prelude {

  datatype Option<+T> = None | Some(value: T)

  /** An unsigned char. */
  newtype byte = b: int | 0 <= b < 256

  /** Two finite sets with an injection each way have the same size; one direction is enough here
      because `there` is required to hit every element of `ys`. */
  lemma {:induction false} BijectionPreservesSize<X(!new), Y(!new)>(xs: set<X>, ys: set<Y>, there: X -> Y)
    requires forall x :: x in xs ==> there(x) in ys
    requires forall x, x' :: x in xs && x' in xs && there(x) == there(x') ==> x == x'
    requires forall y :: y in ys ==> exists x :: x in xs && there(x) == y
    ensures |xs| == |ys|
  {
    if xs == {} {
      assert ys == {};
    } else {
      var x :| x in xs;
      BijectionPreservesSize(xs - {x}, ys - {there(x)}, there);
    }
  }

  lemma SubsetSize<T>(xs: set<T>, ys: set<T>)
    requires xs <= ys
    ensures |xs| <= |ys|
  {
    assert ys == xs + (ys - xs);
  }
}
