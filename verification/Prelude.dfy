/** Result types shared by the models. */
module Prelude {
  datatype Option<+T> = None | Some(value: T)

  /** The outcome of one transaction: a committed new state with an answer, or a rollback. */
  datatype Tx<+S, +R, +E> = Commit(state: S, answer: R) | Abort(error: E)

  datatype Result<+R, +E> = Ok(value: R) | Err(error: E)

  /** The first `n` natural numbers. */
  function Below(n: nat): (s: set<nat>)
    ensures |s| == n
    ensures forall i: nat :: i in s <==> i < n
  {
    if n == 0 then {} else Below(n - 1) + {n - 1}
  }

  lemma {:induction false} SubsetsAreNoLarger<T>(a: set<T>, b: set<T>)
    requires a <= b
    ensures |a| <= |b| && (|a| == |b| ==> a == b)
    decreases b
  {
    if b != {} {
      var x :| x in b;
      if x in a {
        SubsetsAreNoLarger(a - {x}, b - {x});
        assert a == (a - {x}) + {x} && b == (b - {x}) + {x};
      } else {
        SubsetsAreNoLarger(a, b - {x});
      }
    }
  }
}
