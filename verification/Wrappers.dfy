/** What several components share: values that may be missing, and numbers not in use. */
module Wrappers {

  /** Python's None, a Redis miss, a null. */
  datatype Option<T> = None | Some(value: T)

  /** A number above all of a set. */
  lemma {:induction false} Above(s: set<nat>) returns (n: nat)
    ensures forall x :: x in s ==> x < n
    decreases s
  {
    if s == {} {
      n := 0;
    } else {
      var x :| x in s;
      var m := Above(s - {x});
      n := if m <= x then x + 1 else m;
      assert forall y :: y in s ==> y == x || y in s - {x};
    }
  }
}
