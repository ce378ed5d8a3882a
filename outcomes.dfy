/** Failure-carrying values shared by the other modules. */
module Outcomes {

  datatype Option<+T> = None | Some(value: T)

  datatype Result<+T, +E> = Success(value: T) | Failure(error: E)

  /** A step that either completes or fails with an error and returns nothing. */
  datatype Outcome<+E> = Pass | Fail(error: E)

  /** `p` put in front of the sequence held by `o`; a missing sequence stays missing. */
  function Prepend<T>(p: seq<T>, o: Option<seq<T>>): (r: Option<seq<T>>)
    ensures r.Some? <==> o.Some?
    ensures r.Some? ==> |r.value| == |p| + |o.value|
    ensures p == [] ==> r == o
  {
    if o.Some? then
      assert p == [] ==> p + o.value == o.value;
      Some(p + o.value)
    else None
  }

  lemma PrependTwice<T>(p: seq<T>, q: seq<T>, o: Option<seq<T>>)
    ensures Prepend(p, Prepend(q, o)) == Prepend(p + q, o)
  {
    if o.Some? {
      assert p + (q + o.value) == (p + q) + o.value;
    }
  }
}
