/** Failure-carrying datatypes and the identifiers shared by every module. */
module Prelude {

  datatype Option<+T> = None | Some(value: T)

  datatype Result<+T, +E> = Ok(value: T) | Err(error: E)

  /** A canonical identifier. Ids are compared and sorted as their canonical strings are;
      0 stands for the empty string, which every constructor refuses. */
  type Id = nat

  /** An instant on the single monotone clock of the system. */
  type Time = int

  predicate Distinct(ids: seq<Id>) {
    forall i, k :: 0 <= i < k < |ids| ==> ids[i] != ids[k]
  }

  function Without<T>(items: seq<T>, k: nat): (r: seq<T>)
    requires k < |items|
    ensures |r| == |items| - 1
  {
    items[..k] + items[k + 1..]
  }
}
