/** Return types shared by the modules. */
module Outcomes {
  datatype Option<+T> = None | Some(value: T)

  /** A string that is only compared with others: an identifier, a cache key, a serialised specification. */
  datatype Name = Name(text: string)

  /** A computation that returns a value or raises an error. */
  datatype Result<+T, +E> = Ok(value: T) | Err(error: E)

  lemma SubsetSmaller<T>(a: set<T>, b: set<T>)
    requires a <= b
    ensures |a| <= |b|
  {
    assert b == a + (b - a);
  }
}
