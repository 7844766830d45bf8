/** Absent/present values, success/failure results, and the three states a key of a
    loosely typed provider payload can be in. */
module Wrappers {

  /** A value that may be absent; the model's rendering of a nullable column or of
      Python's `None`. */
  datatype Option<+T> = None | Some(value: T)

  /** The outcome of a step that may raise. */
  datatype Result<+R, +E> = Success(value: R) | Failure(error: E)

  /** One key of a dictionary-shaped payload: the key is missing, present with a null
      value, or present with a value. The distinction matters because a dictionary
      lookup with a default (`d.get(k, default)`) returns the default only for a
      missing key, and returns null for a key that is present with a null value. */
  datatype Entry<+T> = Missing | Null | Present(value: T) {

    /** A lookup with a default: a missing key yields `default`, a null value yields
        an absent result, a present value yields that value. */
    function Get(default: Option<T>): (r: Option<T>)
      ensures Missing? ==> r == default
      ensures Null? ==> r == None
      ensures Present? ==> r == Some(value)
    {
      match this
      case Missing => default
      case Null => None
      case Present(v) => Some(v)
    }

    /** A lookup without a default: absent unless a value is present. */
    function Find(): (r: Option<T>)
      ensures r.Some? <==> Present?
      ensures r.Some? ==> r.value == value
    {
      Get(None)
    }
  }
}
