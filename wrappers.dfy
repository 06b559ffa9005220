/** Option and Result, for the source's `None` values and its raised exceptions. */
module Wrappers {
  datatype Option<+T> = None | Some(value: T)

  /** `Err` stands for a Python exception (or a failed `assert`); the message is informative only. */
  datatype Result<+T> = Ok(value: T) | Err(msg: string)

  /** Put an already computed prefix in front of a result; an error stays an error. */
  function Prepend<T>(p: seq<T>, r: Result<seq<T>>): Result<seq<T>>
  {
    match r
    case Ok(v) => Ok(p + v)
    case Err(m) => Err(m)
  }

  lemma PrependEmpty<T>(r: Result<seq<T>>)
    ensures Prepend([], r) == r
  {
    if r.Ok? {
      assert [] + r.value == r.value;
    }
  }

  lemma PrependAppend<T>(p: seq<T>, q: seq<T>, r: Result<seq<T>>)
    ensures Prepend(p, Prepend(q, r)) == Prepend(p + q, r)
  {
    if r.Ok? {
      assert p + (q + r.value) == (p + q) + r.value;
    }
  }
}
