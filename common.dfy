/** Stock optional and result values, and a sequence step shared by the loops of the other modules. */
module Common {

  datatype Option<T> = None | Some(value: T)

  /** The outcome of an operation that may throw: the value, or the message of the error. */
  datatype Result<T> = Success(value: T) | Failure(message: string)

  /** Moving what one pass of a loop produces from the part still to come to the part already
      done keeps their concatenation. */
  lemma AppendStep<T>(done: seq<T>, rest: seq<T>, pushed: seq<T>, after: seq<T>, total: seq<T>)
    requires done + rest == total && rest == pushed + after
    ensures (done + pushed) + after == total
  {
    assert (done + pushed) + after == done + (pushed + after);
  }

  /** Regrouping a concatenation of four pieces around its first one. */
  lemma Regroup<T>(a: seq<T>, b: seq<T>, c: seq<T>, d: seq<T>)
    ensures a + b + c + d == a + (b + c + d)
  {
    assert a + b + c + d == (a + (b + c)) + d;
  }
}
