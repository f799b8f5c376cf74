/** Results of Python calls that may return nothing or raise. */
module Outcomes {

  /** A value that may be absent: Python's `None` or a missing key. */
  datatype Option<+T> = None | Some(value: T)

  /** The result of a call that either returns a value or raises an exception,
      whose message is kept as text. */
  datatype Outcome<+T> = Ok(value: T) | Raised(error: string)

  /** Concatenation is associative; used to regroup pieces of text and lists
      of records. */
  lemma SeqAssoc<T>(x: seq<T>, y: seq<T>, z: seq<T>)
    ensures (x + y) + z == x + (y + z)
  {
  }
}
