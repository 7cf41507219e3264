/** Small shared vocabulary: optional values, opaque JSON payloads and what a
    caller-supplied asynchronous function may do when it is awaited. */
module Prelude {

  datatype Option<+T> = None | Some(value: T)

  /** A payload the reliability layer stores and hands back but never inspects. */
  datatype Value = Undefined | Number(n: int) | Json(text: string)

  /** How one awaited call of a caller-supplied function ended. */
  datatype Outcome = Returns(v: Value) | Throws(message: string)

  lemma Regroup<T>(a: seq<T>, b: seq<T>, c: seq<T>)
    ensures a + (b + c) == (a + b) + c
  {
  }
}
