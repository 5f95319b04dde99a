/** Vocabulary shared by every module: optional values, document ids, instants
    and the status/message pair an HTTP handler answers with. */
module Common {

  /** A value that may be absent (`undefined` / `null` in the source). */
  datatype Option<+T> = None | Some(value: T) {
    /** The value, or `default` when absent (the source's `x || default`). */
    function GetOr(default: T): T {
      match this
      case Some(v) => v
      case None => default
    }
  }

  /** A MongoDB ObjectId; only equality matters. */
  type Id = nat

  /** An instant, in milliseconds since the epoch (a JavaScript `Date`). */
  type Time = int

  /** What a request handler sends back: the HTTP status and the `message` field
      (the empty string where the handler sends data instead of a message). */
  datatype Reply = Reply(status: nat, message: string) {
    predicate Succeeded() { 200 <= status < 300 }
  }

  /** `xs` is `ys` with some elements left out and the others kept in their
      order (what a `filter` returns). */
  predicate Subsequence<T(==)>(xs: seq<T>, ys: seq<T>)
    decreases |ys|
  {
    if xs == [] then true
    else if ys == [] then false
    else (xs[0] == ys[0] && Subsequence(xs[1..], ys[1..])) || Subsequence(xs, ys[1..])
  }

  const OneSecond: int := 1000
  const OneMinute: int := 60 * OneSecond
  const OneHour: int := 60 * OneMinute
  const OneDay: int := 24 * OneHour
}
