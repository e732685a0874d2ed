/** The outcome of an accessor that either yields a value or throws a runtime error with a message. */
module Results {

  datatype Result<T> = Ok(value: T) | Err(message: string)

  /** How many of the reported outcomes are values (as opposed to thrown errors). */
  function OkCount<T>(outs: seq<Result<T>>): nat {
    if outs == [] then 0 else (if outs[0].Ok? then 1 else 0) + OkCount(outs[1..])
  }

  /** Each of `xs` reported as a value. */
  function Oks<T>(xs: seq<T>): seq<Result<T>> {
    seq(|xs|, i requires 0 <= i < |xs| => Ok(xs[i]))
  }

  lemma OksCons<T>(x: T, xs: seq<T>)
    ensures Oks([x] + xs) == [Ok(x)] + Oks(xs)
  {
  }

  /** The value an outcome carries, if any: one element for `Ok`, none for `Err`. */
  function Payload<T>(r: Result<T>): seq<T> {
    if r.Ok? then [r.value] else []
  }

  /** The values among the reported outcomes, in order; thrown errors are skipped. */
  function Values<T>(outs: seq<Result<T>>): (vs: seq<T>)
    ensures |vs| == OkCount(outs)
  {
    if outs == [] then [] else Payload(outs[0]) + Values(outs[1..])
  }

  lemma ValuesCons<T>(r: Result<T>, rs: seq<Result<T>>)
    ensures Values([r] + rs) == Payload(r) + Values(rs)
  {
  }
}
