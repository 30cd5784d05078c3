/** Shared value types: an optional value, a value or an error, the stream a generator yields before it
    stops, and sequence reversal (both parsers build lists back to front). */
module Outcomes {

  datatype Option<+T> = None | Some(value: T)

  datatype Result<+T, +E> = Ok(value: T) | Err(error: E)

  /** What a parsing generator produced: the items it yielded, in order, and the
      error it raised after them (None when it ended normally). */
  datatype Emitted<+T, +E> = Emitted(items: seq<T>, failure: Option<E>)
  {
    predicate Succeeded() { failure.None? }
  }

  function Done<T, E>(): Emitted<T, E> { Emitted([], None) }

  function Failed<T, E>(e: E): Emitted<T, E> { Emitted([], Some(e)) }

  /** `xs` were yielded before the rest of the stream `e`. */
  function Prepend<T, E>(xs: seq<T>, e: Emitted<T, E>): (r: Emitted<T, E>)
    ensures r.failure == e.failure && |r.items| == |xs| + |e.items|
    ensures r.items[..|xs|] == xs && r.items[|xs|..] == e.items
  {
    Emitted(xs + e.items, e.failure)
  }

  lemma {:induction false} PrependTwice<T, E>(xs: seq<T>, ys: seq<T>, e: Emitted<T, E>)
    ensures Prepend(xs, Prepend(ys, e)) == Prepend(xs + ys, e)
  {
    assert xs + (ys + e.items) == (xs + ys) + e.items;
  }

  function Reversed<T>(s: seq<T>): (r: seq<T>)
    ensures |r| == |s|
    ensures forall i :: 0 <= i < |s| ==> r[i] == s[|s| - 1 - i]
  {
    if s == [] then [] else Reversed(s[1..]) + [s[0]]
  }

  lemma {:induction false} ReversedAppend<T>(s: seq<T>, x: T)
    ensures Reversed(s + [x]) == [x] + Reversed(s)
  {
  }

  lemma {:induction false} ReversedInvolution<T>(s: seq<T>)
    ensures Reversed(Reversed(s)) == s
  {
  }
}
