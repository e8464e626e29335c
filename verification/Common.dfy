/** Failure-compatible values and small sequence facts shared by every component. */
module Common {

  datatype Option<+T> = None | Some(value: T)

  datatype Result<+T, +E> = Ok(value: T) | Err(error: E)

  function Min(a: int, b: int): int { if a < b then a else b }

  predicate Distinct<T(==)>(s: seq<T>) { forall i, j :: 0 <= i < j < |s| ==> s[i] != s[j] }

  /** Concatenation of a list of lists, in order. */
  function Flatten<T>(xs: seq<seq<T>>): (r: seq<T>)
  {
    if xs == [] then [] else xs[0] + Flatten(xs[1..])
  }

  lemma {:induction false} FlattenAppend<T>(xs: seq<seq<T>>, ys: seq<seq<T>>)
    ensures Flatten(xs + ys) == Flatten(xs) + Flatten(ys)
  {
    if xs == [] {
      assert xs + ys == ys;
    } else {
      assert (xs + ys)[1..] == xs[1..] + ys;
      FlattenAppend(xs[1..], ys);
    }
  }

  lemma FlattenSnoc<T>(xs: seq<seq<T>>, x: seq<T>)
    ensures Flatten(xs + [x]) == Flatten(xs) + x
  {
    FlattenAppend(xs, [x]);
    assert Flatten([x]) == x + Flatten([x][1..]);
  }

  lemma SnocChunk<T>(chunks: seq<seq<T>>, i: nat)
    requires i < |chunks|
    ensures Flatten(chunks[..i + 1]) == Flatten(chunks[..i]) + chunks[i]
    ensures Flatten(chunks[..i]) + chunks[i] + Flatten(chunks[i + 1..]) == Flatten(chunks)
  {
    hide Flatten;
    var front, later := chunks[..i + 1], chunks[i + 1..];
    assert front == chunks[..i] + [chunks[i]];
    FlattenSnoc(chunks[..i], chunks[i]);
    FlattenAppend(front, later);
    assert front + later == chunks;
  }
}
