/**
 * Regroupings of sequence concatenations, stated once for any element type.
 * The loop proofs call them on concrete replies, lines and strings, where
 * the solver would otherwise redo each identity on the concrete values.
 */
module Sequences {

  lemma ConsParts<T>(x: T, xs: seq<T>)
    ensures ([x] + xs)[0] == x && ([x] + xs)[1..] == xs
  {
  }

  lemma EmptyThen<T>(e: seq<T>, x: seq<T>, y: seq<T>)
    requires e == []
    ensures e + x + y == x + y
  {
  }

  lemma EmptyFront<T>(xs: seq<T>)
    ensures [] + xs == xs
  {
  }

  lemma EmptyBack<T>(xs: seq<T>)
    ensures xs + [] == xs
  {
  }

  lemma Regroup<T>(a: seq<T>, b: seq<T>, c: seq<T>, d: seq<T>)
    ensures a + b + c + d == a + (b + c + d) == a + (b + (c + d))
  {
  }

  lemma ConsTwo<T>(x: T, y: T, xs: seq<T>)
    ensures [x] + ([y] + xs) == [x, y] + xs
  {
  }

  lemma Thrice<T>(x: T, xs: seq<T>)
    ensures [x] + [x] + [x] + xs == [x, x, x] + xs
  {
  }

  lemma Nest<T>(x: T, y: T, z: T, xs: seq<T>)
    ensures [x, y, z] + xs == [x] + ([y] + ([z] + xs))
  {
  }

  lemma Around<T>(xs: seq<T>, i: nat)
    requires i < |xs|
    ensures xs[..i] + [xs[i]] + xs[i + 1..] == xs
  {
  }
}
