// Generic helpers on sequences: lookup by value (Rust's
// `iter().position(..).unwrap()`), constant vectors (`vec![x; n]`) and
// unzipping a vector of pairs.
module Seqs {

  /** The first position holding `a`. */
  function Position<A(==)>(xs: seq<A>, a: A): (i: nat)
    requires a in xs
    ensures i < |xs| && xs[i] == a
    ensures forall j :: 0 <= j < i ==> xs[j] != a
  {
    if xs[0] == a then 0 else 1 + Position(xs[1..], a)
  }

  /** `n` copies of `c`. */
  function Repeat<T>(n: nat, c: T): (r: seq<T>)
    ensures |r| == n && forall i :: 0 <= i < n ==> r[i] == c
  {
    seq(n, i => c)
  }

  function Firsts<A, B>(items: seq<(A, B)>): (r: seq<A>)
    ensures |r| == |items| && forall i :: 0 <= i < |items| ==> r[i] == items[i].0
  {
    seq(|items|, i requires 0 <= i < |items| => items[i].0)
  }

  function Seconds<A, B>(items: seq<(A, B)>): (r: seq<B>)
    ensures |r| == |items| && forall i :: 0 <= i < |items| ==> r[i] == items[i].1
  {
    seq(|items|, i requires 0 <= i < |items| => items[i].1)
  }
}
