/** Order-preserving filtering of sequences, as JavaScript's `Array.prototype.filter`. */
module Seqs {

  /** The elements of `xs` that satisfy `keep`, in their original order. */
  function Filter<T>(keep: T -> bool, xs: seq<T>): (r: seq<T>)
    ensures |r| <= |xs|
    ensures forall x :: x in r ==> x in xs && keep(x)
    ensures forall x :: x in xs && keep(x) ==> x in r
  {
    if xs == [] then []
    else if keep(xs[0]) then [xs[0]] + Filter(keep, xs[1..])
    else Filter(keep, xs[1..])
  }

  /** Filtering distributes over concatenation: what is kept keeps its relative order. */
  lemma {:induction false} FilterAppend<T>(keep: T -> bool, a: seq<T>, b: seq<T>)
    ensures Filter(keep, a + b) == Filter(keep, a) + Filter(keep, b)
  {
    if a == [] {
      assert a + b == b;
    } else {
      assert (a + b)[0] == a[0];
      assert (a + b)[1..] == a[1..] + b;
      FilterAppend(keep, a[1..], b);
      var rest := Filter(keep, a[1..]) + Filter(keep, b);
      assert Filter(keep, (a + b)[1..]) == rest;
      if keep(a[0]) {
        assert Filter(keep, a + b) == [a[0]] + rest;
        assert Filter(keep, a) == [a[0]] + Filter(keep, a[1..]);
        Regroup([a[0]], Filter(keep, a[1..]), Filter(keep, b));
      } else {
        assert Filter(keep, a + b) == rest;
        assert Filter(keep, a) == Filter(keep, a[1..]);
      }
    }
  }

  /** Concatenation regrouped, stated on its own so that callers' proofs stay small. */
  lemma Regroup<T>(a: seq<T>, b: seq<T>, c: seq<T>)
    ensures (a + b) + c == a + (b + c)
  {
  }

  /** When every element is kept, filtering is the identity. */
  lemma {:induction false} FilterAll<T>(keep: T -> bool, xs: seq<T>)
    requires forall x :: x in xs ==> keep(x)
    ensures Filter(keep, xs) == xs
  {
    if xs != [] {
      FilterAll(keep, xs[1..]);
    }
  }
}
