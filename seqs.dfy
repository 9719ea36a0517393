/** The array operations the code chains (`filter`, `map`, `flatMap`,
    `slice(0, n)`, `indexOf`, `findIndex`) as functions over sequences. */
module Seqs {

  /** `xs.filter(p)`: the elements satisfying `p`, in their original order. */
  function Filter<T>(xs: seq<T>, p: T -> bool): (r: seq<T>)
    ensures |r| <= |xs|
    ensures forall i :: 0 <= i < |r| ==> p(r[i])
  {
    if xs == [] then [] else (if p(xs[0]) then [xs[0]] else []) + Filter(xs[1..], p)
  }

  /** Filtering keeps exactly the elements satisfying `p`. */
  lemma {:induction false} FilterMembers<T>(xs: seq<T>, p: T -> bool, x: T)
    ensures x in Filter(xs, p) <==> x in xs && p(x)
  {
    if xs != [] {
      FilterMembers(xs[1..], p, x);
      assert xs == [xs[0]] + xs[1..];
    }
  }

  /** Filtering keeps the order: it distributes over concatenation. */
  lemma {:induction false} FilterAppend<T>(a: seq<T>, b: seq<T>, p: T -> bool)
    ensures Filter(a + b, p) == Filter(a, p) + Filter(b, p)
  {
    if a != [] {
      assert (a + b)[0] == a[0];
      assert (a + b)[1..] == a[1..] + b;
      FilterAppend(a[1..], b, p);
    } else {
      assert a + b == b;
    }
  }

  /** `xs.map(f)`. */
  function Map<T, U>(xs: seq<T>, f: T -> U): (r: seq<U>)
    ensures |r| == |xs|
    ensures forall i :: 0 <= i < |xs| ==> r[i] == f(xs[i])
  {
    seq(|xs|, i requires 0 <= i < |xs| => f(xs[i]))
  }

  lemma MapTail<T, U>(xs: seq<T>, f: T -> U)
    requires xs != []
    ensures Map(xs, f)[0] == f(xs[0]) && Map(xs, f)[1..] == Map(xs[1..], f)
  {
  }

  /** A mapped sequence is the image of its head before the image of its tail. */
  lemma MapCons<T, U>(xs: seq<T>, f: T -> U)
    requires xs != []
    ensures Map(xs, f) == [f(xs[0])] + Map(xs[1..], f)
  {
    MapTail(xs, f);
    assert Map(xs, f) == [Map(xs, f)[0]] + Map(xs, f)[1..];
  }

  /** `xs.slice(0, n)`. */
  function Take<T>(xs: seq<T>, n: nat): (r: seq<T>)
    ensures |r| == if |xs| <= n then |xs| else n
  {
    if |xs| <= n then xs else xs[..n]
  }

  /** `xss.flat()`, as `flatMap` produces it. */
  function Flatten<T>(xss: seq<seq<T>>): (r: seq<T>)
  {
    if xss == [] then [] else xss[0] + Flatten(xss[1..])
  }

  /** Flattening distributes over concatenation of the outer sequence. */
  lemma {:induction false} FlattenAppend<T>(a: seq<seq<T>>, b: seq<seq<T>>)
    ensures Flatten(a + b) == Flatten(a) + Flatten(b)
  {
    if a != [] {
      assert (a + b)[0] == a[0];
      assert (a + b)[1..] == a[1..] + b;
      FlattenAppend(a[1..], b);
    } else {
      assert a + b == b;
    }
  }

  /** `xs.indexOf(x)` for an element known to be present. */
  function IndexOf<T(==)>(xs: seq<T>, x: T): (r: nat)
    requires x in xs
    ensures r < |xs| && xs[r] == x
    ensures forall i :: 0 <= i < r ==> xs[i] != x
  {
    if xs[0] == x then 0 else 1 + IndexOf(xs[1..], x)
  }

  /** `xs.findIndex(p)`: the first index satisfying `p`, or -1. */
  function FindIndex<T>(xs: seq<T>, p: T -> bool): (r: int)
    ensures -1 <= r < |xs|
    ensures r >= 0 ==> p(xs[r])
    ensures forall i :: 0 <= i < |xs| && (r < 0 || i < r) ==> !p(xs[i])
  {
    if xs == [] then -1
    else if p(xs[0]) then 0
    else var k := FindIndex(xs[1..], p); if k < 0 then -1 else k + 1
  }
}
