/** Order-preserving filtering, the shape of Python's list comprehensions with an `if`. */
module Seqs {
  function Filter<T>(f: T -> bool, xs: seq<T>): (r: seq<T>)
    ensures |r| <= |xs|
  {
    if xs == [] then [] else (if f(xs[0]) then [xs[0]] else []) + Filter(f, xs[1..])
  }

  /** What is kept is what is in the input and satisfies the predicate. */
  lemma {:induction false} FilterMembers<T>(f: T -> bool, xs: seq<T>)
    ensures forall x :: x in Filter(f, xs) <==> x in xs && f(x)
  {
    if xs != [] {
      FilterMembers(f, xs[1..]);
      assert xs == [xs[0]] + xs[1..];
    }
  }

  /** Every element kept satisfies the predicate. */
  lemma FilterKept<T>(f: T -> bool, xs: seq<T>)
    ensures forall i :: 0 <= i < |Filter(f, xs)| ==> f(Filter(f, xs)[i])
  {
    FilterMembers(f, xs);
  }

  lemma {:induction false} FilterConcat<T>(f: T -> bool, xs: seq<T>, ys: seq<T>)
    ensures Filter(f, xs + ys) == Filter(f, xs) + Filter(f, ys)
  {
    if xs == [] {
      assert xs + ys == ys;
    } else {
      var zs := xs + ys;
      var head := if f(xs[0]) then [xs[0]] else [];
      assert zs[0] == xs[0] && zs[1..] == xs[1..] + ys;
      FilterConcat(f, xs[1..], ys);
      assert Filter(f, zs) == head + Filter(f, zs[1..]);
      assert Filter(f, xs) == head + Filter(f, xs[1..]);
    }
  }

  /** Filtering a sequence grown by one element, as a loop that appends does. */
  lemma FilterSnoc<T>(f: T -> bool, xs: seq<T>, x: T)
    ensures Filter(f, xs + [x]) == Filter(f, xs) + (if f(x) then [x] else [])
  {
    FilterConcat(f, xs, [x]);
    assert Filter(f, [x]) == (if f(x) then [x] else []) + Filter(f, []);
  }

  /** Filtering one more element of a prefix. */
  lemma FilterPrefix<T>(f: T -> bool, xs: seq<T>, j: nat)
    requires j < |xs|
    ensures Filter(f, xs[..j + 1]) == Filter(f, xs[..j]) + (if f(xs[j]) then [xs[j]] else [])
  {
    assert xs[..j + 1] == xs[..j] + [xs[j]];
    FilterSnoc(f, xs[..j], xs[j]);
  }

  /** A kept element sits in the result after the elements kept before it. */
  lemma FilterAt<T>(f: T -> bool, xs: seq<T>, j: nat)
    requires j < |xs| && f(xs[j])
    ensures |Filter(f, xs[..j])| < |Filter(f, xs)|
    ensures Filter(f, xs)[|Filter(f, xs[..j])|] == xs[j]
  {
    assert xs == xs[..j + 1] + xs[j + 1..];
    FilterConcat(f, xs[..j + 1], xs[j + 1..]);
    FilterPrefix(f, xs, j);
  }

  /** Two kept elements keep their order. */
  lemma FilterOrder<T>(f: T -> bool, xs: seq<T>, i: nat, j: nat)
    requires i < j < |xs| && f(xs[i]) && f(xs[j])
    ensures exists a, b :: 0 <= a < b < |Filter(f, xs)| && Filter(f, xs)[a] == xs[i] && Filter(f, xs)[b] == xs[j]
  {
    FilterAt(f, xs, i);
    FilterAt(f, xs, j);
    FilterPrefix(f, xs, i);
    assert xs[..j] == xs[..i + 1] + xs[i + 1..j];
    FilterConcat(f, xs[..i + 1], xs[i + 1..j]);
    var a, b := |Filter(f, xs[..i])|, |Filter(f, xs[..j])|;
    assert a < b;
  }

  /** Filtering a non-empty sequence: its front, then its last element if kept. */
  lemma FilterLast<T>(f: T -> bool, xs: seq<T>)
    requires xs != []
    ensures Filter(f, xs) == Filter(f, xs[..|xs| - 1]) + (if f(xs[|xs| - 1]) then [xs[|xs| - 1]] else [])
  {
    FilterPrefix(f, xs, |xs| - 1);
    assert xs[..|xs|] == xs;
  }

  /** Filtering by three predicates of which exactly one holds for each element splits a sequence. */
  lemma {:induction false} FilterPartition3<T>(f: T -> bool, g: T -> bool, h: T -> bool, xs: seq<T>)
    requires forall x :: (f(x) && !g(x) && !h(x)) || (!f(x) && g(x) && !h(x)) || (!f(x) && !g(x) && h(x))
    ensures multiset(Filter(f, xs)) + multiset(Filter(g, xs)) + multiset(Filter(h, xs)) == multiset(xs)
  {
    if xs != [] {
      var x, rest := xs[0], xs[1..];
      FilterPartition3(f, g, h, rest);
      assert xs == [x] + rest;
      assert multiset(xs) == multiset{x} + multiset(rest);
    }
  }

  lemma {:induction false} FilterCommute<T>(f: T -> bool, g: T -> bool, xs: seq<T>)
    ensures Filter(f, Filter(g, xs)) == Filter(g, Filter(f, xs))
  {
    if xs != [] {
      FilterCommute(f, g, xs[1..]);
      var h := if g(xs[0]) then [xs[0]] else [];
      var k := if f(xs[0]) then [xs[0]] else [];
      FilterConcat(f, h, Filter(g, xs[1..]));
      FilterConcat(g, k, Filter(f, xs[1..]));
    }
  }

  /** Filtering by a predicate that every element already satisfies changes nothing. */
  lemma {:induction false} FilterAll<T>(f: T -> bool, xs: seq<T>)
    requires forall i :: 0 <= i < |xs| ==> f(xs[i])
    ensures Filter(f, xs) == xs
  {
    if xs != [] {
      FilterAll(f, xs[1..]);
    }
  }

  /** Filtering by a predicate that no element satisfies leaves nothing. */
  lemma {:induction false} FilterNone<T>(f: T -> bool, xs: seq<T>)
    requires forall i :: 0 <= i < |xs| ==> !f(xs[i])
    ensures Filter(f, xs) == []
  {
    if xs != [] {
      FilterNone(f, xs[1..]);
    }
  }

  /** Filtering drops something exactly when some element fails the predicate. */
  lemma {:induction false} FilterShorter<T>(f: T -> bool, xs: seq<T>)
    ensures |Filter(f, xs)| < |xs| <==> exists i :: 0 <= i < |xs| && !f(xs[i])
  {
    if xs != [] {
      FilterShorter(f, xs[1..]);
      assert forall i :: 1 <= i < |xs| ==> xs[i] == xs[1..][i - 1];
      if exists i :: 0 <= i < |xs[1..]| && !f(xs[1..][i]) {
        var i :| 0 <= i < |xs[1..]| && !f(xs[1..][i]);
        assert !f(xs[i + 1]);
      }
    }
  }

  function Count<T>(f: T -> bool, xs: seq<T>): (n: nat)
    ensures n == |Filter(f, xs)|
  {
    if xs == [] then 0 else (if f(xs[0]) then 1 else 0) + Count(f, xs[1..])
  }

  /** The results of `f` on each element, concatenated in order, as a loop that appends them builds it. */
  function FlatMap<T, U>(f: T -> seq<U>, xs: seq<T>): seq<U> {
    if xs == [] then [] else FlatMap(f, xs[..|xs| - 1]) + f(xs[|xs| - 1])
  }

  /** Everything in the result comes from some element. */
  lemma {:induction false} FlatMapFrom<T, U>(f: T -> seq<U>, xs: seq<T>, y: U)
    requires y in FlatMap(f, xs)
    ensures exists x :: x in xs && y in f(x)
  {
    var n := |xs|;
    if y in FlatMap(f, xs[..n - 1]) {
      FlatMapFrom(f, xs[..n - 1], y);
      var x :| x in xs[..n - 1] && y in f(x);
      assert x in xs;
    } else {
      assert xs[n - 1] in xs;
    }
  }

  /** Everything any element yields is in the result. */
  lemma {:induction false} FlatMapHas<T, U>(f: T -> seq<U>, xs: seq<T>, k: nat, y: U)
    requires k < |xs| && y in f(xs[k])
    ensures y in FlatMap(f, xs)
  {
    var n := |xs|;
    if k < n - 1 {
      FlatMapHas(f, xs[..n - 1], k, y);
    }
  }

  /** The indices below `n` at which `p` holds. */
  function Indices(p: nat -> bool, n: nat): set<nat> {
    set i: nat | i < n && p(i)
  }

  /** One index more adds one exactly when `p` holds there. */
  lemma IndicesStep(p: nat -> bool, n: nat)
    ensures |Indices(p, n + 1)| == |Indices(p, n)| + (if p(n) then 1 else 0)
  {
    if p(n) {
      assert Indices(p, n + 1) == Indices(p, n) + {n};
    } else {
      assert Indices(p, n + 1) == Indices(p, n);
    }
  }
}
