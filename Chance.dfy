/**
 * Randomness as an input.  `draw(k)` is the k-th number the generator
 * yields; `randbelow(n)` is taken as that number modulo `n`, and `choice`
 * and `shuffle` are the ones of CPython's `random` module built on it.
 */
module Chance {
  type Source = nat -> nat

  /** The k-th `randbelow(n)`. */
  function Below(draw: Source, k: nat, n: nat): (r: nat)
    requires n > 0
    ensures r < n
  {
    draw(k) % n
  }

  /** `random.choice(s)` made with the k-th draw. */
  function Choice<T>(draw: Source, k: nat, s: seq<T>): (r: T)
    requires s != []
    ensures exists i :: 0 <= i < |s| && r == s[i]
  {
    s[Below(draw, k, |s|)]
  }

  /** `n` successive choices from `s`, the first one made with the k-th draw. */
  function Choices<T>(draw: Source, k: nat, s: seq<T>, n: nat): (r: seq<T>)
    requires s != []
    ensures |r| == n
    ensures forall i :: 0 <= i < n ==> r[i] == Choice(draw, k + i, s)
  {
    seq(n, i requires 0 <= i < n => Choice(draw, k + i, s))
  }

  /** Every choice is an element of `s`. */
  lemma ChoicesIn<T>(draw: Source, k: nat, s: seq<T>, n: nat)
    requires s != []
    ensures forall i :: 0 <= i < n ==> Choices(draw, k, s, n)[i] in s
  {
    forall i | 0 <= i < n
      ensures Choices(draw, k, s, n)[i] in s
    {
      var j :| 0 <= j < |s| && Choice(draw, k + i, s) == s[j];
    }
  }

  /** One more choice goes at the end. */
  lemma ChoicesSnoc<T>(draw: Source, k: nat, s: seq<T>, n: nat)
    requires s != []
    ensures Choices(draw, k, s, n + 1) == Choices(draw, k, s, n) + [Choice(draw, k + n, s)]
  {
  }

  /**
   * The loop `while len(x) < length: x.append(random.choice(s))`, its first
   * draw the one numbered `|x|`.
   */
  method ChooseUpTo<T>(x: seq<T>, s: seq<T>, length: int, draw: Source) returns (y: seq<T>)
    requires s != []
    ensures |x| >= length ==> y == x
    ensures |x| < length ==> y == x + Choices(draw, |x|, s, length - |x|)
  {
    y := x;
    ghost var fill: seq<T> := [];
    while |y| < length
      invariant y == x + fill && fill == Choices(draw, |x|, s, |fill|)
      invariant |x| < length ==> |y| <= length
      invariant |x| >= length ==> fill == []
      decreases length - |y|
    {
      var c := Choice(draw, |y|, s);
      ChoicesSnoc(draw, |x|, s, |fill|);
      y := y + [c];
      fill := fill + [c];
    }
  }

  /** Exchanging two positions keeps the elements. */
  function Swap<T>(x: seq<T>, i: nat, j: nat): (r: seq<T>)
    requires i < |x| && j < |x|
    ensures |r| == |x| && multiset(r) == multiset(x)
    ensures r[i] == x[j] && r[j] == x[i]
    ensures forall k :: 0 <= k < |x| && k != i && k != j ==> r[k] == x[k]
  {
    var r := x[i := x[j]][j := x[i]];
    assert multiset(x[i := x[j]]) == multiset(x) - multiset{x[i]} + multiset{x[j]};
    r
  }

  /**
   * What `random.shuffle` does to `x` while `m` positions are left: position
   * `m - 1` changes place with a position drawn below `m`, down to position 1.
   */
  function ShuffleSteps<T>(x: seq<T>, m: nat, draw: Source, k: nat): (r: seq<T>)
    requires m <= |x|
    ensures |r| == |x| && multiset(r) == multiset(x)
    decreases m
  {
    if m <= 1 then x
    else ShuffleSteps(Swap(x, m - 1, Below(draw, k, m)), m - 1, draw, k + 1)
  }

  /** `random.shuffle(x)`, its first draw the k-th. */
  function Shuffled<T>(x: seq<T>, draw: Source, k: nat): (r: seq<T>)
    ensures |r| == |x| && multiset(r) == multiset(x)
  {
    ShuffleSteps(x, |x|, draw, k)
  }

  /** The number of draws `random.shuffle` makes on `n` elements. */
  function ShuffleDraws(n: nat): nat {
    if n <= 1 then 0 else n - 1
  }

  /** The shuffle loop, exchanging elements one pair at a time. */
  method Shuffle<T>(x: seq<T>, draw: Source, k: nat) returns (y: seq<T>)
    ensures y == Shuffled(x, draw, k)
    ensures multiset(y) == multiset(x)
  {
    y := x;
    var i: nat := |x|;
    var t: nat := k;
    while i > 1
      invariant i <= |y| == |x|
      invariant ShuffleSteps(y, i, draw, t) == Shuffled(x, draw, k)
    {
      var j := Below(draw, t, i);
      y := Swap(y, i - 1, j);
      i := i - 1;
      t := t + 1;
    }
  }

  /** Shuffling keeps membership: what was in the sequence still is, and nothing else. */
  lemma ShuffledMembers<T>(x: seq<T>, draw: Source, k: nat, e: T)
    ensures e in Shuffled(x, draw, k) <==> e in x
  {
    var y := Shuffled(x, draw, k);
    assert e in y <==> e in multiset(y);
    assert e in x <==> e in multiset(x);
  }
}
