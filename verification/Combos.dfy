/** The enumerator of party combinations: a recursion that pushes and pops a
    shared buffer and appends every full buffer to the output. */
module Combos {

  function Pow(n: nat, k: nat): nat {
    if k == 0 then 1 else n * Pow(n, k - 1)
  }

  /******* Index tuples and their ranks *******/

  /** `left` indices into a pool of `n`. */
  predicate IsTuple(d: seq<nat>, left: nat, n: nat) {
    |d| == left && forall i :: 0 <= i < left ==> d[i] < n
  }

  /** The position of an index tuple when tuples are read as numerals in base `n`. */
  function Rank(d: seq<nat>, n: nat): nat {
    if d == [] then 0 else d[0] * Pow(n, |d| - 1) + Rank(d[1..], n)
  }

  /** The index tuple at a position. */
  function Unrank(r: nat, left: nat, n: nat): seq<nat> {
    if left == 0 || Pow(n, left - 1) == 0 then []
    else [r / Pow(n, left - 1)] + Unrank(r % Pow(n, left - 1), left - 1, n)
  }

  /** Lexicographic order of index tuples of one length. */
  predicate LexLess(d: seq<nat>, e: seq<nat>)
    requires |d| == |e|
  {
    d != [] && (d[0] < e[0] || (d[0] == e[0] && LexLess(d[1..], e[1..])))
  }

  lemma ProductGrows(a: nat, b: nat, c: nat, p: nat)
    requires a < b && c < p
    ensures a * p + c < b * p
  {
    assert (a + 1) * p <= b * p;
  }

  lemma {:induction false} RankBelow(d: seq<nat>, n: nat)
    requires IsTuple(d, |d|, n)
    ensures Rank(d, n) < Pow(n, |d|)
  {
    if d != [] {
      RankBelow(d[1..], n);
      ProductGrows(d[0], n, Rank(d[1..], n), Pow(n, |d| - 1));
    }
  }

  /** Ranks order tuples lexicographically. */
  lemma {:induction false} RankIsLexicographic(d: seq<nat>, e: seq<nat>, n: nat)
    requires IsTuple(d, |d|, n) && IsTuple(e, |d|, n)
    ensures LexLess(d, e) <==> Rank(d, n) < Rank(e, n)
    ensures d == e <==> Rank(d, n) == Rank(e, n)
  {
    if d != [] {
      var p := Pow(n, |d| - 1);
      RankIsLexicographic(d[1..], e[1..], n);
      RankBelow(d[1..], n);
      RankBelow(e[1..], n);
      assert d == [d[0]] + d[1..] && e == [e[0]] + e[1..];
      if d[0] < e[0] {
        ProductGrows(d[0], e[0], Rank(d[1..], n), p);
      } else if e[0] < d[0] {
        ProductGrows(e[0], d[0], Rank(e[1..], n), p);
      }
    }
  }

  lemma ProductsOrdered(a: nat, b: nat, p: nat)
    requires a <= b
    ensures a * p <= b * p
  {
    assert (b - a) * p >= 0;
  }

  lemma QuotientBelow(r: nat, p: nat, n: nat)
    requires r < n * p
    ensures p > 0
    ensures r / p < n && r == (r / p) * p + r % p
  {
    if p > 0 && r / p >= n {
      ProductsOrdered(n, r / p, p);
    }
  }

  /** Every position below n^left is the rank of a tuple. */
  lemma {:induction false} UnrankIsInverse(r: nat, left: nat, n: nat)
    requires r < Pow(n, left)
    ensures IsTuple(Unrank(r, left, n), left, n)
    ensures Rank(Unrank(r, left, n), n) == r
  {
    if left > 0 {
      var p := Pow(n, left - 1);
      QuotientBelow(r, p, n);
      UnrankIsInverse(r % p, left - 1, n);
      var d, rest := Unrank(r, left, n), Unrank(r % p, left - 1, n);
      assert d == [r / p] + rest && d[1..] == rest;
      assert Rank(d, n) == d[0] * p + Rank(rest, n);
    }
  }

  /******* The enumeration *******/

  /** The pool elements an index tuple picks. */
  function Select<T>(pool: seq<T>, d: seq<nat>): seq<T>
    requires IsTuple(d, |d|, |pool|)
  {
    seq(|d|, i requires 0 <= i < |d| => pool[d[i]])
  }

  /** What the recursion appends from a buffer with `left` places open. */
  function Extensions<T>(cur: seq<T>, left: nat, pool: seq<T>): seq<seq<T>>
    decreases left, |pool| + 1
  {
    if left == 0 then [cur] else Branches(cur, left, pool, |pool|)
  }

  /** What its loop has appended after `m` pool elements. */
  function Branches<T>(cur: seq<T>, left: nat, pool: seq<T>, m: nat): seq<seq<T>>
    requires left > 0 && m <= |pool|
    decreases left, m
  {
    if m == 0 then []
    else Branches(cur, left, pool, m - 1) + Extensions(cur + [pool[m - 1]], left - 1, pool)
  }

  lemma {:induction false} ExtensionsCount<T>(cur: seq<T>, left: nat, pool: seq<T>)
    ensures |Extensions(cur, left, pool)| == Pow(|pool|, left)
    decreases left, |pool| + 1
  {
    if left > 0 {
      BranchesCount(cur, left, pool, |pool|);
    }
  }

  lemma {:induction false} BranchesCount<T>(cur: seq<T>, left: nat, pool: seq<T>, m: nat)
    requires left > 0 && m <= |pool|
    ensures |Branches(cur, left, pool, m)| == m * Pow(|pool|, left - 1)
    decreases left, m
  {
    if m > 0 {
      var p := Pow(|pool|, left - 1);
      BranchesCount(cur, left, pool, m - 1);
      ExtensionsCount(cur + [pool[m - 1]], left - 1, pool);
      assert (m - 1) * p + p == m * p;
    }
  }

  /** The element at the rank of an index tuple is the buffer followed by what the tuple picks. */
  lemma {:induction false} ExtensionsAtRank<T>(cur: seq<T>, left: nat, pool: seq<T>, d: seq<nat>)
    requires IsTuple(d, left, |pool|)
    ensures Rank(d, |pool|) < |Extensions(cur, left, pool)|
    ensures Extensions(cur, left, pool)[Rank(d, |pool|)] == cur + Select(pool, d)
    decreases left, |pool| + 1
  {
    RankBelow(d, |pool|);
    ExtensionsCount(cur, left, pool);
    if left == 0 {
      assert cur + Select(pool, d) == cur;
    } else {
      BranchesAtRank(cur, left, pool, |pool|, d);
    }
  }

  lemma {:induction false} BranchesAtRank<T>(cur: seq<T>, left: nat, pool: seq<T>, m: nat, d: seq<nat>)
    requires left > 0 && m <= |pool| && IsTuple(d, left, |pool|) && d[0] < m
    ensures Rank(d, |pool|) < |Branches(cur, left, pool, m)|
    ensures Branches(cur, left, pool, m)[Rank(d, |pool|)] == cur + Select(pool, d)
    decreases left, m
  {
    var n, p := |pool|, Pow(|pool|, left - 1);
    BranchesCount(cur, left, pool, m);
    BranchesCount(cur, left, pool, m - 1);
    RankBelow(d[1..], n);
    if d[0] < m - 1 {
      BranchesAtRank(cur, left, pool, m - 1, d);
    } else {
      var next := cur + [pool[m - 1]];
      ExtensionsAtRank(next, left - 1, pool, d[1..]);
      assert next + Select(pool, d[1..]) == cur + Select(pool, d);
      ProductGrows(m - 1, m, Rank(d[1..], n), p);
    }
  }

  class Enumerator<T> {
    var cur: seq<T>
    var out: seq<seq<T>>

    constructor ()
      ensures cur == [] && out == []
    {
      cur, out := [], [];
    }

    /** Appends every completion of the buffer, and gives the buffer back as it was. */
    method Build(arity: nat, pool: seq<T>)
      requires |cur| <= arity
      modifies this
      ensures cur == old(cur)
      ensures out == old(out) + Extensions(old(cur), arity - |old(cur)|, pool)
      decreases arity - |cur|
    {
      if |cur| == arity {
        out := out + [cur];
        return;
      }
      var i := 0;
      while i < |pool|
        invariant 0 <= i <= |pool| && cur == old(cur)
        invariant out == old(out) + Branches(old(cur), arity - |old(cur)|, pool, i)
      {
        cur := cur + [pool[i]];
        Build(arity, pool);
        cur := cur[..|cur| - 1];
        i := i + 1;
      }
    }
  }

  /** Every `arity`-tuple over the pool, in lexicographic order of its indices:
      one element per index tuple, at its rank, and nothing else. */
  method Combos<T>(arity: nat, pool: seq<T>) returns (out: seq<seq<T>>)
    ensures |out| == Pow(|pool|, arity)
    ensures forall d :: IsTuple(d, arity, |pool|) ==> Rank(d, |pool|) < |out| && out[Rank(d, |pool|)] == Select(pool, d)
    ensures forall r :: 0 <= r < |out| ==>
      IsTuple(Unrank(r, arity, |pool|), arity, |pool|) && out[r] == Select(pool, Unrank(r, arity, |pool|))
  {
    var enumerator := new Enumerator<T>();
    enumerator.Build(arity, pool);
    out := enumerator.out;
    ExtensionsCount([], arity, pool);
    forall d | IsTuple(d, arity, |pool|)
      ensures Rank(d, |pool|) < |out| && out[Rank(d, |pool|)] == Select(pool, d)
    {
      ExtensionsAtRank([], arity, pool, d);
    }
    forall r | 0 <= r < |out|
      ensures IsTuple(Unrank(r, arity, |pool|), arity, |pool|) && out[r] == Select(pool, Unrank(r, arity, |pool|))
    {
      UnrankIsInverse(r, arity, |pool|);
    }
  }
}
