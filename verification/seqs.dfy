/**
 * The array operations the catalog code uses over and over: `filter`,
 * `[...new Set(xs)]` (first-occurrence de-duplication) and `flatMap`, with the
 * order-preservation facts the rest of the model needs about them.
 */
module Seqs {
  import opened Wrappers

  /** `a` is obtained from `b` by deleting elements, keeping the order of the rest. */
  predicate IsSubseq<T(==)>(a: seq<T>, b: seq<T>)
    decreases |b|
  {
    if |a| == 0 then true
    else if |b| == 0 then false
    else if a[|a| - 1] == b[|b| - 1] then IsSubseq(a[..|a| - 1], b[..|b| - 1])
    else IsSubseq(a, b[..|b| - 1])
  }

  lemma {:induction false} SubseqAppend<T(!new)>(a: seq<T>, b: seq<T>, x: T)
    requires IsSubseq(a, b)
    ensures IsSubseq(a, b + [x])
    decreases |b|, 1
  {
    if |a| > 0 && a[|a| - 1] == x {
      SubseqDropLast(a, b);
      assert (b + [x])[..|b|] == b;
    } else {
      assert (b + [x])[..|b|] == b;
    }
  }

  lemma {:induction false} SubseqDropLast<T(!new)>(a: seq<T>, b: seq<T>)
    requires |a| > 0 && IsSubseq(a, b)
    ensures IsSubseq(a[..|a| - 1], b)
    decreases |b|, 0
  {
    var a', b' := a[..|a| - 1], b[..|b| - 1];
    if a[|a| - 1] == b[|b| - 1] {
      if |a'| > 0 {
        SubseqAppend(a', b', b[|b| - 1]);
      }
      assert b' + [b[|b| - 1]] == b;
    } else {
      SubseqDropLast(a, b');
      if |a'| > 0 {
        SubseqAppend(a', b', b[|b| - 1]);
      }
      assert b' + [b[|b| - 1]] == b;
    }
  }

  lemma {:induction false} SubseqMembers<T(!new)>(a: seq<T>, b: seq<T>)
    requires IsSubseq(a, b)
    ensures forall x :: x in a ==> x in b
    decreases |b|
  {
    if |a| > 0 && |b| > 0 {
      if a[|a| - 1] == b[|b| - 1] {
        SubseqMembers(a[..|a| - 1], b[..|b| - 1]);
        assert a == a[..|a| - 1] + [a[|a| - 1]];
      } else {
        SubseqMembers(a, b[..|b| - 1]);
      }
    }
  }

  /** Being a subsequence is transitive. */
  lemma {:induction false} SubseqTrans<T(!new)>(a: seq<T>, b: seq<T>, c: seq<T>)
    requires IsSubseq(a, b) && IsSubseq(b, c)
    ensures IsSubseq(a, c)
    decreases |c|
  {
    if |a| > 0 {
      var a', b', c' := a[..|a| - 1], b[..|b| - 1], c[..|c| - 1];
      if b[|b| - 1] == c[|c| - 1] {
        if a[|a| - 1] == b[|b| - 1] {
          SubseqTrans(a', b', c');
        } else {
          assert IsSubseq(a, b');
          SubseqTrans(a, b', c');
          assert a[|a| - 1] != c[|c| - 1];
        }
      } else {
        SubseqTrans(a, b, c');
        if a[|a| - 1] == c[|c| - 1] {
          SubseqDropLast(a, c');
        }
      }
    }
  }

  /** `xs.filter(keep)`. */
  function Filter<T(!new)>(xs: seq<T>, keep: T -> bool): (r: seq<T>)
    ensures |r| <= |xs|
    ensures forall x :: x in r <==> x in xs && keep(x)
  {
    if |xs| == 0 then []
    else Filter(xs[..|xs| - 1], keep) + (if keep(xs[|xs| - 1]) then [xs[|xs| - 1]] else [])
  }

  /** What `filter` keeps stays in its original relative order. */
  lemma {:induction false} FilterIsSubseq<T(!new)>(xs: seq<T>, keep: T -> bool)
    ensures IsSubseq(Filter(xs, keep), xs)
  {
    if |xs| > 0 {
      var init, last := xs[..|xs| - 1], xs[|xs| - 1];
      var r := Filter(xs, keep);
      FilterIsSubseq(init, keep);
      assert xs[..|xs| - 1] == init;
      if keep(last) {
        assert r == Filter(init, keep) + [last];
        assert r[..|r| - 1] == Filter(init, keep);
        assert r[|r| - 1] == xs[|xs| - 1];
      } else if |r| > 0 {
        assert r == Filter(init, keep);
        assert r[|r| - 1] in r;
        assert keep(r[|r| - 1]);
      }
    }
  }

  lemma {:induction false} FilterAppend<T(!new)>(a: seq<T>, b: seq<T>, keep: T -> bool)
    ensures Filter(a + b, keep) == Filter(a, keep) + Filter(b, keep)
    decreases |b|
  {
    if |b| > 0 {
      var b', x := b[..|b| - 1], b[|b| - 1];
      var tail := if keep(x) then [x] else [];
      FilterAppend(a, b', keep);
      assert (a + b)[..|a + b| - 1] == a + b';
      assert (a + b)[|a + b| - 1] == x;
      assert Filter(a + b, keep) == Filter(a + b', keep) + tail;
      assert Filter(b, keep) == Filter(b', keep) + tail;
      assert (Filter(a, keep) + Filter(b', keep)) + tail == Filter(a, keep) + (Filter(b', keep) + tail);
    } else {
      assert a + b == a;
    }
  }

  lemma {:induction false} FilterAll<T(!new)>(xs: seq<T>, keep: T -> bool)
    requires forall i :: 0 <= i < |xs| ==> keep(xs[i])
    ensures Filter(xs, keep) == xs
  {
    if |xs| > 0 {
      FilterAll(xs[..|xs| - 1], keep);
    }
  }

  /** Splitting by a test and its negation loses and duplicates nothing. */
  lemma {:induction false} FilterPartition<T(!new)>(xs: seq<T>, keep: T -> bool, drop: T -> bool)
    requires forall x :: drop(x) == !keep(x)
    ensures multiset(Filter(xs, keep) + Filter(xs, drop)) == multiset(xs)
  {
    if |xs| > 0 {
      var init := xs[..|xs| - 1];
      FilterPartition(init, keep, drop);
      assert xs == init + [xs[|xs| - 1]];
    }
  }

  /** `filter` with a test nothing passes returns the empty list. */
  lemma {:induction false} FilterNone<T(!new)>(xs: seq<T>, keep: T -> bool)
    requires forall x :: x in xs ==> !keep(x)
    ensures Filter(xs, keep) == []
  {
    if |xs| > 0 {
      assert forall x :: x in xs[..|xs| - 1] ==> x in xs;
      FilterNone(xs[..|xs| - 1], keep);
      assert xs[|xs| - 1] in xs;
    }
  }

  /** Every list is a subsequence of itself. */
  lemma {:induction false} SubseqSelf<T>(xs: seq<T>)
    ensures IsSubseq(xs, xs)
  {
    if |xs| > 0 {
      SubseqSelf(xs[..|xs| - 1]);
    }
  }

  /** No value occurs twice. */
  predicate NoDups<T(==)>(xs: seq<T>) {
    forall i, j :: 0 <= i < j < |xs| ==> xs[i] != xs[j]
  }

  /** Appending a value not yet present keeps a list free of repeats. */
  lemma NoDupsSnoc<T>(xs: seq<T>, x: T)
    requires NoDups(xs) && x !in xs
    ensures NoDups(xs + [x])
  {
    var ys := xs + [x];
    forall i, j | 0 <= i < j < |ys|
      ensures ys[i] != ys[j]
    {
      if j == |xs| {
        assert ys[i] == xs[i];
      }
    }
  }

  /** `filter` never introduces a repeat. */
  lemma {:induction false} FilterKeepsNoDups<T(!new)>(xs: seq<T>, keep: T -> bool)
    requires NoDups(xs)
    ensures NoDups(Filter(xs, keep))
  {
    if |xs| > 0 {
      var init := xs[..|xs| - 1];
      assert NoDups(init);
      FilterKeepsNoDups(init, keep);
      assert xs[|xs| - 1] !in init;
    }
  }

  /** `[...new Set(xs)]`: each value once, at the place of its first occurrence. */
  function Dedup<T(==,!new)>(xs: seq<T>): (r: seq<T>)
    ensures NoDups(r)
    ensures forall x :: x in r <==> x in xs
  {
    if |xs| == 0 then []
    else
      var r := Dedup(xs[..|xs| - 1]);
      if xs[|xs| - 1] in r then r else r + [xs[|xs| - 1]]
  }

  lemma {:induction false} DedupIsSubseq<T(!new)>(xs: seq<T>)
    ensures IsSubseq(Dedup(xs), xs)
  {
    if |xs| > 0 {
      var init, last := xs[..|xs| - 1], xs[|xs| - 1];
      DedupIsSubseq(init);
      var r := Dedup(init);
      if last in r {
        SubseqAppend(r, init, last);
        assert init + [last] == xs;
      } else {
        assert (r + [last])[..|r|] == r;
      }
    }
  }

  /** De-duplicating a list without repeats returns it unchanged. */
  lemma {:induction false} DedupOfNoDups<T(!new)>(xs: seq<T>)
    requires NoDups(xs)
    ensures Dedup(xs) == xs
  {
    if |xs| > 0 {
      var init := xs[..|xs| - 1];
      DedupOfNoDups(init);
      assert xs[|xs| - 1] !in init;
    }
  }

  /** The values of `b` that do not occur in `a`, in order, repeats kept. */
  function Without<T(==,!new)>(b: seq<T>, a: seq<T>): (r: seq<T>)
    ensures forall x :: x in r <==> x in b && x !in a
  {
    if |b| == 0 then []
    else Without(b[..|b| - 1], a) + (if b[|b| - 1] in a then [] else [b[|b| - 1]])
  }

  lemma {:induction false} DedupSnoc<T(!new)>(xs: seq<T>, x: T)
    ensures Dedup(xs + [x]) == if x in xs then Dedup(xs) else Dedup(xs) + [x]
  {
    assert (xs + [x])[..|xs|] == xs;
  }

  lemma {:induction false} WithoutSnoc<T(!new)>(b: seq<T>, a: seq<T>, x: T)
    ensures Without(b + [x], a) == if x in a then Without(b, a) else Without(b, a) + [x]
  {
    assert (b + [x])[..|b|] == b;
  }

  lemma {:induction false} ConcatSnoc<T>(p: seq<T>, q: seq<T>, x: T)
    ensures (p + q) + [x] == p + (q + [x])
  {
  }

  /**
   * De-duplicating a concatenation lists the distinct values of `a` first and
   * then the new values of `b`, each at its first occurrence.
   */
  lemma {:induction false} DedupAppend<T(!new)>(a: seq<T>, b: seq<T>)
    ensures Dedup(a + b) == Dedup(a) + Dedup(Without(b, a))
    decreases |b|
  {
    if |b| == 0 {
      assert a + b == a;
    } else {
      var b', x := b[..|b| - 1], b[|b| - 1];
      DedupAppend(a, b');
      assert b == b' + [x];
      DedupAppendStep(a, b', x);
    }
  }

  lemma {:induction false} DedupAppendStep<T(!new)>(a: seq<T>, b': seq<T>, x: T)
    requires Dedup(a + b') == Dedup(a) + Dedup(Without(b', a))
    ensures Dedup(a + (b' + [x])) == Dedup(a) + Dedup(Without(b' + [x], a))
  {
    var w', ab := Without(b', a), a + b';
    assert a + (b' + [x]) == ab + [x];
    if x in a || x in b' {
      assert Dedup(ab + [x]) == Dedup(ab) by {
        assert x in ab;
        DedupSnoc(ab, x);
      }
      assert Dedup(Without(b' + [x], a)) == Dedup(w') by {
        WithoutSnoc(b', a, x);
        if x !in a {
          assert x in w';
          DedupSnoc(w', x);
        }
      }
    } else {
      assert Dedup(ab + [x]) == Dedup(ab) + [x] by {
        assert x !in ab;
        DedupSnoc(ab, x);
      }
      assert Dedup(Without(b' + [x], a)) == Dedup(w') + [x] by {
        WithoutSnoc(b', a, x);
        assert x !in w';
        DedupSnoc(w', x);
      }
      ConcatSnoc(Dedup(a), Dedup(w'), x);
    }
  }

  /** `xss.flat()`: the lists one after another. */
  function Flatten<T(!new)>(xss: seq<seq<T>>): (r: seq<T>)
    ensures forall x :: x in r <==> exists i :: 0 <= i < |xss| && x in xss[i]
  {
    if |xss| == 0 then []
    else
      var r := Flatten(xss[..|xss| - 1]) + xss[|xss| - 1];
      assert forall i :: 0 <= i < |xss| - 1 ==> xss[..|xss| - 1][i] == xss[i];
      r
  }

  /**
   * The position of the first element satisfying `p`, as a database `findOne`,
   * `updateOne` or `deleteOne` picks it in natural order.
   */
  function FirstIndex<T>(xs: seq<T>, p: T -> bool): (r: Option<nat>)
    ensures r.None? <==> forall i :: 0 <= i < |xs| ==> !p(xs[i])
    ensures r.Some? ==> r.value < |xs| && p(xs[r.value])
    ensures r.Some? ==> forall j :: 0 <= j < r.value ==> !p(xs[j])
  {
    if |xs| == 0 then None
    else if p(xs[0]) then Some(0)
    else
      match FirstIndex(xs[1..], p)
      case None => None
      case Some(k) => Some(k + 1)
  }

  /** `xs` without its element at position `i`. */
  function RemoveAt<T>(xs: seq<T>, i: nat): (r: seq<T>)
    requires i < |xs|
    ensures |r| == |xs| - 1
    ensures forall j :: 0 <= j < i ==> r[j] == xs[j]
    ensures forall j :: i <= j < |r| ==> r[j] == xs[j + 1]
    ensures multiset(r) + multiset{xs[i]} == multiset(xs)
  {
    assert xs == xs[..i] + [xs[i]] + xs[i + 1..];
    xs[..i] + xs[i + 1..]
  }

  /** Leaving out one element keeps the rest in order. */
  lemma {:induction false} SkipOneIsSubseq<T(!new)>(p: seq<T>, x: T, q: seq<T>)
    ensures IsSubseq(p + q, p + [x] + q)
    decreases |q|
  {
    if |q| == 0 {
      SubseqSelf(p);
      SubseqAppend(p, p, x);
      assert p + q == p && p + [x] + q == p + [x];
    } else {
      var q', y := q[..|q| - 1], q[|q| - 1];
      SkipOneIsSubseq(p, x, q');
      var a, b := p + q, p + [x] + q;
      assert a[|a| - 1] == y && b[|b| - 1] == y;
      assert a[..|a| - 1] == p + q';
      assert b[..|b| - 1] == p + [x] + q';
    }
  }

  /** A `slice` position: a negative one counts from the end; both are clipped to `0..n`. */
  function Clip(k: int, n: nat): (r: nat)
    ensures r <= n
    ensures 0 <= k <= n ==> r == k
    ensures k > n ==> r == n
    ensures k < 0 ==> r == (if n + k < 0 then 0 else n + k)
  {
    if k < 0 then (if n + k < 0 then 0 else n + k) else if k > n then n else k
  }

  /** `xs.slice(start, end)`: the elements from the clipped start up to the clipped end. */
  function Slice<T>(xs: seq<T>, start: int, end: int): (r: seq<T>)
    ensures |r| <= |xs|
    ensures Clip(start, |xs|) < Clip(end, |xs|) ==> r == xs[Clip(start, |xs|)..Clip(end, |xs|)]
    ensures Clip(start, |xs|) >= Clip(end, |xs|) ==> r == []
  {
    var a, b := Clip(start, |xs|), Clip(end, |xs|);
    if a < b then xs[a..b] else []
  }
}
