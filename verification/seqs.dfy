/** Sequence helpers shared by the list screens and the service: an
    order-preserving filter (LINQ `Where`) characterised by the positions it
    keeps, and the `Skip(n).Take(k)` window used for paging. */
module Seqs {

  /** `idx` lists, in strictly ascending order, exactly the positions of `s`
      whose elements satisfy `p`. */
  ghost predicate Picks<T>(idx: seq<nat>, s: seq<T>, p: T -> bool)
  {
    && (forall k :: 0 <= k < |idx| ==> idx[k] < |s|)
    && Ascending(idx)
    && (forall i :: 0 <= i < |s| ==> (p(s[i]) <==> i in idx))
  }

  /** The positions of `s` kept by `Where(p)`. */
  function Selected<T>(s: seq<T>, p: T -> bool): (idx: seq<nat>)
    ensures Picks(idx, s, p)
    ensures |idx| <= |s|
    decreases |s|
  {
    if |s| == 0 then []
    else
      var init := s[..|s| - 1];
      var rest := Selected(init, p);
      assert forall i :: 0 <= i < |init| ==> init[i] == s[i];
      if p(s[|s| - 1]) then rest + [|s| - 1] else rest
  }

  /** `s.Where(p).ToList()`: the elements of `s` satisfying `p`, in order. */
  function Filter<T>(s: seq<T>, p: T -> bool): (r: seq<T>)
    ensures |r| == |Selected(s, p)|
    ensures forall k :: 0 <= k < |r| ==> r[k] == s[Selected(s, p)[k]]
    decreases |s|
  {
    if |s| == 0 then []
    else
      var init := s[..|s| - 1];
      assert forall i :: 0 <= i < |init| ==> init[i] == s[i];
      if p(s[|s| - 1]) then Filter(init, p) + [s[|s| - 1]] else Filter(init, p)
  }

  ghost predicate Ascending(a: seq<nat>)
  {
    forall k, l :: 0 <= k < l < |a| ==> a[k] < a[l]
  }

  /** The last element of an ascending list is its largest, and no earlier
      element equals it. */
  lemma LastIsLargest(a: seq<nat>, x: nat)
    requires Ascending(a) && |a| > 0 && x in a
    ensures x <= a[|a| - 1]
    ensures x in a[..|a| - 1] <==> x != a[|a| - 1]
  {
    var k :| 0 <= k < |a| && a[k] == x;
    if k < |a| - 1 {
      assert a[..|a| - 1][k] == x;
    }
    if x in a[..|a| - 1] {
      var j :| 0 <= j < |a| - 1 && a[..|a| - 1][j] == x;
      assert a[j] < a[|a| - 1];
    }
  }

  /** Two strictly ascending index lists with the same members are equal. */
  lemma {:induction false} AscendingUnique(a: seq<nat>, b: seq<nat>)
    requires Ascending(a) && Ascending(b)
    requires forall x :: x in a <==> x in b
    ensures a == b
    decreases |a|
  {
    assert |a| > 0 ==> a[0] in b;
    assert |b| > 0 ==> b[0] in a;
    if |a| > 0 {
      var m := a[|a| - 1];
      assert m in a;
      var n := b[|b| - 1];
      assert n in b;
      LastIsLargest(a, n);
      LastIsLargest(b, m);
      var a', b' := a[..|a| - 1], b[..|b| - 1];
      forall x
        ensures x in a' <==> x in b'
      {
        if x in a || x in b {
          LastIsLargest(a, x);
          LastIsLargest(b, x);
        } else {
          assert x !in a';
          assert x !in b';
        }
      }
      AscendingUnique(a', b');
      assert a == a' + [m];
      assert b == b' + [n];
    }
  }

  /** `Filter(s, p)` is the ONLY sequence that lists, in order, the elements
      of `s` at some ascending list of exactly the positions satisfying `p`. */
  lemma FilterUnique<T>(s: seq<T>, p: T -> bool, r: seq<T>, idx: seq<nat>)
    requires Picks(idx, s, p)
    requires |r| == |idx| && forall k :: 0 <= k < |r| ==> r[k] == s[idx[k]]
    ensures r == Filter(s, p)
  {
    var sel := Selected(s, p);
    forall x
      ensures x in idx <==> x in sel
    {
      if x in idx {
        var k :| 0 <= k < |idx| && idx[k] == x;
        assert p(s[x]);
      }
      if x in sel {
        var k :| 0 <= k < |sel| && sel[k] == x;
        assert p(s[x]);
      }
    }
    AscendingUnique(idx, sel);
  }

  /** An element survives the filter exactly when it is in `s` and satisfies `p`. */
  lemma FilterMembers<T>(s: seq<T>, p: T -> bool)
    ensures forall x :: x in Filter(s, p) <==> x in s && p(x)
  {
    var r, sel := Filter(s, p), Selected(s, p);
    forall x
      ensures x in r <==> x in s && p(x)
    {
      if x in r {
        var k :| 0 <= k < |r| && r[k] == x;
        assert sel[k] in sel;
      }
      if x in s && p(x) {
        var i :| 0 <= i < |s| && s[i] == x;
        assert i in sel;
        var k :| 0 <= k < |sel| && sel[k] == i;
        assert r[k] == x;
      }
    }
  }

  lemma AppendAssoc<T>(x: seq<T>, y: seq<T>, z: seq<T>)
    ensures (x + y) + z == x + (y + z)
  {
  }

  /** Filtering distributes over concatenation. */
  lemma {:induction false} FilterConcat<T>(a: seq<T>, b: seq<T>, p: T -> bool)
    ensures Filter(a + b, p) == Filter(a, p) + Filter(b, p)
    decreases |b|
  {
    if |b| == 0 {
      assert a + b == a;
    } else {
      var b', last := b[..|b| - 1], b[|b| - 1];
      assert (a + b)[..|a + b| - 1] == a + b';
      assert (a + b)[|a + b| - 1] == last;
      FilterConcat(a, b', p);
      var fa, fb' := Filter(a, p), Filter(b', p);
      if p(last) {
        assert Filter(a + b, p) == (fa + fb') + [last];
        assert Filter(b, p) == fb' + [last];
        AppendAssoc(fa, fb', [last]);
      } else {
        assert Filter(a + b, p) == fa + fb';
        assert Filter(b, p) == fb';
      }
    }
  }

  /** Filtering a single element keeps it exactly when it satisfies `p`. */
  lemma FilterSingleton<T>(x: T, p: T -> bool)
    ensures Filter([x], p) == if p(x) then [x] else []
  {
    assert [x][..0] == [];
  }

  /** Filtering with `p` twice is filtering once. */
  lemma FilterIdempotent<T>(s: seq<T>, p: T -> bool)
    ensures Filter(Filter(s, p), p) == Filter(s, p)
  {
    var r := Filter(s, p);
    FilterMembers(s, p);
    var idx := seq(|r|, k requires 0 <= k < |r| => k);
    assert Picks(idx, r, p) by {
      forall i | 0 <= i < |r|
        ensures p(r[i]) <==> i in idx
      {
        assert r[i] in r;
        assert idx[i] == i;
      }
    }
    FilterUnique(r, p, r, idx);
  }

  /** A filter that rejects nothing is the identity; one that keeps everything
      it is given changes nothing. */
  lemma FilterAll<T>(s: seq<T>, p: T -> bool)
    requires forall i :: 0 <= i < |s| ==> p(s[i])
    ensures Filter(s, p) == s
  {
    var idx := seq(|s|, k requires 0 <= k < |s| => k);
    assert Picks(idx, s, p) by {
      forall i | 0 <= i < |s|
        ensures i in idx
      {
        assert idx[i] == i;
      }
    }
    FilterUnique(s, p, s, idx);
  }

  /** The filter and its complement split `s` by length. */
  lemma {:induction false} FilterPartition<T>(s: seq<T>, p: T -> bool, q: T -> bool)
    requires forall x :: q(x) == !p(x)
    ensures |Filter(s, p)| + |Filter(s, q)| == |s|
    decreases |s|
  {
    if |s| > 0 {
      FilterPartition(s[..|s| - 1], p, q);
    }
  }

  /** `Math.Max(0, n)`: a `Skip` count below zero skips nothing. */
  function SkipCount(n: int): (r: nat)
    ensures r >= n && (n >= 0 ==> r == n) && (n < 0 ==> r == 0)
  {
    if n < 0 then 0 else n
  }

  /** `s.Skip(skip).Take(take)`: at most `take` consecutive elements of `s`
      starting at position `skip` (a negative `skip` starts at 0, a `skip`
      past the end gives nothing). */
  function Window<T>(s: seq<T>, skip: int, take: nat): (r: seq<T>)
    ensures |r| <= take
    ensures SkipCount(skip) + |r| <= |s| || r == []
    ensures SkipCount(skip) <= |s| ==> |r| == if |s| - SkipCount(skip) < take then |s| - SkipCount(skip) else take
    ensures SkipCount(skip) >= |s| ==> r == []
    ensures forall k :: 0 <= k < |r| ==> r[k] == s[SkipCount(skip) + k]
  {
    var start := if skip < 0 then 0 else if skip > |s| then |s| else skip;
    var stop := if start + take > |s| then |s| else start + take;
    s[start..stop]
  }
}
