/** Generic list operations the source uses through JavaScript's `Array.prototype`:
    `filter`, `slice`, and a stable descending `sort` by a numeric key. */
module Seqs {
  import opened Common

  /** `s.map(f)`: `f` of each element, in order. */
  function Map<T, U>(s: seq<T>, f: T -> U): (r: seq<U>)
    ensures |r| == |s|
    ensures forall i :: 0 <= i < |s| ==> r[i] == f(s[i])
  {
    if s == [] then [] else [f(s[0])] + Map(s[1..], f)
  }

  /** `s.filter(keep)`: the elements of `s` that satisfy `keep`, in their original order. */
  function Filter<T>(s: seq<T>, keep: T -> bool): (r: seq<T>)
    ensures |r| <= |s|
    ensures forall i :: 0 <= i < |r| ==> r[i] in s && keep(r[i])
    ensures forall i :: 0 <= i < |s| && keep(s[i]) ==> s[i] in r
  {
    if s == [] then []
    else (if keep(s[0]) then [s[0]] else []) + Filter(s[1..], keep)
  }

  /** Filtering distributes over concatenation: the order of the input is kept. */
  lemma {:induction false} FilterAppend<T>(a: seq<T>, b: seq<T>, keep: T -> bool)
    ensures Filter(a + b, keep) == Filter(a, keep) + Filter(b, keep)
  {
    if a == [] {
      assert a + b == b;
    } else {
      assert (a + b)[0] == a[0];
      assert (a + b)[1..] == a[1..] + b;
      FilterAppend(a[1..], b, keep);
    }
  }

  /** Filtering with a weaker predicate first and then a stronger one is the same as
      filtering with the stronger one alone; in particular `Filter` is idempotent. */
  lemma {:induction false} FilterNarrow<T>(s: seq<T>, wide: T -> bool, narrow: T -> bool)
    requires forall x :: narrow(x) ==> wide(x)
    ensures Filter(Filter(s, wide), narrow) == Filter(s, narrow)
  {
    if s != [] {
      var tail := Filter(s[1..], wide);
      FilterNarrow(s[1..], wide, narrow);
      if wide(s[0]) {
        var w := [s[0]] + tail;
        assert Filter(s, wide) == w;
        assert w[0] == s[0] && w[1..] == tail;
        assert Filter(w, narrow) == (if narrow(s[0]) then [s[0]] else []) + Filter(tail, narrow);
      } else {
        assert Filter(s, wide) == tail;
        assert !narrow(s[0]);
      }
    }
  }

  lemma FilterIdempotent<T>(s: seq<T>, keep: T -> bool)
    ensures Filter(Filter(s, keep), keep) == Filter(s, keep)
  {
    FilterNarrow(s, keep, keep);
  }

  /** Every element is kept iff the filter returns its input unchanged. */
  lemma {:induction false} FilterAll<T>(s: seq<T>, keep: T -> bool)
    requires forall x :: x in s ==> keep(x)
    ensures Filter(s, keep) == s
  {
    if s != [] {
      FilterAll(s[1..], keep);
    }
  }

  /** `s.slice(lo, hi)` for non-negative bounds: out-of-range bounds are clamped to the length. */
  function Slice<T>(s: seq<T>, lo: nat, hi: nat): (r: seq<T>)
    ensures |r| == if lo <= hi && lo <= |s| then Min(hi, |s|) - lo else 0
    ensures forall i :: 0 <= i < |r| ==> r[i] == s[lo + i]
  {
    if lo <= hi && lo <= |s| then s[lo..Min(hi, |s|)] else []
  }

  ghost predicate SortedDesc<T>(s: seq<T>, key: T -> int) {
    forall i, j :: 0 <= i < j < |s| ==> key(s[i]) >= key(s[j])
  }

  /** Places `x` before the first element whose key is not greater than its own, so that
      an element inserted here ends up before the equal-keyed elements already present. */
  function InsertDesc<T>(x: T, s: seq<T>, key: T -> int): (r: seq<T>)
    requires SortedDesc(s, key)
    ensures SortedDesc(r, key)
    ensures multiset(r) == multiset(s) + multiset{x}
  {
    if s == [] || key(s[0]) <= key(x) then
      assert forall k :: 0 <= k < |s| ==> key(s[k]) <= key(x) by {
        forall k | 0 <= k < |s| ensures key(s[k]) <= key(x) {
          if k > 0 { assert key(s[0]) >= key(s[k]); }
        }
      }
      ConsSorted(x, s, key);
      [x] + s
    else
      var rest := InsertDesc(x, s[1..], key);
      assert s == [s[0]] + s[1..];
      BoundedByHead(x, s, rest, key);
      ConsSorted(s[0], rest, key);
      [s[0]] + rest
  }

  lemma ConsSorted<T>(h: T, t: seq<T>, key: T -> int)
    requires SortedDesc(t, key)
    requires forall k :: 0 <= k < |t| ==> key(t[k]) <= key(h)
    ensures SortedDesc([h] + t, key)
  {
    var s := [h] + t;
    forall i, j | 0 <= i < j < |s| ensures key(s[i]) >= key(s[j]) {
      assert s[j] == t[j - 1];
      if i > 0 { assert s[i] == t[i - 1]; }
    }
  }

  lemma BoundedByHead<T>(x: T, s: seq<T>, rest: seq<T>, key: T -> int)
    requires s != [] && SortedDesc(s, key) && key(x) < key(s[0])
    requires multiset(rest) == multiset(s[1..]) + multiset{x}
    ensures forall k :: 0 <= k < |rest| ==> key(rest[k]) <= key(s[0])
  {
    forall k | 0 <= k < |rest|
      ensures key(rest[k]) <= key(s[0])
    {
      assert rest[k] in multiset(rest);
      if rest[k] != x {
        assert rest[k] in multiset(s[1..]);
        var j :| 0 <= j < |s[1..]| && s[1..][j] == rest[k];
        assert s[j + 1] == rest[k];
      }
    }
  }

  /** `s.sort((a, b) => key(b) - key(a))`: non-increasing in `key` and a permutation of `s`.
      Inserting from the back keeps earlier elements ahead of later ones with the same key,
      as the (stable) JavaScript sort does. */
  function SortDesc<T>(s: seq<T>, key: T -> int): (r: seq<T>)
    ensures SortedDesc(r, key)
    ensures multiset(r) == multiset(s)
    ensures |r| == |s|
  {
    if s == [] then []
    else
      assert s == [s[0]] + s[1..];
      InsertDesc(s[0], SortDesc(s[1..], key), key)
  }

  /** The number of elements of `s` that satisfy `p`, counted from the left as a
      `forEach` with `n++` does. */
  function Count<T>(s: seq<T>, p: T -> bool): (n: nat)
    ensures n <= |s|
  {
    if s == [] then 0 else Count(s[..|s| - 1], p) + (if p(s[|s| - 1]) then 1 else 0)
  }

  /** Counting is the length of the filtered list (`s.filter(p).length`). */
  lemma {:induction false} CountIsFilterLength<T>(s: seq<T>, p: T -> bool)
    ensures Count(s, p) == |Filter(s, p)|
  {
    if s != [] {
      var init, last := s[..|s| - 1], s[|s| - 1];
      assert s == init + [last];
      CountIsFilterLength(init, p);
      FilterAppend(init, [last], p);
      assert Filter([last], p) == (if p(last) then [last] else []) + Filter([last][1..], p);
    }
  }

  /** Counts of two predicates that never hold together add up to the count of their
      disjunction. */
  lemma {:induction false} CountDisjoint<T>(s: seq<T>, p: T -> bool, q: T -> bool, either: T -> bool)
    requires forall x :: either(x) == (p(x) || q(x))
    requires forall x :: !(p(x) && q(x))
    ensures Count(s, p) + Count(s, q) == Count(s, either)
  {
    if s != [] {
      CountDisjoint(s[..|s| - 1], p, q, either);
    }
  }

  /** The position of the first element with the greatest key. */
  function FirstMaxIndex<T>(s: seq<T>, key: T -> int): (i: nat)
    requires s != []
    ensures i < |s|
    ensures forall j :: 0 <= j < |s| ==> key(s[j]) <= key(s[i])
    ensures forall j :: 0 <= j < i ==> key(s[j]) < key(s[i])
  {
    if |s| == 1 then 0
    else
      var k := FirstMaxIndex(s[1..], key);
      if key(s[0]) >= key(s[1 + k]) then 0 else 1 + k
  }

  /** The first element of the stable descending sort is the first element with the
      greatest key, which is what `s.sort((a, b) => key(b) - key(a))[0]` picks. */
  lemma {:induction false} SortDescHead<T>(s: seq<T>, key: T -> int)
    requires s != []
    ensures SortDesc(s, key)[0] == s[FirstMaxIndex(s, key)]
  {
    assert s == [s[0]] + s[1..];
    if |s| > 1 {
      SortDescHead(s[1..], key);
    }
  }
}
