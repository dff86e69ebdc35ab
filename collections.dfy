/** Generic list helpers shared by the store and the pages: the `Array.prototype`
    operations the application relies on (`find`, `filter`, replace-by-id via `map`),
    stated once with what they guarantee. */
module Collections {

  datatype Option<T> = None | Some(value: T)

  /** A remote call (a table read or write) either goes through or is rejected with
      the backend's error message. */
  datatype Remote = Accept | Reject(message: string)

  /** The uniform `{ success, data | error }` result every store operation returns. */
  datatype Reply<T> = Ok(value: T) | Err(message: string)

  /** `xs` can be obtained from `ys` by deleting elements: the order of what is kept is
      the order in `ys`. */
  predicate IsSubsequence<T(==)>(xs: seq<T>, ys: seq<T>)
    decreases |ys|
  {
    if xs == [] then true
    else if ys == [] then false
    else (xs[0] == ys[0] && IsSubsequence(xs[1..], ys[1..])) || IsSubsequence(xs, ys[1..])
  }

  /** Number of elements of `s` satisfying `p`. */
  function Count<T>(s: seq<T>, p: T -> bool): (n: nat)
    ensures n <= |s|
  {
    if s == [] then 0 else (if p(s[0]) then 1 else 0) + Count(s[1..], p)
  }

  lemma {:induction false} CountAppend<T>(a: seq<T>, b: seq<T>, p: T -> bool)
    ensures Count(a + b, p) == Count(a, p) + Count(b, p)
  {
    if a == [] {
      assert a + b == b;
    } else {
      assert (a + b)[1..] == a[1..] + b;
      CountAppend(a[1..], b, p);
    }
  }

  /** `s.filter(p)`: exactly the elements satisfying `p`, in their original order. */
  function Filter<T>(s: seq<T>, p: T -> bool): (r: seq<T>)
    ensures |r| == Count(s, p)
    ensures forall i :: 0 <= i < |r| ==> p(r[i])
  {
    if s == [] then []
    else if p(s[0]) then [s[0]] + Filter(s[1..], p)
    else Filter(s[1..], p)
  }

  /** No two elements of `s` have the same key. */
  ghost predicate DistinctBy<T, K>(s: seq<T>, key: T -> K)
  {
    forall i, j :: 0 <= i < j < |s| ==> key(s[i]) != key(s[j])
  }

  /** Filtering keeps keys that were pairwise distinct distinct. */
  lemma {:induction false} FilterKeepsDistinct<T, K>(s: seq<T>, p: T -> bool, key: T -> K)
    requires DistinctBy(s, key)
    ensures DistinctBy(Filter(s, p), key)
  {
    if s != [] {
      var rest := Filter(s[1..], p);
      assert DistinctBy(s[1..], key) by {
        forall i, j | 0 <= i < j < |s[1..]| ensures key(s[1..][i]) != key(s[1..][j]) {
          assert s[1..][i] == s[i + 1] && s[1..][j] == s[j + 1];
        }
      }
      FilterKeepsDistinct(s[1..], p, key);
      if p(s[0]) {
        FilterMembers(s[1..], p);
        forall j | 0 <= j < |rest| ensures key(s[0]) != key(rest[j]) {
          var m :| 0 <= m < |s[1..]| && s[1..][m] == rest[j];
          assert s[m + 1] == rest[j];
        }
        var r := [s[0]] + rest;
        assert Filter(s, p) == r;
        forall i, j | 0 <= i < j < |r| ensures key(r[i]) != key(r[j]) {
          assert r[j] == rest[j - 1];
          if i > 0 {
            assert r[i] == rest[i - 1];
          }
        }
      } else {
        assert Filter(s, p) == rest;
      }
    }
  }

  /** What a filter keeps is exactly the elements satisfying `p`. */
  lemma {:induction false} FilterMembers<T>(s: seq<T>, p: T -> bool)
    ensures forall i :: 0 <= i < |Filter(s, p)| ==> Filter(s, p)[i] in s
    ensures forall i :: 0 <= i < |s| && p(s[i]) ==> s[i] in Filter(s, p)
  {
    if s != [] {
      FilterMembers(s[1..], p);
      assert s == [s[0]] + s[1..];
    }
  }

  /** A filter keeps the order of what it keeps. */
  lemma {:induction false} FilterIsSubsequence<T>(s: seq<T>, p: T -> bool)
    ensures IsSubsequence(Filter(s, p), s)
  {
    if s != [] {
      FilterIsSubsequence(s[1..], p);
      var r := Filter(s[1..], p);
      if p(s[0]) {
        assert ([s[0]] + r)[1..] == r;
      } else {
        SubsequenceDropHead(r, s);
      }
    }
  }

  /** The filter keeps, in order, exactly the elements satisfying `p`. */
  lemma FilterExact<T>(s: seq<T>, p: T -> bool)
    ensures IsSubsequence(Filter(s, p), s)
    ensures forall i :: 0 <= i < |s| ==> (s[i] in Filter(s, p) <==> p(s[i]))
  {
    FilterIsSubsequence(s, p);
    FilterMembers(s, p);
    var r := Filter(s, p);
    forall i | 0 <= i < |s| && s[i] in r ensures p(s[i]) {
      var j :| 0 <= j < |r| && r[j] == s[i];
    }
  }

  lemma {:induction false} SubsequenceDropHead<T>(xs: seq<T>, ys: seq<T>)
    requires ys != [] && IsSubsequence(xs, ys[1..])
    ensures IsSubsequence(xs, ys)
  {
  }

  lemma {:induction false} FilterAll<T>(s: seq<T>, p: T -> bool)
    requires forall i :: 0 <= i < |s| ==> p(s[i])
    ensures Filter(s, p) == s
  {
    if s != [] {
      FilterAll(s[1..], p);
    }
  }

  lemma {:induction false} FilterNone<T>(s: seq<T>, p: T -> bool)
    requires forall i :: 0 <= i < |s| ==> !p(s[i])
    ensures Filter(s, p) == []
  {
    if s != [] {
      FilterNone(s[1..], p);
    }
  }

  /** Filtering a concatenation filters each part. */
  lemma {:induction false} FilterAppend<T>(a: seq<T>, b: seq<T>, p: T -> bool)
    ensures Filter(a + b, p) == Filter(a, p) + Filter(b, p)
  {
    if a == [] {
      assert a + b == b;
    } else {
      assert (a + b)[1..] == a[1..] + b;
      FilterAppend(a[1..], b, p);
    }
  }

  /** `s.map(e => hit(e) ? x : e)`: every element `hit` selects becomes `x`. */
  function ReplaceWhere<T>(s: seq<T>, hit: T -> bool, x: T): (r: seq<T>)
    ensures |r| == |s|
    ensures forall i :: 0 <= i < |s| ==> r[i] == if hit(s[i]) then x else s[i]
  {
    seq(|s|, i requires 0 <= i < |s| => if hit(s[i]) then x else s[i])
  }

  /** Only index `k` is selected by `hit`. */
  predicate OnlyAt<T>(s: seq<T>, hit: T -> bool, k: int)
  {
    0 <= k < |s| && hit(s[k]) && forall i :: 0 <= i < |s| && i != k ==> !hit(s[i])
  }

  lemma ReplaceOnlyAt<T>(s: seq<T>, hit: T -> bool, x: T, k: int)
    requires OnlyAt(s, hit, k)
    ensures ReplaceWhere(s, hit, x) == s[k := x]
  {
  }

  /** Filtering out the one selected element removes exactly that index. */
  lemma {:induction false} FilterOutOnlyAt<T>(s: seq<T>, hit: T -> bool, keep: T -> bool, k: int)
    requires OnlyAt(s, hit, k)
    requires forall i :: 0 <= i < |s| ==> (keep(s[i]) <==> !hit(s[i]))
    ensures Filter(s, keep) == s[..k] + s[k + 1..]
  {
    if k == 0 {
      FilterAll(s[1..], keep);
    } else {
      assert OnlyAt(s[1..], hit, k - 1);
      FilterOutOnlyAt(s[1..], hit, keep, k - 1);
      assert s[1..][..k - 1] + s[1..][k..] == s[1..k] + s[k + 1..];
      assert s[..k] == [s[0]] + s[1..k];
    }
  }

  /** Replacing one element changes a count by what left and what arrived. */
  lemma CountUpdate<T>(s: seq<T>, k: int, x: T, p: T -> bool)
    requires 0 <= k < |s|
    ensures Count(s[k := x], p) == Count(s, p) - (if p(s[k]) then 1 else 0) + (if p(x) then 1 else 0)
  {
    assert s == s[..k] + [s[k]] + s[k + 1..];
    assert s[k := x] == s[..k] + [x] + s[k + 1..];
    CountAppend(s[..k] + [s[k]], s[k + 1..], p);
    CountAppend(s[..k], [s[k]], p);
    CountAppend(s[..k] + [x], s[k + 1..], p);
    CountAppend(s[..k], [x], p);
  }

  /** Removing one element takes it out of a count. */
  lemma {:induction false} CountRemove<T>(s: seq<T>, k: int, p: T -> bool)
    requires 0 <= k < |s|
    ensures Count(s[..k] + s[k + 1..], p) == Count(s, p) - (if p(s[k]) then 1 else 0)
  {
    if k == 0 {
      assert s[..k] + s[k + 1..] == s[1..];
    } else {
      var t := s[1..];
      CountRemove(t, k - 1, p);
      var r := s[..k] + s[k + 1..];
      assert r[0] == s[0];
      assert r[1..] == t[..k - 1] + t[k..];
      assert t[k - 1] == s[k];
    }
  }

  /** `s.find(p)`: the first element satisfying `p`, if any. */
  function Find<T>(s: seq<T>, p: T -> bool): (r: Option<T>)
    ensures r.None? <==> forall i :: 0 <= i < |s| ==> !p(s[i])
    ensures r.Some? ==> exists i :: 0 <= i < |s| && s[i] == r.value && p(s[i]) &&
                          forall j :: 0 <= j < i ==> !p(s[j])
  {
    if s == [] then None
    else if p(s[0]) then Some(s[0])
    else
      var r := Find(s[1..], p);
      assert r.Some? ==> exists i :: 0 <= i < |s[1..]| && s[1..][i] == r.value && p(s[1..][i]) &&
                          forall j :: 0 <= j < i ==> !p(s[1..][j]);
      assert r.Some? ==> exists i :: 1 <= i < |s| && s[i] == r.value && p(s[i]) &&
                          forall j :: 0 <= j < i ==> !p(s[j]);
      r
  }

  /** Sum of `f` over a list (`reduce((sum, x) => sum + f(x), 0)`). */
  function SumInt<T>(s: seq<T>, f: T -> int): int
  {
    if s == [] then 0 else f(s[0]) + SumInt(s[1..], f)
  }

  /** Sum of `f` over a list of money amounts. */
  function SumReal<T>(s: seq<T>, f: T -> real): real
  {
    if s == [] then 0.0 else f(s[0]) + SumReal(s[1..], f)
  }

  lemma {:induction false} SumRealAppend<T>(a: seq<T>, b: seq<T>, f: T -> real)
    ensures SumReal(a + b, f) == SumReal(a, f) + SumReal(b, f)
  {
    if a == [] {
      assert a + b == b;
    } else {
      assert (a + b)[1..] == a[1..] + b;
      SumRealAppend(a[1..], b, f);
    }
  }

  /** Replacing one element changes a sum by what left and what arrived. */
  lemma SumRealUpdate<T>(s: seq<T>, k: int, x: T, f: T -> real)
    requires 0 <= k < |s|
    ensures SumReal(s[k := x], f) == SumReal(s, f) - f(s[k]) + f(x)
  {
    var a, b := s[..k], s[k + 1..];
    assert s == (a + [s[k]]) + b;
    assert s[k := x] == (a + [x]) + b;
    SumRealAppend(a + [s[k]], b, f);
    SumRealAppend(a, [s[k]], f);
    SumRealAppend(a + [x], b, f);
    SumRealAppend(a, [x], f);
  }

  /** Removing one element takes it out of a sum. */
  lemma {:induction false} SumRealRemove<T>(s: seq<T>, k: int, f: T -> real)
    requires 0 <= k < |s|
    ensures SumReal(s[..k] + s[k + 1..], f) == SumReal(s, f) - f(s[k])
  {
    if k == 0 {
      assert s[..k] + s[k + 1..] == s[1..];
    } else {
      var t := s[1..];
      SumRealRemove(t, k - 1, f);
      var r := s[..k] + s[k + 1..];
      assert r[0] == s[0];
      assert r[1..] == t[..k - 1] + t[k..];
      assert t[k - 1] == s[k];
    }
  }

  /** The elements of `s` are pairwise distinct. */
  predicate NoDuplicates<T(==)>(s: seq<T>)
  {
    forall i, j :: 0 <= i < j < |s| ==> s[i] != s[j]
  }

  /** A predicate implied by another counts at least as many elements. */
  lemma {:induction false} CountImplies<T>(s: seq<T>, p: T -> bool, q: T -> bool)
    requires forall i :: 0 <= i < |s| && p(s[i]) ==> q(s[i])
    ensures Count(s, p) <= Count(s, q)
  {
    if s != [] {
      assert forall i :: 0 <= i < |s[1..]| ==> s[1..][i] == s[i + 1];
      CountImplies(s[1..], p, q);
    }
  }

  /** Some element satisfies `p` exactly when the count is positive. */
  lemma {:induction false} CountPositive<T>(s: seq<T>, p: T -> bool)
    ensures Count(s, p) > 0 <==> exists i :: 0 <= i < |s| && p(s[i])
  {
    if s != [] {
      CountPositive(s[1..], p);
      if exists i :: 0 <= i < |s[1..]| && p(s[1..][i]) {
        var i :| 0 <= i < |s[1..]| && p(s[1..][i]);
        assert s[i + 1] == s[1..][i];
      }
      if exists i :: 0 <= i < |s| && p(s[i]) {
        var i :| 0 <= i < |s| && p(s[i]);
        if i > 0 {
          assert s[1..][i - 1] == s[i];
        }
      }
    }
  }

  /** Counting a disjoint union is adding the counts. */
  lemma {:induction false} CountDisjointUnion<T>(s: seq<T>, p: T -> bool, q: T -> bool, both: T -> bool)
    requires forall i :: 0 <= i < |s| ==> (both(s[i]) <==> p(s[i]) || q(s[i])) && !(p(s[i]) && q(s[i]))
    ensures Count(s, both) == Count(s, p) + Count(s, q)
  {
    if s != [] {
      assert forall i :: 0 <= i < |s[1..]| ==> s[1..][i] == s[i + 1];
      CountDisjointUnion(s[1..], p, q, both);
    }
  }

  /** Dropping elements that add nothing leaves a sum unchanged. */
  lemma {:induction false} SumIntDropsZeros<T>(s: seq<T>, p: T -> bool, f: T -> int)
    requires forall i :: 0 <= i < |s| && !p(s[i]) ==> f(s[i]) == 0
    ensures SumInt(Filter(s, p), f) == SumInt(s, f)
  {
    if s != [] {
      assert forall i :: 0 <= i < |s[1..]| ==> s[1..][i] == s[i + 1];
      SumIntDropsZeros(s[1..], p, f);
    }
  }
}
