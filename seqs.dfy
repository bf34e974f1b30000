/**
 * The query operators the pages use on tables: `Where`, `OrderBy` /
 * `OrderByDescending` and `Take`, as functions on sequences.
 */
module Seqs {
  import opened Common

  /** `Where(f)`: the elements that satisfy `f`, in their original order. */
  function Filter<T(!new)>(s: seq<T>, f: T -> bool): (r: seq<T>)
    ensures |r| <= |s|
    ensures forall i :: 0 <= i < |r| ==> f(r[i])
  {
    if s == [] then []
    else if f(s[0]) then [s[0]] + Filter(s[1..], f) else Filter(s[1..], f)
  }

  /** `Where(f)` keeps every element that satisfies `f` exactly as often as it occurs, and drops the rest. */
  lemma {:induction false} FilterCounts<T(!new)>(s: seq<T>, f: T -> bool)
    ensures forall x :: multiset(Filter(s, f))[x] == if f(x) then multiset(s)[x] else 0
  {
    if s != [] {
      assert s == [s[0]] + s[1..];
      FilterCounts(s[1..], f);
    }
  }

  /** Filtering a concatenation filters each part. */
  lemma {:induction false} FilterAppend<T(!new)>(a: seq<T>, b: seq<T>, f: T -> bool)
    ensures Filter(a + b, f) == Filter(a, f) + Filter(b, f)
  {
    if a == [] {
      assert a + b == b;
    } else {
      assert (a + b)[1..] == a[1..] + b;
      FilterAppend(a[1..], b, f);
    }
  }

  /** `le` orders its type totally, ties allowed. */
  ghost predicate TotalPreorder<T(!new)>(le: (T, T) -> bool)
  {
    && (forall a, b :: le(a, b) || le(b, a))
    && (forall a, b, c :: le(a, b) && le(b, c) ==> le(a, c))
  }

  /** Every element is `le` every later element. */
  predicate SortedBy<T>(s: seq<T>, le: (T, T) -> bool)
  {
    forall i, j :: 0 <= i < j < |s| ==> le(s[i], s[j])
  }

  /** Places `x` before the first element it is `le`. */
  function Insert<T>(x: T, s: seq<T>, le: (T, T) -> bool): (r: seq<T>)
    ensures |r| == |s| + 1
    ensures multiset(r) == multiset(s) + multiset{x}
  {
    if s == [] then [x]
    else if le(x, s[0]) then [x] + s
    else
      assert s == [s[0]] + s[1..];
      [s[0]] + Insert(x, s[1..], le)
  }

  /** Insertion sort; the result is a permutation of the input. */
  function SortBy<T>(s: seq<T>, le: (T, T) -> bool): (r: seq<T>)
    ensures |r| == |s|
    ensures multiset(r) == multiset(s)
  {
    if s == [] then []
    else
      assert s == [s[0]] + s[1..];
      Insert(s[0], SortBy(s[1..], le), le)
  }

  lemma {:induction false} InsertSorted<T(!new)>(x: T, s: seq<T>, le: (T, T) -> bool)
    requires TotalPreorder(le)
    requires SortedBy(s, le)
    ensures SortedBy(Insert(x, s, le), le)
  {
    if s == [] {
    } else if le(x, s[0]) {
      var r := [x] + s;
      forall i, j | 0 <= i < j < |r| ensures le(r[i], r[j]) {
        if i == 0 && j > 1 {
          assert le(s[0], s[j - 1]);
        }
      }
    } else {
      var t := Insert(x, s[1..], le);
      InsertSorted(x, s[1..], le);
      var r := [s[0]] + t;
      forall i, j | 0 <= i < j < |r| ensures le(r[i], r[j]) {
        if i == 0 {
          assert r[j] == t[j - 1];
          assert t[j - 1] in multiset(t);
          if t[j - 1] != x {
            assert t[j - 1] in multiset(s[1..]);
            var k :| 0 <= k < |s[1..]| && s[1..][k] == t[j - 1];
            assert le(s[0], s[k + 1]);
          }
        } else {
          assert r[i] == t[i - 1] && r[j] == t[j - 1];
        }
      }
    }
  }

  /** The sort orders its result by `le`. */
  lemma {:induction false} SortBySorted<T(!new)>(s: seq<T>, le: (T, T) -> bool)
    requires TotalPreorder(le)
    ensures SortedBy(SortBy(s, le), le)
  {
    if s != [] {
      SortBySorted(s[1..], le);
      InsertSorted(s[0], SortBy(s[1..], le), le);
    }
  }

  /** `Take(n)`: the first `n` elements, or all of them when there are fewer. */
  function Take<T>(s: seq<T>, n: nat): (r: seq<T>)
    ensures |r| == if |s| < n then |s| else n
    ensures r <= s
  {
    if |s| <= n then s else s[..n]
  }

  /**
   * A prefix of a sorted sequence is sorted, and every element it leaves out
   * comes after every element it keeps.
   */
  lemma TakeOfSorted<T(!new)>(s: seq<T>, n: nat, le: (T, T) -> bool)
    requires SortedBy(s, le)
    ensures SortedBy(Take(s, n), le)
    ensures multiset(Take(s, n)) <= multiset(s)
    ensures forall x, y :: multiset(Take(s, n))[x] < multiset(s)[x] && y in Take(s, n) ==> le(y, x)
  {
    var r := Take(s, n);
    if |s| > n {
      var rest := s[n..];
      assert s == r + rest;
      assert multiset(s) == multiset(r) + multiset(rest);
      forall x, y | multiset(r)[x] < multiset(s)[x] && y in r ensures le(y, x) {
        assert x in multiset(rest);
        var k :| 0 <= k < |rest| && rest[k] == x;
        var j :| 0 <= j < |r| && r[j] == y;
        assert s[j] == y && s[n + k] == x;
      }
    }
  }

  /** `FirstOrDefault(f)`: the index of the first element satisfying `f`, if any. */
  function FirstIndex<T>(s: seq<T>, f: T -> bool): (r: Option<nat>)
    ensures r.Some? ==> r.value < |s| && f(s[r.value])
    ensures r.Some? ==> forall j :: 0 <= j < r.value ==> !f(s[j])
    ensures r.None? ==> forall j :: 0 <= j < |s| ==> !f(s[j])
  {
    if s == [] then None
    else if f(s[0]) then Some(0)
    else match FirstIndex(s[1..], f)
      case None => None
      case Some(k) => Some(k + 1)
  }

  /** No element satisfies `f` exactly when filtering by `f` leaves nothing. */
  lemma FirstIndexNoneIffFilterEmpty<T(!new)>(s: seq<T>, f: T -> bool)
    ensures FirstIndex(s, f).None? <==> Filter(s, f) == []
  {
    if FirstIndex(s, f).Some? {
      var i := FirstIndex(s, f).value;
      FilterCounts(s, f);
      assert s[i] in multiset(s);
      assert multiset(Filter(s, f))[s[i]] > 0;
    }
  }

  /** Filtering a single element keeps it exactly when it satisfies `f`. */
  lemma FilterSingle<T(!new)>(x: T, f: T -> bool)
    ensures Filter([x], f) == if f(x) then [x] else []
  {
    assert [x][1..] == [];
  }

  /**
   * Replacing an element by one with the same verdict under `f` keeps the
   * number of elements `f` selects.
   */
  lemma FilterReplace<T(!new)>(s: seq<T>, i: nat, x: T, f: T -> bool)
    requires i < |s| && f(x) == f(s[i])
    ensures |Filter(s[i := x], f)| == |Filter(s, f)|
  {
    assert s == s[..i] + [s[i]] + s[i + 1..];
    assert s[i := x] == s[..i] + [x] + s[i + 1..];
    FilterAppend(s[..i] + [s[i]], s[i + 1..], f);
    FilterAppend(s[..i], [s[i]], f);
    FilterAppend(s[..i] + [x], s[i + 1..], f);
    FilterAppend(s[..i], [x], f);
    FilterSingle(x, f);
    FilterSingle(s[i], f);
  }
}
