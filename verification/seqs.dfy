/**
 * Generic operations on tables kept as sequences of rows: selecting the rows
 * that satisfy a condition, rewriting every row, finding a row, and the
 * "no two rows share a key" constraint behind every unique field.
 */
module Seqs {
  import opened Wrappers

  /** The rows of `s` that satisfy `keep`, in their original order. */
  function Filter<T(!new)>(s: seq<T>, keep: T -> bool): (r: seq<T>)
    ensures |r| <= |s|
    ensures forall x :: x in r <==> x in s && keep(x)
  {
    if |s| == 0 then []
    else if keep(s[0]) then [s[0]] + Filter(s[1..], keep)
    else Filter(s[1..], keep)
  }

  /** Filtering rows that all pass already returns them unchanged. */
  lemma {:induction false} FilterKeepsWhenAllPass<T(!new)>(s: seq<T>, keep: T -> bool)
    requires forall x :: x in s ==> keep(x)
    ensures Filter(s, keep) == s
  {
    if |s| > 0 {
      assert keep(s[0]);
      assert forall x :: x in s[1..] ==> x in s;
      FilterKeepsWhenAllPass(s[1..], keep);
      assert s == [s[0]] + s[1..];
    }
  }

  /**
   * A query-string filter: the rows passing `keep`, except that an empty
   * value leaves the rows alone, as a filter given an empty value does.
   */
  function Narrow<T(!new)>(s: seq<T>, value: string, keep: T -> bool): (r: seq<T>)
    ensures |r| <= |s|
    ensures forall x :: x in r <==> x in s && (value == [] || keep(x))
  {
    if value == [] then s else Filter(s, keep)
  }

  /** Narrowing twice by the same value is narrowing once. */
  lemma NarrowIdempotent<T(!new)>(s: seq<T>, value: string, keep: T -> bool)
    ensures Narrow(Narrow(s, value, keep), value, keep) == Narrow(s, value, keep)
  {
    if value != [] {
      FilterKeepsWhenAllPass(Filter(s, keep), keep);
    }
  }

  /** Every row rewritten by `f`, in place. */
  function Map<T, U>(s: seq<T>, f: T -> U): (r: seq<U>)
    ensures |r| == |s|
    ensures forall i :: 0 <= i < |s| ==> r[i] == f(s[i])
  {
    seq(|s|, i requires 0 <= i < |s| => f(s[i]))
  }

  /** The first row satisfying `p`, if any. */
  function Find<T(!new)>(s: seq<T>, p: T -> bool): (r: Option<T>)
    ensures r.Some? ==> r.value in s && p(r.value)
    ensures r.None? ==> forall x :: x in s ==> !p(x)
  {
    if |s| == 0 then None
    else if p(s[0]) then Some(s[0])
    else Find(s[1..], p)
  }

  /** No two rows (at distinct positions) have the same key. */
  predicate KeysDistinct<T, K(==)>(s: seq<T>, key: T -> K)
  {
    forall i, j :: 0 <= i < |s| && 0 <= j < |s| && i != j ==> key(s[i]) != key(s[j])
  }

  /** Under distinct keys a key identifies its row. */
  lemma KeyIdentifiesRow<T, K>(s: seq<T>, key: T -> K, x: T, y: T)
    requires KeysDistinct(s, key)
    requires x in s && y in s && key(x) == key(y)
    ensures x == y
  {
    var i :| 0 <= i < |s| && s[i] == x;
    var j :| 0 <= j < |s| && s[j] == y;
    assert i == j;
  }

  lemma {:induction false} FilterKeepsKeysDistinct<T(!new), K>(s: seq<T>, keep: T -> bool, key: T -> K)
    requires KeysDistinct(s, key)
    ensures KeysDistinct(Filter(s, keep), key)
  {
    if |s| > 0 {
      var rest := s[1..];
      assert KeysDistinct(rest, key) by {
        forall i, j | 0 <= i < |rest| && 0 <= j < |rest| && i != j
          ensures key(rest[i]) != key(rest[j])
        {
          assert rest[i] == s[i + 1] && rest[j] == s[j + 1];
        }
      }
      FilterKeepsKeysDistinct(rest, keep, key);
      if keep(s[0]) {
        var r := Filter(s, keep);
        var tail := Filter(rest, keep);
        assert r == [s[0]] + tail;
        forall y | y in tail ensures key(y) != key(s[0]) {
          var k :| 0 <= k < |rest| && rest[k] == y;
          assert s[k + 1] == y;
        }
        forall i, j | 0 <= i < |r| && 0 <= j < |r| && i != j
          ensures key(r[i]) != key(r[j])
        {
          if i == 0 {
            assert r[j] == tail[j - 1] && r[j] in tail;
          } else if j == 0 {
            assert r[i] == tail[i - 1] && r[i] in tail;
          } else {
            assert r[i] == tail[i - 1] && r[j] == tail[j - 1];
          }
        }
      }
    }
  }

  lemma AppendKeepsKeysDistinct<T, K>(s: seq<T>, x: T, key: T -> K)
    requires KeysDistinct(s, key)
    requires forall y :: y in s ==> key(y) != key(x)
    ensures KeysDistinct(s + [x], key)
  {
    var r := s + [x];
    forall i, j | 0 <= i < |r| && 0 <= j < |r| && i != j
      ensures key(r[i]) != key(r[j])
    {
      if i == |s| {
        assert r[j] == s[j] && r[j] in s;
      } else if j == |s| {
        assert r[i] == s[i] && r[i] in s;
      }
    }
  }

  lemma ReplaceKeepsKeysDistinct<T, K>(s: seq<T>, i: nat, x: T, key: T -> K)
    requires i < |s| && KeysDistinct(s, key)
    requires forall j :: 0 <= j < |s| && j != i ==> key(s[j]) != key(x)
    ensures KeysDistinct(s[i := x], key)
  {
  }
}
