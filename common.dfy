/** Shared vocabulary: optional values, the result codes handlers return, and the
    order-preserving filter and the lookup that stand for the object-relational mapper's
    `filter(...)` and `get(...)` over a table. */
module Common {

  datatype Option<T> = None | Some(value: T) {
    /** The value if present, else the given default (`dict.get(key, default)`). */
    function GetOr(default: T): T {
      match this
      case Some(v) => v
      case None => default
    }
  }

  /** Outcome of a request handler, in place of an HTTP response. */
  datatype Status = Ok | Created | BadRequest | Unauthorized | Forbidden | NotFound

  /** The rows of `s` that satisfy `p`, in table order. Defined from the last row so that a
      loop over a prefix can be related to it step by step. */
  function Filter<T(!new)>(s: seq<T>, p: T -> bool): (r: seq<T>)
    ensures |r| <= |s|
    ensures forall x :: x in r <==> x in s && p(x)
    ensures r == [] <==> forall x :: x in s ==> !p(x)
    decreases |s|
  {
    if |s| == 0 then []
    else
      var init := s[..|s| - 1];
      assert s == init + [s[|s| - 1]];
      Filter(init, p) + (if p(s[|s| - 1]) then [s[|s| - 1]] else [])
  }

  /** Filtering a table with one more row at the end: that row is kept or dropped on its own. */
  lemma FilterSnoc<T(!new)>(s: seq<T>, x: T, p: T -> bool)
    ensures Filter(s + [x], p) == Filter(s, p) + (if p(x) then [x] else [])
  {
    assert (s + [x])[..|s + [x]| - 1] == s;
  }

  /** The last row of a non-empty `b` split off, alone and after a prefix `a`. It is stated
      on its own so that `FilterConcat` stays cheap to check. */
  lemma SplitLast<T>(a: seq<T>, b: seq<T>)
    requires |b| > 0
    ensures b == b[..|b| - 1] + [b[|b| - 1]]
    ensures a + b == (a + b[..|b| - 1]) + [b[|b| - 1]]
  {
    assert b == b[..|b| - 1] + [b[|b| - 1]];
  }

  /** Concatenation regroups. It is stated on its own so that `FilterConcat` stays cheap
      to check. */
  lemma Regroup<T>(x: seq<T>, y: seq<T>, z: seq<T>)
    ensures (x + y) + z == x + (y + z)
  {
  }

  /** Filtering distributes over concatenation, so it keeps the rows in table order. */
  lemma {:induction false} FilterConcat<T(!new)>(a: seq<T>, b: seq<T>, p: T -> bool)
    ensures Filter(a + b, p) == Filter(a, p) + Filter(b, p)
    decreases |b|
  {
    if |b| == 0 {
      assert a + b == a;
    } else {
      var init, last := b[..|b| - 1], b[|b| - 1];
      SplitLast(a, b);
      FilterSnoc(a + init, last, p);
      FilterSnoc(init, last, p);
      FilterConcat(a, init, p);
      Regroup(Filter(a, p), Filter(init, p), if p(last) then [last] else []);
    }
  }

  /** A single row is kept exactly when it satisfies `p`. */
  lemma FilterOne<T(!new)>(x: T, p: T -> bool)
    ensures Filter([x], p) == if p(x) then [x] else []
  {
    assert [x][..0] == [];
  }

  /** The first row of `s` that satisfies `p`, if any. */
  function Find<T(!new)>(s: seq<T>, p: T -> bool): (r: Option<T>)
    ensures r.Some? ==> r.value in s && p(r.value)
    ensures r.None? <==> forall x :: x in s ==> !p(x)
  {
    if |s| == 0 then None
    else if p(s[0]) then Some(s[0])
    else
      assert s == [s[0]] + s[1..];
      Find(s[1..], p)
  }

  /** No two rows of `s` share a key. */
  predicate DistinctBy<T, K(==)>(s: seq<T>, key: T -> K) {
    forall i, j :: 0 <= i < j < |s| ==> key(s[i]) != key(s[j])
  }

  /** Filtering never introduces a repeated key: a unique column stays unique. */
  lemma {:induction false} FilterKeepsDistinct<T(!new), K>(s: seq<T>, p: T -> bool, key: T -> K)
    requires DistinctBy(s, key)
    ensures DistinctBy(Filter(s, p), key)
    decreases |s|
  {
    if |s| > 0 {
      var init, last := s[..|s| - 1], s[|s| - 1];
      assert DistinctBy(init, key);
      FilterKeepsDistinct(init, p, key);
      var f := Filter(init, p);
      if p(last) {
        forall x | x in f ensures key(x) != key(last) {
          var k :| 0 <= k < |init| && init[k] == x;
          assert s[k] == x && k < |s| - 1;
        }
        DistinctSnoc(f, last, key);
      }
    }
  }

  lemma DistinctSnoc<T, K>(s: seq<T>, x: T, key: T -> K)
    requires DistinctBy(s, key)
    requires forall y :: y in s ==> key(y) != key(x)
    ensures DistinctBy(s + [x], key)
  {
    var t := s + [x];
    forall i, j | 0 <= i < j < |t| ensures key(t[i]) != key(t[j]) {
      if j < |s| {
        assert t[i] == s[i] && t[j] == s[j];
      } else {
        assert t[i] in s;
      }
    }
  }
}
