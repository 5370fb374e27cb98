/** Sequence operations shared by the repositories: list-comprehension
    filtering, the stable descending sort of Python's
    `list.sort(key=..., reverse=True)` (also used for `ORDER BY ... DESC`),
    SQLite's `OFFSET`/`LIMIT`, and Python's `s[:n]`. */
module Seqs {

  function Min(a: int, b: int): int { if a <= b then a else b }
  function Max(a: int, b: int): int { if a >= b then a else b }

  /** `[x for x in s if p(x)]`. */
  function Filter<T>(s: seq<T>, p: T -> bool): (r: seq<T>)
    ensures |r| <= |s|
    ensures forall x | x in r :: x in s && p(x)
    ensures forall x | x in s && p(x) :: x in r
    ensures multiset(r) <= multiset(s)
  {
    if s == [] then []
    else
      assert s == [s[0]] + s[1..];
      (if p(s[0]) then [s[0]] else []) + Filter(s[1..], p)
  }

  lemma {:induction false} FilterConcat<T>(a: seq<T>, b: seq<T>, p: T -> bool)
    ensures Filter(a + b, p) == Filter(a, p) + Filter(b, p)
  {
    if a == [] {
      assert a + b == b;
    } else {
      assert (a + b)[0] == a[0];
      assert (a + b)[1..] == a[1..] + b;
      FilterConcat(a[1..], b, p);
    }
  }

  /** One element in front adds that element when it passes. */
  lemma FilterCons<T>(x: T, s: seq<T>, p: T -> bool)
    ensures Filter([x] + s, p) == (if p(x) then [x] else []) + Filter(s, p)
  {
    assert ([x] + s)[0] == x;
    assert ([x] + s)[1..] == s;
  }

  lemma FilterSingle<T>(x: T, p: T -> bool)
    ensures Filter([x], p) == if p(x) then [x] else []
  {
    assert [x][1..] == [];
  }

  /** One more element of a prefix adds that element when it passes. */
  lemma FilterSnoc<T>(s: seq<T>, i: int, p: T -> bool)
    requires 0 <= i < |s|
    ensures Filter(s[..i + 1], p) == Filter(s[..i], p) + (if p(s[i]) then [s[i]] else [])
  {
    assert s[..i + 1] == s[..i] + [s[i]];
    FilterConcat(s[..i], [s[i]], p);
    FilterSingle(s[i], p);
  }

  /** The number of elements of `s` that satisfy `p`. */
  function Count<T>(s: seq<T>, p: T -> bool): nat
  {
    if s == [] then 0 else Count(s[..|s| - 1], p) + (if p(s[|s| - 1]) then 1 else 0)
  }

  /** Counting the elements that pass is taking the length of the filtered
      sequence. */
  lemma {:induction false} CountIsFilterLength<T>(s: seq<T>, p: T -> bool)
    ensures Count(s, p) == |Filter(s, p)|
  {
    if s != [] {
      var i := |s| - 1;
      CountIsFilterLength(s[..i], p);
      FilterSnoc(s, i, p);
      assert s[..i + 1] == s;
    }
  }

  /** Filtering by a predicate and by its negation splits the sequence. */
  lemma {:induction false} FilterComplement<T>(s: seq<T>, p: T -> bool, q: T -> bool)
    requires forall x :: q(x) == !p(x)
    ensures |Filter(s, p)| + |Filter(s, q)| == |s|
  {
    if s != [] {
      FilterComplement(s[1..], p, q);
    }
  }

  lemma {:induction false} FilterAll<T>(s: seq<T>, p: T -> bool)
    requires forall x | x in s :: p(x)
    ensures Filter(s, p) == s
  {
    if s != [] {
      assert s == [s[0]] + s[1..];
      FilterAll(s[1..], p);
    }
  }

  // ---------------------------------------------------------------------
  // Stable sort, greatest key first.

  ghost predicate SortedDesc<T>(s: seq<T>, key: T -> real) {
    forall i, j :: 0 <= i < j < |s| ==> key(s[i]) >= key(s[j])
  }

  /** Inserts `x` after every element whose key is strictly greater, so
      that `x` precedes the elements of `s` that have the same key. */
  function InsertDesc<T>(x: T, s: seq<T>, key: T -> real): (r: seq<T>)
    ensures |r| == |s| + 1
    ensures multiset(r) == multiset(s) + multiset{x}
  {
    if s == [] then [x]
    else if key(s[0]) > key(x) then
      assert s == [s[0]] + s[1..];
      [s[0]] + InsertDesc(x, s[1..], key)
    else [x] + s
  }

  /** `sorted(s, key=key, reverse=True)`: Python's sort is stable also when
      reversed, so elements with equal keys keep their order. */
  function SortDesc<T>(s: seq<T>, key: T -> real): (r: seq<T>)
    ensures |r| == |s|
    ensures multiset(r) == multiset(s)
  {
    if s == [] then []
    else
      assert s == [s[0]] + s[1..];
      InsertDesc(s[0], SortDesc(s[1..], key), key)
  }

  /** Inserting an element no greater than a bound into a sequence whose
      keys are all within it keeps every key within it. */
  lemma {:induction false} InsertDescBounded<T>(x: T, s: seq<T>, key: T -> real, bound: real)
    requires key(x) <= bound
    requires forall i | 0 <= i < |s| :: key(s[i]) <= bound
    ensures forall i | 0 <= i < |InsertDesc(x, s, key)| :: key(InsertDesc(x, s, key)[i]) <= bound
  {
    if s != [] && key(s[0]) > key(x) {
      InsertDescBounded(x, s[1..], key, bound);
      var t := InsertDesc(x, s[1..], key);
      forall i | 0 <= i < |[s[0]] + t| ensures key(([s[0]] + t)[i]) <= bound {
        if i > 0 { assert ([s[0]] + t)[i] == t[i - 1]; }
      }
    }
  }

  lemma {:induction false} InsertDescSorted<T>(x: T, s: seq<T>, key: T -> real)
    requires SortedDesc(s, key)
    ensures SortedDesc(InsertDesc(x, s, key), key)
  {
    if s != [] && key(s[0]) > key(x) {
      var t := InsertDesc(x, s[1..], key);
      InsertDescSorted(x, s[1..], key);
      assert forall i | 0 <= i < |s[1..]| :: key(s[1..][i]) <= key(s[0]) by {
        forall i | 0 <= i < |s[1..]| ensures key(s[1..][i]) <= key(s[0]) {
          assert s[1..][i] == s[i + 1];
        }
      }
      InsertDescBounded(x, s[1..], key, key(s[0]));
      var r := [s[0]] + t;
      forall i, j | 0 <= i < j < |r| ensures key(r[i]) >= key(r[j]) {
        if i == 0 { assert r[j] == t[j - 1]; }
        else { assert r[i] == t[i - 1] && r[j] == t[j - 1]; }
      }
    }
  }

  lemma {:induction false} SortDescSorted<T>(s: seq<T>, key: T -> real)
    ensures SortedDesc(SortDesc(s, key), key)
  {
    if s != [] {
      SortDescSorted(s[1..], key);
      InsertDescSorted(s[0], SortDesc(s[1..], key), key);
    }
  }

  /** The elements whose key equals `v`. */
  function KeyEquals<T>(key: T -> real, v: real): T -> bool {
    x => key(x) == v
  }

  lemma {:induction false} InsertDescFilter<T>(x: T, s: seq<T>, key: T -> real, v: real)
    ensures Filter(InsertDesc(x, s, key), KeyEquals(key, v))
         == (if key(x) == v then [x] else []) + Filter(s, KeyEquals(key, v))
  {
    if s == [] {
      assert InsertDesc(x, s, key) == [x];
      FilterSingle(x, KeyEquals(key, v));
    } else if key(s[0]) > key(x) {
      InsertDescFilter(x, s[1..], key, v);
      InsertDescFilterBehind(x, s, key, v);
    } else {
      assert InsertDesc(x, s, key) == [x] + s;
      FilterCons(x, s, KeyEquals(key, v));
    }
  }

  /** The step of `InsertDescFilter` where `x` goes behind `s[0]`: the two
      have different keys, so at most one of them is kept. */
  lemma {:induction false} InsertDescFilterBehind<T>(x: T, s: seq<T>, key: T -> real, v: real)
    requires s != [] && key(s[0]) > key(x)
    requires Filter(InsertDesc(x, s[1..], key), KeyEquals(key, v))
          == (if key(x) == v then [x] else []) + Filter(s[1..], KeyEquals(key, v))
    ensures Filter(InsertDesc(x, s, key), KeyEquals(key, v))
         == (if key(x) == v then [x] else []) + Filter(s, KeyEquals(key, v))
  {
    var p := KeyEquals(key, v);
    var t := InsertDesc(x, s[1..], key);
    var rest := Filter(s[1..], p);
    assert InsertDesc(x, s, key) == [s[0]] + t;
    FilterCons(s[0], t, p);
    assert Filter(s, p) == (if p(s[0]) then [s[0]] else []) + rest;
    assert p(s[0]) == (key(s[0]) == v);
    KeptCommute(x, s[0], key(x) == v, p(s[0]), rest);
  }

  /** Two optional elements of which at most one is present can be put
      in front of a sequence in either order. */
  lemma KeptCommute<T>(a: T, b: T, keepA: bool, keepB: bool, rest: seq<T>)
    requires !(keepA && keepB)
    ensures (if keepB then [b] else []) + ((if keepA then [a] else []) + rest)
         == (if keepA then [a] else []) + ((if keepB then [b] else []) + rest)
  {
  }

  /** Stability: restricted to any one key, the sorted sequence lists the
      elements in their original order. */
  lemma {:induction false} SortDescStable<T>(s: seq<T>, key: T -> real, v: real)
    ensures Filter(SortDesc(s, key), KeyEquals(key, v)) == Filter(s, KeyEquals(key, v))
  {
    if s != [] {
      var p := KeyEquals(key, v);
      SortDescStable(s[1..], key, v);
      InsertDescFilter(s[0], SortDesc(s[1..], key), key, v);
      assert SortDesc(s, key) == InsertDesc(s[0], SortDesc(s[1..], key), key);
      assert Filter(s, p) == (if p(s[0]) then [s[0]] else []) + Filter(s[1..], p);
      assert p(s[0]) == (key(s[0]) == v);
    }
  }

  /** Filtering keeps a descending order. */
  lemma FilterSorted<T>(s: seq<T>, p: T -> bool, key: T -> real)
    requires SortedDesc(s, key)
    ensures SortedDesc(Filter(s, p), key)
  {
    if s != [] {
      FilterSorted(s[1..], p, key);
      var t := Filter(s[1..], p);
      forall y | y in t ensures key(s[0]) >= key(y) {
        var k :| 0 <= k < |s[1..]| && s[1..][k] == y;
        assert s[k + 1] == y;
      }
    }
  }

  // ---------------------------------------------------------------------
  // SQLite's OFFSET/LIMIT and Python's s[:n].

  /** Where a page starts: a negative OFFSET counts as 0. */
  function PageStart(n: nat, skip: int): (lo: nat)
    ensures lo <= n
  {
    if skip <= 0 then 0 else Min(skip, n)
  }

  /** How many rows `OFFSET skip LIMIT limit` keeps of `n`. */
  function PageLength(n: nat, skip: int, limit: int): nat {
    if limit < 0 then n - PageStart(n, skip) else Min(limit, n - PageStart(n, skip))
  }

  /** `OFFSET skip LIMIT limit`: a negative LIMIT means no upper bound. */
  function Page<T>(s: seq<T>, skip: int, limit: int): (r: seq<T>)
    ensures limit >= 0 ==> |r| <= limit
    ensures limit >= 0 ==> |r| == Min(limit, |s| - PageStart(|s|, skip))
    ensures |r| == PageLength(|s|, skip, limit)
    ensures PageStart(|s|, skip) + |r| <= |s|
    ensures forall i | 0 <= i < |r| :: r[i] == s[PageStart(|s|, skip) + i]
  {
    var lo := PageStart(|s|, skip);
    var hi := if limit < 0 then |s| else Min(lo + limit, |s|);
    s[lo..hi]
  }

  lemma SliceMultiset<T>(s: seq<T>, a: int, b: int)
    requires 0 <= a <= b <= |s|
    ensures multiset(s[a..b]) <= multiset(s)
  {
    assert s == s[..a] + s[a..b] + s[b..];
  }

  lemma PageMultiset<T>(s: seq<T>, skip: int, limit: int)
    ensures multiset(Page(s, skip, limit)) <= multiset(s)
  {
    var lo := PageStart(|s|, skip);
    var r := Page(s, skip, limit);
    assert r == s[lo..lo + |r|];
    SliceMultiset(s, lo, lo + |r|);
  }

  lemma PageSorted<T>(s: seq<T>, skip: int, limit: int, key: T -> real)
    requires SortedDesc(s, key)
    ensures SortedDesc(Page(s, skip, limit), key)
  {
    var lo := PageStart(|s|, skip);
    var r := Page(s, skip, limit);
    forall i, j | 0 <= i < j < |r| ensures key(r[i]) >= key(r[j]) {
      assert r[i] == s[lo + i] && r[j] == s[lo + j];
    }
  }

  /** `SELECT ... WHERE p ORDER BY key DESC OFFSET skip LIMIT limit`, with
      rows of equal key in table order. */
  function Select<T>(s: seq<T>, p: T -> bool, key: T -> real, skip: int, limit: int): (r: seq<T>)
    ensures forall x | x in r :: x in s && p(x)
    ensures SortedDesc(r, key)
    ensures multiset(r) <= multiset(Filter(s, p))
    ensures limit >= 0 ==> |r| <= limit
    ensures skip <= 0 && (limit < 0 || limit >= |Filter(s, p)|) ==> r == SortDesc(Filter(s, p), key)
    ensures skip <= 0 && limit < 0 ==> forall x | x in s && p(x) :: x in r
    ensures |r| == PageLength(|Filter(s, p)|, skip, limit)
    ensures forall i | 0 <= i < |r| :: r[i] == SortDesc(Filter(s, p), key)[PageStart(|Filter(s, p)|, skip) + i]
  {
    var t := SortDesc(Filter(s, p), key);
    SortDescSorted(Filter(s, p), key);
    PageSorted(t, skip, limit, key);
    PageMultiset(t, skip, limit);
    var r := Page(t, skip, limit);
    SelectMembers(s, p, key, skip, limit);
    SelectPage(s, p, key, skip, limit);
    r
  }

  /** The page holds, in order, the sorted passing rows from the page start. */
  lemma SelectPage<T>(s: seq<T>, p: T -> bool, key: T -> real, skip: int, limit: int)
    ensures var f := Filter(s, p);
      var r := Page(SortDesc(f, key), skip, limit);
      |r| == PageLength(|f|, skip, limit)
      && forall i | 0 <= i < |r| :: r[i] == SortDesc(f, key)[PageStart(|f|, skip) + i]
  {
    var f := Filter(s, p);
    var t := SortDesc(f, key);
    assert |t| == |f|;
  }

  lemma SelectMembers<T>(s: seq<T>, p: T -> bool, key: T -> real, skip: int, limit: int)
    ensures var t := SortDesc(Filter(s, p), key);
      var r := Page(t, skip, limit);
      (forall x | x in r :: x in s && p(x))
      && (skip <= 0 && limit < 0 ==> forall x | x in s && p(x) :: x in r)
  {
    var t := SortDesc(Filter(s, p), key);
    var r := Page(t, skip, limit);
    PageMultiset(t, skip, limit);
    forall x | x in r ensures x in s && p(x) {
      assert x in multiset(r);
      assert x in multiset(Filter(s, p));
    }
    if skip <= 0 && limit < 0 {
      assert r == t;
      forall x | x in s && p(x) ensures x in r {
        assert x in Filter(s, p);
        assert x in multiset(Filter(s, p));
        assert x in multiset(t);
      }
    }
  }

  /** `ORDER BY key DESC LIMIT 1`: the row returned exists exactly when
      some row passes, and no passing row has a greater key. */
  lemma SelectFirst<T>(s: seq<T>, p: T -> bool, key: T -> real)
    ensures var r := Select(s, p, key, 0, 1);
      (r != [] <==> exists x | x in s :: p(x))
      && (r != [] ==> r[0] in s && p(r[0]) && forall y | y in s && p(y) :: key(y) <= key(r[0]))
  {
    var f := Filter(s, p);
    var t := SortDesc(f, key);
    SortDescSorted(f, key);
    var r := Select(s, p, key, 0, 1);
    assert r == Page(t, 0, 1);
    if |f| > 0 {
      assert f[0] in f;
      assert r[0] == t[0];
      forall y | y in s && p(y) ensures key(y) <= key(r[0]) {
        assert y in multiset(f);
        assert y in multiset(t);
        var k :| 0 <= k < |t| && t[k] == y;
        if k > 0 {
          assert key(t[0]) >= key(t[k]);
        }
      }
    }
  }

  /** Python's `s[:n]`: a negative `n` drops `-n` elements from the end. */
  function Take<T>(s: seq<T>, n: int): (r: seq<T>)
    ensures |r| <= |s|
    ensures r == s[..|r|]
    ensures n >= 0 ==> |r| == Min(n, |s|)
    ensures n < 0 ==> |r| == Max(|s| + n, 0)
  {
    if n >= 0 then s[..Min(n, |s|)] else s[..Max(|s| + n, 0)]
  }

  lemma TakeSorted<T>(s: seq<T>, n: int, key: T -> real)
    requires SortedDesc(s, key)
    ensures SortedDesc(Take(s, n), key)
  {
    var r := Take(s, n);
    forall i, j | 0 <= i < j < |r| ensures key(r[i]) >= key(r[j]) {
      assert r[i] == s[i] && r[j] == s[j];
    }
  }

  // ---------------------------------------------------------------------
  // Distinct keys (primary keys) survive taking a sub-multiset.

  ghost predicate KeysDistinct<T, K>(s: seq<T>, key: T -> K) {
    forall i, j :: 0 <= i < |s| && 0 <= j < |s| && i != j ==> key(s[i]) != key(s[j])
  }

  lemma {:induction false} TwiceInMultiset<T>(s: seq<T>, v: T)
    requires multiset(s)[v] >= 2
    ensures exists p, q :: 0 <= p < q < |s| && s[p] == v && s[q] == v
  {
    assert s == [s[0]] + s[1..];
    if s[0] == v {
      assert v in multiset(s[1..]);
      var k :| 0 <= k < |s[1..]| && s[1..][k] == v;
      assert s[k + 1] == v;
    } else {
      TwiceInMultiset(s[1..], v);
      var p, q :| 0 <= p < q < |s[1..]| && s[1..][p] == v && s[1..][q] == v;
      assert s[p + 1] == v && s[q + 1] == v;
    }
  }

  lemma MultisetOfTwo<T>(t: seq<T>, i: int, j: int)
    requires 0 <= i < j < |t| && t[i] == t[j]
    ensures multiset(t)[t[i]] >= 2
  {
    assert t == t[..j] + t[j..];
    assert t[i] == t[..j][i];
    assert t[j] == t[j..][0];
  }

  /** Two different positions of `t` are matched by two different
      positions of `s` holding the same values. */
  lemma DistinctPositions<T>(s: seq<T>, t: seq<T>, i: int, j: int)
    requires multiset(t) <= multiset(s)
    requires 0 <= i < |t| && 0 <= j < |t| && i != j
    ensures exists p, q :: 0 <= p < |s| && 0 <= q < |s| && p != q && s[p] == t[i] && s[q] == t[j]
  {
    assert t[i] in multiset(s) && t[j] in multiset(s);
    if t[i] == t[j] {
      var a, b := if i < j then i else j, if i < j then j else i;
      MultisetOfTwo(t, a, b);
      TwiceInMultiset(s, t[i]);
    } else {
      var p :| 0 <= p < |s| && s[p] == t[i];
      var q :| 0 <= q < |s| && s[q] == t[j];
      assert p != q;
    }
  }

  lemma KeysDistinctSub<T, K>(s: seq<T>, t: seq<T>, key: T -> K)
    requires KeysDistinct(s, key)
    requires multiset(t) <= multiset(s)
    ensures KeysDistinct(t, key)
  {
    forall i, j | 0 <= i < |t| && 0 <= j < |t| && i != j
      ensures key(t[i]) != key(t[j])
    {
      DistinctPositions(s, t, i, j);
      var p, q :| 0 <= p < |s| && 0 <= q < |s| && p != q && s[p] == t[i] && s[q] == t[j];
      assert key(s[p]) != key(s[q]);
    }
  }
}
