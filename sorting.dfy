/**
 * Stable sorting by a two-part rank, as `List.sort` and `Stream.sorted` with a comparator do.
 * The rank is compared lexicographically: `major` first, then `minor`; descending orders are
 * expressed by negating the key.
 */
module Sorting {
  import opened Wrappers

  datatype Rank = Rank(major: int, minor: real)

  predicate RankLe(a: Rank, b: Rank) {
    a.major < b.major || (a.major == b.major && a.minor <= b.minor)
  }

  predicate SortedBy<T>(s: seq<T>, rank: T -> Rank) {
    forall i, j | 0 <= i < j < |s| :: RankLe(rank(s[i]), rank(s[j]))
  }

  /** Inserts `x` after every element that does not rank strictly above it (keeps the sort stable). */
  function Insert<T>(x: T, s: seq<T>, rank: T -> Rank): (r: seq<T>)
    ensures |r| == |s| + 1
    ensures multiset(r) == multiset(s) + multiset{x}
  {
    if s == [] then [x]
    else if !RankLe(rank(s[0]), rank(x)) then [x] + s
    else
      assert s == [s[0]] + s[1..];
      [s[0]] + Insert(x, s[1..], rank)
  }

  lemma {:induction false} InsertSorted<T>(x: T, s: seq<T>, rank: T -> Rank)
    requires SortedBy(s, rank)
    ensures SortedBy(Insert(x, s, rank), rank)
  {
    if s == [] {
    } else if !RankLe(rank(s[0]), rank(x)) {
      assert forall j | 0 <= j < |s| :: RankLe(rank(s[0]), rank(s[j]));
    } else {
      var rest := Insert(x, s[1..], rank);
      SortedTail(s, rank);
      InsertSorted(x, s[1..], rank);
      forall y | y in rest ensures RankLe(rank(s[0]), rank(y)) {
        assert y in multiset(rest);
        if y != x {
          assert y in multiset(s[1..]);
          var j :| 0 <= j < |s[1..]| && s[1..][j] == y;
          assert s[j + 1] == y;
        }
      }
      ConsSorted(s[0], rest, rank);
    }
  }

  /** A head ranked at or below every element of a sorted tail keeps the sequence sorted. */
  lemma ConsSorted<T>(h: T, rest: seq<T>, rank: T -> Rank)
    requires SortedBy(rest, rank)
    requires forall y | y in rest :: RankLe(rank(h), rank(y))
    ensures SortedBy([h] + rest, rank)
  {
    var r := [h] + rest;
    forall i, j | 0 <= i < j < |r| ensures RankLe(rank(r[i]), rank(r[j])) {
      if i == 0 {
        assert r[j] == rest[j - 1];
        assert r[j] in rest;
      } else {
        assert r[i] == rest[i - 1] && r[j] == rest[j - 1];
      }
    }
  }

  /** Insertion sort, taking the elements in order. */
  function SortBy<T>(s: seq<T>, rank: T -> Rank): (r: seq<T>)
    ensures |r| == |s|
    ensures multiset(r) == multiset(s)
  {
    if s == [] then []
    else
      assert s == s[..|s| - 1] + [s[|s| - 1]];
      Insert(s[|s| - 1], SortBy(s[..|s| - 1], rank), rank)
  }

  /** The sort orders its result by rank. */
  lemma {:induction false} SortBySorted<T>(s: seq<T>, rank: T -> Rank)
    ensures SortedBy(SortBy(s, rank), rank)
    decreases |s|
  {
    if s != [] {
      SortBySorted(s[..|s| - 1], rank);
      InsertSorted(s[|s| - 1], SortBy(s[..|s| - 1], rank), rank);
    }
  }

  /** The elements of one rank. */
  function RankIs<T>(rank: T -> Rank, k: Rank): T -> bool {
    (x: T) => rank(x) == k
  }

  /** Inserting into a sorted sequence puts `x` after every element of its own rank. */
  lemma {:induction false} InsertKeepsTies<T>(x: T, s: seq<T>, rank: T -> Rank, k: Rank)
    requires SortedBy(s, rank)
    ensures Filter(Insert(x, s, rank), RankIs(rank, k)) == Filter(s, RankIs(rank, k)) + Filter([x], RankIs(rank, k))
    decreases |s|
  {
    var p := RankIs(rank, k);
    if s == [] {
      assert Insert(x, s, rank) == [x];
    } else if !RankLe(rank(s[0]), rank(x)) {
      assert Insert(x, s, rank) == [x] + s;
      FrontKeepsTies(x, s, rank, k);
    } else {
      var rest := s[1..];
      SortedTail(s, rank);
      InsertKeepsTies(x, rest, rank, k);
      assert Insert(x, s, rank) == [s[0]] + Insert(x, rest, rank);
      assert s == [s[0]] + rest;
      ConsKeepsTies([s[0]], rest, Insert(x, rest, rank), [x], p);
    }
  }

  /** `x` put in front of a sorted sequence whose first ranks strictly above it comes after its ties, since there are none. */
  lemma FrontKeepsTies<T>(x: T, s: seq<T>, rank: T -> Rank, k: Rank)
    requires SortedBy(s, rank) && s != [] && !RankLe(rank(s[0]), rank(x))
    ensures Filter([x] + s, RankIs(rank, k)) == Filter(s, RankIs(rank, k)) + Filter([x], RankIs(rank, k))
  {
    var p := RankIs(rank, k);
    FilterAppend([x], s, p);
    FilterOne(x, p);
    if p(x) {
      AboveHasOtherRank(x, s, rank);
      FilterNone(s, p);
    }
  }

  /** A prefix kept in front of both sides of a filter equation keeps it. */
  lemma ConsKeepsTies<T>(front: seq<T>, rest: seq<T>, inserted: seq<T>, xs: seq<T>, p: T -> bool)
    requires Filter(inserted, p) == Filter(rest, p) + Filter(xs, p)
    ensures Filter(front + inserted, p) == Filter(front + rest, p) + Filter(xs, p)
  {
    FilterAppend(front, inserted, p);
    FilterAppend(front, rest, p);
    ConcatAssoc3(Filter(front, p), Filter(rest, p), Filter(xs, p));
  }

  lemma ConcatAssoc3<T>(h: seq<T>, t: seq<T>, l: seq<T>)
    ensures h + (t + l) == (h + t) + l
  {
  }


  lemma FilterOne<T>(x: T, p: T -> bool)
    ensures Filter([x], p) == if p(x) then [x] else []
  {
    assert [x][..0] == [];
  }

  lemma SortedTail<T>(s: seq<T>, rank: T -> Rank)
    requires SortedBy(s, rank) && s != []
    ensures SortedBy(s[1..], rank)
  {
    var rest := s[1..];
    forall i, j | 0 <= i < j < |rest| ensures RankLe(rank(rest[i]), rank(rest[j])) {
      assert rest[i] == s[i + 1] && rest[j] == s[j + 1];
    }
  }

  /** Every element of a sorted sequence whose first ranks strictly above `x` has a rank other than `x`'s. */
  lemma AboveHasOtherRank<T>(x: T, s: seq<T>, rank: T -> Rank)
    requires SortedBy(s, rank) && s != [] && !RankLe(rank(s[0]), rank(x))
    ensures forall y | y in s :: !RankIs(rank, rank(x))(y)
  {
    forall y | y in s ensures rank(y) != rank(x) {
      var i :| 0 <= i < |s| && s[i] == y;
      if i > 0 {
        assert RankLe(rank(s[0]), rank(s[i]));
      }
    }
  }

  /**
   * The sort is stable: the elements of any one rank come out in the order they went in, as
   * `List.sort` promises.
   */
  lemma {:induction false} SortByStable<T>(s: seq<T>, rank: T -> Rank, k: Rank)
    ensures Filter(SortBy(s, rank), RankIs(rank, k)) == Filter(s, RankIs(rank, k))
    decreases |s|
  {
    if s != [] {
      var init, x := s[..|s| - 1], s[|s| - 1];
      assert s == init + [x];
      SortByStable(init, rank, k);
      SortBySorted(init, rank);
      SortBySnoc(init, x, rank);
      InsertKeepsTies(x, SortBy(init, rank), rank, k);
      FilterAppend(init, [x], RankIs(rank, k));
    }
  }

  lemma SortBySnoc<T>(init: seq<T>, x: T, rank: T -> Rank)
    ensures SortBy(init + [x], rank) == Insert(x, SortBy(init, rank), rank)
  {
    var s := init + [x];
    assert s[..|s| - 1] == init;
  }

  function TakeFirst<T>(s: seq<T>, n: nat): (r: seq<T>)
    ensures |r| == if n <= |s| then n else |s|
    ensures r == s[..|r|]
  {
    if n <= |s| then s[..n] else s
  }

  /**
   * The first `n` of the sorted sequence come in rank order, are taken from `s`, and none of the
   * elements left out ranks strictly before one that was taken.
   */
  lemma TopIsBest<T>(s: seq<T>, rank: T -> Rank, n: nat)
    ensures SortedBy(TakeFirst(SortBy(s, rank), n), rank)
    ensures forall x | x in TakeFirst(SortBy(s, rank), n) :: x in s
    ensures forall x, y | x in TakeFirst(SortBy(s, rank), n) && y in s && y !in TakeFirst(SortBy(s, rank), n)
      :: RankLe(rank(x), rank(y))
  {
    var sorted := SortBy(s, rank);
    var top := TakeFirst(sorted, n);
    SortBySorted(s, rank);
    forall x | x in top ensures x in s {
      assert x in multiset(sorted);
    }
    forall x, y | x in top && y in s && y !in top ensures RankLe(rank(x), rank(y)) {
      assert y in multiset(sorted);
      var jy :| 0 <= jy < |sorted| && sorted[jy] == y;
      var ix :| 0 <= ix < |top| && top[ix] == x;
      assert jy >= |top|;
    }
  }

  /** The elements of `s` that satisfy `p`, in order (`stream().filter(p)`). */
  function Filter<T>(s: seq<T>, p: T -> bool): (r: seq<T>)
    ensures |r| <= |s|
    decreases |s|
  {
    if s == [] then []
    else Filter(s[..|s| - 1], p) + (if p(s[|s| - 1]) then [s[|s| - 1]] else [])
  }

  /** An element is kept by the filter exactly when it is in the sequence and satisfies the test. */
  lemma {:induction false} FilterMembers<T>(s: seq<T>, p: T -> bool)
    ensures forall x :: x in Filter(s, p) <==> x in s && p(x)
    decreases |s|
  {
    if s != [] {
      FilterMembers(s[..|s| - 1], p);
      assert s == s[..|s| - 1] + [s[|s| - 1]];
    }
  }

  /** `stream().map(f).collect(toList())`: element-wise and order-preserving. */
  function MapAll<A, B>(s: seq<A>, f: A -> B): (r: seq<B>)
    ensures |r| == |s|
    ensures forall i | 0 <= i < |s| :: r[i] == f(s[i])
    decreases |s|
  {
    if s == [] then [] else MapAll(s[..|s| - 1], f) + [f(s[|s| - 1])]
  }

  /** The images of the kept elements are exactly what mapping the filtered sequence lists. */
  lemma FilterMapMembers<A, B>(s: seq<A>, p: A -> bool, f: A -> B)
    ensures forall x | x in s && p(x) :: f(x) in MapAll(Filter(s, p), f)
    ensures forall y | y in MapAll(Filter(s, p), f) :: exists x | x in s && p(x) :: y == f(x)
  {
    var kept := Filter(s, p);
    var mapped := MapAll(kept, f);
    FilterMembers(s, p);
    forall x | x in s && p(x)
      ensures f(x) in mapped
    {
      var i :| 0 <= i < |kept| && kept[i] == x;
      assert mapped[i] == f(x);
    }
    forall y | y in mapped
      ensures exists x | x in s && p(x) :: y == f(x)
    {
      var i :| 0 <= i < |mapped| && mapped[i] == y;
      assert kept[i] in kept;
    }
  }

  /** Filtering distributes over concatenation. */
  lemma {:induction false} FilterAppend<T>(s: seq<T>, t: seq<T>, p: T -> bool)
    ensures Filter(s + t, p) == Filter(s, p) + Filter(t, p)
    decreases |t|
  {
    if t == [] {
      assert s + t == s;
    } else {
      var t', x := t[..|t| - 1], t[|t| - 1];
      FilterAppend(s, t', p);
      var last := if p(x) then [x] else [];
      assert (s + t)[..|s + t| - 1] == s + t' && (s + t)[|s + t| - 1] == x;
      assert Filter(s + t, p) == Filter(s + t', p) + last;
      assert Filter(t, p) == Filter(t', p) + last;
      assert (Filter(s, p) + Filter(t', p)) + last == Filter(s, p) + (Filter(t', p) + last);
    }
  }

  /** A filter that fails only the `k`-th element keeps everything before and after it. */
  lemma {:induction false} FilterDropsOne<T>(s: seq<T>, k: nat, p: T -> bool)
    requires k < |s| && !p(s[k])
    requires forall i | 0 <= i < |s| && i != k :: p(s[i])
    ensures Filter(s, p) == s[..k] + s[k + 1..]
    decreases |s|
  {
    var init := s[..|s| - 1];
    if k == |s| - 1 {
      FilterAll(init, p);
      assert s[k + 1..] == [];
    } else {
      FilterDropsOne(init, k, p);
      assert init[..k] == s[..k];
      assert init[k + 1..] + [s[|s| - 1]] == s[k + 1..];
    }
  }

  /** A filter keeps nothing of a sequence none of whose elements pass. */
  lemma {:induction false} FilterNone<T>(s: seq<T>, p: T -> bool)
    requires forall x | x in s :: !p(x)
    ensures Filter(s, p) == []
    decreases |s|
  {
    if s != [] {
      FilterNone(s[..|s| - 1], p);
    }
  }

  /** Two filters in a row are one filter by the weaker test when the first keeps all that pass the second. */
  lemma {:induction false} FilterOfFilter<T>(s: seq<T>, p: T -> bool, q: T -> bool)
    requires forall x | x in s && q(x) :: p(x)
    ensures Filter(Filter(s, p), q) == Filter(s, q)
    decreases |s|
  {
    if s != [] {
      var s' := s[..|s| - 1];
      FilterOfFilter(s', p, q);
      var x := s[|s| - 1];
      FilterAppend(Filter(s', p), if p(x) then [x] else [], q);
    }
  }

  /** A filter keeps all of a sequence every element of which passes. */
  lemma {:induction false} FilterAll<T>(s: seq<T>, p: T -> bool)
    requires forall x | x in s :: p(x)
    ensures Filter(s, p) == s
    decreases |s|
  {
    if s != [] {
      FilterAll(s[..|s| - 1], p);
      assert s == s[..|s| - 1] + [s[|s| - 1]];
    }
  }

  /** Filtering by two tests in a row is filtering by their conjunction. */
  lemma {:induction false} FilterBoth<T>(s: seq<T>, p: T -> bool, q: T -> bool, both: T -> bool)
    requires forall x | x in s :: both(x) == (p(x) && q(x))
    ensures Filter(Filter(s, p), q) == Filter(s, both)
    decreases |s|
  {
    if s != [] {
      var s' := s[..|s| - 1];
      var x := s[|s| - 1];
      FilterBoth(s', p, q, both);
      FilterAppend(Filter(s', p), if p(x) then [x] else [], q);
    }
  }

  /** Two tests that agree on every element filter alike. */
  lemma {:induction false} FilterSame<T>(s: seq<T>, p: T -> bool, q: T -> bool)
    requires forall x | x in s :: p(x) == q(x)
    ensures Filter(s, p) == Filter(s, q)
    decreases |s|
  {
    if s != [] {
      FilterSame(s[..|s| - 1], p, q);
    }
  }

  /** A filter that rejects some element is strictly shorter than its input. */
  lemma {:induction false} FilterDrops<T>(s: seq<T>, p: T -> bool, x: T)
    requires x in s && !p(x)
    ensures |Filter(s, p)| < |s|
    decreases |s|
  {
    var s' := s[..|s| - 1];
    if x in s' {
      FilterDrops(s', p, x);
    }
  }

  /** An empty filter result means no element passes (`count(...) == 0`). */
  lemma EmptyFilter<T>(s: seq<T>, p: T -> bool)
    requires |Filter(s, p)| == 0
    ensures forall x | x in s :: !p(x)
  {
    FilterMembers(s, p);
  }

  /** The position of the first element passing `p`, as a lookup that returns the first matching row. */
  function IndexWhere<T>(s: seq<T>, p: T -> bool): (r: Option<nat>)
    ensures r.Some? ==> r.value < |s| && p(s[r.value]) && forall k | 0 <= k < r.value :: !p(s[k])
    ensures r.None? <==> forall k | 0 <= k < |s| :: !p(s[k])
    decreases |s|
  {
    if s == [] then None
    else if p(s[0]) then Some(0)
    else
      var rest := IndexWhere(s[1..], p);
      assert forall k | 1 <= k < |s| :: s[k] == s[1..][k - 1];
      if rest.None? then None else Some(rest.value + 1)
  }

  /** No two positions carry the same present key: a unique index that ignores rows without a key. */
  predicate DistinctKeys<T, K(==)>(s: seq<T>, key: T -> Option<K>) {
    forall i, j | 0 <= i < |s| && 0 <= j < |s| && i != j && key(s[i]).Some? :: key(s[i]) != key(s[j])
  }

  /** Appending a row whose key no row has keeps the keys distinct. */
  lemma AppendKeepsDistinctKeys<T, K>(s: seq<T>, x: T, key: T -> Option<K>)
    requires DistinctKeys(s, key)
    requires key(x).Some? ==> forall y | y in s :: key(y) != key(x)
    ensures DistinctKeys(s + [x], key)
  {
    var t := s + [x];
    forall i, j | 0 <= i < |t| && 0 <= j < |t| && i != j && key(t[i]).Some?
      ensures key(t[i]) != key(t[j])
    {
      if i == |s| {
        assert t[j] in s;
      } else if j == |s| {
        assert t[i] in s;
      }
    }
  }

  /** Overwriting one row with a row whose key no other row has keeps the keys distinct. */
  lemma ReplaceKeepsDistinctKeys<T, K>(s: seq<T>, k: nat, x: T, key: T -> Option<K>)
    requires DistinctKeys(s, key) && k < |s|
    requires key(x).Some? ==> forall i | 0 <= i < |s| && i != k :: key(s[i]) != key(x)
    ensures DistinctKeys(s[k := x], key)
  {
  }

  /** A kept element sits at some position of the input. */
  lemma FilteredFrom<T>(s: seq<T>, p: T -> bool, y: T) returns (j: nat)
    requires y in Filter(s, p)
    ensures j < |s| && s[j] == y
  {
    FilterMembers(s, p);
    j :| 0 <= j < |s| && s[j] == y;
  }

  /** Filtering keeps the keys distinct. */
  lemma {:induction false} FilterKeepsDistinctKeys<T, K>(s: seq<T>, p: T -> bool, key: T -> Option<K>)
    requires DistinctKeys(s, key)
    ensures DistinctKeys(Filter(s, p), key)
    decreases |s|
  {
    if s != [] {
      var init, x := s[..|s| - 1], s[|s| - 1];
      assert DistinctKeys(init, key) by {
        forall i, j | 0 <= i < |init| && 0 <= j < |init| && i != j && key(init[i]).Some?
          ensures key(init[i]) != key(init[j])
        {
          assert init[i] == s[i] && init[j] == s[j];
        }
      }
      FilterKeepsDistinctKeys(init, p, key);
      if p(x) {
        forall y | y in Filter(init, p) && key(x).Some?
          ensures key(y) != key(x)
        {
          var j := FilteredFrom(init, p, y);
          assert s[j] == y && s[|s| - 1] == x;
        }
        AppendKeepsDistinctKeys(Filter(init, p), x, key);
      }
    }
  }

  /** The first `m` from `n` on, trying at most `fuel` more, whose image under `f` is not in `used`. */
  function FirstOutside<T>(f: nat -> T, used: set<T>, n: nat, fuel: nat): (r: nat)
    ensures n <= r <= n + fuel
    ensures forall m | n <= m < r :: f(m) in used
    ensures f(r) !in used || r == n + fuel
    decreases fuel
  {
    if fuel == 0 || f(n) !in used then n else FirstOutside(f, used, n + 1, fuel - 1)
  }

  /** The images of `n` up to but excluding `n + k`. */
  function Image<T>(f: nat -> T, n: nat, k: nat): set<T>
    decreases k
  {
    if k == 0 then {} else Image(f, n, k - 1) + {f(n + k - 1)}
  }

  /** `f` gives different values to different numbers from `n` up to but excluding `n + k`. */
  ghost predicate InjectiveFrom<T>(f: nat -> T, n: nat, k: nat) {
    forall i: nat, j: nat | n <= i < j < n + k :: f(i) != f(j)
  }

  /** A value that no number of the range maps to is not in its image. */
  lemma {:induction false} ImageAvoids<T>(f: nat -> T, n: nat, k: nat, x: T)
    requires forall m: nat | n <= m < n + k :: f(m) != x
    ensures x !in Image(f, n, k)
    decreases k
  {
    if k > 0 {
      ImageAvoids(f, n, k - 1, x);
    }
  }

  /** The image of a range every number of which maps into `used` lies within `used`. */
  lemma {:induction false} ImageWithin<T>(f: nat -> T, n: nat, k: nat, used: set<T>)
    requires forall m: nat | n <= m < n + k :: f(m) in used
    ensures Image(f, n, k) <= used
    decreases k
  {
    if k > 0 {
      ImageWithin(f, n, k - 1, used);
    }
  }

  lemma {:induction false} ImageCount<T>(f: nat -> T, n: nat, k: nat)
    requires InjectiveFrom(f, n, k)
    ensures |Image(f, n, k)| == k
    decreases k
  {
    if k > 0 {
      var k' := k - 1;
      assert InjectiveFrom(f, n, k');
      ImageCount(f, n, k');
      ImageAvoids(f, n, k', f(n + k'));
    }
  }

  /** A subset has no more elements than its superset. */
  lemma SubsetCount<T>(a: set<T>, b: set<T>)
    requires a <= b
    ensures |a| <= |b|
  {
    assert b == a + (b - a);
  }

  /** An injective `f` maps some `m` among the `|used| + 1` values from `n` on outside `used`. */
  lemma FirstOutsideFound<T>(f: nat -> T, used: set<T>, n: nat)
    requires forall i: nat, j: nat | n <= i < j <= n + |used| :: f(i) != f(j)
    ensures f(FirstOutside(f, used, n, |used|)) !in used
  {
    var r := FirstOutside(f, used, n, |used|);
    if f(r) in used {
      var image := Image(f, n, |used| + 1);
      ImageWithin(f, n, |used| + 1, used);
      assert InjectiveFrom(f, n, |used| + 1);
      ImageCount(f, n, |used| + 1);
      SubsetCount(image, used);
      assert false;
    }
  }

  /** `Collectors.groupingBy(key, mapping(value, toList()))`, one element at a time. */
  function GroupBy<T, K(==), V>(rows: seq<T>, key: T -> K, value: T -> V): map<K, seq<V>>
    decreases |rows|
  {
    if rows == [] then map[]
    else
      var m := GroupBy(rows[..|rows| - 1], key, value);
      var x := rows[|rows| - 1];
      m[key(x) := (if key(x) in m then m[key(x)] else []) + [value(x)]]
  }

  function KeyIs<T, K(==)>(key: T -> K, k: K): T -> bool {
    (x: T) => key(x) == k
  }

  /** The keys of the grouping are exactly the keys of the elements. */
  lemma {:induction false} GroupByKeys<T, K, V>(rows: seq<T>, key: T -> K, value: T -> V)
    ensures forall k :: k in GroupBy(rows, key, value) <==> exists i | 0 <= i < |rows| :: key(rows[i]) == k
    decreases |rows|
  {
    if rows != [] {
      var init := rows[..|rows| - 1];
      GroupByKeys(init, key, value);
      forall k
        ensures k in GroupBy(rows, key, value) <==> exists i | 0 <= i < |rows| :: key(rows[i]) == k
      {
        if exists i | 0 <= i < |rows| :: key(rows[i]) == k {
          var i :| 0 <= i < |rows| && key(rows[i]) == k;
          if i < |init| {
            assert init[i] == rows[i];
          }
        }
        if k in GroupBy(init, key, value) {
          var i :| 0 <= i < |init| && key(init[i]) == k;
          assert rows[i] == init[i];
        }
      }
    }
  }

  /** Every element's value is in the group of its key. */
  lemma {:induction false} GroupHas<T, K, V>(rows: seq<T>, key: T -> K, value: T -> V, i: nat)
    requires i < |rows|
    ensures key(rows[i]) in GroupBy(rows, key, value)
    ensures value(rows[i]) in GroupBy(rows, key, value)[key(rows[i])]
    decreases |rows|
  {
    var init, x := rows[..|rows| - 1], rows[|rows| - 1];
    var m := GroupBy(init, key, value);
    var before := if key(x) in m then m[key(x)] else [];
    assert GroupBy(rows, key, value) == m[key(x) := before + [value(x)]];
    if i < |rows| - 1 {
      assert init[i] == rows[i];
      GroupHas(init, key, value, i);
    }
  }

  /** Each group lists, in order, the values of exactly the elements with that key. */
  lemma {:induction false} GroupByGroups<T, K, V>(rows: seq<T>, key: T -> K, value: T -> V)
    ensures forall k | k in GroupBy(rows, key, value) :: GroupBy(rows, key, value)[k] == MapAll(Filter(rows, KeyIs(key, k)), value)
    decreases |rows|
  {
    if rows != [] {
      var init, x := rows[..|rows| - 1], rows[|rows| - 1];
      GroupByGroups(init, key, value);
      GroupByKeys(init, key, value);
      var m, g := GroupBy(init, key, value), GroupBy(rows, key, value);
      forall k | k in g
        ensures g[k] == MapAll(Filter(rows, KeyIs(key, k)), value)
      {
        var before := Filter(init, KeyIs(key, k));
        if k == key(x) {
          if k !in m {
            forall y | y in init
              ensures !KeyIs(key, k)(y)
            {
              var i :| 0 <= i < |init| && init[i] == y;
            }
            FilterNone(init, KeyIs(key, k));
          }
          var after := before + [x];
          assert Filter(rows, KeyIs(key, k)) == after;
          assert after[..|after| - 1] == before;
        } else {
          assert Filter(rows, KeyIs(key, k)) == before;
        }
      }
    }
  }
}
