/** Helpers shared by the query and view modules: an optional value, the
    list operations the graph queries are built from (`collect(DISTINCT …)`,
    list slicing / `LIMIT`, `ORDER BY … DESC`). */
module Common {

  datatype Option<T> = None | Some(value: T) {
    /** The value, or `d` when absent (Cypher's `coalesce`, JavaScript's `??`). */
    function GetOr(d: T): T {
      if Some? then value else d
    }
  }

  /** The outcome of an HTTP handler: a 400, a 404, or a 200 with a body. */
  datatype Reply<T> = BadRequest | NotFound | Ok(body: T)

  predicate NoDups<T(==)>(s: seq<T>) {
    forall i, j :: 0 <= i < j < |s| ==> s[i] != s[j]
  }

  /** The elements of `s` in order of first occurrence, each once. */
  function Distinct<T(==)>(s: seq<T>): (r: seq<T>)
    ensures NoDups(r)
    ensures forall i :: 0 <= i < |s| ==> s[i] in r
    ensures forall i :: 0 <= i < |r| ==> r[i] in s
    ensures |r| <= |s|
  {
    if s == [] then []
    else
      var prefix := Distinct(s[..|s| - 1]);
      assert forall i :: 0 <= i < |s| - 1 ==> s[i] == s[..|s| - 1][i];
      if s[|s| - 1] in prefix then prefix else prefix + [s[|s| - 1]]
  }

  /** Distinct of a list that already has no duplicates is the list itself. */
  lemma {:induction false} DistinctOfNoDups<T>(s: seq<T>)
    requires NoDups(s)
    ensures Distinct(s) == s
  {
    if s != [] {
      DistinctOfNoDups(s[..|s| - 1]);
    }
  }

  /** Distinct distributes over concatenation: the second part contributes
      only what the first did not already hold. */
  lemma {:induction false} DistinctAppend<T>(s: seq<T>, x: T)
    ensures Distinct(s + [x]) == if x in Distinct(s) then Distinct(s) else Distinct(s) + [x]
  {
    assert (s + [x])[..|s + [x]| - 1] == s;
  }

  /** Storing back the value a key already has leaves the map unchanged. */
  lemma UpdateSame<K, V>(m: map<K, V>, k: K)
    requires k in m
    ensures m[k := m[k]] == m
  {
  }

  /** The first `n` elements of `s` (all of them when `s` is shorter):
      Cypher's `list[0..n]` and `LIMIT n`, JavaScript's `slice(0, n)`. */
  function Take<T>(s: seq<T>, n: nat): (r: seq<T>)
    ensures |r| == if n <= |s| then n else |s|
    ensures r == s[..|r|]
  {
    if n <= |s| then s[..n] else s
  }

  /** An element of `s` is kept by `Take(s, n)` unless `n` elements were kept. */
  lemma TakeIn<T>(s: seq<T>, n: nat, x: T)
    requires x in s
    ensures x in Take(s, n) || |Take(s, n)| == n
  {
  }

  lemma TakeNoDups<T>(s: seq<T>, n: nat)
    requires NoDups(s)
    ensures NoDups(Take(s, n))
  {
  }

  /** A sort key compared lexicographically; a larger key sorts first. */
  datatype Rank = Rank(major: int, minor: int)

  predicate Above(a: Rank, b: Rank) {
    a.major > b.major || (a.major == b.major && a.minor > b.minor)
  }

  /** No element ranks strictly above an element before it. */
  predicate SortedDesc<T>(s: seq<T>, key: T -> Rank) {
    forall i, j :: 0 <= i < j < |s| ==> !Above(key(s[j]), key(s[i]))
  }

  /** No element of `s` ranks strictly above `b`. */
  predicate AllAtMost<T>(s: seq<T>, key: T -> Rank, b: Rank) {
    forall i :: 0 <= i < |s| ==> !Above(key(s[i]), b)
  }

  /** Places `x` before the first element that does not rank strictly above it. */
  function Insert<T>(x: T, s: seq<T>, key: T -> Rank): (r: seq<T>)
    ensures multiset(r) == multiset(s) + multiset{x}
    ensures |r| == |s| + 1
  {
    if s == [] || !Above(key(s[0]), key(x)) then
      [x] + s
    else
      assert s == [s[0]] + s[1..];
      [s[0]] + Insert(x, s[1..], key)
  }

  /** Inserting an element that ranks at most `b` into a list whose elements
      all rank at most `b` keeps that bound. */
  lemma {:induction false} InsertAtMost<T>(x: T, s: seq<T>, key: T -> Rank, b: Rank)
    requires AllAtMost(s, key, b) && !Above(key(x), b)
    ensures AllAtMost(Insert(x, s, key), key, b)
  {
    if s != [] && Above(key(s[0]), key(x)) {
      InsertAtMost(x, s[1..], key, b);
    }
  }

  /** Inserting into a sorted list keeps it sorted. */
  lemma {:induction false} InsertSorted<T>(x: T, s: seq<T>, key: T -> Rank)
    requires SortedDesc(s, key)
    ensures SortedDesc(Insert(x, s, key), key)
  {
    if s != [] && Above(key(s[0]), key(x)) {
      InsertSorted(x, s[1..], key);
      assert AllAtMost(s[1..], key, key(s[0]));
      InsertAtMost(x, s[1..], key, key(s[0]));
    }
  }

  /** A stable sort into descending `key` order (equal keys keep their input
      order): Cypher's `ORDER BY … DESC`, JavaScript's stable `Array.sort`. */
  function SortDesc<T>(s: seq<T>, key: T -> Rank): (r: seq<T>)
    ensures multiset(r) == multiset(s)
    ensures |r| == |s|
    ensures SortedDesc(r, key)
  {
    if s == [] then []
    else
      assert s == [s[0]] + s[1..];
      var rest := SortDesc(s[1..], key);
      InsertSorted(s[0], rest, key);
      Insert(s[0], rest, key)
  }

  /** Keeping `n` elements of a descending sort keeps the top `n`: an element
      left out ranks no higher than any element kept. */
  lemma SortTakeTop<T>(s: seq<T>, key: T -> Rank, n: nat, x: T)
    requires x in s && x !in Take(SortDesc(s, key), n)
    ensures forall y :: y in Take(SortDesc(s, key), n) ==> !Above(key(x), key(y))
  {
    var r := SortDesc(s, key);
    var t := Take(r, n);
    assert x in multiset(s);
    assert x in multiset(r);
    var i :| 0 <= i < |r| && r[i] == x;
    assert forall k :: 0 <= k < |t| ==> t[k] == r[k] && t[k] in t;
    assert i >= |t|;
    forall y | y in t
      ensures !Above(key(x), key(y))
    {
      var j :| 0 <= j < |t| && t[j] == y;
      assert r[j] == y;
    }
  }

  /** `ORDER BY … DESC LIMIT n`: the kept elements are sorted, at most `n`,
      drawn from `s`, and an element of `s` left out ranks no higher than any
      kept one, which happens only when `n` were kept. */
  lemma TopN<T>(s: seq<T>, key: T -> Rank, n: nat)
    ensures var r := Take(SortDesc(s, key), n);
      SortedDesc(r, key) && |r| <= n &&
      (forall y :: y in r ==> y in s) &&
      (forall x :: x in s ==> x in r || (|r| == n && forall y :: y in r ==> !Above(key(x), key(y))))
  {
    var sorted := SortDesc(s, key);
    var r := Take(sorted, n);
    forall y | y in r
      ensures y in s
    {
      assert y in multiset(sorted);
    }
    forall x | x in s && x !in r
      ensures |r| == n && forall y :: y in r ==> !Above(key(x), key(y))
    {
      assert x in multiset(sorted);
      TakeIn(sorted, n, x);
      SortTakeTop(s, key, n, x);
    }
  }

  /** The elements of `s` that satisfy `p`, in order. */
  function Filter<T(!new)>(s: seq<T>, p: T -> bool): (r: seq<T>)
    ensures |r| <= |s|
    ensures forall x :: x in r <==> x in s && p(x)
    ensures (forall x :: x in s ==> !p(x)) ==> r == []
  {
    if s == [] then []
    else (if p(s[0]) then [s[0]] else []) + Filter(s[1..], p)
  }

  /** Two lists without duplicates and without a common element concatenate
      to a list without duplicates. */
  lemma NoDupsConcat<T>(a: seq<T>, b: seq<T>)
    requires NoDups(a) && NoDups(b)
    requires forall x :: x in a ==> x !in b
    ensures NoDups(a + b)
  {
    var c := a + b;
    forall i, j | 0 <= i < j < |c|
      ensures c[i] != c[j]
    {
      if j < |a| {
        assert c[i] == a[i] && c[j] == a[j];
      } else if i >= |a| {
        assert c[i] == b[i - |a|] && c[j] == b[j - |a|];
      } else {
        assert c[i] == a[i] && a[i] in a;
        assert c[j] == b[j - |a|] && b[j - |a|] in b;
      }
    }
  }

  /** Filtering a list without duplicates keeps it without duplicates. */
  lemma {:induction false} FilterNoDups<T(!new)>(s: seq<T>, p: T -> bool)
    requires NoDups(s)
    ensures NoDups(Filter(s, p))
  {
    if s != [] {
      assert NoDups(s[1..]) by {
        forall i, j | 0 <= i < j < |s[1..]|
          ensures s[1..][i] != s[1..][j]
        {
          assert s[1..][i] == s[i + 1] && s[1..][j] == s[j + 1];
        }
      }
      FilterNoDups(s[1..], p);
      if p(s[0]) {
        assert s[0] !in s[1..] by {
          forall j | 0 <= j < |s[1..]|
            ensures s[1..][j] != s[0]
          {
            assert s[1..][j] == s[j + 1];
          }
        }
        NoDupsConcat([s[0]], Filter(s[1..], p));
      } else {
        assert Filter(s, p) == Filter(s[1..], p);
      }
    }
  }

  /** `f` applied to each element of `s`, in order. */
  function MapSeq<T, U>(s: seq<T>, f: T -> U): (r: seq<U>)
    ensures |r| == |s|
    ensures forall i :: 0 <= i < |s| ==> r[i] == f(s[i])
  {
    if s == [] then [] else [f(s[0])] + MapSeq(s[1..], f)
  }

  /** A non-empty list is its front followed by its last element. */
  lemma LastSplit<T>(s: seq<T>)
    requires s != []
    ensures s == s[..|s| - 1] + [s[|s| - 1]]
  {
  }

  /** Mapping a list with one more element at the end. */
  lemma {:induction false} MapSeqSnoc<T, U>(s: seq<T>, f: T -> U, x: T)
    ensures MapSeq(s + [x], f) == MapSeq(s, f) + [f(x)]
  {
    var r := MapSeq(s + [x], f);
    assert forall i :: 0 <= i < |s| ==> r[i] == f(s[i]);
  }

  lemma MapSeqIn<T, U>(s: seq<T>, f: T -> U, y: U)
    ensures y in MapSeq(s, f) <==> exists x :: x in s && f(x) == y
  {
    var r := MapSeq(s, f);
    if y in r {
      var i :| 0 <= i < |r| && r[i] == y;
      assert s[i] in s;
    }
  }

  function Sum(s: seq<int>): int {
    if s == [] then 0 else s[0] + Sum(s[1..])
  }

  /** `collect(DISTINCT f(x))[0..n]` over the rows `s`: no repeats, at most
      `n` values, each the image of a row, and every row's image kept unless
      the list is full. */
  lemma CollectDistinct<T, U>(s: seq<T>, f: T -> U, n: nat)
    ensures var r := Take(Distinct(MapSeq(s, f)), n);
      NoDups(r) && |r| <= n &&
      (forall y :: y in r ==> exists x :: x in s && f(x) == y) &&
      (forall x :: x in s ==> f(x) in r || |r| == n)
  {
    var ys := MapSeq(s, f);
    var d := Distinct(ys);
    var r := Take(d, n);
    TakeNoDups(d, n);
    forall y | y in r
      ensures exists x :: x in s && f(x) == y
    {
      assert y in d;
      MapSeqIn(s, f, y);
    }
    forall x | x in s
      ensures f(x) in r || |r| == n
    {
      MapSeqIn(s, f, f(x));
      TakeIn(d, n, f(x));
    }
  }

  /** An element occurs at most once in a list without duplicates. */
  lemma {:induction false} NoDupsCount<T>(s: seq<T>, x: T)
    requires NoDups(s)
    ensures multiset(s)[x] <= 1
  {
    if s != [] {
      assert s == [s[0]] + s[1..];
      NoDupsCount(s[1..], x);
      if s[0] == x {
        assert x !in s[1..];
      }
    }
  }

  /** A permutation of a list without duplicates has none. */
  lemma NoDupsPermutation<T>(s: seq<T>, t: seq<T>)
    requires NoDups(s) && multiset(s) == multiset(t)
    ensures NoDups(t)
  {
    forall i, j | 0 <= i < j < |t|
      ensures t[i] != t[j]
    {
      if t[i] == t[j] {
        assert t == t[..j] + t[j..];
        assert t[i] in t[..j] && t[j] in t[j..];
        assert multiset(t)[t[i]] >= 2;
        NoDupsCount(s, t[i]);
      }
    }
  }

  /** `count(DISTINCT x)`: the length of `Distinct(s)` is the number of
      different values in `s`, gathered in the set `vals`. */
  lemma {:induction false} DistinctCard<T>(s: seq<T>, vals: set<T>)
    requires forall x :: x in vals <==> x in s
    ensures |Distinct(s)| == |vals|
  {
    if s != [] {
      var init := s[..|s| - 1];
      var last := s[|s| - 1];
      assert s == init + [last];
      var d := Distinct(init);
      assert last in d <==> last in init by {
        if last in d {
          var i :| 0 <= i < |d| && d[i] == last;
        }
        if last in init {
          var i :| 0 <= i < |init| && init[i] == last;
        }
      }
      if last in init {
        DistinctCard(init, vals);
      } else {
        DistinctCard(init, vals - {last});
        assert vals == (vals - {last}) + {last};
      }
    }
  }

  /** `count(DISTINCT f(x))`: the distinct images of a list number as many
      as the set `images` of its images. */
  lemma DistinctImageCard<T, U>(s: seq<T>, f: T -> U, images: set<U>)
    requires forall y :: y in images <==> exists x :: x in s && f(x) == y
    ensures |Distinct(MapSeq(s, f))| == |images|
  {
    var ys := MapSeq(s, f);
    forall y
      ensures y in ys <==> y in images
    {
      MapSeqIn(s, f, y);
    }
    DistinctCard(ys, images);
  }

  /** Sorting the images of distinct keys under a map `f` that `back`
      inverts: each sorted element is the image of its key, every key's image
      is present, and no key occurs twice. */
  lemma SortedImage<K, V>(ks: seq<K>, f: K -> V, back: V -> K, key: V -> Rank)
    requires NoDups(ks) && forall k :: back(f(k)) == k
    ensures var r := SortDesc(MapSeq(ks, f), key);
      (forall v :: v in r ==> v == f(back(v)) && back(v) in ks) &&
      (forall k :: k in ks ==> f(k) in r) &&
      (forall i, j :: 0 <= i < j < |r| ==> back(r[i]) != back(r[j]))
  {
    var vs := MapSeq(ks, f);
    var r := SortDesc(vs, key);
    forall v | v in r
      ensures v == f(back(v)) && back(v) in ks
    {
      assert v in multiset(r);
      assert v in vs;
      MapSeqIn(ks, f, v);
    }
    forall k | k in ks
      ensures f(k) in r
    {
      MapSeqIn(ks, f, f(k));
      assert f(k) in multiset(vs);
    }
    forall i, j | 0 <= i < j < |vs|
      ensures vs[i] != vs[j]
    {
      assert back(vs[i]) == ks[i] && back(vs[j]) == ks[j];
    }
    NoDupsPermutation(vs, r);
  }
}
