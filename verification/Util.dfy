/** Shared vocabulary: optional values, results, sums over sequences and stable sorting. */
module Util {

  datatype Option<+T> = None | Some(value: T)

  datatype Result<+T, +E> = Ok(value: T) | Err(error: E)

  function Abs(x: int): nat { if x < 0 then -x else x }

  // ---------------------------------------------------------------- sums

  function SumBy<T>(s: seq<T>, f: T -> int): int {
    if s == [] then 0 else SumBy(s[..|s| - 1], f) + f(s[|s| - 1])
  }

  lemma SumAppend<T>(s: seq<T>, x: T, f: T -> int)
    ensures SumBy(s + [x], f) == SumBy(s, f) + f(x)
  {
    assert (s + [x])[..|s|] == s;
  }

  lemma {:induction false} SumConcat<T>(s: seq<T>, t: seq<T>, f: T -> int)
    ensures SumBy(s + t, f) == SumBy(s, f) + SumBy(t, f)
  {
    if t == [] {
      assert s + t == s;
    } else {
      var init := t[..|t| - 1];
      SumConcat(s, init, f);
      assert s + t == (s + init) + [t[|t| - 1]];
      SumAppend(s + init, t[|t| - 1], f);
    }
  }

  /** If h is f + g on every element, then so are the sums. */
  lemma {:induction false} SumPlus<T>(s: seq<T>, f: T -> int, g: T -> int, h: T -> int)
    requires forall x :: x in s ==> h(x) == f(x) + g(x)
    ensures SumBy(s, h) == SumBy(s, f) + SumBy(s, g)
  {
    if s != [] {
      SumPlus(s[..|s| - 1], f, g, h);
    }
  }

  lemma {:induction false} SumCongruent<T>(s: seq<T>, f: T -> int, g: T -> int)
    requires forall x :: x in s ==> f(x) == g(x)
    ensures SumBy(s, f) == SumBy(s, g)
  {
    if s != [] {
      SumCongruent(s[..|s| - 1], f, g);
    }
  }

  lemma {:induction false} SumNegated<T>(s: seq<T>, f: T -> int, g: T -> int)
    requires forall x :: x in s ==> f(x) == -g(x)
    ensures SumBy(s, f) == -SumBy(s, g)
  {
    if s != [] {
      SumNegated(s[..|s| - 1], f, g);
    }
  }

  lemma {:induction false} SumZero<T>(s: seq<T>, f: T -> int)
    requires forall x :: x in s ==> f(x) == 0
    ensures SumBy(s, f) == 0
  {
    if s != [] {
      SumZero(s[..|s| - 1], f);
    }
  }

  lemma {:induction false} SumMonotone<T>(s: seq<T>, f: T -> int, g: T -> int)
    requires forall x :: x in s ==> f(x) <= g(x)
    ensures SumBy(s, f) <= SumBy(s, g)
  {
    if s != [] {
      SumMonotone(s[..|s| - 1], f, g);
    }
  }

  /** Every term within [-bound, bound] keeps the sum within bound times the length. */
  lemma {:induction false} SumBounded<T>(s: seq<T>, f: T -> int, bound: int)
    requires 0 <= bound
    requires forall x :: x in s ==> -bound <= f(x) <= bound
    ensures -(bound * |s|) <= SumBy(s, f) <= bound * |s|
  {
    if s != [] {
      SumBounded(s[..|s| - 1], f, bound);
      assert bound * |s| == bound * (|s| - 1) + bound;
    }
  }

  lemma {:induction false} SumRemove<T>(s: seq<T>, i: nat, f: T -> int)
    requires i < |s|
    ensures SumBy(s, f) == SumBy(s[..i] + s[i + 1..], f) + f(s[i])
  {
    SumConcat(s[..i], s[i + 1..], f);
    SumConcat(s[..i + 1], s[i + 1..], f);
    SumAppend(s[..i], s[i], f);
    assert s[..i] + [s[i]] == s[..i + 1];
    assert s[..i + 1] + s[i + 1..] == s;
  }

  lemma RemoveFromMultiset<T>(s: seq<T>, i: nat)
    requires i < |s|
    ensures multiset(s[..i] + s[i + 1..]) == multiset(s) - multiset{s[i]}
  {
    assert s == s[..i] + ([s[i]] + s[i + 1..]);
  }

  /** A sum does not depend on the order of its terms. */
  lemma {:induction false} SumPermutation<T>(s: seq<T>, t: seq<T>, f: T -> int)
    requires multiset(s) == multiset(t)
    ensures SumBy(s, f) == SumBy(t, f)
  {
    if s == [] {
      assert |multiset(t)| == 0;
    } else {
      var n := |s| - 1;
      assert s[n] in multiset(t);
      var i :| 0 <= i < |t| && t[i] == s[n];
      RemoveFromMultiset(s, n);
      RemoveFromMultiset(t, i);
      assert s[..n] + s[n + 1..] == s[..n];
      SumPermutation(s[..n], t[..i] + t[i + 1..], f);
      SumRemove(t, i, f);
    }
  }

  lemma InitAndLast<T>(s: seq<T>)
    requires s != []
    ensures s == s[..|s| - 1] + [s[|s| - 1]]
  {
  }

  lemma Appended<T>(s: seq<T>, x: T)
    ensures var t := s + [x]; t[..|t| - 1] == s && t[|t| - 1] == x
  {
  }

  // ------------------------------------------------- mapping and filtering

  function Map<S, T>(s: seq<S>, f: S -> T): (r: seq<T>)
    ensures |r| == |s|
    ensures forall i :: 0 <= i < |s| ==> r[i] == f(s[i])
  {
    seq(|s|, i requires 0 <= i < |s| => f(s[i]))
  }

  lemma InMap<S(!new), T(!new)>(s: seq<S>, f: S -> T, y: T)
    ensures y in Map(s, f) <==> exists x :: x in s && f(x) == y
  {
    var m := Map(s, f);
    if y in m {
      var i :| 0 <= i < |m| && m[i] == y;
      assert s[i] in s;
    }
    if x :| x in s && f(x) == y {
      var i :| 0 <= i < |s| && s[i] == x;
      assert m[i] == y;
    }
  }

  lemma {:induction false} SumMap<S, T>(s: seq<S>, f: S -> T, g: T -> int, h: S -> int)
    requires forall x :: x in s ==> h(x) == g(f(x))
    ensures SumBy(Map(s, f), g) == SumBy(s, h)
  {
    if s != [] {
      var init := s[..|s| - 1];
      SumMap(init, f, g, h);
      assert Map(s, f)[..|s| - 1] == Map(init, f);
    }
  }

  function Filter<T(!new)>(s: seq<T>, p: T -> bool): (r: seq<T>)
    ensures forall x :: x in r <==> x in s && p(x)
    ensures |r| <= |s|
  {
    if s == [] then [] else
      var last := s[|s| - 1];
      Filter(s[..|s| - 1], p) + if p(last) then [last] else []
  }

  lemma FilterAppend<T(!new)>(s: seq<T>, x: T, p: T -> bool)
    ensures p(x) ==> Filter(s + [x], p) == Filter(s, p) + [x]
    ensures !p(x) ==> Filter(s + [x], p) == Filter(s, p)
  {
    assert (s + [x])[..|s|] == s;
  }

  lemma {:induction false} FilterSame<T(!new)>(s: seq<T>, p: T -> bool, q: T -> bool)
    requires forall x :: x in s ==> p(x) == q(x)
    ensures Filter(s, p) == Filter(s, q)
  {
    if s != [] {
      FilterSame(s[..|s| - 1], p, q);
    }
  }

  lemma {:induction false} FilterAll<T(!new)>(s: seq<T>, p: T -> bool)
    requires forall x :: x in s ==> p(x)
    ensures Filter(s, p) == s
  {
    if s != [] {
      FilterAll(s[..|s| - 1], p);
      InitAndLast(s);
      FilterAppend(s[..|s| - 1], s[|s| - 1], p);
    }
  }

  lemma {:induction false} FilterTwice<T(!new)>(s: seq<T>, p: T -> bool, q: T -> bool, both: T -> bool)
    requires forall x :: x in s ==> both(x) == (p(x) && q(x))
    ensures Filter(Filter(s, p), q) == Filter(s, both)
  {
    if s != [] {
      var init, last := s[..|s| - 1], s[|s| - 1];
      FilterTwice(init, p, q, both);
      InitAndLast(s);
      FilterAppend(init, last, p);
      FilterAppend(init, last, both);
      FilterAppend(Filter(init, p), last, q);
    }
  }

  /** Summing a filtered sequence is summing with the rejected terms read as zero. */
  lemma {:induction false} SumFilter<T(!new)>(s: seq<T>, p: T -> bool, f: T -> int, g: T -> int)
    requires forall x :: x in s ==> g(x) == if p(x) then f(x) else 0
    ensures SumBy(Filter(s, p), f) == SumBy(s, g)
  {
    if s != [] {
      var init, last := s[..|s| - 1], s[|s| - 1];
      SumFilter(init, p, f, g);
      if p(last) {
        SumAppend(Filter(init, p), last, f);
      } else {
        assert Filter(s, p) == Filter(init, p);
      }
    }
  }

  function Range(n: nat): (r: seq<nat>)
    ensures |r| == n
    ensures forall i :: 0 <= i < n ==> r[i] == i
  {
    seq(n, i requires 0 <= i < n => i)
  }

  lemma RangeStep(n: nat)
    ensures Range(n + 1) == Range(n) + [n]
    ensures Range(n + 1)[..n] == Range(n)
  {
  }

  ghost predicate NoDuplicates<T(!new)>(s: seq<T>) {
    forall i, j :: 0 <= i < j < |s| ==> s[i] != s[j]
  }

  /** Duplicate-free sequences with the same elements are permutations of each other. */
  lemma SameElementsPermute<T(!new)>(s: seq<T>, t: seq<T>)
    requires NoDuplicates(s) && NoDuplicates(t)
    requires forall x :: x in s <==> x in t
    ensures multiset(s) == multiset(t)
  {
    forall x: T ensures multiset(s)[x] == multiset(t)[x] {
      AtMostOnce(s, x);
      AtMostOnce(t, x);
    }
  }

  lemma {:induction false} AtMostOnce<T(!new)>(s: seq<T>, x: T)
    requires NoDuplicates(s)
    ensures multiset(s)[x] == if x in s then 1 else 0
  {
    if s != [] {
      var init := s[..|s| - 1];
      assert s == init + [s[|s| - 1]];
      AtMostOnce(init, x);
    }
  }

  // -------------------------------------------------------------- sorting

  ghost predicate TotalPreorder<T(!new)>(le: (T, T) -> bool) {
    && (forall x, y :: le(x, y) || le(y, x))
    && (forall x, y, z :: le(x, y) && le(y, z) ==> le(x, z))
  }

  ghost predicate Sorted<T>(s: seq<T>, le: (T, T) -> bool) {
    forall i, j :: 0 <= i < j < |s| ==> le(s[i], s[j])
  }

  /** Places x after every element that may stay before it, so equal elements keep their order. */
  function Insert<T>(s: seq<T>, x: T, le: (T, T) -> bool): seq<T> {
    if s == [] || le(s[|s| - 1], x) then s + [x]
    else Insert(s[..|s| - 1], x, le) + [s[|s| - 1]]
  }

  /** A stable sort: the contract of Python's `sorted` and of SQL's ORDER BY with a tie-break on insertion. */
  function Sort<T>(s: seq<T>, le: (T, T) -> bool): seq<T> {
    if s == [] then [] else Insert(Sort(s[..|s| - 1], le), s[|s| - 1], le)
  }

  lemma {:induction false} InsertPermutes<T(!new)>(s: seq<T>, x: T, le: (T, T) -> bool)
    ensures multiset(Insert(s, x, le)) == multiset(s) + multiset{x}
    ensures forall y :: y in Insert(s, x, le) <==> y in s || y == x
    ensures |Insert(s, x, le)| == |s| + 1
  {
    if s != [] && !le(s[|s| - 1], x) {
      InsertPermutes(s[..|s| - 1], x, le);
      assert s == s[..|s| - 1] + [s[|s| - 1]];
    }
  }

  lemma {:induction false} InsertKeepsSorted<T(!new)>(s: seq<T>, x: T, le: (T, T) -> bool)
    requires TotalPreorder(le) && Sorted(s, le)
    ensures Sorted(Insert(s, x, le), le)
  {
    if s == [] {
    } else if le(s[|s| - 1], x) {
      SortedSnoc(s, x, le);
    } else {
      var init, last := s[..|s| - 1], s[|s| - 1];
      InsertKeepsSorted(init, x, le);
      InsertPermutes(init, x, le);
      var r := Insert(init, x, le);
      forall y | y in r ensures le(y, last) {
        if y != x {
          var i :| 0 <= i < |init| && init[i] == y;
          assert s[i] == y;
        }
      }
      assert le(r[|r| - 1], last);
      SortedSnoc(r, last, le);
    }
  }

  lemma SortedSnoc<T(!new)>(s: seq<T>, x: T, le: (T, T) -> bool)
    requires TotalPreorder(le) && Sorted(s, le) && s != [] && le(s[|s| - 1], x)
    ensures Sorted(s + [x], le)
  {
    var last := s[|s| - 1];
    forall i | 0 <= i < |s| ensures le(s[i], x) {
      if i < |s| - 1 {
        assert le(s[i], last) && le(last, x);
      }
    }
  }

  lemma {:induction false} SortFacts<T(!new)>(s: seq<T>, le: (T, T) -> bool)
    requires TotalPreorder(le)
    ensures Sorted(Sort(s, le), le)
    ensures multiset(Sort(s, le)) == multiset(s)
    ensures |Sort(s, le)| == |s|
    ensures forall x :: x in Sort(s, le) <==> x in s
  {
    if s != [] {
      var init, last := s[..|s| - 1], s[|s| - 1];
      SortFacts(init, le);
      InsertKeepsSorted(Sort(init, le), last, le);
      InsertPermutes(Sort(init, le), last, le);
      assert s == init + [last];
    }
    assert |multiset(s)| == |s| && |multiset(Sort(s, le))| == |Sort(s, le)|;
    assert forall x :: x in Sort(s, le) <==> x in multiset(Sort(s, le));
  }

  /** Elements that compare equal to x keep the order in which they came. */
  lemma {:induction false} SortIsStable<T(!new)>(s: seq<T>, x: T, le: (T, T) -> bool)
    requires TotalPreorder(le)
    ensures Filter(Sort(s, le), Ties(x, le)) == Filter(s, Ties(x, le))
  {
    if s != [] {
      var init, y := s[..|s| - 1], s[|s| - 1];
      SortIsStable(init, x, le);
      forall a | Ties(x, le)(a) && Ties(x, le)(y) ensures le(a, y) {
        assert le(a, x) && le(x, y);
      }
      StableStep(Sort(init, le), init, y, Ties(x, le), le);
      assert s == init + [y];
    }
  }

  lemma StableStep<T(!new)>(sorted: seq<T>, s: seq<T>, y: T, p: T -> bool, le: (T, T) -> bool)
    requires Filter(sorted, p) == Filter(s, p) && forall a :: p(a) && p(y) ==> le(a, y)
    ensures Filter(Insert(sorted, y, le), p) == Filter(s + [y], p)
  {
    InsertIsStable(sorted, y, p, le);
    FilterAppend(sorted, y, p);
    FilterAppend(s, y, p);
  }

  function Ties<T>(x: T, le: (T, T) -> bool): T -> bool {
    y => le(x, y) && le(y, x)
  }

  /** Inserting y moves it only past elements that are not selected together with it. */
  lemma {:induction false} InsertIsStable<T(!new)>(s: seq<T>, y: T, p: T -> bool, le: (T, T) -> bool)
    requires forall a :: p(a) && p(y) ==> le(a, y)
    ensures Filter(Insert(s, y, le), p) == Filter(s + [y], p)
  {
    if s != [] && !le(s[|s| - 1], y) {
      var init, last := s[..|s| - 1], s[|s| - 1];
      InsertIsStable(init, y, p, le);
      SwapIn(Insert(init, y, le), init, last, y, p);
      InitAndLast(s);
    }
  }

  lemma SwapIn<T(!new)>(inserted: seq<T>, init: seq<T>, last: T, y: T, p: T -> bool)
    requires Filter(inserted, p) == Filter(init + [y], p) && !(p(last) && p(y))
    ensures Filter(inserted + [last], p) == Filter(init + [last] + [y], p)
  {
    FilterAppend(inserted, last, p);
    FilterSwap(init, last, y, p);
  }

  /** Two last elements that are not both selected may change places. */
  lemma FilterSwap<T(!new)>(s: seq<T>, x: T, y: T, p: T -> bool)
    requires !(p(x) && p(y))
    ensures p(x) ==> Filter(s + [y], p) + [x] == Filter(s + [x] + [y], p)
    ensures !p(x) ==> Filter(s + [y], p) == Filter(s + [x] + [y], p)
  {
    FilterAppend(s, y, p);
    FilterAppend(s, x, p);
    FilterAppend(s + [x], y, p);
  }

  lemma SortKeepsDistinct<T(!new)>(s: seq<T>, le: (T, T) -> bool)
    requires TotalPreorder(le) && NoDuplicates(s)
    ensures NoDuplicates(Sort(s, le))
  {
    var t := Sort(s, le);
    SortFacts(s, le);
    forall i, j | 0 <= i < j < |t| ensures t[i] != t[j] {
      AtMostOnce(s, t[j]);
      if t[i] == t[j] {
        TwiceInMultiset(t, i, j);
      }
    }
  }

  lemma TwiceInMultiset<T>(t: seq<T>, i: nat, j: nat)
    requires i < j < |t| && t[i] == t[j]
    ensures multiset(t)[t[j]] >= 2
  {
    assert t == t[..j] + ([t[j]] + t[j + 1..]);
    assert t[..j][i] == t[j];
    assert multiset(t[..j])[t[j]] >= 1;
  }

  // ------------------------------------------------------------- grouping

  /** The first occurrences, in order: the keys of a dictionary filled from s. */
  function Distinct<K(==)>(s: seq<K>): seq<K> {
    if s == [] then []
    else AddKey(Distinct(s[..|s| - 1]), s[|s| - 1])
  }

  /** Python's setdefault on a dictionary, as far as its keys and their order go. */
  function AddKey<K(==)>(keys: seq<K>, k: K): seq<K> {
    if k in keys then keys else keys + [k]
  }

  lemma {:induction false} DistinctFacts<K(!new)>(s: seq<K>)
    ensures NoDuplicates(Distinct(s))
    ensures forall k :: k in Distinct(s) <==> k in s
  {
    if s != [] {
      DistinctFacts(s[..|s| - 1]);
    }
  }

  function HasKey<T, K(==)>(key: T -> K, k: K): T -> bool { x => key(x) == k }

  lemma DistinctAppend<T, K>(s: seq<T>, x: T, key: T -> K)
    ensures Distinct(Map(s + [x], key)) == AddKey(Distinct(Map(s, key)), key(x))
  {
    assert Map(s + [x], key)[..|s|] == Map(s, key);
  }

  /** A key that has not occurred selects nothing yet. */
  lemma NewKeyIsNew<T(!new), K(!new)>(s: seq<T>, k: K, key: T -> K)
    ensures k !in Distinct(Map(s, key)) ==> Filter(s, HasKey(key, k)) == []
  {
    DistinctFacts(Map(s, key));
    if Filter(s, HasKey(key, k)) != [] {
      var x := Filter(s, HasKey(key, k))[0];
      assert x in Filter(s, HasKey(key, k));
      var i :| 0 <= i < |s| && s[i] == x;
      assert Map(s, key)[i] == k;
    }
  }

  function GroupSum<T(!new), K(==)>(s: seq<T>, key: T -> K, f: T -> int): K -> int {
    (k: K) => SumBy(Filter(s, HasKey(key, k)), f)
  }

  function Delta<K(==)>(at: K, value: int): K -> int { (k: K) => if k == at then value else 0 }

  lemma {:induction false} SumDelta<K(!new)>(keys: seq<K>, at: K, value: int)
    requires NoDuplicates(keys)
    ensures SumBy(keys, Delta(at, value)) == if at in keys then value else 0
  {
    if keys != [] {
      SumDelta(keys[..|keys| - 1], at, value);
    }
  }

  /** Summing group by group is summing: every element is in exactly one group. */
  lemma {:induction false} PartitionSum<T(!new), K(!new)>(s: seq<T>, key: T -> K, keys: seq<K>, f: T -> int)
    requires NoDuplicates(keys) && forall x :: x in s ==> key(x) in keys
    ensures SumBy(keys, GroupSum(s, key, f)) == SumBy(s, f)
  {
    if s == [] {
      SumZero(keys, GroupSum(s, key, f));
    } else {
      var init, x := s[..|s| - 1], s[|s| - 1];
      PartitionSum(init, key, keys, f);
      forall k | k in keys ensures GroupSum(s, key, f)(k) == GroupSum(init, key, f)(k) + Delta(key(x), f(x))(k) {
        if key(x) == k {
          SumAppend(Filter(init, HasKey(key, k)), x, f);
        } else {
          assert Filter(s, HasKey(key, k)) == Filter(init, HasKey(key, k));
        }
      }
      SumPlus(keys, GroupSum(init, key, f), Delta(key(x), f(x)), GroupSum(s, key, f));
      SumDelta(keys, key(x), f(x));
    }
  }
}
