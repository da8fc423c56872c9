/** Reciprocal Rank Fusion of backend/app/rag/hybrid_retriever.py, in exact arithmetic. A search result is the list of
    the chunk ids found, best first. */
module RankFusion {
  import opened Util
  import opened Text

  type Id = string

  /** What position k, counted from 0, contributes: 1 / (60 + rank) with ranks from 1. */
  function Share(k: nat): real { 1.0 / (61 + k) as real }

  /** Shares of the positions at which an id stands in a list. */
  function Contribution(list: seq<Id>, id: Id): real {
    if list == [] then 0.0
    else Contribution(list[..|list| - 1], id) + if list[|list| - 1] == id then Share(|list| - 1) else 0.0
  }

  function FusedScore(dense: seq<Id>, bm25: seq<Id>, id: Id): real { Contribution(dense, id) + Contribution(bm25, id) }

  /** The score dictionary: keys in order of first use, each with its fused score. */
  ghost predicate IsFusion(scores: map<Id, real>, order: seq<Id>, dense: seq<Id>, bm25: seq<Id>) {
    && order == Distinct(dense + bm25)
    && (forall id :: id in scores <==> id in order)
    && (forall id :: id in scores ==> scores[id] == FusedScore(dense, bm25, id))
  }

  function AddShare(scores: map<Id, real>, id: Id, k: nat): map<Id, real> {
    scores[id := (if id in scores then scores[id] else 0.0) + Share(k)]
  }

  method ReciprocalRankFusion(dense: seq<Id>, bm25: seq<Id>) returns (scores: map<Id, real>, order: seq<Id>)
    ensures IsFusion(scores, order, dense, bm25)
  {
    scores, order := map[], [];
    assert dense[..0] + [] == [];
    for rank := 0 to |dense|
      invariant IsFusion(scores, order, dense[..rank], [])
    {
      AddDense(scores, order, dense, rank);
      scores := AddShare(scores, dense[rank], rank);
      order := AddKey(order, dense[rank]);
    }
    assert dense[..|dense|] == dense && bm25[..0] == [];
    for rank := 0 to |bm25|
      invariant IsFusion(scores, order, dense, bm25[..rank])
    {
      AddBm25(scores, order, dense, bm25, rank);
      scores := AddShare(scores, bm25[rank], rank);
      order := AddKey(order, bm25[rank]);
    }
    assert bm25[..|bm25|] == bm25;
  }

  lemma AddDense(scores: map<Id, real>, order: seq<Id>, dense: seq<Id>, k: nat)
    requires k < |dense| && IsFusion(scores, order, dense[..k], [])
    ensures IsFusion(AddShare(scores, dense[k], k), AddKey(order, dense[k]), dense[..k + 1], [])
  {
    assert dense[..k + 1][..k] == dense[..k];
    assert dense[..k] + [] == dense[..k] && dense[..k + 1] + [] == dense[..k + 1];
    UnusedScore(dense[..k], [], dense[k]);
  }

  lemma AddBm25(scores: map<Id, real>, order: seq<Id>, dense: seq<Id>, bm25: seq<Id>, k: nat)
    requires k < |bm25| && IsFusion(scores, order, dense, bm25[..k])
    ensures IsFusion(AddShare(scores, bm25[k], k), AddKey(order, bm25[k]), dense, bm25[..k + 1])
  {
    assert bm25[..k + 1][..k] == bm25[..k];
    assert (dense + bm25[..k + 1])[..|dense| + k] == dense + bm25[..k];
    UnusedScore(dense, bm25[..k], bm25[k]);
  }

  /** An id that no list has found has no score yet. */
  lemma UnusedScore(dense: seq<Id>, bm25: seq<Id>, id: Id)
    ensures id !in Distinct(dense + bm25) ==> FusedScore(dense, bm25, id) == 0.0
  {
    DistinctFacts(dense + bm25);
    if id !in dense + bm25 {
      NoContribution(dense, id);
      NoContribution(bm25, id);
    }
  }

  lemma {:induction false} NoContribution(list: seq<Id>, id: Id)
    requires id !in list
    ensures Contribution(list, id) == 0.0
  {
    if list != [] {
      NoContribution(list[..|list| - 1], id);
    }
  }

  // ---------------------------------------------------------------- ranking

  function HigherFirst(dense: seq<Id>, bm25: seq<Id>): (Id, Id) -> bool {
    (a: Id, b: Id) => FusedScore(dense, bm25, a) >= FusedScore(dense, bm25, b)
  }

  /** All fused ids, best first, ties in the order in which they were found. */
  function Ranking(dense: seq<Id>, bm25: seq<Id>): seq<Id> { Sort(Distinct(dense + bm25), HigherFirst(dense, bm25)) }

  function ScoreHigherFirst(): ((Id, real), (Id, real)) -> bool {
    (x: (Id, real), y: (Id, real)) => x.1 >= y.1
  }

  function FirstOf(pairs: seq<(Id, real)>): seq<Id> {
    if pairs == [] then [] else FirstOf(pairs[..|pairs| - 1]) + [pairs[|pairs| - 1].0]
  }

  ghost predicate Scored(pairs: seq<(Id, real)>, dense: seq<Id>, bm25: seq<Id>) {
    forall i :: 0 <= i < |pairs| ==> pairs[i].1 == FusedScore(dense, bm25, pairs[i].0)
  }

  /** The items of the dictionary, sorted by score and cut to the pool. */
  method RankedIds(dense: seq<Id>, bm25: seq<Id>, pool: nat) returns (ranked: seq<(Id, real)>)
    ensures FirstOf(ranked) == if pool < |Ranking(dense, bm25)| then Ranking(dense, bm25)[..pool] else Ranking(dense, bm25)
    ensures Scored(ranked, dense, bm25)
  {
    var scores, order := ReciprocalRankFusion(dense, bm25);
    var items: seq<(Id, real)> := [];
    for i := 0 to |order|
      invariant FirstOf(items) == order[..i] && Scored(items, dense, bm25)
    {
      assert order[..i + 1] == order[..i] + [order[i]] && order[i] in order;
      FirstOfAppend(items, (order[i], scores[order[i]]));
      items := items + [(order[i], scores[order[i]])];
    }
    assert order[..|order|] == order;
    SortPairs(items, dense, bm25);
    ranked := Sort(items, ScoreHigherFirst());
    FirstOfPrefix(ranked, if pool < |ranked| then pool else |ranked|);
    if pool < |ranked| {
      ranked := ranked[..pool];
    }
  }

  lemma FirstOfAppend(pairs: seq<(Id, real)>, x: (Id, real))
    ensures FirstOf(pairs + [x]) == FirstOf(pairs) + [x.0]
  {
    assert (pairs + [x])[..|pairs|] == pairs;
  }

  lemma {:induction false} FirstOfPrefix(pairs: seq<(Id, real)>, n: nat)
    requires n <= |pairs|
    ensures |FirstOf(pairs)| == |pairs| && FirstOf(pairs[..n]) == FirstOf(pairs)[..n]
  {
    if n < |pairs| {
      FirstOfPrefix(pairs[..|pairs| - 1], n);
      assert pairs[..|pairs| - 1][..n] == pairs[..n];
    } else if pairs != [] {
      FirstOfPrefix(pairs[..|pairs| - 1], |pairs| - 1);
      assert pairs[..n] == pairs && FirstOf(pairs)[..n] == FirstOf(pairs);
    }
  }

  /** Sorting scored ids by their scores is sorting the ids by fused score. */
  lemma {:induction false} SortPairs(pairs: seq<(Id, real)>, dense: seq<Id>, bm25: seq<Id>)
    requires Scored(pairs, dense, bm25)
    ensures FirstOf(Sort(pairs, ScoreHigherFirst())) == Sort(FirstOf(pairs), HigherFirst(dense, bm25))
    ensures Scored(Sort(pairs, ScoreHigherFirst()), dense, bm25)
  {
    if pairs != [] {
      var init := pairs[..|pairs| - 1];
      SortPairs(init, dense, bm25);
      InsertPair(Sort(init, ScoreHigherFirst()), pairs[|pairs| - 1], dense, bm25);
      assert FirstOf(pairs)[..|FirstOf(pairs)| - 1] == FirstOf(init);
    }
  }

  lemma {:induction false} InsertPair(pairs: seq<(Id, real)>, x: (Id, real), dense: seq<Id>, bm25: seq<Id>)
    requires Scored(pairs, dense, bm25) && x.1 == FusedScore(dense, bm25, x.0)
    ensures FirstOf(Insert(pairs, x, ScoreHigherFirst())) == Insert(FirstOf(pairs), x.0, HigherFirst(dense, bm25))
    ensures Scored(Insert(pairs, x, ScoreHigherFirst()), dense, bm25)
  {
    if pairs == [] || ScoreHigherFirst()(pairs[|pairs| - 1], x) {
      FirstOfAppend(pairs, x);
    } else {
      var init, last := pairs[..|pairs| - 1], pairs[|pairs| - 1];
      InsertPair(init, x, dense, bm25);
      FirstOfAppend(Insert(init, x, ScoreHigherFirst()), last);
      assert FirstOf(pairs)[..|FirstOf(pairs)| - 1] == FirstOf(init);
    }
  }

  // ------------------------------------------------------------- what it ranks

  /** The fused ids are exactly those either search found, each once, by non-increasing score. */
  lemma RankingIsUnion(dense: seq<Id>, bm25: seq<Id>)
    ensures forall id :: id in Ranking(dense, bm25) <==> id in dense || id in bm25
    ensures NoDuplicates(Ranking(dense, bm25))
    ensures Sorted(Ranking(dense, bm25), HigherFirst(dense, bm25))
  {
    DistinctFacts(dense + bm25);
    SortFacts(Distinct(dense + bm25), HigherFirst(dense, bm25));
    SortKeepsDistinct(Distinct(dense + bm25), HigherFirst(dense, bm25));
  }

  /** A higher score means an earlier place. */
  lemma HigherScoreIsEarlier(dense: seq<Id>, bm25: seq<Id>, i: nat, j: nat)
    requires i < |Ranking(dense, bm25)| && j < |Ranking(dense, bm25)|
    requires FusedScore(dense, bm25, Ranking(dense, bm25)[i]) > FusedScore(dense, bm25, Ranking(dense, bm25)[j])
    ensures i < j
  {
    RankingIsUnion(dense, bm25);
  }

  lemma SharesDecrease(j: nat, k: nat)
    requires j <= k
    ensures 0.0 < Share(k) <= Share(j) && (j < k ==> Share(k) < Share(j))
  {
    var a, b := (61 + j) as real, (61 + k) as real;
    assert Share(j) * a == 1.0 && Share(k) * b == 1.0;
    Reciprocals(a, b);
  }

  lemma Reciprocals(a: real, b: real)
    requires 0.0 < a <= b
    ensures 0.0 < 1.0 / b <= 1.0 / a && (a < b ==> 1.0 / b < 1.0 / a)
  {
    assert 1.0 / a - 1.0 / b == (b - a) / (a * b);
  }

  /** Without duplicates an id found at position k contributes the share of that position. */
  lemma {:induction false} ContributionAt(list: seq<Id>, k: nat)
    requires NoDuplicates(list) && k < |list|
    ensures Contribution(list, list[k]) == Share(k)
  {
    var n := |list| - 1;
    if k < n {
      ContributionAt(list[..n], k);
    } else {
      NoContribution(list[..n], list[n]);
    }
  }

  /** What an id found at the given ranks, counted from 1, scores; 0 stands for not found. */
  lemma ScoreOfRanks(dense: seq<Id>, bm25: seq<Id>, id: Id, r: nat, q: nat)
    requires NoDuplicates(dense) && NoDuplicates(bm25)
    requires if r == 0 then id !in dense else r <= |dense| && dense[r - 1] == id
    requires if q == 0 then id !in bm25 else q <= |bm25| && bm25[q - 1] == id
    ensures FusedScore(dense, bm25, id) ==
            (if r == 0 then 0.0 else 1.0 / (60 + r) as real) + (if q == 0 then 0.0 else 1.0 / (60 + q) as real)
  {
    ScoreInList(dense, id, r);
    ScoreInList(bm25, id, q);
  }

  lemma ScoreInList(list: seq<Id>, id: Id, r: nat)
    requires NoDuplicates(list) && if r == 0 then id !in list else r <= |list| && list[r - 1] == id
    ensures Contribution(list, id) == if r == 0 then 0.0 else 1.0 / (60 + r) as real
  {
    if r == 0 {
      NoContribution(list, id);
    } else {
      ContributionAt(list, r - 1);
      assert 61 + (r - 1) == 60 + r;
    }
  }

  /** a stands before b in the list, or b is not in it at all. */
  ghost predicate Ahead(list: seq<Id>, a: Id, b: Id) {
    exists i :: 0 <= i < |list| && list[i] == a && forall j :: 0 <= j <= i ==> list[j] != b
  }

  lemma AheadContributesMore(list: seq<Id>, a: Id, b: Id)
    requires NoDuplicates(list) && Ahead(list, a, b)
    ensures Contribution(list, a) > Contribution(list, b)
  {
    var i :| 0 <= i < |list| && list[i] == a && forall j :: 0 <= j <= i ==> list[j] != b;
    ContributionAt(list, i);
    SharesDecrease(i, i);
    if b in list {
      var j :| 0 <= j < |list| && list[j] == b;
      ContributionAt(list, j);
      SharesDecrease(i, j);
    } else {
      NoContribution(list, b);
    }
  }

  /** An id that stands ahead of another in one list, and ahead of it in the other too unless neither is there, is
      ranked before it. */
  lemma Dominance(dense: seq<Id>, bm25: seq<Id>, i: nat, j: nat)
    requires NoDuplicates(dense) && NoDuplicates(bm25) && i < |Ranking(dense, bm25)| && j < |Ranking(dense, bm25)|
    requires var a, b := Ranking(dense, bm25)[i], Ranking(dense, bm25)[j];
             || (Ahead(dense, a, b) && (Ahead(bm25, a, b) || (a !in bm25 && b !in bm25)))
             || (Ahead(bm25, a, b) && a !in dense && b !in dense)
    ensures i < j
  {
    var a, b := Ranking(dense, bm25)[i], Ranking(dense, bm25)[j];
    OneList(dense, a, b);
    OneList(bm25, a, b);
    HigherScoreIsEarlier(dense, bm25, i, j);
  }

  lemma OneList(list: seq<Id>, a: Id, b: Id)
    requires NoDuplicates(list)
    ensures Ahead(list, a, b) ==> Contribution(list, a) > Contribution(list, b)
    ensures a !in list && b !in list ==> Contribution(list, a) == Contribution(list, b)
  {
    if Ahead(list, a, b) {
      AheadContributesMore(list, a, b);
    } else if a !in list && b !in list {
      NoContribution(list, a);
      NoContribution(list, b);
    }
  }

  lemma ContributionBounds(list: seq<Id>, id: Id)
    requires NoDuplicates(list)
    ensures id in list ==> Share(|list| - 1) <= Contribution(list, id) <= Share(0)
    ensures id !in list ==> Contribution(list, id) == 0.0
  {
    if id in list {
      var k :| 0 <= k < |list| && list[k] == id;
      ContributionAt(list, k);
      SharesDecrease(k, |list| - 1);
      SharesDecrease(0, k);
    } else {
      NoContribution(list, id);
    }
  }

  /** With lists of at most 61 results, whatever both searches found is ranked before whatever only one found. */
  lemma BothBeatOne(dense: seq<Id>, bm25: seq<Id>, i: nat, j: nat)
    requires NoDuplicates(dense) && NoDuplicates(bm25) && |dense| <= 61 && |bm25| <= 61
    requires i < |Ranking(dense, bm25)| && j < |Ranking(dense, bm25)|
    requires Ranking(dense, bm25)[i] in dense && Ranking(dense, bm25)[i] in bm25
    requires !(Ranking(dense, bm25)[j] in dense && Ranking(dense, bm25)[j] in bm25)
    ensures i < j
  {
    var a, b := Ranking(dense, bm25)[i], Ranking(dense, bm25)[j];
    ContributionBounds(dense, a);
    ContributionBounds(bm25, a);
    ContributionBounds(dense, b);
    ContributionBounds(bm25, b);
    SharesDecrease(|dense| - 1, 60);
    SharesDecrease(|bm25| - 1, 60);
    assert Share(60) == 1.0 / 121.0 && Share(0) == 1.0 / 61.0;
    HigherScoreIsEarlier(dense, bm25, i, j);
  }

  // ---------------------------------------------------------- 61 is the limit

  /** With two lists of 62 an id last in both only ties with one that is first in one of them, and it was found later. */
  lemma LongerListsTie(dense: seq<Id>, bm25: seq<Id>)
    requires NoDuplicates(dense) && NoDuplicates(bm25) && |dense| == |bm25| == 62
    requires dense[61] == bm25[61] && dense[0] !in bm25
    ensures FusedScore(dense, bm25, dense[0]) == FusedScore(dense, bm25, dense[61])
    ensures Before(Ranking(dense, bm25), dense[0], dense[61])
  {
    ContributionAt(dense, 0);
    ContributionAt(dense, 61);
    ContributionAt(bm25, 61);
    NoContribution(bm25, dense[0]);
    assert Share(61) == 1.0 / 122.0 && Share(0) == 1.0 / 61.0;
    assert (dense + bm25)[..1][0] == dense[0];
    FirstStaysFirst(dense + bm25);
    DistinctFacts(dense + bm25);
    var keys := Distinct(dense + bm25);
    assert dense[61] in dense + bm25 && (dense + bm25)[61] == dense[61];
    var q :| 0 <= q < |keys| && keys[q] == dense[61];
    EqualsStay(keys, 0, q, HigherFirst(dense, bm25));
  }

  ghost predicate Before<T>(s: seq<T>, x: T, y: T) {
    exists i, j :: 0 <= i < j < |s| && s[i] == x && s[j] == y
  }

  lemma {:induction false} FirstStaysFirst(s: seq<Id>)
    requires s != []
    ensures Distinct(s) != [] && Distinct(s)[0] == s[0]
  {
    if |s| > 1 {
      FirstStaysFirst(s[..|s| - 1]);
    }
  }

  /** Sorting does not move an element before one that came earlier and may stay there. */
  lemma {:induction false} EqualsStay<T(!new)>(s: seq<T>, p: nat, q: nat, le: (T, T) -> bool)
    requires TotalPreorder(le) && p < q < |s| && le(s[p], s[q])
    ensures Before(Sort(s, le), s[p], s[q])
  {
    var n := |s| - 1;
    SortFacts(s[..n], le);
    if q < n {
      EqualsStay(s[..n], p, q, le);
      InsertKeepsBefore(Sort(s[..n], le), s[n], s[p], s[q], le);
    } else {
      assert s[..n][p] == s[p];
      InsertsAfter(Sort(s[..n], le), s[p], s[n], le);
    }
  }

  lemma {:induction false} InsertKeepsBefore<T(!new)>(s: seq<T>, z: T, x: T, y: T, le: (T, T) -> bool)
    requires Before(s, x, y)
    ensures Before(Insert(s, z, le), x, y)
  {
    var i, j :| 0 <= i < j < |s| && s[i] == x && s[j] == y;
    var n := |s| - 1;
    if le(s[n], z) {
      assert Insert(s, z, le)[i] == x && Insert(s, z, le)[j] == y;
    } else if j < n {
      assert s[..n][i] == x && s[..n][j] == y;
      InsertKeepsBefore(s[..n], z, x, y, le);
      BeforeMore(Insert(s[..n], z, le), x, y, s[n]);
    } else {
      InsertPermutes(s[..n], z, le);
      assert s[..n][i] == x && x in s[..n];
      BeforeLast(Insert(s[..n], z, le), x, y);
    }
  }

  lemma BeforeMore<T>(s: seq<T>, x: T, y: T, z: T)
    requires Before(s, x, y)
    ensures Before(s + [z], x, y)
  {
    var i, j :| 0 <= i < j < |s| && s[i] == x && s[j] == y;
    assert (s + [z])[i] == x && (s + [z])[j] == y;
  }

  lemma BeforeLast<T>(s: seq<T>, x: T, y: T)
    requires x in s
    ensures Before(s + [y], x, y)
  {
    var i :| 0 <= i < |s| && s[i] == x;
    assert (s + [y])[i] == x && (s + [y])[|s|] == y;
  }

  lemma {:induction false} InsertsAfter<T(!new)>(s: seq<T>, x: T, y: T, le: (T, T) -> bool)
    requires x in s && le(x, y)
    ensures Before(Insert(s, y, le), x, y)
  {
    var n := |s| - 1;
    if le(s[n], y) {
      BeforeLast(s, x, y);
    } else {
      assert x in s[..n];
      InsertsAfter(s[..n], x, y, le);
      BeforeMore(Insert(s[..n], y, le), x, y, s[n]);
    }
  }

  lemma {:induction false} DistinctKeepsOrder(s: seq<Id>, p: nat, q: nat)
    requires p < q < |s| && s[q] !in s[..q]
    ensures Before(Distinct(s), s[p], s[q])
  {
    var n := |s| - 1;
    DistinctFacts(s[..n]);
    if q < n {
      assert s[..n][..q] == s[..q];
      DistinctKeepsOrder(s[..n], p, q);
      BeforeMore(Distinct(s[..n]), s[p], s[q], s[n]);
    } else {
      assert s[..n][p] == s[p];
      BeforeLast(Distinct(s[..n]), s[p], s[q]);
    }
  }

  /** Of two ids the one found first, the dense search before the other, is ranked first unless the other scores more. */
  lemma TiesAsFound(dense: seq<Id>, bm25: seq<Id>, p: nat, q: nat)
    requires var found := dense + bm25; p < q < |found| && found[q] !in found[..q]
    requires FusedScore(dense, bm25, (dense + bm25)[p]) >= FusedScore(dense, bm25, (dense + bm25)[q])
    ensures Before(Ranking(dense, bm25), (dense + bm25)[p], (dense + bm25)[q])
  {
    var found := dense + bm25;
    DistinctKeepsOrder(found, p, q);
    var keys := Distinct(found);
    var i, j :| 0 <= i < j < |keys| && keys[i] == found[p] && keys[j] == found[q];
    EqualsStay(keys, i, j, HigherFirst(dense, bm25));
  }

  /** The numerals from a to b, without b. */
  function Numerals(a: nat, b: nat): (r: seq<Id>)
    requires a <= b
    ensures |r| == b - a
    ensures forall i :: 0 <= i < b - a ==> r[i] == Decimal(a + i)
  {
    seq(b - a, i requires 0 <= i < b - a => Decimal(a + i))
  }

  /** Two lists of 62 on which an id found by both searches is ranked behind one found by a single search. */
  lemma SixtyOneIsTheLimit() returns (dense: seq<Id>, bm25: seq<Id>)
    ensures NoDuplicates(dense) && NoDuplicates(bm25) && |dense| == |bm25| == 62
    ensures dense[61] in bm25 && dense[0] !in bm25 && Before(Ranking(dense, bm25), dense[0], dense[61])
  {
    dense, bm25 := Numerals(0, 62), Numerals(62, 123) + Numerals(61, 62);
    forall i, j | 0 <= i < j < 62 ensures dense[i] != dense[j] {
      DifferentNumerals(i, j);
    }
    forall i, j | 0 <= i < j < 62 ensures bm25[i] != bm25[j] {
      DifferentNumerals(62 + i, if j < 61 then 62 + j else 61);
    }
    forall i | 0 <= i < 62 ensures bm25[i] != dense[0] {
      DifferentNumerals(0, if i < 61 then 62 + i else 61);
    }
    assert bm25[61] == Decimal(61) == dense[61];
    LongerListsTie(dense, bm25);
  }

  lemma DifferentNumerals(m: nat, n: nat)
    requires m != n
    ensures Decimal(m) != Decimal(n)
  {
    NumeralOfDecimal(m);
    NumeralOfDecimal(n);
  }
}
