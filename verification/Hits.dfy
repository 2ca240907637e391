/** Ranked hits: the (score descending, identifier ascending) order, sorting, and top-k.

    Lexical hits, semantic hits and fused hits differ only in what they carry besides an
    identifier and a score, so the carried value is a type parameter. */
module Hits {
  import opened Basics

  datatype Hit<T> = Hit(documentId: Id, score: real, payload: T)

  type SearchResult = Hit<Text>

  datatype SearchResults = SearchResults(total: nat, results: seq<SearchResult>)

  predicate Before<T>(a: Hit<T>, b: Hit<T>) {
    a.score > b.score || (a.score == b.score && IdLess(a.documentId, b.documentId))
  }

  ghost predicate DistinctIds<T>(hits: set<Hit<T>>) {
    forall a, b :: a in hits && b in hits && a.documentId == b.documentId ==> a == b
  }

  ghost predicate DistinctIdList<T>(hits: seq<Hit<T>>) {
    forall i, j :: 0 <= i < j < |hits| ==> hits[i].documentId != hits[j].documentId
  }

  /** Best first, and no two hits tie. */
  ghost predicate StrictlySorted<T>(hits: seq<Hit<T>>) {
    forall i, j :: 0 <= i < j < |hits| ==> Before(hits[i], hits[j])
  }

  ghost function Elements<T>(hits: seq<Hit<T>>): set<Hit<T>> {
    set h | h in hits
  }

  function Take<T>(hits: seq<T>, limit: nat): seq<T> {
    if limit < |hits| then hits[..limit] else hits
  }

  // ---------------------------------------------------------------------------
  // Before is a strict total order on hits with distinct identifiers
  // ---------------------------------------------------------------------------

  lemma BeforeIrreflexive<T>(a: Hit<T>)
    ensures !Before(a, a)
  {
    IdLessIrreflexive(a.documentId);
  }

  lemma BeforeTransitive<T>(a: Hit<T>, b: Hit<T>, c: Hit<T>)
    requires Before(a, b) && Before(b, c)
    ensures Before(a, c)
  {
    if a.score == b.score == c.score {
      IdLessTransitive(a.documentId, b.documentId, c.documentId);
    }
  }

  lemma BeforeTotal<T>(a: Hit<T>, b: Hit<T>)
    requires a.documentId != b.documentId
    ensures Before(a, b) || Before(b, a)
  {
    IdLessTotal(a.documentId, b.documentId);
  }

  // ---------------------------------------------------------------------------
  // Sorting
  // ---------------------------------------------------------------------------

  /** Stable insertion: `h` goes in front of the first hit that does not beat it. */
  function Insert<T>(h: Hit<T>, sorted: seq<Hit<T>>): seq<Hit<T>> {
    if sorted == [] || !Before(sorted[0], h) then [h] + sorted
    else [sorted[0]] + Insert(h, sorted[1..])
  }

  /** Python's `sorted(..., key=(-score, id))`. */
  function Sort<T>(hits: seq<Hit<T>>): seq<Hit<T>> {
    if hits == [] then [] else Insert(hits[0], Sort(hits[1..]))
  }

  ghost function AnyElement<T>(s: set<T>): (x: T)
    requires s != {}
    ensures x in s
  {
    var x :| x in s;
    x
  }

  /** The ranking of a set of hits; `RankingSorts` says what it is. */
  ghost function Ranking<T>(hits: set<Hit<T>>): seq<Hit<T>> {
    if hits == {} then []
    else
      var h := AnyElement(hits);
      Insert(h, Ranking(hits - {h}))
  }

  lemma {:induction false} InsertMember<T>(h: Hit<T>, sorted: seq<Hit<T>>, g: Hit<T>)
    ensures g in Insert(h, sorted) <==> g == h || g in sorted
  {
    if sorted != [] && Before(sorted[0], h) {
      InsertMember(h, sorted[1..], g);
      assert sorted == [sorted[0]] + sorted[1..];
    }
  }

  lemma {:induction false} InsertSorts<T>(h: Hit<T>, sorted: seq<Hit<T>>)
    requires StrictlySorted(sorted)
    requires forall i :: 0 <= i < |sorted| ==> sorted[i].documentId != h.documentId
    ensures StrictlySorted(Insert(h, sorted))
    ensures Elements(Insert(h, sorted)) == {h} + Elements(sorted)
  {
    forall g ensures g in Elements(Insert(h, sorted)) <==> g in {h} + Elements(sorted) {
      InsertMember(h, sorted, g);
    }
    if sorted != [] {
      var head, tail := sorted[0], sorted[1..];
      if !Before(head, h) {
        BeforeTotal(h, head);
        forall i | 0 < i < |sorted| ensures Before(h, sorted[i]) {
          BeforeTransitive(h, head, sorted[i]);
        }
      } else {
        InsertSorts(h, tail);
        var rest := Insert(h, tail);
        forall k | 0 <= k < |rest| ensures Before(head, rest[k]) {
          InsertMember(h, tail, rest[k]);
          if rest[k] != h {
            var i :| 0 <= i < |tail| && tail[i] == rest[k];
            assert sorted[i + 1] == rest[k];
          }
        }
        PrependSorted(head, rest);
      }
    }
  }

  lemma PrependSorted<T>(head: Hit<T>, tail: seq<Hit<T>>)
    requires StrictlySorted(tail) && forall k :: 0 <= k < |tail| ==> Before(head, tail[k])
    ensures StrictlySorted([head] + tail)
  {
  }

  lemma {:induction false} RankingSorts<T>(hits: set<Hit<T>>)
    requires DistinctIds(hits)
    ensures StrictlySorted(Ranking(hits)) && Elements(Ranking(hits)) == hits
    ensures |Ranking(hits)| == |hits|
  {
    if hits != {} {
      var h := AnyElement(hits);
      var rest := hits - {h};
      RankingSorts(rest);
      var r := Ranking(rest);
      forall i | 0 <= i < |r| ensures r[i].documentId != h.documentId {
        assert r[i] in Elements(r);
      }
      InsertSorts(h, r);
      InsertLength(h, r);
    }
  }

  /** In a ranking scores never rise, and hits of equal score stand in lexicographic order of
      their identifiers. */
  lemma RankingOrder<T>(hits: set<Hit<T>>, i: nat, j: nat)
    requires DistinctIds(hits) && i < j < |Ranking(hits)|
    ensures var a, b := Ranking(hits)[i], Ranking(hits)[j];
            && a in hits && b in hits && a.score >= b.score
            && (a.score == b.score ==> exists k: nat :: DecidesAt(a.documentId, b.documentId, k))
  {
    RankingSorts(hits);
    var a, b := Ranking(hits)[i], Ranking(hits)[j];
    assert a in Elements(Ranking(hits)) && b in Elements(Ranking(hits));
    assert Before(a, b);
    IdLessIsLexicographic(a.documentId, b.documentId);
  }

  lemma {:induction false} InsertLength<T>(h: Hit<T>, sorted: seq<Hit<T>>)
    ensures |Insert(h, sorted)| == |sorted| + 1
  {
    if sorted != [] && Before(sorted[0], h) {
      InsertLength(h, sorted[1..]);
    }
  }

  /** A strictly sorted list is determined by its elements. */
  lemma {:induction false} SortedListsAgree<T>(a: seq<Hit<T>>, b: seq<Hit<T>>)
    requires StrictlySorted(a) && StrictlySorted(b)
    requires Elements(a) == Elements(b)
    ensures a == b
    decreases |a|
  {
    SortedSize(a);
    SortedSize(b);
    if a != [] {
      FirstIsLeast(a, b);
      TailElements(a);
      TailElements(b);
      SortedListsAgree(a[1..], b[1..]);
      assert a == [a[0]] + a[1..] && b == [b[0]] + b[1..];
    }
  }

  lemma FirstIsLeast<T>(a: seq<Hit<T>>, b: seq<Hit<T>>)
    requires StrictlySorted(a) && StrictlySorted(b)
    requires Elements(a) == Elements(b) && a != [] && b != []
    ensures a[0] == b[0]
  {
    assert a[0] in Elements(b) && b[0] in Elements(a);
    var i :| 0 <= i < |b| && b[i] == a[0];
    var j :| 0 <= j < |a| && a[j] == b[0];
    if i > 0 && j > 0 {
      BeforeTransitive(a[0], b[0], a[0]);
      BeforeIrreflexive(a[0]);
    }
  }

  lemma TailElements<T>(a: seq<Hit<T>>)
    requires StrictlySorted(a) && a != []
    ensures Elements(a[1..]) == Elements(a) - {a[0]}
  {
    BeforeIrreflexive(a[0]);
    assert a == [a[0]] + a[1..];
  }

  /** Sorting a list of hits with distinct identifiers ranks the set of them, so the
      result does not depend on the order the hits arrived in. */
  lemma {:induction false} SortRanks<T>(hits: seq<Hit<T>>)
    requires DistinctIdList(hits)
    ensures DistinctIds(Elements(hits))
    ensures Sort(hits) == Ranking(Elements(hits))
    ensures |Elements(hits)| == |hits|
  {
    SortSorts(hits);
    RankingSorts(Elements(hits));
    SortedListsAgree(Sort(hits), Ranking(Elements(hits)));
  }

  lemma {:induction false} SortSorts<T>(hits: seq<Hit<T>>)
    requires DistinctIdList(hits)
    ensures StrictlySorted(Sort(hits)) && Elements(Sort(hits)) == Elements(hits)
    ensures |Sort(hits)| == |hits|
  {
    if hits != [] {
      var tail := hits[1..];
      assert hits == [hits[0]] + tail;
      SortSorts(tail);
      var r := Sort(tail);
      forall i | 0 <= i < |r| ensures r[i].documentId != hits[0].documentId {
        assert r[i] in Elements(tail);
      }
      InsertSorts(hits[0], r);
      InsertLength(hits[0], r);
    }
  }

  /** One hit per key: as many hits as keys, all about different documents. */
  lemma {:induction false} ValuesByKey<T>(m: map<Id, Hit<T>>)
    requires forall id :: id in m ==> m[id].documentId == id
    ensures DistinctIds(m.Values) && |m.Values| == |m|
    decreases |m|
  {
    if m == map[] {
      assert m.Values == {};
    } else {
      var id := AnyKey(m);
      RemoveShrinks(m, id);
      ValuesByKey(m - {id});
      var less := m - {id};
      forall h ensures h in m.Values <==> h in less.Values || h == m[id] {
        if h in m.Values {
          var key :| key in m && m[key] == h;
          assert key != id ==> key in less && less[key] == h;
        }
        if h in less.Values {
          var key :| key in less && less[key] == h;
          assert key in m && m[key] == h;
        }
      }
      assert m.Values == less.Values + {m[id]};
      assert m[id] !in less.Values;
    }
  }

  // ---------------------------------------------------------------------------
  // Positions in a ranking
  // ---------------------------------------------------------------------------

  lemma {:induction false} SortedSize<T>(hits: seq<Hit<T>>)
    requires StrictlySorted(hits)
    ensures |Elements(hits)| == |hits|
  {
    if hits != [] {
      TailElements(hits);
      SortedSize(hits[1..]);
      assert hits[0] in Elements(hits);
    }
  }

  /** The hits that beat `r[j]` are exactly the ones ranked above it. */
  lemma BetterHits<T>(r: seq<Hit<T>>, j: nat)
    requires StrictlySorted(r) && j < |r|
    ensures (set g | g in r && Before(g, r[j])) == Elements(r[..j])
    ensures |Elements(r[..j])| == j
  {
    forall g | g in r && Before(g, r[j]) ensures g in r[..j] {
      var i :| 0 <= i < |r| && r[i] == g;
      if i >= j {
        if i > j {
          BeforeTransitive(g, r[j], g);
        }
        BeforeIrreflexive(g);
      }
      assert r[..j][i] == g;
    }
    SortedSize(r[..j]);
  }

  /** What top-k means, without sorting anything: fewer than `limit` hits are better. */
  lemma TopHits<T>(hits: set<Hit<T>>, limit: nat, h: Hit<T>)
    requires DistinctIds(hits) && h in hits
    ensures h in Take(Ranking(hits), limit) <==> |set g | g in hits && Before(g, h)| < limit
  {
    RankingSorts(hits);
    var r := Ranking(hits);
    assert h in Elements(r);
    var j :| 0 <= j < |r| && r[j] == h;
    BetterHits(r, j);
    assert (set g | g in hits && Before(g, h)) == (set g | g in r && Before(g, r[j]));
    var t := Take(r, limit);
    if h in t {
      var i :| 0 <= i < |t| && t[i] == h;
      if i != j {
        BeforeIrreflexive(h);
      }
    } else {
      assert j >= limit;
    }
  }

  // ---------------------------------------------------------------------------
  // Top-k merge
  // ---------------------------------------------------------------------------

  /** A hit with `limit` better hits on its own list can be dropped before merging. */
  lemma DropLast<T>(list: seq<Hit<T>>, others: set<Hit<T>>, limit: nat)
    requires StrictlySorted(list) && limit < |list|
    requires DistinctIds(Elements(list) + others) && Elements(list) !! others
    ensures Take(Ranking(Elements(list) + others), limit)
         == Take(Ranking(Elements(list[..|list| - 1]) + others), limit)
  {
    var all, less := Elements(list) + others, Elements(list[..|list| - 1]) + others;
    RankingSorts(all);
    KeptElements(list, others);
    RankingSorts(less);
    DropFromRanking(list, Ranking(all), Ranking(less), limit);
  }

  lemma DropFromRanking<T>(
    list: seq<Hit<T>>, r: seq<Hit<T>>, shorter: seq<Hit<T>>, limit: nat)
    requires StrictlySorted(list) && limit < |list|
    requires StrictlySorted(r) && Elements(list) <= Elements(r)
    requires StrictlySorted(shorter) && Elements(shorter) == Elements(r) - {list[|list| - 1]}
    ensures Take(r, limit) == Take(shorter, limit)
  {
    var x := list[|list| - 1];
    assert x in Elements(list);
    var j :| 0 <= j < |r| && r[j] == x;
    LastIsBelow(list, r, j, limit);
    RemoveAt(r, j);
    SortedListsAgree(r[..j] + r[j + 1..], shorter);
    assert shorter[..limit] == r[..limit];
  }

  lemma LastIsBelow<T>(list: seq<Hit<T>>, r: seq<Hit<T>>, j: nat, limit: nat)
    requires StrictlySorted(list) && limit < |list|
    requires StrictlySorted(r) && j < |r| && r[j] == list[|list| - 1]
    requires Elements(list) <= Elements(r)
    ensures limit <= j
  {
    BetterHits(r, j);
    SortedSize(list[..limit]);
    forall g | g in Elements(list[..limit]) ensures g in Elements(r[..j]) {
      assert g in Elements(list) && g in Elements(r);
    }
    SubsetSize(Elements(list[..limit]), Elements(r[..j]));
  }

  lemma SubsetSize<T>(a: set<T>, b: set<T>)
    requires a <= b
    ensures |a| <= |b|
  {
    assert b == a + (b - a);
  }

  lemma KeptElements<T>(list: seq<Hit<T>>, others: set<Hit<T>>)
    requires StrictlySorted(list) && list != [] && Elements(list) !! others
    ensures Elements(list[..|list| - 1]) + others
         == Elements(list) + others - {list[|list| - 1]}
  {
    var x := list[|list| - 1];
    BeforeIrreflexive(x);
    assert list == list[..|list| - 1] + [x];
    assert x in Elements(list);
  }

  lemma RemoveAt<T>(r: seq<Hit<T>>, j: nat)
    requires StrictlySorted(r) && j < |r|
    ensures StrictlySorted(r[..j] + r[j + 1..])
    ensures Elements(r[..j] + r[j + 1..]) == Elements(r) - {r[j]}
  {
    BeforeIrreflexive(r[j]);
    assert r == r[..j] + [r[j]] + r[j + 1..];
  }

  lemma {:induction false} TruncateList<T>(list: seq<Hit<T>>, others: set<Hit<T>>, limit: nat)
    requires StrictlySorted(list)
    requires DistinctIds(Elements(list) + others) && Elements(list) !! others
    ensures Take(Ranking(Elements(list) + others), limit)
         == Take(Ranking(Elements(Take(list, limit)) + others), limit)
    decreases |list|
  {
    if limit < |list| {
      var kept := list[..|list| - 1];
      DropLast(list, others, limit);
      KeptElements(list, others);
      TruncateList(kept, others, limit);
      assert Take(kept, limit) == Take(list, limit);
    }
  }

  function TakeEach<T>(lists: seq<seq<Hit<T>>>, limit: nat): seq<seq<Hit<T>>> {
    seq(|lists|, i requires 0 <= i < |lists| => Take(lists[i], limit))
  }

  function Flatten<T>(lists: seq<seq<T>>): seq<T> {
    if lists == [] then [] else Flatten(lists[..|lists| - 1]) + lists[|lists| - 1]
  }

  /** Lists of hits about different documents, each best first: what the shards return. */
  ghost predicate SeparateRankings<T>(lists: seq<seq<Hit<T>>>) {
    && (forall i :: 0 <= i < |lists| ==> StrictlySorted(lists[i]) && DistinctIdList(lists[i]))
    && (forall i, j, g, h :: 0 <= i < j < |lists| && g in lists[i] && h in lists[j]
          ==> g.documentId != h.documentId)
  }

  /** Every member of a flattened list comes from one of the lists. */
  lemma {:induction false} FlattenSource<T>(lists: seq<seq<T>>, x: T) returns (i: nat)
    requires x in Flatten(lists)
    ensures i < |lists| && x in lists[i]
  {
    var last := |lists| - 1;
    if x in lists[last] {
      i := last;
    } else {
      i := FlattenSource(lists[..last], x);
    }
  }

  lemma {:induction false} FlattenContains<T>(lists: seq<seq<T>>, i: nat, x: T)
    requires i < |lists| && x in lists[i]
    ensures x in Flatten(lists)
  {
    if i < |lists| - 1 {
      FlattenContains(lists[..|lists| - 1], i, x);
    }
  }

  lemma {:induction false} FlattenDistinct<T>(lists: seq<seq<Hit<T>>>)
    requires SeparateRankings(lists)
    ensures DistinctIdList(Flatten(lists))
  {
    if lists != [] {
      var init, last := lists[..|lists| - 1], lists[|lists| - 1];
      FlattenDistinct(init);
      var f := Flatten(init);
      forall i, j | 0 <= i < |f| && 0 <= j < |last| ensures f[i].documentId != last[j].documentId {
        var s := FlattenSource(init, f[i]);
        assert f[i] in lists[s] && last[j] in last;
      }
    }
  }

  lemma {:induction false} TruncateLists<T>(
    lists: seq<seq<Hit<T>>>, others: set<Hit<T>>, limit: nat)
    requires SeparateRankings(lists)
    requires DistinctIds(Elements(Flatten(lists)) + others)
    requires Elements(Flatten(lists)) !! others
    ensures Take(Ranking(Elements(Flatten(lists)) + others), limit)
         == Take(Ranking(Elements(Flatten(TakeEach(lists, limit))) + others), limit)
    decreases |lists|
  {
    if lists == [] {
    } else {
      var init, last := lists[..|lists| - 1], lists[|lists| - 1];
      var cut := Take(last, limit);
      assert Elements(Flatten(lists)) == Elements(Flatten(init)) + Elements(last);
      assert TakeEach(lists, limit)[..|lists| - 1] == TakeEach(init, limit);
      assert Elements(Flatten(TakeEach(lists, limit)))
          == Elements(Flatten(TakeEach(init, limit))) + Elements(cut);
      assert Elements(cut) <= Elements(last);
      SeparateTail(lists);
      TruncateList(last, Elements(Flatten(init)) + others, limit);
      TruncateLists(init, Elements(cut) + others, limit);
      var a, b, c := Elements(Flatten(init)), Elements(last), others;
      assert (a + b) + c == b + (a + c);
      assert Elements(cut) + (a + c) == a + (Elements(cut) + c);
      var d := Elements(Flatten(TakeEach(init, limit)));
      assert d + (Elements(cut) + c) == (d + Elements(cut)) + c;
    }
  }

  lemma SeparateTail<T>(lists: seq<seq<Hit<T>>>)
    requires SeparateRankings(lists) && lists != []
    ensures Elements(lists[|lists| - 1]) !! Elements(Flatten(lists[..|lists| - 1]))
  {
    FlattenDistinct(lists);
    var f, last := Flatten(lists[..|lists| - 1]), lists[|lists| - 1];
    assert Flatten(lists) == f + last;
    forall i, j | 0 <= i < |f| && 0 <= j < |last| ensures f[i] != last[j] {
      assert (f + last)[i] == f[i] && (f + last)[|f| + j] == last[j];
    }
  }

  lemma TakeEachSeparate<T>(lists: seq<seq<Hit<T>>>, limit: nat)
    requires SeparateRankings(lists)
    ensures SeparateRankings(TakeEach(lists, limit))
  {
    var cut := TakeEach(lists, limit);
    forall i, j, g: Hit<T>, h: Hit<T> | 0 <= i < j < |cut| && g in cut[i] && h in cut[j]
      ensures g.documentId != h.documentId
    {
      assert g in lists[i] && h in lists[j];
    }
  }

  /** The coordinator's merge: concatenate each shard's local top-k, sort, truncate.  The
      result is the top-k of everything the shards hold, for every k. */
  lemma MergeIsGlobalTopK<T>(lists: seq<seq<Hit<T>>>, limit: nat)
    requires SeparateRankings(lists)
    ensures Take(Sort(Flatten(TakeEach(lists, limit))), limit)
         == Take(Ranking(Elements(Flatten(lists))), limit)
  {
    FlattenDistinct(lists);
    SortRanks(Flatten(lists));
    var cut := TakeEach(lists, limit);
    TakeEachSeparate(lists, limit);
    FlattenDistinct(cut);
    SortRanks(Flatten(cut));
    var none: set<Hit<T>> := {};
    TruncateLists(lists, none, limit);
    assert Elements(Flatten(lists)) + none == Elements(Flatten(lists));
    assert Elements(Flatten(cut)) + none == Elements(Flatten(cut));
  }

  /** Replies may arrive in any order: permuting the merged list changes nothing. */
  lemma MergeIgnoresArrivalOrder<T>(a: seq<Hit<T>>, b: seq<Hit<T>>)
    requires DistinctIdList(a) && multiset(a) == multiset(b)
    ensures Sort(a) == Sort(b)
  {
    SameMembers(a, b);
    PermutedDistinct(a, b);
    SortRanks(a);
    SortRanks(b);
  }

  lemma SameMembers<T>(a: seq<Hit<T>>, b: seq<Hit<T>>)
    requires multiset(a) == multiset(b)
    ensures Elements(a) == Elements(b)
  {
    assert forall x :: x in a <==> x in multiset(a);
    assert forall x :: x in b <==> x in multiset(b);
  }

  lemma PermutedDistinct<T>(a: seq<Hit<T>>, b: seq<Hit<T>>)
    requires DistinctIdList(a) && multiset(a) == multiset(b)
    ensures DistinctIdList(b)
  {
    forall i, j | 0 <= i < j < |b| ensures b[i].documentId != b[j].documentId {
      if b[i] == b[j] {
        Twice(b, i, j);
        Once(a, b[i]);
      } else {
        assert b[i] in multiset(b) && b[j] in multiset(b);
        var p :| 0 <= p < |a| && a[p] == b[i];
        var q :| 0 <= q < |a| && a[q] == b[j];
      }
    }
  }

  lemma Twice<T>(s: seq<T>, i: nat, j: nat)
    requires i < j < |s| && s[i] == s[j]
    ensures multiset(s)[s[i]] >= 2
  {
    assert s == s[..i] + [s[i]] + s[i + 1..j] + [s[j]] + s[j + 1..];
  }

  lemma Once<T>(a: seq<Hit<T>>, x: Hit<T>)
    requires DistinctIdList(a)
    ensures multiset(a)[x] <= 1
  {
    if x in a {
      var i :| 0 <= i < |a| && a[i] == x;
      var rest := a[..i] + a[i + 1..];
      assert a == a[..i] + [x] + a[i + 1..];
      assert multiset(a) == multiset(rest) + multiset{x};
      forall k | 0 <= k < |rest| ensures rest[k] != x {
        assert rest[k] == a[if k < i then k else k + 1];
      }
      assert x !in rest;
    }
  }
}
