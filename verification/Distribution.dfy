/** Distributed retrieval as mathematics: ranking the parts and merging is ranking the whole. */
module Distribution {
  import opened Basics
  import opened Analysis
  import opened Hits
  import opened InvertedIndexes
  import opened Statistics
  import opened BM25
  import opened VectorIndexes
  import opened Fusion
  import opened Nodes

  // ---------------------------------------------------------------------------
  // Routing
  // ---------------------------------------------------------------------------

  /** `digest` is the hash of an identifier read as a number. */
  datatype ShardRouter = ShardRouter(digest: Id -> nat, shardCount: nat) {
    function ShardFor(id: Id): (shard: nat)
      requires shardCount >= 1
      ensures shard < shardCount
    {
      digest(id) % shardCount
    }

    ghost predicate Owns(shard: nat, documents: Documents)
      requires shardCount >= 1
    {
      forall d :: d in documents ==> ShardFor(d) == shard
    }
  }

  /** One corpus per shard, each holding only documents routed to it. */
  ghost predicate Partitioned(router: ShardRouter, corpora: seq<Documents>) {
    && router.shardCount >= 1 && |corpora| == router.shardCount
    && forall i :: 0 <= i < |corpora| ==> router.Owns(i, corpora[i])
  }

  /** Two identifiers share a shard exactly when their digests differ by a multiple of the
      number of shards; an identifier whose digest is a shard's number lives there. */
  lemma SameShardIff(router: ShardRouter, a: Id, b: Id)
    requires router.shardCount >= 1
    ensures router.ShardFor(a) == router.ShardFor(b)
            <==> exists m: int :: DiffersBy(router.digest(a), router.digest(b), router.shardCount, m)
    ensures router.digest(a) < router.shardCount ==> router.ShardFor(a) == router.digest(a)
  {
    var n, x, y := router.shardCount, router.digest(a), router.digest(b);
    if x % n == y % n {
      var m := DifferenceIsMultiple(x, y, n);
    }
    forall m: int | DiffersBy(x, y, n, m) ensures x % n == y % n {
      SameRemainder(x, y, m, n);
    }
    if x < n {
      UniqueDivision(x, n, 0, x);
    }
  }

  lemma DifferenceIsMultiple(x: nat, y: nat, n: nat) returns (m: int)
    requires n >= 1 && x % n == y % n
    ensures DiffersBy(x, y, n, m)
  {
    var q: int, r: int := x / n, y / n;
    assert x == q * n + x % n && y == r * n + y % n;
    assert (q - r) * n == q * n - r * n;
    m := q - r;
  }

  predicate DiffersBy(x: nat, y: nat, n: nat, m: int) {
    x - y == m * n
  }

  lemma SameRemainder(x: nat, y: nat, m: int, n: nat)
    requires n >= 1 && x - y == m * n
    ensures x % n == y % n
  {
    var q, r: int := y / n, y % n;
    assert y == q * n + r;
    assert (q + m) * n == q * n + m * n;
    UniqueDivision(x, n, q + m, r);
  }

  lemma UniqueDivision(x: int, n: nat, q: int, r: int)
    requires n >= 1 && x == q * n + r && 0 <= r < n
    ensures x % n == r
  {
    var d: int := x / n - q;
    assert x == (x / n) * n + x % n;
    assert d * n == (x / n) * n - q * n;
    assert d * n == r - x % n;
  }

  ghost function PartFor(router: ShardRouter, documents: Documents, shard: nat): Documents
    requires router.shardCount >= 1
  {
    map d | d in documents && router.ShardFor(d) == shard :: documents[d]
  }

  /** Every corpus is divided over the shards in exactly one way, and nothing is lost. */
  lemma PartitionExists(router: ShardRouter, documents: Documents) returns (corpora: seq<Documents>)
    requires router.shardCount >= 1
    ensures Partitioned(router, corpora) && UnionAll(corpora) == documents
  {
    corpora := seq(router.shardCount, i requires 0 <= i < router.shardCount => PartFor(router, documents, i));
    PartsAreDisjoint(router, corpora);
    UnionAllKeys(corpora);
    forall d | d in documents ensures d in UnionAll(corpora) {
      assert d in corpora[router.ShardFor(d)];
    }
    forall d | d in UnionAll(corpora) ensures d in documents && UnionAll(corpora)[d] == documents[d] {
      var i :| 0 <= i < |corpora| && d in corpora[i];
      UnionAllAt(corpora, i, d);
    }
    MapsAgree(UnionAll(corpora), documents);
  }

  lemma PartitionIsUnique(router: ShardRouter, corpora: seq<Documents>, shard: nat)
    requires Partitioned(router, corpora) && shard < router.shardCount
    ensures corpora[shard] == PartFor(router, UnionAll(corpora), shard)
  {
    PartsAreDisjoint(router, corpora);
    UnionAllKeys(corpora);
    var part := PartFor(router, UnionAll(corpora), shard);
    forall d ensures d in corpora[shard] <==> d in part {
      if d in part {
        var i :| 0 <= i < |corpora| && d in corpora[i];
        assert router.Owns(i, corpora[i]);
      }
      if d in corpora[shard] {
        assert router.Owns(shard, corpora[shard]);
      }
    }
    forall d | d in part ensures corpora[shard][d] == part[d] {
      UnionAllAt(corpora, shard, d);
    }
    MapsAgree(corpora[shard], part);
  }

  lemma PartsAreDisjoint(router: ShardRouter, corpora: seq<Documents>)
    requires Partitioned(router, corpora)
    ensures PairwiseDisjoint(corpora)
  {
    forall i, j | 0 <= i < j < |corpora| ensures corpora[i].Keys !! corpora[j].Keys {
      assert router.Owns(i, corpora[i]) && router.Owns(j, corpora[j]);
    }
  }

  // ---------------------------------------------------------------------------
  // Merging rankings of disjoint parts
  // ---------------------------------------------------------------------------

  function SumTotals(parts: seq<SearchResults>): nat {
    if parts == [] then 0 else SumTotals(parts[..|parts| - 1]) + parts[|parts| - 1].total
  }

  function PartResults(parts: seq<SearchResults>): seq<seq<SearchResult>> {
    seq(|parts|, i requires 0 <= i < |parts| => parts[i].results)
  }

  /** `_merge`: concatenate, sort, truncate; totals add up. */
  function MergeResults(parts: seq<SearchResults>, limit: nat): SearchResults {
    SearchResults(SumTotals(parts), Take(Sort(Flatten(PartResults(parts))), limit))
  }

  /** The page a set of hits would give: how many there are, and the best `limit`. */
  ghost function Page(hits: set<SearchResult>, limit: nat): SearchResults {
    SearchResults(|hits|, Take(Ranking(hits), limit))
  }

  ghost predicate SeparateHits(parts: seq<set<SearchResult>>) {
    && (forall i :: 0 <= i < |parts| ==> DistinctIds(parts[i]))
    && (forall i, j, g, h :: 0 <= i < j < |parts| && g in parts[i] && h in parts[j]
          ==> g.documentId != h.documentId)
  }

  ghost function AllHits(parts: seq<set<SearchResult>>): set<SearchResult> {
    set i, h | 0 <= i < |parts| && h in parts[i] :: h
  }

  ghost function Pages(parts: seq<set<SearchResult>>, limit: nat): seq<SearchResults> {
    seq(|parts|, i requires 0 <= i < |parts| => Page(parts[i], limit))
  }

  ghost function Rankings(parts: seq<set<SearchResult>>): seq<seq<SearchResult>> {
    seq(|parts|, i requires 0 <= i < |parts| => Ranking(parts[i]))
  }

  /** Merging the local pages of disjoint parts gives the page of all their hits. */
  lemma MergeOfPages(parts: seq<set<SearchResult>>, limit: nat)
    requires SeparateHits(parts)
    ensures MergeResults(Pages(parts, limit), limit) == Page(AllHits(parts), limit)
  {
    var lists := Rankings(parts);
    RankingsSeparate(parts);
    assert PartResults(Pages(parts, limit)) == TakeEach(lists, limit);
    MergeIsGlobalTopK(lists, limit);
    FlattenRankings(parts);
    FlattenDistinct(lists);
    SortRanks(Flatten(lists));
    TotalsAdd(parts, limit);
  }

  lemma RankingsSeparate(parts: seq<set<SearchResult>>)
    requires SeparateHits(parts)
    ensures SeparateRankings(Rankings(parts))
    ensures forall i :: 0 <= i < |parts| ==>
              Elements(Rankings(parts)[i]) == parts[i] && |Rankings(parts)[i]| == |parts[i]|
  {
    var lists := Rankings(parts);
    forall i | 0 <= i < |parts|
      ensures StrictlySorted(lists[i]) && DistinctIdList(lists[i])
      ensures Elements(lists[i]) == parts[i] && |lists[i]| == |parts[i]|
    {
      RankingSorts(parts[i]);
      SortedDistinct(lists[i], parts[i]);
    }
    forall i, j, g: SearchResult, h: SearchResult | 0 <= i < j < |lists| && g in lists[i] && h in lists[j]
      ensures g.documentId != h.documentId
    {
      assert g in Elements(lists[i]) && h in Elements(lists[j]);
    }
  }

  lemma SortedDistinct<T>(list: seq<Hit<T>>, hits: set<Hit<T>>)
    requires StrictlySorted(list) && Elements(list) == hits && DistinctIds(hits)
    ensures DistinctIdList(list)
  {
    forall i, j | 0 <= i < j < |list| ensures list[i].documentId != list[j].documentId {
      assert list[i] in hits && list[j] in hits;
      if list[i] == list[j] {
        BeforeIrreflexive(list[i]);
      }
    }
  }

  lemma FlattenRankings(parts: seq<set<SearchResult>>)
    requires SeparateHits(parts)
    ensures Elements(Flatten(Rankings(parts))) == AllHits(parts)
  {
    var lists := Rankings(parts);
    RankingsSeparate(parts);
    forall h | h in Flatten(lists) ensures h in AllHits(parts) {
      var i := FlattenSource(lists, h);
      assert h in Elements(lists[i]);
    }
    forall h | h in AllHits(parts) ensures h in Flatten(lists) {
      var i :| 0 <= i < |parts| && h in parts[i];
      assert h in Elements(lists[i]);
      FlattenContains(lists, i, h);
    }
  }

  lemma {:induction false} TotalsAdd(parts: seq<set<SearchResult>>, limit: nat)
    requires SeparateHits(parts)
    ensures SumTotals(Pages(parts, limit)) == |Flatten(Rankings(parts))|
  {
    if parts != [] {
      var n := |parts| - 1;
      var init, last := parts[..n], parts[n];
      TotalsAdd(init, limit);
      RankingSorts(last);
      var pages, lists := Pages(parts, limit), Rankings(parts);
      assert pages[..n] == Pages(init, limit) && pages[n] == Page(last, limit);
      assert lists[..n] == Rankings(init) && lists[n] == Ranking(last);
      assert SumTotals(pages) == SumTotals(pages[..n]) + |last|;
      assert Flatten(lists) == Flatten(lists[..n]) + lists[n];
    }
  }

  // ---------------------------------------------------------------------------
  // Lexical search
  // ---------------------------------------------------------------------------

  ghost function IndexedCorpora(p: Pipeline, corpora: seq<Documents>): seq<Corpus> {
    seq(|corpora|, i requires 0 <= i < |corpora| => IndexedCorpus(p, corpora[i]))
  }

  lemma {:induction false} IndexOfUnion(p: Pipeline, corpora: seq<Documents>)
    ensures IndexedCorpus(p, UnionAll(corpora)) == UnionAll(IndexedCorpora(p, corpora))
  {
    if corpora != [] {
      var n := |corpora| - 1;
      IndexOfUnion(p, corpora[..n]);
      assert IndexedCorpora(p, corpora)[..n] == IndexedCorpora(p, corpora[..n]);
      IndexOfTwo(p, UnionAll(corpora[..n]), corpora[n]);
    }
  }

  lemma IndexOfTwo(p: Pipeline, a: Documents, b: Documents)
    ensures IndexedCorpus(p, a + b) == IndexedCorpus(p, a) + IndexedCorpus(p, b)
  {
    var i, j := IndexedCorpus(p, a), IndexedCorpus(p, b);
    forall d | d in a + b ensures (i + j)[d] == p.CountsOf((a + b)[d]) {
      assert d in j <==> d in b;
    }
    MapsAgree(IndexedCorpus(p, a + b), i + j);
  }

  ghost function StatsOfEach(p: Pipeline, corpora: seq<Documents>, terms: set<Term>): seq<CorpusStats> {
    seq(|corpora|, i requires 0 <= i < |corpora| => DocumentStats(p, corpora[i], terms))
  }

  /** Round one: the merged statistics are those of the union. */
  lemma MergedStatsOfUnion(p: Pipeline, corpora: seq<Documents>, terms: set<Term>)
    requires corpora != [] && PairwiseDisjoint(corpora)
    ensures Merged(StatsOfEach(p, corpora, terms)) == DocumentStats(p, UnionAll(corpora), terms)
  {
    IndexedParts(p, corpora);
    EachIsShardStats(p, corpora, terms);
    IndexOfUnion(p, corpora);
    MergedStatsAreExact(IndexedCorpora(p, corpora), terms);
  }

  lemma IndexedParts(p: Pipeline, corpora: seq<Documents>)
    requires PairwiseDisjoint(corpora)
    ensures AllWellCounted(IndexedCorpora(p, corpora)) && PairwiseDisjoint(IndexedCorpora(p, corpora))
  {
    var indexed := IndexedCorpora(p, corpora);
    forall i | 0 <= i < |indexed| ensures WellCounted(indexed[i]) {
      IndexedCorpusWellCounted(p, corpora[i]);
    }
    forall i, j | 0 <= i < j < |indexed| ensures indexed[i].Keys !! indexed[j].Keys {
      assert corpora[i].Keys !! corpora[j].Keys;
    }
  }

  lemma EachIsShardStats(p: Pipeline, corpora: seq<Documents>, terms: set<Term>)
    requires AllWellCounted(IndexedCorpora(p, corpora))
    ensures StatsOfEach(p, corpora, terms) == ShardStats(IndexedCorpora(p, corpora), terms)
  {
    var a, b := StatsOfEach(p, corpora, terms), ShardStats(IndexedCorpora(p, corpora), terms);
    forall i | 0 <= i < |corpora| ensures a[i] == b[i] {
      assert IndexedCorpora(p, corpora)[i] == IndexedCorpus(p, corpora[i]);
    }
  }

  /** So the statistics every shard scores with never count a term in more documents than
      there are, and the score bounds hold on every shard. */
  lemma MergedStatsConsistent(p: Pipeline, corpora: seq<Documents>, terms: seq<Term>)
    requires corpora != [] && PairwiseDisjoint(corpora)
    ensures Consistent(terms, Merged(StatsOfEach(p, corpora, TermSet(terms))))
  {
    MergedStatsOfUnion(p, corpora, TermSet(terms));
    IndexedCorpusWellCounted(p, UnionAll(corpora));
    OwnStatsConsistent(IndexedCorpus(p, UnionAll(corpora)), terms);
  }

  ghost function LexicalParts(
    p: Pipeline, corpora: seq<Documents>, terms: seq<Term>, stats: CorpusStats): seq<set<SearchResult>>
    requires p.Sound()
  {
    seq(|corpora|, i requires 0 <= i < |corpora| => LexicalHits(p, corpora[i], terms, stats))
  }

  /** A hit depends on its own document and the shared statistics only. */
  lemma LexicalHitIsLocal(
    p: Pipeline, documents: Documents, terms: seq<Term>, stats: CorpusStats, h: SearchResult)
    requires p.Sound()
    ensures h in LexicalHits(p, documents, terms, stats) <==>
              h.documentId in documents && IsLexicalHit(p, h.documentId, documents[h.documentId], terms, stats, h)
  {
    IndexedCorpusWellCounted(p, documents);
    var scores := Scores(p.scorer, IndexedCorpus(p, documents), terms, stats);
    if h.documentId in documents {
      assert IndexedCorpus(p, documents)[h.documentId] == p.CountsOf(documents[h.documentId]);
    }
  }

  ghost predicate IsLexicalHit(
    p: Pipeline, d: Id, text: Text, terms: seq<Term>, stats: CorpusStats, h: SearchResult)
    requires p.Sound()
  {
    CounterSum(p.analyzer.Analyze(text));
    && stats.AverageDocumentLength() != 0.0
    && Matches(p.CountsOf(text), terms)
    && stats.AverageDocumentLength() > 0.0
    && h == Hit(d, DocScore(p.scorer, p.CountsOf(text), terms, stats), text)
  }

  lemma LexicalUnion(p: Pipeline, corpora: seq<Documents>, terms: seq<Term>, stats: CorpusStats)
    requires p.Sound() && PairwiseDisjoint(corpora)
    ensures SeparateHits(LexicalParts(p, corpora, terms, stats))
    ensures AllHits(LexicalParts(p, corpora, terms, stats))
         == LexicalHits(p, UnionAll(corpora), terms, stats)
  {
    var parts := LexicalParts(p, corpora, terms, stats);
    forall i, h: SearchResult | 0 <= i < |parts| && h in parts[i]
      ensures h.documentId in corpora[i] && h in LexicalHits(p, UnionAll(corpora), terms, stats)
    {
      PartHitIsHit(p, corpora, terms, stats, i, h);
    }
    forall h | h in LexicalHits(p, UnionAll(corpora), terms, stats) ensures h in AllHits(parts) {
      HitIsPartHit(p, corpora, terms, stats, h);
    }
  }

  lemma PartHitIsHit(
    p: Pipeline, corpora: seq<Documents>, terms: seq<Term>, stats: CorpusStats, i: nat, h: SearchResult)
    requires p.Sound() && PairwiseDisjoint(corpora)
    requires i < |corpora| && h in LexicalHits(p, corpora[i], terms, stats)
    ensures h.documentId in corpora[i] && h in LexicalHits(p, UnionAll(corpora), terms, stats)
  {
    LexicalHitIsLocal(p, corpora[i], terms, stats, h);
    UnionAllAt(corpora, i, h.documentId);
    LexicalHitIsLocal(p, UnionAll(corpora), terms, stats, h);
  }

  lemma HitIsPartHit(
    p: Pipeline, corpora: seq<Documents>, terms: seq<Term>, stats: CorpusStats, h: SearchResult)
    requires p.Sound() && PairwiseDisjoint(corpora)
    requires h in LexicalHits(p, UnionAll(corpora), terms, stats)
    ensures h in AllHits(LexicalParts(p, corpora, terms, stats))
  {
    LexicalHitIsLocal(p, UnionAll(corpora), terms, stats, h);
    UnionAllKeys(corpora);
    var i :| 0 <= i < |corpora| && h.documentId in corpora[i];
    UnionAllAt(corpora, i, h.documentId);
    LexicalHitIsLocal(p, corpora[i], terms, stats, h);
    assert h in LexicalParts(p, corpora, terms, stats)[i];
  }

  ghost function LexicalPages(
    p: Pipeline, corpora: seq<Documents>, terms: seq<Term>, limit: nat, stats: CorpusStats)
    : seq<SearchResults>
    requires p.Sound()
  {
    seq(|corpora|, i requires 0 <= i < |corpora| => LexicalSearch(p, corpora[i], terms, limit, stats))
  }

  /** The two-round search as the coordinator performs it, on copies that hold `first` when
      statistics are collected and `second` when they score. */
  ghost function TwoRoundSearch(
    p: Pipeline, first: seq<Documents>, second: seq<Documents>, query: Text, limit: nat)
    : SearchResults
    requires p.Sound()
  {
    var terms := p.analyzer.Analyze(query);
    if terms == [] then SearchResults(0, [])
    else
      var stats := Merged(StatsOfEach(p, first, TermSet(terms)));
      if stats.documentCount == 0 then SearchResults(0, [])
      else MergeResults(LexicalPages(p, second, terms, limit, stats), limit)
  }

  /** With pinned copies that stand still between the rounds. */
  ghost function DistributedSearch(p: Pipeline, corpora: seq<Documents>, query: Text, limit: nat)
    : SearchResults
    requires p.Sound()
  {
    TwoRoundSearch(p, corpora, corpora, query, limit)
  }

  /** When a write lands on a pinned copy between the rounds, the ranking is still that of one
      engine holding what the copies hold in the second round, but scored with the statistics
      of what they held in the first. */
  lemma RoundsThatDiffer(
    p: Pipeline, first: seq<Documents>, second: seq<Documents>, query: Text, limit: nat)
    requires p.Sound() && first != [] && PairwiseDisjoint(first) && PairwiseDisjoint(second)
    ensures TwoRoundSearch(p, first, second, query, limit)
         == SearchAcross(p, UnionAll(first), UnionAll(second), query, limit)
  {
    var terms := p.analyzer.Analyze(query);
    if terms != [] {
      MergedStatsOfUnion(p, first, TermSet(terms));
      var stats := DocumentStats(p, UnionAll(first), TermSet(terms));
      if stats.documentCount == 0 {
        NothingToFind(p, UnionAll(second), terms, limit, stats);
      } else {
        RoundTwo(p, second, terms, limit, stats);
      }
    }
  }

  /** The two corpora agree on all that scoring a query takes from a corpus: how many
      documents, how many tokens, and how many documents each term is in. */
  ghost predicate SameNumbers(p: Pipeline, a: Documents, b: Documents, terms: seq<Term>) {
    var i, j := IndexedCorpus(p, a), IndexedCorpus(p, b);
    && |a| == |b| && Sum(Lengths(i)) == Sum(Lengths(j))
    && forall t :: t in terms ==> |PostingsOf(i, t)| == |PostingsOf(j, t)|
  }

  lemma SameNumbersSameStats(p: Pipeline, a: Documents, b: Documents, terms: seq<Term>)
    ensures SameNumbers(p, a, b, terms)
            <==> DocumentStats(p, a, TermSet(terms)) == DocumentStats(p, b, TermSet(terms))
  {
    IndexedCorpusWellCounted(p, a);
    IndexedCorpusWellCounted(p, b);
    StatsAgreeIff(IndexedCorpus(p, a), IndexedCorpus(p, b), TermSet(terms));
    IndexedSize(p, a);
    IndexedSize(p, b);
    assert forall t :: t in terms <==> t in TermSet(terms);
  }

  lemma IndexedSize(p: Pipeline, documents: Documents)
    ensures |IndexedCorpus(p, documents)| == |documents|
  {
    assert IndexedCorpus(p, documents).Keys == documents.Keys;
  }

  /** A write that lands between the rounds can cost a hit: for any query with terms, a
      document with the text of the query, stored on an empty cluster after the statistics
      were collected, is not found, though one engine holding it finds it. */
  lemma LateWriteIsMissed(p: Pipeline, query: Text, id: Id)
    requires p.Sound() && p.analyzer.Analyze(query) != []
    ensures TwoRoundSearch(p, [map[]], [map[id := query]], query, 1) == SearchResults(0, [])
    ensures SingleNodeSearch(p, map[id := query], query, 1).total == 1
  {
    var terms, stored := p.analyzer.Analyze(query), map[id := query];
    var nothing: Documents := map[];
    UnionOfOne(nothing);
    UnionOfOne(stored);
    RoundsThatDiffer(p, [nothing], [stored], query, 1);
    NothingToFind(p, stored, terms, 1, DocumentStats(p, nothing, TermSet(terms)));
    OnlyHit(p, query, id);
  }

  lemma UnionOfOne(documents: Documents)
    ensures UnionAll([documents]) == documents
  {
    var one := [documents];
    assert one[..|one| - 1] == [];
    assert UnionAll(one[..|one| - 1]) == map[];
  }

  lemma OnlyHit(p: Pipeline, query: Text, id: Id)
    requires p.Sound() && p.analyzer.Analyze(query) != []
    ensures var terms, stored := p.analyzer.Analyze(query), map[id := query];
            |LexicalHits(p, stored, terms, DocumentStats(p, stored, TermSet(terms)))| == 1
  {
    var terms, stored := p.analyzer.Analyze(query), map[id := query];
    var stats := DocumentStats(p, stored, TermSet(terms));
    StatsOfOne(p, query, id);
    CounterSum(terms);
    OnlyMember(terms);
    HitsOfOne(p, query, id, terms, stats);
  }

  lemma HitsOfOne(p: Pipeline, text: Text, id: Id, terms: seq<Term>, stats: CorpusStats)
    requires p.Sound() && stats.AverageDocumentLength() > 0.0 && Matches(p.CountsOf(text), terms)
    ensures |LexicalHits(p, map[id := text], terms, stats)| == 1
  {
    CounterSum(p.analyzer.Analyze(text));
    var hits := LexicalHits(p, map[id := text], terms, stats);
    var only := Hit(id, DocScore(p.scorer, p.CountsOf(text), terms, stats), text);
    forall h ensures h in hits <==> h == only {
      LexicalHitIsLocal(p, map[id := text], terms, stats, h);
    }
    assert hits == {only};
  }

  lemma StatsOfOne(p: Pipeline, text: Text, id: Id)
    ensures var stats := DocumentStats(p, map[id := text], TermSet(p.analyzer.Analyze(text)));
            stats.documentCount == 1 && stats.totalDocumentLength == |p.analyzer.Analyze(text)|
  {
    var tokens := p.analyzer.Analyze(text);
    CounterSum(tokens);
    IndexedSize(p, map[id := text]);
    var one: Documents := map[id := text];
    MapsAgree(IndexedCorpus(p, one), map[id := Counter(tokens)]);
    LengthOfOne(id, Counter(tokens));
  }

  lemma LengthOfOne(id: Id, counts: Counts)
    ensures Sum(Lengths(map[id := counts])) == Sum(counts)
  {
    assert Lengths(map[id := counts]) == map[id := Sum(counts)];
    SumInsert(map[], id, Sum(counts));
  }

  lemma OnlyMember(terms: seq<Term>)
    requires terms != []
    ensures Matches(Counter(terms), terms)
  {
    assert terms[0] in terms && terms[0] in Counter(terms);
  }

  /** So it is the single-node answer, at every limit, exactly when every hit scores the same
      under both statistics, which equal numbers ensure. */
  lemma RoundsThatDifferHarmlessly(p: Pipeline, first: seq<Documents>, second: seq<Documents>, query: Text)
    requires p.Sound() && first != [] && PairwiseDisjoint(first) && PairwiseDisjoint(second)
    requires p.analyzer.Analyze(query) != []
    ensures var terms, corpus := p.analyzer.Analyze(query), UnionAll(second);
            var collected := DocumentStats(p, UnionAll(first), TermSet(terms));
            var current := DocumentStats(p, corpus, TermSet(terms));
            && ((forall limit: nat :: TwoRoundSearch(p, first, second, query, limit)
                                   == SingleNodeSearch(p, corpus, query, limit))
                <==> LexicalHits(p, corpus, terms, collected) == LexicalHits(p, corpus, terms, current))
            && (SameNumbers(p, UnionAll(first), corpus, terms) ==>
                  LexicalHits(p, corpus, terms, collected) == LexicalHits(p, corpus, terms, current))
  {
    var terms, corpus := p.analyzer.Analyze(query), UnionAll(second);
    var collected := DocumentStats(p, UnionAll(first), TermSet(terms));
    var current := DocumentStats(p, corpus, TermSet(terms));
    var a, b := LexicalHits(p, corpus, terms, collected), LexicalHits(p, corpus, terms, current);
    forall limit: nat
      ensures TwoRoundSearch(p, first, second, query, limit) == Page(a, limit)
      ensures SingleNodeSearch(p, corpus, query, limit) == Page(b, limit)
    {
      RoundsThatDiffer(p, first, second, query, limit);
    }
    LexicalHitsDistinct(p, corpus, terms, collected);
    LexicalHitsDistinct(p, corpus, terms, current);
    PagesAgreeIff(a, b);
    SameNumbersSameStats(p, UnionAll(first), corpus, terms);
  }

  lemma PagesAgreeIff(a: set<SearchResult>, b: set<SearchResult>)
    requires DistinctIds(a) && DistinctIds(b)
    ensures (forall limit: nat :: Page(a, limit) == Page(b, limit)) <==> a == b
  {
    var all := |a| + |b|;
    WholePage(a, all);
    WholePage(b, all);
  }

  lemma LexicalHitsDistinct(p: Pipeline, documents: Documents, terms: seq<Term>, stats: CorpusStats)
    requires p.Sound()
    ensures DistinctIds(LexicalHits(p, documents, terms, stats))
  {
  }

  lemma WholePage(hits: set<SearchResult>, limit: nat)
    requires DistinctIds(hits) && limit >= |hits|
    ensures Elements(Page(hits, limit).results) == hits
  {
    RankingSorts(hits);
  }

  /** The ranking guarantee: same documents, scores, order and total as one engine holding
      everything, for every partition, query and limit. */
  lemma DistributedEqualsSingleNode(p: Pipeline, corpora: seq<Documents>, query: Text, limit: nat)
    requires p.Sound() && corpora != [] && PairwiseDisjoint(corpora)
    ensures DistributedSearch(p, corpora, query, limit)
         == SingleNodeSearch(p, UnionAll(corpora), query, limit)
  {
    RoundsThatDiffer(p, corpora, corpora, query, limit);
  }

  /** Round two: local pages scored with shared statistics merge into the global page. */
  lemma RoundTwo(
    p: Pipeline, corpora: seq<Documents>, terms: seq<Term>, limit: nat, stats: CorpusStats)
    requires p.Sound() && PairwiseDisjoint(corpora) && terms != []
    ensures MergeResults(LexicalPages(p, corpora, terms, limit, stats), limit)
         == LexicalSearch(p, UnionAll(corpora), terms, limit, stats)
  {
    LexicalUnion(p, corpora, terms, stats);
    var parts := LexicalParts(p, corpora, terms, stats);
    assert LexicalPages(p, corpora, terms, limit, stats) == Pages(parts, limit);
    MergeOfPages(parts, limit);
  }

  lemma NothingToFind(p: Pipeline, documents: Documents, terms: seq<Term>, limit: nat, stats: CorpusStats)
    requires p.Sound() && stats.documentCount == 0
    ensures LexicalSearch(p, documents, terms, limit, stats) == SearchResults(0, [])
  {
    assert LexicalHits(p, documents, terms, stats) == {};
  }

  // ---------------------------------------------------------------------------
  // Semantic search
  // ---------------------------------------------------------------------------

  ghost function SemanticPages(p: Pipeline, corpora: seq<Documents>, vector: Vector, limit: nat)
    : seq<SearchResults>
    requires p.Sound() && p.embedder.Some? && |vector| == p.embedder.value.dimension
  {
    seq(|corpora|, i requires 0 <= i < |corpora| => SemanticSearch(p, corpora[i], vector, limit))
  }

  ghost function SemanticParts(p: Pipeline, corpora: seq<Documents>, vector: Vector)
    : seq<set<SearchResult>>
    requires p.Sound() && p.embedder.Some? && |vector| == p.embedder.value.dimension
  {
    seq(|corpora|, i requires 0 <= i < |corpora| => SemanticHits(p, corpora[i], vector))
  }

  /** Every document is a semantic hit, so the total is the corpus size. */
  lemma SemanticPage(p: Pipeline, documents: Documents, vector: Vector, limit: nat)
    requires p.Sound() && p.embedder.Some? && |vector| == p.embedder.value.dimension
    ensures SemanticSearch(p, documents, vector, limit) == Page(SemanticHits(p, documents, vector), limit)
    ensures DistinctIds(SemanticHits(p, documents, vector))
  {
    var byId: map<Id, SearchResult> := map d | d in documents ::
      Hit(d, Dot(p.embedder.value.embed(documents[d]), vector), documents[d]);
    ValuesByKey(byId);
    assert byId.Keys == documents.Keys;
    forall h ensures h in byId.Values <==> h in SemanticHits(p, documents, vector) {
      SemanticHitIsLocal(p, documents, vector, h);
      if h in SemanticHits(p, documents, vector) {
        assert byId[h.documentId] == h;
      }
    }
    assert byId.Values == SemanticHits(p, documents, vector);
    assert |byId.Keys| == |documents.Keys|;
  }

  lemma SemanticHitIsLocal(p: Pipeline, documents: Documents, vector: Vector, h: SearchResult)
    requires p.Sound() && p.embedder.Some? && |vector| == p.embedder.value.dimension
    ensures h in SemanticHits(p, documents, vector) <==>
              && h.documentId in documents
              && h == Hit(h.documentId,
                          Dot(p.embedder.value.embed(documents[h.documentId]), vector),
                          documents[h.documentId])
  {
  }

  lemma SemanticUnion(p: Pipeline, corpora: seq<Documents>, vector: Vector)
    requires p.Sound() && p.embedder.Some? && |vector| == p.embedder.value.dimension
    requires PairwiseDisjoint(corpora)
    ensures SeparateHits(SemanticParts(p, corpora, vector))
    ensures AllHits(SemanticParts(p, corpora, vector)) == SemanticHits(p, UnionAll(corpora), vector)
  {
    var parts := SemanticParts(p, corpora, vector);
    var whole := SemanticHits(p, UnionAll(corpora), vector);
    UnionAllKeys(corpora);
    forall i, h: SearchResult | 0 <= i < |parts| && h in parts[i] ensures h.documentId in corpora[i] && h in whole {
      SemanticHitIsLocal(p, corpora[i], vector, h);
      UnionAllAt(corpora, i, h.documentId);
      SemanticHitIsLocal(p, UnionAll(corpora), vector, h);
    }
    forall h | h in whole ensures h in AllHits(parts) {
      SemanticHitIsLocal(p, UnionAll(corpora), vector, h);
      var i :| 0 <= i < |corpora| && h.documentId in corpora[i];
      UnionAllAt(corpora, i, h.documentId);
      SemanticHitIsLocal(p, corpora[i], vector, h);
      assert h in parts[i];
    }
  }

  lemma DistributedSemanticEqualsSingleNode(
    p: Pipeline, corpora: seq<Documents>, vector: Vector, limit: nat)
    requires p.Sound() && p.embedder.Some? && |vector| == p.embedder.value.dimension
    requires PairwiseDisjoint(corpora)
    ensures MergeResults(SemanticPages(p, corpora, vector, limit), limit)
         == SemanticSearch(p, UnionAll(corpora), vector, limit)
  {
    SemanticUnion(p, corpora, vector);
    var parts := SemanticParts(p, corpora, vector);
    forall i | 0 <= i < |corpora|
      ensures SemanticSearch(p, corpora[i], vector, limit) == Page(parts[i], limit)
    {
      SemanticPage(p, corpora[i], vector, limit);
    }
    assert SemanticPages(p, corpora, vector, limit) == Pages(parts, limit);
    MergeOfPages(parts, limit);
    SemanticPage(p, UnionAll(corpora), vector, limit);
  }

  // ---------------------------------------------------------------------------
  // Hybrid search
  // ---------------------------------------------------------------------------

  ghost function DistributedHybrid(
    p: Pipeline, lexical: seq<Documents>, semantic: seq<Documents>, query: Text, limit: nat,
    config: FusionConfig): HybridResults
    requires p.Sound() && p.embedder.Some? && config.Accepted() && config.CandidateDepth(limit) >= 1
  {
    if p.analyzer.Analyze(query) == [] then HybridResults(0, [])
    else
      var depth := config.CandidateDepth(limit);
      FusedResults(
        DistributedSearch(p, lexical, query, depth).results,
        MergeResults(SemanticPages(p, semantic, p.embedder.value.embedQuery(query), depth), depth).results,
        limit, config.rrfK)
  }

  /** The two fan-outs choose copies independently, so their corpora must be the same. */
  lemma DistributedHybridEqualsSingleNode(
    p: Pipeline, corpora: seq<Documents>, query: Text, limit: nat, config: FusionConfig)
    requires p.Sound() && p.embedder.Some? && config.Accepted() && config.CandidateDepth(limit) >= 1
    requires corpora != [] && PairwiseDisjoint(corpora)
    ensures DistributedHybrid(p, corpora, corpora, query, limit, config)
         == HybridSearch(p, UnionAll(corpora), query, limit, config)
  {
    if p.analyzer.Analyze(query) != [] {
      var depth := config.CandidateDepth(limit);
      DistributedEqualsSingleNode(p, corpora, query, depth);
      DistributedSemanticEqualsSingleNode(p, corpora, p.embedder.value.embedQuery(query), depth);
    }
  }
}
