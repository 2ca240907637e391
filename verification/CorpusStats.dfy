/** Corpus statistics for BM25, and their exact combination across shards. */
module Statistics {
  import opened Basics
  import opened InvertedIndexes

  datatype CorpusStats = CorpusStats(
    documentCount: nat,
    totalDocumentLength: nat,
    documentFrequencies: map<Term, nat>)
  {
    /** `avgdl`, or zero for an empty corpus. */
    function AverageDocumentLength(): real {
      if documentCount == 0 then 0.0
      else totalDocumentLength as real / documentCount as real
    }

    /** `df`, or zero for a term that was never collected. */
    function DocumentFrequency(t: Term): nat {
      if t in documentFrequencies then documentFrequencies[t] else 0
    }
  }

  // ---------------------------------------------------------------------------
  // Statistics of a corpus
  // ---------------------------------------------------------------------------

  lemma LengthsNonNegative(corpus: Corpus)
    requires WellCounted(corpus)
    ensures forall d :: d in corpus ==> 0 <= Lengths(corpus)[d] <= Sum(Lengths(corpus))
    ensures Sum(Lengths(corpus)) >= 0
  {
    forall d | d in corpus ensures Sum(corpus[d]) >= 0 {
      SumNonNegative(corpus[d]);
    }
    SumNonNegative(Lengths(corpus));
  }

  ghost function Frequencies(corpus: Corpus, terms: set<Term>): map<Term, nat> {
    map t | t in terms :: |PostingsOf(corpus, t)|
  }

  ghost function StatsOf(corpus: Corpus, terms: set<Term>): CorpusStats
    requires WellCounted(corpus)
  {
    LengthsNonNegative(corpus);
    CorpusStats(|corpus|, Sum(Lengths(corpus)), Frequencies(corpus, terms))
  }

  /** No term is in more documents than there are. */
  lemma FrequencyAtMostCount(corpus: Corpus, t: Term)
    ensures |PostingsOf(corpus, t)| <= |corpus|
  {
    assert corpus.Keys == PostingsOf(corpus, t).Keys + (corpus.Keys - PostingsOf(corpus, t).Keys);
  }

  /** What the statistics of a corpus are: how many documents, how many tokens they have
      together, and in how many of them each requested term occurs. */
  lemma StatsMean(corpus: Corpus, terms: set<Term>, t: Term)
    requires WellCounted(corpus)
    ensures var stats := StatsOf(corpus, terms);
            && stats.documentCount == |corpus.Keys| && stats.totalDocumentLength == Sum(Lengths(corpus))
            && stats.DocumentFrequency(t) == (if t in terms then |Holders(corpus, t)| else 0)
    ensures Lengths(corpus).Keys == corpus.Keys
    ensures forall d :: d in corpus ==> Lengths(corpus)[d] == Sum(corpus[d])
  {
    assert PostingsOf(corpus, t).Keys == Holders(corpus, t);
  }

  ghost function Holders(corpus: Corpus, t: Term): set<Id> {
    set d | d in corpus && t in corpus[d]
  }

  /** The average is the total over the count; only an empty corpus has neither. */
  lemma AverageTimesCount(stats: CorpusStats)
    ensures stats.documentCount > 0 ==>
              stats.AverageDocumentLength() * stats.documentCount as real == stats.totalDocumentLength as real
    ensures stats.documentCount == 0 ==> stats.AverageDocumentLength() == 0.0
  {
  }

  /** A document with a token makes the average positive. */
  lemma TokensMakeAverage(corpus: Corpus, terms: set<Term>, d: Id)
    requires WellCounted(corpus) && d in corpus && Sum(corpus[d]) >= 1
    ensures StatsOf(corpus, terms).AverageDocumentLength() > 0.0
  {
    LengthsNonNegative(corpus);
    assert Lengths(corpus)[d] >= 1;
    assert |corpus| > 0;
    AverageIsZeroIff(StatsOf(corpus, terms));
  }

  lemma AverageIsZeroIff(stats: CorpusStats)
    ensures stats.AverageDocumentLength() == 0.0 <==>
              stats.documentCount == 0 || stats.totalDocumentLength == 0
    ensures stats.AverageDocumentLength() >= 0.0
  {
  }

  /** Statistics are three numbers and nothing else. */
  lemma StatsAgreeIff(a: Corpus, b: Corpus, terms: set<Term>)
    requires WellCounted(a) && WellCounted(b)
    ensures StatsOf(a, terms) == StatsOf(b, terms) <==>
              && |a| == |b| && Sum(Lengths(a)) == Sum(Lengths(b))
              && forall t :: t in terms ==> |PostingsOf(a, t)| == |PostingsOf(b, t)|
  {
    FrequenciesAgreeIff(a, b, terms);
  }

  lemma FrequenciesAgreeIff(a: Corpus, b: Corpus, terms: set<Term>)
    ensures Frequencies(a, terms) == Frequencies(b, terms) <==>
              forall t :: t in terms ==> |PostingsOf(a, t)| == |PostingsOf(b, t)|
  {
    var x, y := Frequencies(a, terms), Frequencies(b, terms);
    assert x.Keys == y.Keys == terms;
    assert forall t :: t in terms ==> x[t] == |PostingsOf(a, t)| && y[t] == |PostingsOf(b, t)|;
  }

  method CollectStats(index: InvertedIndex, terms: seq<Term>) returns (stats: CorpusStats)
    requires index.Valid()
    ensures stats == StatsOf(index.corpus, set t | t in terms)
  {
    LengthsNonNegative(index.corpus);
    forall t | t in terms
      ensures index.DocumentFrequency(t) == |PostingsOf(index.corpus, t)|
    {
      index.PostingMapMeans(t);
    }
    stats := CorpusStats(index.DocumentCount(), index.totalLength,
                         map t | t in terms :: index.DocumentFrequency(t));
    assert index.documentLengths.Keys == index.corpus.Keys;
  }

  // ---------------------------------------------------------------------------
  // Merging
  // ---------------------------------------------------------------------------

  function Combine(a: CorpusStats, b: CorpusStats): CorpusStats {
    CorpusStats(
      a.documentCount + b.documentCount,
      a.totalDocumentLength + b.totalDocumentLength,
      AddCounts(a.documentFrequencies, b.documentFrequencies))
  }

  /** Adds two frequency maps, reading a missing term as zero. */
  function AddCounts(a: map<Term, nat>, b: map<Term, nat>): map<Term, nat> {
    map t | t in a.Keys + b.Keys :: (if t in a then a[t] else 0) + (if t in b then b[t] else 0)
  }

  function Merged(parts: seq<CorpusStats>): CorpusStats {
    if parts == [] then CorpusStats(0, 0, map[])
    else Combine(Merged(parts[..|parts| - 1]), parts[|parts| - 1])
  }

  method MergeCorpusStats(parts: seq<CorpusStats>) returns (merged: CorpusStats)
    ensures merged == Merged(parts)
  {
    var documentCount: nat, totalDocumentLength: nat := 0, 0;
    var documentFrequencies: map<Term, nat> := map[];
    var i := 0;
    while i < |parts|
      invariant 0 <= i <= |parts|
      invariant CorpusStats(documentCount, totalDocumentLength, documentFrequencies)
             == Merged(parts[..i])
    {
      var part := parts[i];
      assert parts[..i + 1][..i] == parts[..i];
      documentCount := documentCount + part.documentCount;
      totalDocumentLength := totalDocumentLength + part.totalDocumentLength;
      documentFrequencies := AddFrequencies(documentFrequencies, part.documentFrequencies);
      i := i + 1;
    }
    assert parts[..i] == parts;
    merged := CorpusStats(documentCount, totalDocumentLength, documentFrequencies);
  }

  method AddFrequencies(base: map<Term, nat>, more: map<Term, nat>) returns (sum: map<Term, nat>)
    ensures sum == AddCounts(base, more)
  {
    sum := base;
    var rest := more.Keys;
    while rest != {}
      invariant rest <= more.Keys
      invariant sum.Keys == base.Keys + (more.Keys - rest)
      invariant forall t :: t in sum ==>
                  sum[t] == (if t in base then base[t] else 0)
                          + (if t in more && t !in rest then more[t] else 0)
    {
      var t :| t in rest;
      sum := sum[t := (if t in sum then sum[t] else 0) + more[t]];
      rest := rest - {t};
    }
  }

  /** Statistics of disjoint corpora add up exactly. */
  lemma StatsOfUnion(a: Corpus, b: Corpus, terms: set<Term>)
    requires WellCounted(a) && WellCounted(b) && a.Keys !! b.Keys
    ensures WellCounted(a + b)
    ensures Combine(StatsOf(a, terms), StatsOf(b, terms)) == StatsOf(a + b, terms)
  {
    UnionOfWellCounted(a, b);
    UnionSize(a, b);
    TotalOfUnion(a, b);
    FrequenciesOfUnion(a, b, terms);
  }

  lemma TotalOfUnion(a: Corpus, b: Corpus)
    requires a.Keys !! b.Keys
    ensures Sum(Lengths(a + b)) == Sum(Lengths(a)) + Sum(Lengths(b))
  {
    LengthsOfUnion(a, b);
    SumUnion(Lengths(a), Lengths(b));
  }

  lemma UnionOfWellCounted(a: Corpus, b: Corpus)
    requires WellCounted(a) && WellCounted(b) && a.Keys !! b.Keys
    ensures WellCounted(a + b)
  {
  }

  lemma LengthsOfUnion(a: Corpus, b: Corpus)
    requires a.Keys !! b.Keys
    ensures Lengths(a + b) == Lengths(a) + Lengths(b)
  {
    var l, r := Lengths(a + b), Lengths(a) + Lengths(b);
    assert l.Keys == r.Keys;
    assert forall d :: d in l ==> l[d] == r[d];
  }

  lemma FrequenciesOfUnion(a: Corpus, b: Corpus, terms: set<Term>)
    requires a.Keys !! b.Keys
    ensures AddCounts(Frequencies(a, terms), Frequencies(b, terms)) == Frequencies(a + b, terms)
  {
    var l, r := AddCounts(Frequencies(a, terms), Frequencies(b, terms)), Frequencies(a + b, terms);
    forall t | t in terms ensures l[t] == r[t] {
      FrequencyOfUnion(a, b, t);
    }
    assert l.Keys == r.Keys;
  }

  lemma FrequencyOfUnion(a: Corpus, b: Corpus, t: Term)
    requires a.Keys !! b.Keys
    ensures |PostingsOf(a + b, t)| == |PostingsOf(a, t)| + |PostingsOf(b, t)|
  {
    PostingsOfUnion(a, b, t);
    UnionSize(PostingsOf(a, t), PostingsOf(b, t));
  }

  lemma PostingsOfUnion(a: Corpus, b: Corpus, t: Term)
    requires a.Keys !! b.Keys
    ensures PostingsOf(a + b, t) == PostingsOf(a, t) + PostingsOf(b, t)
    ensures PostingsOf(a, t).Keys !! PostingsOf(b, t).Keys
  {
  }

  ghost predicate AllWellCounted(corpora: seq<Corpus>) {
    forall i :: 0 <= i < |corpora| ==> WellCounted(corpora[i])
  }

  lemma {:induction false} UnionWellCounted(corpora: seq<Corpus>)
    requires AllWellCounted(corpora) && PairwiseDisjoint(corpora)
    ensures WellCounted(UnionAll(corpora))
  {
    UnionAllKeys(corpora);
    forall d | d in UnionAll(corpora) ensures Positive(UnionAll(corpora)[d])
    {
      var i :| 0 <= i < |corpora| && d in corpora[i];
      UnionAllAt(corpora, i, d);
    }
  }

  ghost function ShardStats(corpora: seq<Corpus>, terms: set<Term>): seq<CorpusStats>
    requires AllWellCounted(corpora)
  {
    seq(|corpora|, i requires 0 <= i < |corpora| => StatsOf(corpora[i], terms))
  }

  /** Round one of distributed search: merging one copy's statistics per shard gives the
      statistics of the whole corpus, not an estimate of them. */
  lemma {:induction false} MergedStatsAreExact(corpora: seq<Corpus>, terms: set<Term>)
    requires corpora != [] && AllWellCounted(corpora) && PairwiseDisjoint(corpora)
    ensures WellCounted(UnionAll(corpora))
    ensures Merged(ShardStats(corpora, terms)) == StatsOf(UnionAll(corpora), terms)
    decreases |corpora|
  {
    UnionWellCounted(corpora);
    UnionAllLast(corpora);
    var n := |corpora| - 1;
    var init, last := corpora[..n], corpora[n];
    assert ShardStats(corpora, terms)[..n] == ShardStats(init, terms);
    if n == 0 {
      assert UnionAll(corpora) == last;
      NothingPlus(StatsOf(last, terms));
    } else {
      MergedStatsAreExact(init, terms);
      StatsOfUnion(UnionAll(init), last, terms);
    }
  }

  lemma NothingPlus(stats: CorpusStats)
    ensures Combine(Merged([]), stats) == stats
  {
    assert Combine(Merged([]), stats).documentFrequencies == stats.documentFrequencies;
  }
}
