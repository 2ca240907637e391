/** BM25 scoring.

    Arithmetic is over the reals.  The natural logarithm is a parameter of the scorer;
    the bounds below need only that it is positive exactly above one. */
module BM25 {
  import opened Basics
  import opened InvertedIndexes
  import opened Statistics

  datatype Scorer = Scorer(k1: real, b: real, ln: real -> real) {
    /** Parameters for which no denominator can vanish. */
    ghost predicate Usable() {
      k1 >= 0.0 && 0.0 <= b <= 1.0
    }

    ghost predicate LogLike() {
      forall x :: x > 0.0 ==> (ln(x) > 0.0 <==> x > 1.0)
    }

    function InverseDocumentFrequency(documentFrequency: nat, documentCount: nat): real {
      var numerator := documentCount as real - documentFrequency as real + 0.5;
      var denominator := documentFrequency as real + 0.5;
      ln(1.0 + numerator / denominator)
    }

    function LengthFactor(dl: int, averageLength: real): (f: real)
      requires Usable() && dl >= 0 && averageLength > 0.0
      ensures f >= 0.0
    {
      var lengthRatio := dl as real / averageLength;
      assert b * lengthRatio >= 0.0;
      1.0 - b + b * lengthRatio
    }

    function LengthPenalty(dl: int, averageLength: real): (p: real)
      requires Usable() && dl >= 0 && averageLength > 0.0
      ensures p >= 0.0
    {
      k1 * LengthFactor(dl, averageLength)
    }

    function Saturation(tf: int, dl: int, averageLength: real): (s: real)
      requires Usable() && tf >= 1 && dl >= 0 && averageLength > 0.0
      ensures s >= tf as real
    {
      tf as real + LengthPenalty(dl, averageLength)
    }

    function Contribution(idf: real, tf: int, dl: int, averageLength: real): real
      requires Usable() && tf >= 1 && dl >= 0 && averageLength > 0.0
    {
      idf * (tf as real * (k1 + 1.0)) / Saturation(tf, dl, averageLength)
    }
  }

  // ---------------------------------------------------------------------------
  // Specification: a document's score is a function of its counts and the statistics
  // ---------------------------------------------------------------------------

  ghost predicate Scorable(sc: Scorer, counts: Counts, stats: CorpusStats) {
    sc.Usable() && Positive(counts) && stats.AverageDocumentLength() > 0.0
  }

  ghost function TermScore(sc: Scorer, counts: Counts, t: Term, stats: CorpusStats): real
    requires Scorable(sc, counts, stats)
  {
    if t in counts then
      SumNonNegative(counts);
      sc.Contribution(
        sc.InverseDocumentFrequency(stats.DocumentFrequency(t), stats.documentCount),
        counts[t], Sum(counts), stats.AverageDocumentLength())
    else 0.0
  }

  ghost function SumOver(terms: seq<Term>, f: Term -> real): real {
    if terms == [] then 0.0
    else SumOver(terms[..|terms| - 1], f) + f(terms[|terms| - 1])
  }

  /** The sum over the query's terms, a repeated term counting each time. */
  ghost function DocScore(sc: Scorer, counts: Counts, terms: seq<Term>, stats: CorpusStats): real
    requires Scorable(sc, counts, stats)
  {
    SumOver(terms, TermScorer(sc, counts, stats))
  }

  ghost function TermScorer(sc: Scorer, counts: Counts, stats: CorpusStats): Term -> real
    requires Scorable(sc, counts, stats)
  {
    t => TermScore(sc, counts, t, stats)
  }

  ghost predicate Matches(counts: Counts, terms: seq<Term>) {
    exists t :: t in terms && t in counts
  }

  /** Exactly the documents containing a query term, each with its score. */
  ghost function Scores(sc: Scorer, corpus: Corpus, terms: seq<Term>, stats: CorpusStats): map<Id, real>
    requires sc.Usable() && WellCounted(corpus)
  {
    if stats.AverageDocumentLength() == 0.0 then map[]
    else map d | d in corpus && Matches(corpus[d], terms) :: DocScore(sc, corpus[d], terms, stats)
  }

  function TermSet(terms: seq<Term>): set<Term> {
    set t | t in terms
  }

  // ---------------------------------------------------------------------------
  // The accumulation loop
  // ---------------------------------------------------------------------------

  method ScoreQuery(
    sc: Scorer, index: InvertedIndex, terms: seq<Term>, corpusStats: Option<CorpusStats>)
    returns (scores: map<Id, real>)
    requires sc.Usable() && index.Valid()
    ensures scores == Scores(sc, index.corpus, terms,
              if corpusStats.Some? then corpusStats.value
              else StatsOf(index.corpus, TermSet(terms)))
  {
    var stats: CorpusStats;
    if corpusStats.Some? {
      stats := corpusStats.value;
    } else {
      stats := CollectStats(index, terms);
    }
    // An empty corpus, or one of empty documents, has nothing to score.
    if stats.documentCount == 0 || stats.AverageDocumentLength() == 0.0 {
      return map[];
    }
    scores := AccumulateScores(
      sc, index.postings, index.documentLengths, index.corpus, terms, stats);
  }

  method AccumulateScores(
    sc: Scorer, postings: map<Term, map<Id, int>>, lengths: map<Id, int>, ghost corpus: Corpus,
    terms: seq<Term>, stats: CorpusStats)
    returns (scores: map<Id, real>)
    requires sc.Usable() && WellCounted(corpus)
    requires postings == AllPostings(corpus) && lengths == Lengths(corpus)
    requires stats.AverageDocumentLength() > 0.0
    ensures scores == Scores(sc, corpus, terms, stats)
  {
    scores := map[];
    NoTermsNoScores(sc, corpus, stats);
    ghost var earlier: seq<Term> := [];
    var i := 0;
    while i < |terms|
      invariant 0 <= i <= |terms|
      invariant earlier == terms[..i]
      invariant scores == Scores(sc, corpus, earlier, stats)
    {
      NextTerm(sc, corpus, earlier, terms[i], stats);
      scores := ScoreTerm(sc, postings, lengths, corpus, terms[i], stats, scores);
      earlier := earlier + [terms[i]];
      i := i + 1;
    }
    assert earlier == terms;
  }

  /** One pass of the outer loop; a term nobody contains is skipped. */
  method ScoreTerm(
    sc: Scorer, postings: map<Term, map<Id, int>>, lengths: map<Id, int>, ghost corpus: Corpus,
    t: Term, stats: CorpusStats, before: map<Id, real>)
    returns (scores: map<Id, real>)
    requires sc.Usable() && WellCounted(corpus)
    requires postings == AllPostings(corpus) && lengths == Lengths(corpus)
    requires stats.AverageDocumentLength() > 0.0
    ensures scores == AddScores(before, TermScores(sc, corpus, t, stats))
  {
    PostingsAt(corpus, t);
    var list := if t in postings then postings[t] else map[];
    TermGains(sc, corpus, t, stats);
    if list == map[] {
      return before;
    }
    var idf := sc.InverseDocumentFrequency(stats.DocumentFrequency(t), stats.documentCount);
    scores := AddTerm(sc, list, lengths, idf, stats.AverageDocumentLength(),
                      before, TermScores(sc, corpus, t, stats));
  }

  /** Adds one query term's contribution to every document on its posting list. */
  method AddTerm(
    sc: Scorer, postings: map<Id, int>, lengths: map<Id, int>, idf: real, averageLength: real,
    before: map<Id, real>, ghost gains: map<Id, real>)
    returns (scores: map<Id, real>)
    requires sc.Usable() && averageLength > 0.0
    requires gains.Keys == postings.Keys <= lengths.Keys
    requires forall d :: d in postings ==> postings[d] >= 1 && lengths[d] >= 0
    requires forall d :: d in postings ==>
               gains[d] == sc.Contribution(idf, postings[d], lengths[d], averageLength)
    ensures scores == AddScores(before, gains)
  {
    scores := before;
    var rest := postings.Keys;
    assert gains - rest == map[];
    while rest != {}
      invariant rest <= postings.Keys
      invariant scores == AddScores(before, gains - rest)
    {
      var d :| d in rest;
      var contribution := sc.Contribution(idf, postings[d], lengths[d], averageLength);
      AddOneScore(before, gains, rest, d);
      scores := scores[d := (if d in scores then scores[d] else 0.0) + contribution];
      rest := rest - {d};
    }
    assert gains - rest == gains;
  }

  /** What one query term adds to each document that contains it. */
  ghost function TermScores(sc: Scorer, corpus: Corpus, t: Term, stats: CorpusStats): map<Id, real>
    requires sc.Usable() && WellCounted(corpus) && stats.AverageDocumentLength() > 0.0
  {
    map d | d in PostingsOf(corpus, t) :: TermScore(sc, corpus[d], t, stats)
  }

  /** The gains of a term are computed from its postings and the document lengths alone. */
  lemma TermGains(sc: Scorer, corpus: Corpus, t: Term, stats: CorpusStats)
    requires sc.Usable() && WellCounted(corpus) && stats.AverageDocumentLength() > 0.0
    ensures var gains, list, lengths :=
              TermScores(sc, corpus, t, stats), PostingsOf(corpus, t), Lengths(corpus);
            && gains.Keys == list.Keys <= lengths.Keys
            && (forall d :: d in list ==> list[d] >= 1 && lengths[d] >= 0)
            && (forall d :: d in list ==>
                  gains[d] == sc.Contribution(
                    sc.InverseDocumentFrequency(stats.DocumentFrequency(t), stats.documentCount),
                    list[d], lengths[d], stats.AverageDocumentLength()))
            && (list == map[] ==> forall m :: AddScores(m, gains) == m)
  {
    LengthsNonNegative(corpus);
    if PostingsOf(corpus, t) == map[] {
      assert TermScores(sc, corpus, t, stats) == map[];
    }
  }

  ghost function AddScores(a: map<Id, real>, b: map<Id, real>): map<Id, real> {
    map d | d in a.Keys + b.Keys :: (if d in a then a[d] else 0.0) + (if d in b then b[d] else 0.0)
  }

  lemma AddOneScore(before: map<Id, real>, gains: map<Id, real>, rest: set<Id>, d: Id)
    requires d in rest && d in gains
    ensures var sum := AddScores(before, gains - rest);
            AddScores(before, gains - (rest - {d}))
            == sum[d := (if d in sum then sum[d] else 0.0) + gains[d]]
  {
    var now := AddScores(before, gains - (rest - {d}));
    var sum := AddScores(before, gains - rest);
    assert now.Keys == sum.Keys + {d};
  }

  lemma NoTermsNoScores(sc: Scorer, corpus: Corpus, stats: CorpusStats)
    requires sc.Usable() && WellCounted(corpus)
    ensures Scores(sc, corpus, [], stats) == map[]
  {
  }

  /** One more term: adding its gains to the scores gives the scores of the longer query. */
  lemma NextTerm(sc: Scorer, corpus: Corpus, earlier: seq<Term>, t: Term, stats: CorpusStats)
    requires sc.Usable() && WellCounted(corpus) && stats.AverageDocumentLength() > 0.0
    ensures AddScores(Scores(sc, corpus, earlier, stats), TermScores(sc, corpus, t, stats))
         == Scores(sc, corpus, earlier + [t], stats)
  {
    var was, gains := Scores(sc, corpus, earlier, stats), TermScores(sc, corpus, t, stats);
    var now := Scores(sc, corpus, earlier + [t], stats);
    forall d ensures d in now <==> d in was || d in gains {
      if d in corpus {
        MatchesNext(corpus[d], earlier, t);
      }
    }
    forall d | d in now ensures now[d] == AddScores(was, gains)[d] {
      NextTermAt(sc, corpus[d], earlier, t, stats);
    }
    assert now.Keys == AddScores(was, gains).Keys;
  }

  lemma NextTermAt(sc: Scorer, counts: Counts, earlier: seq<Term>, t: Term, stats: CorpusStats)
    requires Scorable(sc, counts, stats)
    ensures DocScore(sc, counts, earlier + [t], stats)
         == (if Matches(counts, earlier) then DocScore(sc, counts, earlier, stats) else 0.0)
          + TermScore(sc, counts, t, stats)
  {
    var f := TermScorer(sc, counts, stats);
    assert (earlier + [t])[..|earlier|] == earlier;
    assert SumOver(earlier + [t], f) == SumOver(earlier, f) + f(t);
    if !Matches(counts, earlier) {
      SumOfZeros(earlier, f);
    }
  }

  lemma {:induction false} SumOfZeros(terms: seq<Term>, f: Term -> real)
    requires forall t :: t in terms ==> f(t) == 0.0
    ensures SumOver(terms, f) == 0.0
  {
    if terms != [] {
      var init := terms[..|terms| - 1];
      assert forall t :: t in init ==> t in terms;
      SumOfZeros(init, f);
    }
  }

  lemma MatchesNext(counts: Counts, earlier: seq<Term>, t: Term)
    ensures Matches(counts, earlier + [t]) <==> Matches(counts, earlier) || t in counts
  {
    assert t in earlier + [t];
    assert forall u :: u in earlier ==> u in earlier + [t];
  }

  // ---------------------------------------------------------------------------
  // The formula
  // ---------------------------------------------------------------------------

  lemma IdfArgument(df: real, n: real)
    requires df >= 0.0
    ensures 1.0 + (n - df + 0.5) / (df + 0.5) == (n + 1.0) / (df + 0.5)
  {
    var m := df + 0.5;
    assert 1.0 == m / m;
    assert m / m + (n - df + 0.5) / m == (m + (n - df + 0.5)) / m;
  }

  lemma LengthRatio(dl: real, total: real, n: real)
    requires total > 0.0 && n > 0.0
    ensures dl / (total / n) == dl * n / total
  {
    var average, ratio := total / n, dl / (total / n);
    assert average * n == total && average > 0.0;
    assert ratio * average == dl;
    assert ratio * total == ratio * (average * n) == (ratio * average) * n == dl * n;
  }

  lemma QuotientTimes(top: real, s: real, c: real)
    requires s > 0.0 && c == top / s
    ensures c * s == top
  {
  }

  /** The published formula, cleared of its denominators: `tf` occurrences in a document of
      length `dl`, and `df` of `n` documents with `total` tokens. */
  ghost predicate IsBM25(sc: Scorer, score: real, df: nat, n: nat, tf: int, dl: int, total: nat)
    requires total > 0
  {
    score * (tf as real + sc.k1 * (1.0 - sc.b + sc.b * (dl as real * n as real / total as real)))
    == sc.ln((n as real + 1.0) / (df as real + 0.5)) * (tf as real * (sc.k1 + 1.0))
  }

  /** A query of one term finds exactly the documents that hold it, and scores them by the
      published formula, in the numbers of the document and of the statistics alone. */
  lemma ScoreOfOneTerm(sc: Scorer, corpus: Corpus, t: Term, stats: CorpusStats, d: Id)
    requires sc.Usable() && WellCounted(corpus) && d in corpus
    ensures d in Scores(sc, corpus, [t], stats) <==>
              t in corpus[d] && stats.documentCount > 0 && stats.totalDocumentLength > 0
    ensures d in Scores(sc, corpus, [t], stats) ==>
              IsBM25(sc, Scores(sc, corpus, [t], stats)[d], stats.DocumentFrequency(t), stats.documentCount,
                     corpus[d][t], Sum(corpus[d]), stats.totalDocumentLength)
  {
    AverageIsZeroIff(stats);
    assert Matches(corpus[d], [t]) <==> t in corpus[d] by {
      assert t in [t];
    }
    if d in Scores(sc, corpus, [t], stats) {
      assert [t][..0] == [];
      assert SumOver([t], TermScorer(sc, corpus[d], stats)) == TermScore(sc, corpus[d], t, stats);
      TermScoreFormula(sc, corpus[d], t, stats);
    }
  }

  lemma TermScoreFormula(sc: Scorer, counts: Counts, t: Term, stats: CorpusStats)
    requires Scorable(sc, counts, stats) && t in counts
    requires stats.documentCount > 0 && stats.totalDocumentLength > 0
    ensures IsBM25(sc, TermScore(sc, counts, t, stats), stats.DocumentFrequency(t), stats.documentCount,
                   counts[t], Sum(counts), stats.totalDocumentLength)
  {
    SumNonNegative(counts);
    ContributionFormula(sc, stats.DocumentFrequency(t), stats.documentCount, counts[t], Sum(counts),
                        stats.totalDocumentLength, stats.AverageDocumentLength());
  }

  lemma ContributionFormula(
    sc: Scorer, df: nat, n: nat, tf: int, dl: int, total: nat, averageLength: real)
    requires sc.Usable() && tf >= 1 && dl >= 0 && n > 0 && total > 0
    requires averageLength == total as real / n as real && averageLength > 0.0
    ensures IsBM25(sc, sc.Contribution(sc.InverseDocumentFrequency(df, n), tf, dl, averageLength),
                   df, n, tf, dl, total)
  {
    var idf := sc.InverseDocumentFrequency(df, n);
    LengthRatio(dl as real, total as real, n as real);
    SaturationIs(sc, tf, dl, averageLength, dl as real * n as real / total as real);
    IdfArgument(df as real, n as real);
    ContributionTimes(sc, idf, tf, dl, averageLength);
    SameProduct(
      sc.Contribution(idf, tf, dl, averageLength),
      tf as real + sc.k1 * (1.0 - sc.b + sc.b * (dl as real * n as real / total as real)),
      sc.Saturation(tf, dl, averageLength), idf * (tf as real * (sc.k1 + 1.0)));
  }

  lemma SameProduct(x: real, y: real, z: real, p: real)
    requires y == z && x * z == p
    ensures x * y == p
  {
  }

  lemma ContributionTimes(sc: Scorer, idf: real, tf: int, dl: int, averageLength: real)
    requires sc.Usable() && tf >= 1 && dl >= 0 && averageLength > 0.0
    ensures sc.Contribution(idf, tf, dl, averageLength) * sc.Saturation(tf, dl, averageLength)
         == idf * (tf as real * (sc.k1 + 1.0))
  {
    var s := sc.Saturation(tf, dl, averageLength);
    assert s >= 1.0;
    var top := idf * (tf as real * (sc.k1 + 1.0));
    QuotientTimes(top, s, top / s);
  }

  lemma SaturationIs(sc: Scorer, tf: int, dl: int, averageLength: real, ratio: real)
    requires sc.Usable() && tf >= 1 && dl >= 0 && averageLength > 0.0
    requires dl as real / averageLength == ratio
    ensures sc.Saturation(tf, dl, averageLength) == tf as real + sc.k1 * (1.0 - sc.b + sc.b * ratio)
  {
  }

  /** What a document scores, zero if it is not found. */
  ghost function ScoreIn(scores: map<Id, real>, d: Id): real {
    if d in scores then scores[d] else 0.0
  }

  /** Longer queries add up, repetitions included. */
  lemma ScoresAdd(sc: Scorer, corpus: Corpus, terms: seq<Term>, t: Term, stats: CorpusStats, d: Id)
    requires sc.Usable() && WellCounted(corpus) && d in corpus
    ensures var one, before, after :=
              Scores(sc, corpus, [t], stats), Scores(sc, corpus, terms, stats), Scores(sc, corpus, terms + [t], stats);
            && (d in after <==> d in before || d in one)
            && ScoreIn(after, d) == ScoreIn(before, d) + ScoreIn(one, d)
  {
    AverageIsZeroIff(stats);
    MatchesNext(corpus[d], terms, t);
    MatchesNext(corpus[d], [], t);
    assert [] + [t] == [t];
    if stats.AverageDocumentLength() != 0.0 {
      NextTermAt(sc, corpus[d], terms, t, stats);
      NextTermAt(sc, corpus[d], [], t, stats);
    }
  }

  // ---------------------------------------------------------------------------
  // Bounds and monotonicity
  // ---------------------------------------------------------------------------

  lemma PositiveFactor(x: real, y: real)
    requires x * y > 0.0 && y > 0.0
    ensures x > 0.0
  {
  }

  lemma Scale(x: real, y: real, f: real)
    requires x < y && f > 0.0
    ensures f * x < f * y
  {
  }

  /** Comparing fractions by cross-multiplication. */
  lemma CrossMultiply(a: real, b: real, c: real, d: real)
    requires b > 0.0 && d > 0.0 && a * d < c * b
    ensures a / b < c / d
  {
    var q, r := a / b, c / d;
    assert a == q * b && c == r * d;
    Scale(0.0, b, d);
    assert c * b - a * d == (r - q) * (d * b);
    PositiveFactor(r - q, d * b);
  }

  /** The smoothed idf is positive exactly when no more documents hold the term than exist. */
  lemma IdfPositive(sc: Scorer, df: nat, n: nat)
    requires sc.LogLike()
    ensures sc.InverseDocumentFrequency(df, n) > 0.0 <==> df <= n
  {
    var d, m := df as real + 0.5, n as real + 1.0;
    var argument := 1.0 + (n as real - df as real + 0.5) / d;
    assert argument == m / d;
    CrossMultiply(0.0, 1.0, m, d);
    if df <= n {
      CrossMultiply(1.0, 1.0, m, d);
    } else {
      CrossMultiply(m, d, 1.0, 1.0);
    }
  }

  /** A term contributes something, and never as much as its saturation limit. */
  lemma ContributionBounds(sc: Scorer, idf: real, tf: int, dl: int, averageLength: real)
    requires sc.Usable() && sc.k1 > 0.0 && idf > 0.0
    requires 1 <= tf <= dl && averageLength > 0.0
    ensures 0.0 < sc.Contribution(idf, tf, dl, averageLength) < idf * (sc.k1 + 1.0)
  {
    var x, s := tf as real, sc.Saturation(tf, dl, averageLength);
    PenaltyPositive(sc, dl, averageLength);
    var limit := idf * (sc.k1 + 1.0);
    var top := idf * (x * (sc.k1 + 1.0));
    Scale(0.0, sc.k1 + 1.0, idf);
    assert top == limit * x;
    Scale(0.0, x, limit);
    Scale(x, s, limit);
    CrossMultiply(0.0, 1.0, top, s);
    CrossMultiply(top, s, limit, 1.0);
  }

  lemma PenaltyPositive(sc: Scorer, dl: int, averageLength: real)
    requires sc.Usable() && sc.k1 > 0.0 && dl >= 1 && averageLength > 0.0
    ensures sc.LengthPenalty(dl, averageLength) > 0.0
  {
    FactorPositive(sc.b, dl as real, averageLength);
    Scale(0.0, sc.LengthFactor(dl, averageLength), sc.k1);
  }

  lemma FactorPositive(b: real, dl: real, averageLength: real)
    requires 0.0 <= b <= 1.0 && dl > 0.0 && averageLength > 0.0
    ensures 1.0 - b + b * (dl / averageLength) > 0.0
  {
    CrossMultiply(0.0, 1.0, dl, averageLength);
    if b > 0.0 {
      Scale(0.0, dl / averageLength, b);
    }
  }

  /** More occurrences always help. */
  lemma ContributionRisesWithFrequency(
    sc: Scorer, idf: real, tf: int, more: int, dl: int, averageLength: real)
    requires sc.Usable() && sc.k1 > 0.0 && idf > 0.0
    requires 1 <= tf < more && dl >= 1 && averageLength > 0.0
    ensures sc.Contribution(idf, tf, dl, averageLength) < sc.Contribution(idf, more, dl, averageLength)
  {
    PenaltyPositive(sc, dl, averageLength);
    var x, y, p := tf as real, more as real, sc.LengthPenalty(dl, averageLength);
    var limit := idf * (sc.k1 + 1.0);
    Scale(0.0, sc.k1 + 1.0, idf);
    assert idf * (x * (sc.k1 + 1.0)) == limit * x && idf * (y * (sc.k1 + 1.0)) == limit * y;
    Scale(x, y, p);
    Scale(x * (y + p), y * (x + p), limit);
    CrossMultiply(limit * x, x + p, limit * y, y + p);
  }

  /** Longer documents always rank lower on the same evidence, when length counts at all. */
  lemma ContributionFallsWithLength(
    sc: Scorer, idf: real, tf: int, dl: int, longer: int, averageLength: real)
    requires sc.Usable() && sc.k1 > 0.0 && sc.b > 0.0 && idf > 0.0
    requires tf >= 1 && 0 <= dl < longer && averageLength > 0.0
    ensures sc.Contribution(idf, tf, longer, averageLength) < sc.Contribution(idf, tf, dl, averageLength)
  {
    PenaltyRises(sc, dl, longer, averageLength);
    var s, t := sc.Saturation(tf, dl, averageLength), sc.Saturation(tf, longer, averageLength);
    Scale(0.0, tf as real, sc.k1 + 1.0);
    Scale(0.0, tf as real * (sc.k1 + 1.0), idf);
    FractionFalls(idf * (tf as real * (sc.k1 + 1.0)), s, t);
  }

  lemma FractionFalls(top: real, s: real, t: real)
    requires top > 0.0 && 0.0 < s < t
    ensures top / t < top / s
  {
    Scale(s, t, top);
    CrossMultiply(top, t, top, s);
  }

  lemma PenaltyRises(sc: Scorer, dl: int, longer: int, averageLength: real)
    requires sc.Usable() && sc.k1 > 0.0 && sc.b > 0.0
    requires 0 <= dl < longer && averageLength > 0.0
    ensures sc.LengthPenalty(dl, averageLength) < sc.LengthPenalty(longer, averageLength)
  {
    var f, g := sc.LengthFactor(dl, averageLength), sc.LengthFactor(longer, averageLength);
    FactorRises(sc.b, dl as real, longer as real, averageLength);
    LengthFactorIs(sc, dl, averageLength);
    LengthFactorIs(sc, longer, averageLength);
    Scale(f, g, sc.k1);
    assert sc.LengthPenalty(dl, averageLength) == sc.k1 * f;
    assert sc.LengthPenalty(longer, averageLength) == sc.k1 * g;
  }

  lemma LengthFactorIs(sc: Scorer, dl: int, averageLength: real)
    requires sc.Usable() && dl >= 0 && averageLength > 0.0
    ensures sc.LengthFactor(dl, averageLength) == 1.0 - sc.b + sc.b * (dl as real / averageLength)
  {
  }

  lemma FactorRises(b: real, dl: real, longer: real, averageLength: real)
    requires b > 0.0 && dl < longer && averageLength > 0.0
    ensures 1.0 - b + b * (dl / averageLength) < 1.0 - b + b * (longer / averageLength)
  {
    Scale(dl, longer, averageLength);
    CrossMultiply(dl, averageLength, longer, averageLength);
    Scale(dl / averageLength, longer / averageLength, b);
  }

  /** The most a query could be worth: every term at its saturation limit. */
  ghost function QueryWeight(sc: Scorer, terms: seq<Term>, stats: CorpusStats): real {
    SumOver(terms, TermWeigher(sc, stats))
  }

  ghost function TermWeigher(sc: Scorer, stats: CorpusStats): Term -> real {
    t => TermWeight(sc, t, stats)
  }

  ghost function TermWeight(sc: Scorer, t: Term, stats: CorpusStats): real {
    sc.InverseDocumentFrequency(stats.DocumentFrequency(t), stats.documentCount)
  }

  ghost predicate Consistent(terms: seq<Term>, stats: CorpusStats) {
    forall t :: t in terms ==> stats.DocumentFrequency(t) <= stats.documentCount
  }

  /** Every returned score lies strictly between zero and the query's weight times k1 + 1. */
  lemma ScoreBounds(sc: Scorer, corpus: Corpus, terms: seq<Term>, stats: CorpusStats, d: Id)
    requires sc.Usable() && sc.k1 > 0.0 && sc.LogLike() && WellCounted(corpus)
    requires Consistent(terms, stats)
    requires d in Scores(sc, corpus, terms, stats)
    ensures 0.0 < Scores(sc, corpus, terms, stats)[d] < QueryWeight(sc, terms, stats) * (sc.k1 + 1.0)
  {
    DocScoreBounds(sc, corpus[d], terms, stats);
  }

  lemma DocScoreBounds(sc: Scorer, counts: Counts, terms: seq<Term>, stats: CorpusStats)
    requires Scorable(sc, counts, stats) && sc.k1 > 0.0 && sc.LogLike()
    requires Consistent(terms, stats) && Matches(counts, terms)
    ensures 0.0 < DocScore(sc, counts, terms, stats) < QueryWeight(sc, terms, stats) * (sc.k1 + 1.0)
  {
    var score, limit := TermScorer(sc, counts, stats), TermLimiter(sc, stats);
    forall t | t in terms ensures 0.0 <= score(t) < limit(t) && (t in counts ==> 0.0 < score(t)) {
      TermScoreBounds(sc, counts, t, stats);
    }
    SumBounds(terms, score, limit);
    LimitIsScaledWeight(sc, terms, stats);
  }

  ghost function TermLimiter(sc: Scorer, stats: CorpusStats): Term -> real {
    t => TermWeight(sc, t, stats) * (sc.k1 + 1.0)
  }

  lemma {:induction false} LimitIsScaledWeight(sc: Scorer, terms: seq<Term>, stats: CorpusStats)
    ensures SumOver(terms, TermLimiter(sc, stats)) == QueryWeight(sc, terms, stats) * (sc.k1 + 1.0)
  {
    if terms != [] {
      var init, t := terms[..|terms| - 1], terms[|terms| - 1];
      LimitIsScaledWeight(sc, init, stats);
      Distribute(QueryWeight(sc, init, stats), TermWeight(sc, t, stats), sc.k1 + 1.0);
    }
  }

  lemma Distribute(x: real, y: real, f: real)
    ensures (x + y) * f == x * f + y * f
  {
  }

  /** Termwise bounds add up, strictly as soon as there is a term. */
  lemma {:induction false} SumBounds(terms: seq<Term>, f: Term -> real, g: Term -> real)
    requires forall t :: t in terms ==> 0.0 <= f(t) < g(t)
    ensures 0.0 <= SumOver(terms, f) <= SumOver(terms, g)
    ensures terms != [] ==> SumOver(terms, f) < SumOver(terms, g)
    ensures (exists t :: t in terms && 0.0 < f(t)) ==> 0.0 < SumOver(terms, f)
  {
    if terms != [] {
      var init, t := terms[..|terms| - 1], terms[|terms| - 1];
      assert terms == init + [t] && t in terms;
      assert forall u :: u in init ==> u in terms;
      SumBounds(init, f, g);
    }
  }

  lemma TermScoreBounds(sc: Scorer, counts: Counts, t: Term, stats: CorpusStats)
    requires Scorable(sc, counts, stats) && sc.k1 > 0.0 && sc.LogLike()
    requires stats.DocumentFrequency(t) <= stats.documentCount
    ensures t in counts ==> 0.0 < TermScore(sc, counts, t, stats)
    ensures 0.0 <= TermScore(sc, counts, t, stats)
         < TermWeight(sc, t, stats) * (sc.k1 + 1.0)
  {
    var idf := TermWeight(sc, t, stats);
    IdfPositive(sc, stats.DocumentFrequency(t), stats.documentCount);
    if t in counts {
      SumNonNegative(counts);
      ContributionBounds(sc, idf, counts[t], Sum(counts), stats.AverageDocumentLength());
    } else {
      Scale(0.0, sc.k1 + 1.0, idf);
    }
  }

  /** An engine's own statistics are always consistent. */
  lemma OwnStatsConsistent(corpus: Corpus, terms: seq<Term>)
    requires WellCounted(corpus)
    ensures Consistent(terms, StatsOf(corpus, TermSet(terms)))
  {
    forall t | t in terms {
      FrequencyAtMostCount(corpus, t);
    }
  }
}
