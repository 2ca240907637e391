/** The coordinator: two-round search over one pinned copy per shard, with failover.

    A client stands for one physical copy as seen over the network: each call answers or
    fails.  What a copy holds whenever it is asked is a ghost argument, so the contracts can
    compare the merged answer with a single engine holding everything. */
module Coordinators {
  import opened Basics
  import opened Analysis
  import opened Hits
  import opened Statistics
  import opened BM25
  import opened Fusion
  import opened Nodes
  import opened Distribution

  datatype ShardClient = ShardClient(
    corpusStats: seq<Term> -> Option<CorpusStats>,
    search: (Text, nat, CorpusStats) -> Option<SearchResults>,
    semanticSearch: (Vector, nat) -> Option<SearchResults>)

  datatype ClusterError =
    | ShardsFailed(shards: seq<nat>) | NoEmbedder | QueryNotEmbedded | LimitTooLow

  /** What one copy holds during a query: when its statistics are collected, when it scores,
      and when it is asked for similarities. */
  datatype Held = Held(counted: Documents, scored: Documents, matched: Documents)

  /** Whenever this copy answers, it answers from these documents. */
  ghost predicate Serves(p: Pipeline, client: ShardClient, held: Held)
    requires p.Sound()
  {
    && (forall terms :: client.corpusStats(terms).Some? ==>
          client.corpusStats(terms).value == DocumentStats(p, held.counted, TermSet(terms)))
    && (forall query, limit, stats :: client.search(query, limit, stats).Some? ==>
          client.search(query, limit, stats).value
          == LexicalSearch(p, held.scored, p.analyzer.Analyze(query), limit, stats))
    && (p.embedder.Some? ==>
          forall vector, limit ::
            client.semanticSearch(vector, limit).Some? && |vector| == p.embedder.value.dimension ==>
              client.semanticSearch(vector, limit).value == SemanticSearch(p, held.matched, vector, limit))
  }

  /** The chosen copy of each shard. */
  ghost function Chosen(held: seq<seq<Held>>, pinned: seq<nat>): seq<Held>
    requires |pinned| == |held| && forall i :: 0 <= i < |held| ==> pinned[i] < |held[i]|
  {
    seq(|held|, i requires 0 <= i < |held| => held[i][pinned[i]])
  }

  ghost function Counted(chosen: seq<Held>): seq<Documents> {
    seq(|chosen|, i requires 0 <= i < |chosen| => chosen[i].counted)
  }

  ghost function Scored(chosen: seq<Held>): seq<Documents> {
    seq(|chosen|, i requires 0 <= i < |chosen| => chosen[i].scored)
  }

  ghost function Matched(chosen: seq<Held>): seq<Documents> {
    seq(|chosen|, i requires 0 <= i < |chosen| => chosen[i].matched)
  }

  // ---------------------------------------------------------------------------
  // Which copy answers, and for which terms
  // ---------------------------------------------------------------------------

  /** The first copy, primary before replicas, that answers round one; the number of copies
      when none does. */
  function FirstWithStats(copies: seq<ShardClient>, terms: seq<Term>): (k: nat)
    ensures k <= |copies|
    ensures k < |copies| ==> copies[k].corpusStats(terms).Some?
    ensures forall j :: 0 <= j < k ==> copies[j].corpusStats(terms).None?
  {
    if copies == [] || copies[0].corpusStats(terms).Some? then 0
    else 1 + FirstWithStats(copies[1..], terms)
  }

  function FirstWithVectors(copies: seq<ShardClient>, vector: Vector, limit: nat): (k: nat)
    ensures k <= |copies|
    ensures k < |copies| ==> copies[k].semanticSearch(vector, limit).Some?
    ensures forall j :: 0 <= j < k ==> copies[j].semanticSearch(vector, limit).None?
  {
    if copies == [] || copies[0].semanticSearch(vector, limit).Some? then 0
    else 1 + FirstWithVectors(copies[1..], vector, limit)
  }

  function TermsOf(hits: seq<Hit<()>>): seq<Term> {
    seq(|hits|, i requires 0 <= i < |hits| => hits[i].documentId)
  }

  ghost function TermHits(terms: seq<Term>): set<Hit<()>> {
    set t | t in terms :: Hit(t, 0.0, ())
  }

  /** The distinct terms in ascending order, which is how round one asks for them. */
  ghost function SortedTerms(terms: seq<Term>): seq<Term> {
    TermsOf(Ranking(TermHits(terms)))
  }

  lemma SortedTermsAreTheTerms(terms: seq<Term>)
    ensures TermSet(SortedTerms(terms)) == TermSet(terms)
    ensures forall i, j :: 0 <= i < j < |SortedTerms(terms)| ==>
              IdLess(SortedTerms(terms)[i], SortedTerms(terms)[j])
  {
    var hits := Ranking(TermHits(terms));
    RankingSorts(TermHits(terms));
    forall t | t in terms ensures t in SortedTerms(terms) {
      assert Hit(t, 0.0, ()) in Elements(hits);
      var i :| 0 <= i < |hits| && hits[i] == Hit(t, 0.0, ());
      assert SortedTerms(terms)[i] == t;
    }
    forall i | 0 <= i < |hits| ensures hits[i].documentId in terms && hits[i].score == 0.0 {
      assert hits[i] in Elements(hits);
    }
    forall i, j | 0 <= i < j < |hits| ensures IdLess(hits[i].documentId, hits[j].documentId) {
      assert Before(hits[i], hits[j]);
    }
  }

  lemma DepthNeedsLimit(config: FusionConfig, limit: nat)
    ensures config.CandidateDepth(limit) >= 1 ==> limit >= 1
  {
    if limit == 0 {
      assert limit * config.candidateMultiplier == 0;
    }
  }

  class Coordinator {
    const p: Pipeline
    const router: ShardRouter
    const topology: seq<seq<ShardClient>>

    ghost predicate Configured()
      reads this
    {
      p.Sound() && router.shardCount >= 1 && |topology| == router.shardCount
    }

    /** Every copy answers from its own documents, all of them routed to its shard, though it
        may hold others in the second round than in the first. */
    ghost predicate Holding(held: seq<seq<Held>>)
      requires Configured()
      reads this
    {
      && |held| == |topology|
      && forall i :: 0 <= i < |topology| ==>
           && |held[i]| == |topology[i]|
           && forall k :: 0 <= k < |held[i]| ==>
                Serves(p, topology[i][k], held[i][k]) && Owned(i, held[i][k])
    }

    ghost predicate Owned(shard: nat, held: Held)
      requires router.shardCount >= 1
    {
      && router.Owns(shard, held.counted) && router.Owns(shard, held.scored)
      && router.Owns(shard, held.matched)
    }

    /** Every shard has a copy to take part. */
    predicate Pins(pinned: seq<nat>) {
      |pinned| == |topology| && forall i :: 0 <= i < |topology| ==> pinned[i] < |topology[i]|
    }

    /** The copy of each shard that serves a lexical query for these terms. */
    function Pinned(terms: seq<Term>): seq<nat> {
      seq(|topology|, i requires 0 <= i < |topology| => FirstWithStats(topology[i], terms))
    }

    /** The copy of each shard that answers a semantic query. */
    function Answering(vector: Vector, limit: nat): seq<nat> {
      seq(|topology|, i requires 0 <= i < |topology| => FirstWithVectors(topology[i], vector, limit))
    }

    /** `shards` are exactly those without a copy to take part. */
    ghost predicate NamesMissing(shards: seq<nat>, pinned: seq<nat>)
      requires |pinned| == |topology|
    {
      forall i: nat :: i in shards <==> i < |topology| && pinned[i] == |topology[i]|
    }

    /** `shards` are exactly those whose pinned copy is gone by the second round. */
    ghost predicate NamesDropped(
      shards: seq<nat>, pinned: seq<nat>, query: Text, limit: nat, stats: CorpusStats)
      requires Pins(pinned)
    {
      forall i: nat :: i in shards <==>
        i < |topology| && topology[i][pinned[i]].search(query, limit, stats).None?
    }

    /** Round one's statistics, summed over the pinned copies. */
    function Collected(terms: seq<Term>): CorpusStats
      requires Pins(Pinned(terms))
    {
      Merged(seq(|topology|, i requires 0 <= i < |topology| =>
        topology[i][Pinned(terms)[i]].corpusStats(terms).value))
    }

    /** One engine's answer over everything these copies hold. */
    ghost function Ranked(chosen: seq<Held>, query: Text, limit: nat): SearchResults
      requires p.Sound()
    {
      SearchAcross(p, UnionAll(Counted(chosen)), UnionAll(Scored(chosen)), query, limit)
    }

    /** Every shard takes part in both rounds; an empty corpus needs no second one. */
    predicate Answers(query: Text, terms: seq<Term>, limit: nat) {
      && Pins(Pinned(terms))
      && (Collected(terms).documentCount == 0
          || forall i :: 0 <= i < |topology| ==>
               topology[i][Pinned(terms)[i]].search(query, limit, Collected(terms)).Some?)
    }

    /** Some copy of the shard answers round one. */
    predicate Available(shard: nat, terms: seq<Term>)
      requires shard < |topology|
    {
      exists k :: 0 <= k < |topology[shard]| && topology[shard][k].corpusStats(terms).Some?
    }

    /** Every shard has a copy to pin exactly when each has one that answers round one. */
    lemma PinsIff(terms: seq<Term>)
      ensures Pins(Pinned(terms)) <==> forall i :: 0 <= i < |topology| ==> Available(i, terms)
    {
      forall i | 0 <= i < |topology| ensures Pinned(terms)[i] < |topology[i]| <==> Available(i, terms) {
        var k := FirstWithStats(topology[i], terms);
        assert k < |topology[i]| ==> topology[i][k].corpusStats(terms).Some?;
      }
      if forall i :: 0 <= i < |topology| ==> Available(i, terms) {
        forall i | 0 <= i < |topology| ensures Pinned(terms)[i] < |topology[i]| {
          assert Available(i, terms);
        }
      }
      if Pins(Pinned(terms)) {
        forall i | 0 <= i < |topology| ensures Available(i, terms) {
          assert Pinned(terms)[i] < |topology[i]|;
        }
      }
    }

    /** So a query is answered whenever each shard has a copy that answers round one, and
        every copy that does answers round two as well. */
    lemma SteadyCopiesAnswer(query: Text, terms: seq<Term>, limit: nat)
      requires forall i :: 0 <= i < |topology| ==> Available(i, terms)
      requires forall i, k :: 0 <= i < |topology| && 0 <= k < |topology[i]| ==>
                 forall stats :: topology[i][k].corpusStats(terms).Some? ==>
                   topology[i][k].search(query, limit, stats).Some?
      ensures Answers(query, terms, limit)
    {
      PinsIff(terms);
      forall i | 0 <= i < |topology|
        ensures topology[i][Pinned(terms)[i]].search(query, limit, Collected(terms)).Some?
      {
        assert topology[i][Pinned(terms)[i]].corpusStats(terms).Some?;
      }
    }

    /** `shards` are exactly those at fault: without a copy to pin or, with all pinned, those
        whose pinned copy is gone by the second round. */
    ghost predicate NamesAtFault(shards: seq<nat>, query: Text, terms: seq<Term>, limit: nat) {
      && shards != []
      && if Pins(Pinned(terms)) then NamesDropped(shards, Pinned(terms), query, limit, Collected(terms))
         else NamesMissing(shards, Pinned(terms))
    }

    constructor (p: Pipeline, router: ShardRouter, topology: seq<seq<ShardClient>>)
      requires p.Sound() && router.shardCount >= 1 && |topology| == router.shardCount
      ensures Configured() && this.p == p && this.router == router && this.topology == topology
    {
      this.p, this.router, this.topology := p, router, topology;
    }

    // -------------------------------------------------------------------------
    // Round one
    // -------------------------------------------------------------------------

    /** Tries each copy in serving order until one answers. */
    method StatsFromAnyCopy(copies: seq<ShardClient>, terms: seq<Term>)
      returns (answer: Option<(nat, CorpusStats)>)
      ensures answer.None? <==> FirstWithStats(copies, terms) == |copies|
      ensures answer.Some? ==>
                && answer.value.0 == FirstWithStats(copies, terms)
                && copies[answer.value.0].corpusStats(terms) == Some(answer.value.1)
    {
      var k := 0;
      while k < |copies|
        invariant 0 <= k <= |copies|
        invariant forall j :: 0 <= j < k ==> copies[j].corpusStats(terms).None?
      {
        var stats := copies[k].corpusStats(terms);
        if stats.Some? {
          return Some((k, stats.value));
        }
        k := k + 1;
      }
      answer := None;
    }

    /** One copy per shard, or the shards that had none. */
    method SelectAndCollect(terms: seq<Term>)
      returns (pinned: seq<nat>, stats: seq<CorpusStats>, failed: seq<nat>)
      ensures NamesMissing(failed, Pinned(terms))
      ensures failed == [] ==>
                && pinned == Pinned(terms) && Pins(pinned) && |stats| == |topology|
                && forall i :: 0 <= i < |topology| ==>
                     topology[i][pinned[i]].corpusStats(terms) == Some(stats[i])
    {
      pinned, stats, failed := [], [], [];
      var i := 0;
      while i < |topology|
        invariant 0 <= i <= |topology|
        invariant forall j: nat :: j in failed <==> j < i && Pinned(terms)[j] == |topology[j]|
        invariant failed == [] ==>
                    && |pinned| == |stats| == i
                    && forall j :: 0 <= j < i ==>
                         && pinned[j] == Pinned(terms)[j] && pinned[j] < |topology[j]|
                         && topology[j][pinned[j]].corpusStats(terms) == Some(stats[j])
      {
        var answer := StatsFromAnyCopy(topology[i], terms);
        if answer.Some? {
          pinned, stats := pinned + [answer.value.0], stats + [answer.value.1];
        } else {
          failed := failed + [i];
        }
        i := i + 1;
      }
    }

    // -------------------------------------------------------------------------
    // Round two
    // -------------------------------------------------------------------------

    /** The pinned copies, and no others, score with the shared statistics. */
    method FanOutSearch(query: Text, limit: nat, stats: CorpusStats, pinned: seq<nat>)
      returns (results: seq<SearchResults>, failed: seq<nat>)
      requires Pins(pinned)
      ensures NamesDropped(failed, pinned, query, limit, stats)
      ensures failed == [] ==>
                && |results| == |topology|
                && forall i :: 0 <= i < |topology| ==>
                     topology[i][pinned[i]].search(query, limit, stats) == Some(results[i])
    {
      results, failed := [], [];
      var i := 0;
      while i < |topology|
        invariant 0 <= i <= |topology|
        invariant forall j: nat :: j in failed <==>
                    j < i && topology[j][pinned[j]].search(query, limit, stats).None?
        invariant failed == [] ==>
                    && |results| == i
                    && forall j :: 0 <= j < i ==>
                         topology[j][pinned[j]].search(query, limit, stats) == Some(results[j])
      {
        var answer := topology[i][pinned[i]].search(query, limit, stats);
        if answer.Some? {
          results := results + [answer.value];
        } else {
          failed := failed + [i];
        }
        i := i + 1;
      }
    }

    method Merge(parts: seq<SearchResults>, limit: nat) returns (merged: SearchResults)
      ensures merged == MergeResults(parts, limit)
    {
      var candidates: seq<SearchResult> := [];
      var total: nat := 0;
      var i := 0;
      while i < |parts|
        invariant 0 <= i <= |parts|
        invariant candidates == Flatten(PartResults(parts[..i])) && total == SumTotals(parts[..i])
      {
        assert parts[..i + 1][..i] == parts[..i];
        assert PartResults(parts[..i + 1])[..i] == PartResults(parts[..i]);
        candidates := candidates + parts[i].results;
        total := total + parts[i].total;
        i := i + 1;
      }
      assert parts[..i] == parts;
      merged := SearchResults(total, Take(Sort(candidates), limit));
    }

    /** Succeeds exactly when every shard takes part, and then gives the answer of one engine
        holding everything the pinned copies hold: the single-node answer when they stand
        still between the rounds.  Otherwise nothing is returned, and the failure names
        exactly the shards at fault. */
    method SearchLocked(query: Text, terms: seq<Term>, limit: nat, ghost held: seq<seq<Held>>)
      returns (r: Result<SearchResults, ClusterError>)
      requires Configured() && Holding(held)
      requires p.analyzer.Analyze(query) != [] && TermSet(terms) == TermSet(p.analyzer.Analyze(query))
      ensures r.Success? <==> Answers(query, terms, limit)
      ensures r.Success? ==>
                r.value == Ranked(Chosen(held, Pinned(terms)), query, limit)
      ensures r.Failure? ==>
                r.error.ShardsFailed? && NamesAtFault(r.error.shards, query, terms, limit)
    {
      var pinned, stats, unavailable := SelectAndCollect(terms);
      if unavailable != [] {
        assert unavailable[0] in unavailable;
        return Failure(ShardsFailed(unavailable));
      }
      var merged := MergeCorpusStats(stats);
      CollectedIsMerged(terms, stats);
      PinnedCorpus(held, pinned, query, limit, terms, stats, merged);
      if merged.documentCount == 0 {
        return Success(SearchResults(0, []));
      }
      r := SearchPinned(query, limit, merged, pinned, held);
    }

    /** Round two over the copies pinned in round one. */
    method SearchPinned(
      query: Text, limit: nat, stats: CorpusStats, pinned: seq<nat>, ghost held: seq<seq<Held>>)
      returns (r: Result<SearchResults, ClusterError>)
      requires Configured() && Holding(held) && Pins(pinned)
      requires p.analyzer.Analyze(query) != []
      ensures r.Success? ==>
                r.value == LexicalSearch(
                  p, UnionAll(Scored(Chosen(held, pinned))), p.analyzer.Analyze(query), limit, stats)
      ensures r.Success? <==>
                forall i :: 0 <= i < |topology| ==> topology[i][pinned[i]].search(query, limit, stats).Some?
      ensures r.Failure? ==>
                && r.error.ShardsFailed? && r.error.shards != []
                && NamesDropped(r.error.shards, pinned, query, limit, stats)
    {
      var results, lost := FanOutSearch(query, limit, stats, pinned);
      if lost != [] {
        assert lost[0] in lost;
        return Failure(ShardsFailed(lost));
      }
      PinnedResults(held, pinned, query, limit, stats, results);
      var page := Merge(results, limit);
      r := Success(page);
    }

    /** The statistics are those of everything the pinned copies held, and ranking what they
        hold now with them is the answer; none when they held nothing. */
    lemma {:induction false} PinnedCorpus(
      held: seq<seq<Held>>, pinned: seq<nat>, query: Text, limit: nat, terms: seq<Term>,
      stats: seq<CorpusStats>, merged: CorpusStats)
      requires Configured() && Holding(held) && Pins(pinned) && |stats| == |topology|
      requires TermSet(terms) == TermSet(p.analyzer.Analyze(query)) && merged == Merged(stats)
      requires forall i :: 0 <= i < |topology| ==> topology[i][pinned[i]].corpusStats(terms) == Some(stats[i])
      ensures LexicalSearch(p, UnionAll(Scored(Chosen(held, pinned))), p.analyzer.Analyze(query), limit, merged)
           == Ranked(Chosen(held, pinned), query, limit)
      ensures merged.documentCount == 0 ==>
                Ranked(Chosen(held, pinned), query, limit) == SearchResults(0, [])
    {
      var chosen := Chosen(held, pinned);
      assert merged == DocumentStats(p, UnionAll(Counted(chosen)), TermSet(terms)) by {
        PinnedStats(held, pinned, terms, stats);
        MergedOfPinned(held, pinned, terms);
      }
      RankedWith(chosen, query, limit, merged);
    }

    lemma {:induction false} RankedWith(chosen: seq<Held>, query: Text, limit: nat, stats: CorpusStats)
      requires p.Sound()
      requires stats == DocumentStats(p, UnionAll(Counted(chosen)), TermSet(p.analyzer.Analyze(query)))
      ensures LexicalSearch(p, UnionAll(Scored(chosen)), p.analyzer.Analyze(query), limit, stats)
           == Ranked(chosen, query, limit)
      ensures stats.documentCount == 0 ==> Ranked(chosen, query, limit) == SearchResults(0, [])
    {
      if stats.documentCount == 0 {
        NothingToFind(p, UnionAll(Scored(chosen)), p.analyzer.Analyze(query), limit, stats);
      }
    }

    lemma {:induction false} MergedOfPinned(held: seq<seq<Held>>, pinned: seq<nat>, terms: seq<Term>)
      requires Configured() && Holding(held) && Pins(pinned)
      ensures var counted := Counted(Chosen(held, pinned));
              Merged(StatsOfEach(p, counted, TermSet(terms))) == DocumentStats(p, UnionAll(counted), TermSet(terms))
    {
      ChosenIsPartitioned(held, pinned);
      MergedStatsOfUnion(p, Counted(Chosen(held, pinned)), TermSet(terms));
    }

    lemma {:induction false} CollectedIsMerged(terms: seq<Term>, stats: seq<CorpusStats>)
      requires Pins(Pinned(terms)) && |stats| == |topology|
      requires forall i :: 0 <= i < |topology| ==>
                 topology[i][Pinned(terms)[i]].corpusStats(terms) == Some(stats[i])
      ensures Collected(terms) == Merged(stats)
    {
      assert stats == seq(|topology|, i requires 0 <= i < |topology| =>
        topology[i][Pinned(terms)[i]].corpusStats(terms).value);
    }

    lemma {:induction false} PinnedStats(
      held: seq<seq<Held>>, pinned: seq<nat>, terms: seq<Term>, stats: seq<CorpusStats>)
      requires Configured() && Holding(held) && Pins(pinned) && |stats| == |topology|
      requires forall i :: 0 <= i < |topology| ==> topology[i][pinned[i]].corpusStats(terms) == Some(stats[i])
      ensures stats == StatsOfEach(p, Counted(Chosen(held, pinned)), TermSet(terms))
    {
      forall i | 0 <= i < |topology| ensures stats[i] == DocumentStats(p, held[i][pinned[i]].counted, TermSet(terms)) {
        assert Serves(p, topology[i][pinned[i]], held[i][pinned[i]]);
      }
    }

    lemma {:induction false} PinnedResults(
      held: seq<seq<Held>>, pinned: seq<nat>, query: Text, limit: nat, stats: CorpusStats,
      results: seq<SearchResults>)
      requires Configured() && Holding(held) && Pins(pinned) && |results| == |topology|
      requires p.analyzer.Analyze(query) != []
      requires forall i :: 0 <= i < |topology| ==>
                 topology[i][pinned[i]].search(query, limit, stats) == Some(results[i])
      ensures MergeResults(results, limit)
           == LexicalSearch(p, UnionAll(Scored(Chosen(held, pinned))), p.analyzer.Analyze(query), limit, stats)
    {
      var corpora, terms := Scored(Chosen(held, pinned)), p.analyzer.Analyze(query);
      forall i | 0 <= i < |topology| ensures results[i] == LexicalSearch(p, corpora[i], terms, limit, stats) {
        assert Serves(p, topology[i][pinned[i]], held[i][pinned[i]]);
      }
      assert results == LexicalPages(p, corpora, terms, limit, stats);
      ChosenIsPartitioned(held, pinned);
      RoundTwo(p, corpora, terms, limit, stats);
    }

    lemma ChosenIsPartitioned(held: seq<seq<Held>>, pinned: seq<nat>)
      requires Configured() && Holding(held) && Pins(pinned)
      ensures var chosen := Chosen(held, pinned);
              && Counted(chosen) != [] && PairwiseDisjoint(Counted(chosen))
              && PairwiseDisjoint(Scored(chosen)) && PairwiseDisjoint(Matched(chosen))
    {
      var chosen := Chosen(held, pinned);
      forall i | 0 <= i < |chosen| ensures Owned(i, chosen[i]) {
        assert Owned(i, held[i][pinned[i]]);
      }
      PartsAreDisjoint(router, Counted(chosen));
      PartsAreDisjoint(router, Scored(chosen));
      PartsAreDisjoint(router, Matched(chosen));
    }

    /** A query without terms is answered at once; repeated terms are collected once. */
    method Search(query: Text, limit: nat, ghost held: seq<seq<Held>>)
      returns (r: Result<SearchResults, ClusterError>)
      requires Configured() && Holding(held)
      ensures p.analyzer.Analyze(query) == [] ==> r == Success(SearchResults(0, []))
      ensures p.analyzer.Analyze(query) != [] ==>
                var terms := SortedTerms(p.analyzer.Analyze(query));
                if Answers(query, terms, limit) then
                  r == Success(Ranked(Chosen(held, Pinned(terms)), query, limit))
                else
                  && r.Failure? && r.error.ShardsFailed?
                  && NamesAtFault(r.error.shards, query, terms, limit)
    {
      var terms := Tokenize(p.analyzer.normalize(query), p.analyzer.isAlnum);
      if terms == [] {
        return Success(SearchResults(0, []));
      }
      SortedTermsAreTheTerms(terms);
      var unique := UniqueTerms(terms);
      r := SearchLocked(query, unique, limit, held);
    }

    method UniqueTerms(terms: seq<Term>) returns (unique: seq<Term>)
      ensures unique == SortedTerms(terms)
    {
      var listed: seq<Hit<()>> := [];
      var rest := TermSet(terms);
      while rest != {}
        invariant rest <= TermSet(terms)
        invariant forall h :: h in listed <==>
                    h.documentId in terms && h.documentId !in rest && h == Hit(h.documentId, 0.0, ())
        invariant DistinctIdList(listed)
      {
        var t :| t in rest;
        listed := listed + [Hit(t, 0.0, ())];
        rest := rest - {t};
      }
      assert Elements(listed) == TermHits(terms);
      SortRanks(listed);
      unique := TermsOf(Sort(listed));
    }

    // -------------------------------------------------------------------------
    // Semantic search
    // -------------------------------------------------------------------------

    method SemanticFromAnyCopy(copies: seq<ShardClient>, vector: Vector, limit: nat)
      returns (answer: Option<SearchResults>)
      ensures var k := FirstWithVectors(copies, vector, limit);
              answer == if k == |copies| then None else copies[k].semanticSearch(vector, limit)
    {
      var k := 0;
      while k < |copies|
        invariant 0 <= k <= |copies|
        invariant forall j :: 0 <= j < k ==> copies[j].semanticSearch(vector, limit).None?
      {
        var results := copies[k].semanticSearch(vector, limit);
        if results.Some? {
          return results;
        }
        k := k + 1;
      }
      answer := None;
    }

    /** One answer per shard, or the shards that had none. */
    method FanOutSemantic(vector: Vector, limit: nat)
      returns (results: seq<SearchResults>, failed: seq<nat>)
      ensures NamesMissing(failed, Answering(vector, limit))
      ensures failed == [] ==>
                && Pins(Answering(vector, limit)) && |results| == |topology|
                && forall i :: 0 <= i < |topology| ==>
                     topology[i][Answering(vector, limit)[i]].semanticSearch(vector, limit) == Some(results[i])
    {
      ghost var answering := Answering(vector, limit);
      results, failed := [], [];
      var i := 0;
      while i < |topology|
        invariant 0 <= i <= |topology|
        invariant forall j: nat :: j in failed <==> j < i && answering[j] == |topology[j]|
        invariant failed == [] ==>
                    && |results| == i
                    && forall j :: 0 <= j < i ==>
                         && answering[j] < |topology[j]|
                         && topology[j][answering[j]].semanticSearch(vector, limit) == Some(results[j])
      {
        var answer := SemanticFromAnyCopy(topology[i], vector, limit);
        if answer.Some? {
          results := results + [answer.value];
        } else {
          failed := failed + [i];
        }
        i := i + 1;
      }
    }

    /** One round suffices: a similarity needs no corpus-wide statistic. */
    method SemanticSearchLocked(vector: Vector, limit: nat, ghost held: seq<seq<Held>>)
      returns (r: Result<SearchResults, ClusterError>)
      requires Configured() && Holding(held)
      requires p.embedder.Some? && |vector| == p.embedder.value.dimension
      ensures r.Success? <==> Pins(Answering(vector, limit))
      ensures r.Success? ==>
                r.value == Nodes.SemanticSearch(
                  p, UnionAll(Matched(Chosen(held, Answering(vector, limit)))), vector, limit)
      ensures r.Failure? ==>
                && r.error.ShardsFailed? && r.error.shards != []
                && NamesMissing(r.error.shards, Answering(vector, limit))
    {
      var results, failed := FanOutSemantic(vector, limit);
      if failed != [] {
        assert failed[0] in failed;
        return Failure(ShardsFailed(failed));
      }
      AnsweredPages(held, Answering(vector, limit), vector, limit, results);
      var page := Merge(results, limit);
      r := Success(page);
    }

    /** The query is embedded once, so every shard ranks against the same vector. */
    method SemanticSearch(
      query: Text, limit: nat, unembeddable: bool, ghost held: seq<seq<Held>>)
      returns (r: Result<SearchResults, ClusterError>)
      requires Configured() && Holding(held)
      ensures p.embedder.None? ==> r == Failure(NoEmbedder)
      ensures p.embedder.Some? && unembeddable ==> r == Failure(QueryNotEmbedded)
      ensures p.embedder.Some? && !unembeddable ==>
                var vector := p.embedder.value.embedQuery(query);
                var answering := Answering(vector, limit);
                if Pins(answering) then
                  r == Success(Nodes.SemanticSearch(p, UnionAll(Matched(Chosen(held, answering))), vector, limit))
                else
                  r.Failure? && r.error.ShardsFailed? && NamesMissing(r.error.shards, answering)
    {
      if p.embedder.None? {
        return Failure(NoEmbedder);
      }
      if unembeddable {
        return Failure(QueryNotEmbedded);
      }
      r := SemanticSearchLocked(p.embedder.value.embedQuery(query), limit, held);
    }

    lemma {:induction false} AnsweredPages(
      held: seq<seq<Held>>, answering: seq<nat>, vector: Vector, limit: nat,
      results: seq<SearchResults>)
      requires Configured() && Holding(held) && Pins(answering) && |results| == |topology|
      requires p.embedder.Some? && |vector| == p.embedder.value.dimension
      requires forall i :: 0 <= i < |topology| ==>
                 topology[i][answering[i]].semanticSearch(vector, limit) == Some(results[i])
      ensures MergeResults(results, limit)
           == Nodes.SemanticSearch(p, UnionAll(Matched(Chosen(held, answering))), vector, limit)
    {
      var corpora := Matched(Chosen(held, answering));
      forall i | 0 <= i < |topology|
        ensures results[i] == Nodes.SemanticSearch(p, corpora[i], vector, limit)
      {
        assert Serves(p, topology[i][answering[i]], held[i][answering[i]]);
      }
      assert results == SemanticPages(p, corpora, vector, limit);
      ChosenIsPartitioned(held, answering);
      DistributedSemanticEqualsSingleNode(p, corpora, vector, limit);
    }

    // -------------------------------------------------------------------------
    // Hybrid search
    // -------------------------------------------------------------------------

    /** The fusion of one engine's lexical ranking over some copies with its semantic ranking
        over others. */
    ghost function RankedBoth(
      lexical: seq<Held>, semantic: seq<Held>, query: Text, vector: Vector, depth: nat, limit: nat, k: int)
      : HybridResults
      requires p.Sound() && p.embedder.Some? && |vector| == p.embedder.value.dimension && k >= 1
    {
      FusedResults(
        Ranked(lexical, query, depth).results,
        Nodes.SemanticSearch(p, UnionAll(Matched(semantic)), vector, depth).results, limit, k)
    }

    /** Fusing the rankings of copies that hold the same documents is the single-node hybrid
        ranking of those documents. */
    lemma FusedPages(
      lexical: seq<Held>, semantic: seq<Held>, query: Text, limit: nat, config: FusionConfig)
      requires p.Sound() && p.embedder.Some? && config.Accepted() && config.CandidateDepth(limit) >= 1
      requires p.analyzer.Analyze(query) != []
      ensures var vector, depth := p.embedder.value.embedQuery(query), config.CandidateDepth(limit);
              Counted(lexical) == Scored(lexical) == Matched(semantic) ==>
                RankedBoth(lexical, semantic, query, vector, depth, limit, config.rrfK)
                == Nodes.HybridSearch(p, UnionAll(Scored(lexical)), query, limit, config)
    {
    }

    /** Both fan-outs, then fusion; either one failing fails the request. */
    method FuseBoth(
      query: Text, terms: seq<Term>, vector: Vector, depth: nat, limit: nat, config: FusionConfig,
      ghost held: seq<seq<Held>>)
      returns (r: Result<HybridResults, ClusterError>)
      requires Configured() && Holding(held) && config.Accepted() && limit >= 1
      requires p.analyzer.Analyze(query) != [] && TermSet(terms) == TermSet(p.analyzer.Analyze(query))
      requires p.embedder.Some? && |vector| == p.embedder.value.dimension
      ensures r.Success? <==> Answers(query, terms, depth) && Pins(Answering(vector, depth))
      ensures r.Success? ==>
                r.value == RankedBoth(Chosen(held, Pinned(terms)), Chosen(held, Answering(vector, depth)),
                             query, vector, depth, limit, config.rrfK)
      ensures r.Failure? ==>
                && r.error.ShardsFailed? && r.error.shards != []
                && if Answers(query, terms, depth) then NamesMissing(r.error.shards, Answering(vector, depth))
                   else NamesAtFault(r.error.shards, query, terms, depth)
    {
      var lexical := SearchLocked(query, terms, depth, held);
      var semantic := SemanticSearchLocked(vector, depth, held);
      if lexical.Failure? {
        return Failure(lexical.error);
      }
      if semantic.Failure? {
        return Failure(semantic.error);
      }
      var fused := ReciprocalRankFusion(lexical.value, semantic.value, limit, config);
      r := Success(fused.value);
    }

    /** A failure names exactly the shards at fault, in the lexical path first; success is the
        fusion of both rankings. */
    ghost predicate Fuses(
      r: Result<HybridResults, ClusterError>, query: Text, terms: seq<Term>, vector: Vector, depth: nat,
      limit: nat, config: FusionConfig, held: seq<seq<Held>>)
      requires Configured() && Holding(held) && config.Accepted()
      requires p.embedder.Some? && |vector| == p.embedder.value.dimension
      requires vector == p.embedder.value.embedQuery(query) && depth == config.CandidateDepth(limit) >= 1
      reads this
    {
      if !Answers(query, terms, depth) then
        r.Failure? && r.error.ShardsFailed? && NamesAtFault(r.error.shards, query, terms, depth)
      else if !Pins(Answering(vector, depth)) then
        && r.Failure? && r.error.ShardsFailed? && r.error.shards != []
        && NamesMissing(r.error.shards, Answering(vector, depth))
      else
        var lexical, semantic := Chosen(held, Pinned(terms)), Chosen(held, Answering(vector, depth));
        r == Success(RankedBoth(lexical, semantic, query, vector, depth, limit, config.rrfK))
    }

    /** Either path failing fails the request.  The fan-outs choose copies independently; when
        the copies they chose hold the same documents throughout, the answer is the single-node
        one (`FusedPages`). */
    method HybridSearch(
      query: Text, limit: nat, config: FusionConfig, unembeddable: bool, ghost held: seq<seq<Held>>)
      returns (r: Result<HybridResults, ClusterError>)
      requires Configured() && Holding(held) && config.Accepted()
      ensures p.analyzer.Analyze(query) == [] ==> r == Success(HybridResults(0, []))
      ensures p.analyzer.Analyze(query) != [] && p.embedder.None? ==> r == Failure(NoEmbedder)
      ensures p.analyzer.Analyze(query) != [] && p.embedder.Some? && unembeddable ==>
                r == Failure(QueryNotEmbedded)
      ensures p.analyzer.Analyze(query) != [] && p.embedder.Some? && !unembeddable
              && config.CandidateDepth(limit) < 1 ==>
                r == Failure(LimitTooLow)
      ensures p.analyzer.Analyze(query) != [] && p.embedder.Some? && !unembeddable
              && config.CandidateDepth(limit) >= 1 ==>
                var terms := SortedTerms(p.analyzer.Analyze(query));
                var vector, depth := p.embedder.value.embedQuery(query), config.CandidateDepth(limit);
                Fuses(r, query, terms, vector, depth, limit, config, held)
    {
      var terms := Tokenize(p.analyzer.normalize(query), p.analyzer.isAlnum);
      if terms == [] {
        return Success(HybridResults(0, []));
      }
      if p.embedder.None? {
        return Failure(NoEmbedder);
      }
      if unembeddable {
        return Failure(QueryNotEmbedded);
      }
      var vector := p.embedder.value.embedQuery(query);
      var depth := config.CandidateDepth(limit);
      if depth < 1 {
        // Every shard refuses such a depth.
        return Failure(LimitTooLow);
      }
      r := FuseAtDepth(query, terms, vector, depth, limit, config, held);
    }

    method FuseAtDepth(
      query: Text, terms: seq<Term>, vector: Vector, depth: nat, limit: nat, config: FusionConfig,
      ghost held: seq<seq<Held>>)
      returns (r: Result<HybridResults, ClusterError>)
      requires Configured() && Holding(held) && config.Accepted()
      requires terms == p.analyzer.Analyze(query) && terms != []
      requires p.embedder.Some? && vector == p.embedder.value.embedQuery(query)
      requires depth == config.CandidateDepth(limit) && depth >= 1
      ensures Fuses(r, query, SortedTerms(terms), vector, depth, limit, config, held)
    {
      SortedTermsAreTheTerms(terms);
      var unique := UniqueTerms(terms);
      DepthNeedsLimit(config, limit);
      r := FuseBoth(query, unique, vector, depth, limit, config, held);
    }
  }
}
