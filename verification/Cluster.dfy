/** The whole cluster: replication, routing and distributed ranking together.

    Each shard has its own run of the protocol; a query picks one READY copy of each. */
module Clusters {
  import opened Basics
  import opened Hits
  import opened BM25
  import opened Nodes
  import opened Fusion
  import opened Protocol
  import opened ProtocolSafety
  import opened Distribution
  import opened Coordinators

  // ---------------------------------------------------------------------------
  // Routing keeps shards disjoint in every run
  // ---------------------------------------------------------------------------

  ghost predicate LogRouted(router: ShardRouter, shard: nat, log: seq<Op>)
    requires router.shardCount >= 1
  {
    forall k :: 0 <= k < |log| ==> router.ShardFor(log[k].id) == shard
  }

  /** The coordinator sends a shard only the mutations of documents it owns. */
  ghost predicate WritesRouted(router: ShardRouter, shard: nat, t: Trace)
    requires router.shardCount >= 1
  {
    forall k :: 0 <= k < |t.steps| && t.steps[k].PrimaryWrite? ==>
      router.ShardFor(t.steps[k].op.id) == shard
  }

  lemma {:induction false} RunLogRouted(p: Pipeline, router: ShardRouter, shard: nat, t: Trace, k: nat)
    requires router.shardCount >= 1 && IsRun(p, t) && WritesRouted(router, shard, t) && k < |t.states|
    ensures LogRouted(router, shard, t.states[k].log)
  {
    if k > 0 {
      RunLogRouted(p, router, shard, t, k - 1);
      assert StepsTo(p, t.states[k - 1], t.steps[k - 1], t.states[k]);
    }
  }

  lemma {:induction false} ReplayIsOwned(router: ShardRouter, shard: nat, log: seq<Op>)
    requires router.shardCount >= 1 && LogRouted(router, shard, log)
    ensures router.Owns(shard, Replay(log))
  {
    if log != [] {
      ReplayIsOwned(router, shard, log[..|log| - 1]);
    }
  }

  // ---------------------------------------------------------------------------
  // A cluster at one moment
  // ---------------------------------------------------------------------------

  /** Every shard has been through a run without overlapping synchronizations, receiving
      only its own documents' mutations; `at` is the moment each run is looked at. */
  ghost predicate Running(p: Pipeline, router: ShardRouter, runs: seq<Trace>, at: seq<nat>) {
    && p.Sound() && router.shardCount >= 1 && |runs| == |at| == router.shardCount
    && forall i :: 0 <= i < |runs| ==>
         && ExclusiveRun(p, runs[i]) && WritesRouted(router, i, runs[i]) && at[i] < |runs[i].states|
  }

  ghost function Now(runs: seq<Trace>, at: seq<nat>, i: nat): Shard
    requires |runs| == |at| && i < |runs| && at[i] < |runs[i].states|
  {
    runs[i].states[at[i]]
  }

  /** One READY copy of every shard. */
  ghost predicate ReadyChoice(runs: seq<Trace>, at: seq<nat>, copies: seq<Node>)
    requires |runs| == |at| && forall i :: 0 <= i < |runs| ==> at[i] < |runs[i].states|
  {
    && |copies| == |runs|
    && forall i :: 0 <= i < |runs| ==> IsCopy(Now(runs, at, i), copies[i]) && copies[i].state == Ready
  }

  /** What the chosen copies serve from. */
  ghost function Served(copies: seq<Node>): seq<Documents> {
    seq(|copies|, i requires 0 <= i < |copies| => copies[i].derived.documents)
  }

  /** The corpora after the first `upTo[i]` mutations of each shard. */
  ghost function History(runs: seq<Trace>, at: seq<nat>, upTo: seq<nat>): seq<Documents>
    requires |runs| == |at| == |upTo|
    requires forall i :: 0 <= i < |runs| ==> at[i] < |runs[i].states| && upTo[i] <= |Now(runs, at, i).log|
  {
    seq(|runs|, i requires 0 <= i < |runs| => Replay(Now(runs, at, i).log[..upTo[i]]))
  }

  ghost function Generations(copies: seq<Node>): seq<nat> {
    seq(|copies|, i requires 0 <= i < |copies| => copies[i].generation)
  }

  /** A READY copy serves a prefix of its shard's history that contains everything
      acknowledged, and only documents its shard owns. */
  lemma ReadyCopyServesPrefix(
    p: Pipeline, router: ShardRouter, runs: seq<Trace>, at: seq<nat>, copies: seq<Node>, i: nat)
    requires Running(p, router, runs, at) && ReadyChoice(runs, at, copies) && i < |runs|
    ensures var s := Now(runs, at, i);
            && copies[i].generation <= |s.log|
            && copies[i].derived == Rebuilt(p, Replay(s.log[..copies[i].generation]))
            && router.Owns(i, copies[i].derived.documents)
            && (forall g :: g in s.acked ==> g <= copies[i].generation)
  {
    var s, n := Now(runs, at, i), copies[i];
    ExclusiveRunIsSafe(p, runs[i], at[i]);
    CopyReplaysPrefix(p, s, n);
    ReadyIsFresh(p, s, n);
    RunLogRouted(p, router, i, runs[i], at[i]);
    ReplayIsOwned(router, i, s.log[..n.generation]);
    ExclusiveRunIsGuardedRun(p, runs[i]);
    forall g | g in s.acked ensures g <= n.generation {
      AcknowledgedIsDurableEverywhere(p, runs[i], at[i], at[i], g, n);
    }
  }

  /** End to end: a search over any READY copies equals a search by one engine over the
      union of prefixes of the shards' histories, each containing every acknowledged
      mutation of its shard. */
  lemma SearchReflectsAcknowledged(
    p: Pipeline, router: ShardRouter, runs: seq<Trace>, at: seq<nat>, copies: seq<Node>,
    query: Text, limit: nat)
    requires Running(p, router, runs, at) && ReadyChoice(runs, at, copies)
    ensures forall i :: 0 <= i < |runs| ==> copies[i].generation <= |Now(runs, at, i).log|
    ensures forall i, g :: 0 <= i < |runs| && g in Now(runs, at, i).acked ==> g <= copies[i].generation
    ensures DistributedSearch(p, Served(copies), query, limit)
         == SingleNodeSearch(p, UnionAll(History(runs, at, Generations(copies))), query, limit)
  {
    forall i | 0 <= i < |runs|
      ensures copies[i].generation <= |Now(runs, at, i).log|
      ensures copies[i].derived.documents == Replay(Now(runs, at, i).log[..copies[i].generation])
      ensures router.Owns(i, copies[i].derived.documents)
      ensures forall g :: g in Now(runs, at, i).acked ==> g <= copies[i].generation
    {
      ReadyCopyServesPrefix(p, router, runs, at, copies, i);
    }
    PartsAreDisjoint(router, Served(copies));
    DistributedEqualsSingleNode(p, Served(copies), query, limit);
    assert Served(copies) == History(runs, at, Generations(copies));
  }

  /** No mutation is in doubt: the newest one of every shard has been acknowledged. */
  ghost predicate Settled(s: Shard) {
    |s.log| == 0 || |s.log| in s.acked
  }

  /** With nothing in doubt every READY copy serves the whole history. */
  lemma SettledCopyServesAll(
    p: Pipeline, router: ShardRouter, runs: seq<Trace>, at: seq<nat>, copies: seq<Node>, i: nat)
    requires Running(p, router, runs, at) && ReadyChoice(runs, at, copies) && i < |runs|
    requires Settled(Now(runs, at, i))
    ensures copies[i].derived == Rebuilt(p, Replay(Now(runs, at, i).log))
  {
    ReadyCopyServesPrefix(p, router, runs, at, copies, i);
    var s := Now(runs, at, i);
    assert s.log[..|s.log|] == s.log;
  }

  /** Read failover is transparent: whichever READY copies answer, lexically, semantically
      or both, the results are the same. */
  lemma FailoverIsTransparent(
    p: Pipeline, router: ShardRouter, runs: seq<Trace>, at: seq<nat>,
    a: seq<Node>, b: seq<Node>, query: Text, limit: nat, config: FusionConfig)
    requires Running(p, router, runs, at) && ReadyChoice(runs, at, a) && ReadyChoice(runs, at, b)
    requires forall i :: 0 <= i < |runs| ==> Settled(Now(runs, at, i))
    ensures Served(a) == Served(b) && PairwiseDisjoint(Served(a))
    ensures DistributedSearch(p, Served(a), query, limit) == DistributedSearch(p, Served(b), query, limit)
         == SingleNodeSearch(p, UnionAll(Served(a)), query, limit)
    ensures p.embedder.Some? ==>
              var vector := p.embedder.value.embedQuery(query);
              MergeResults(SemanticPages(p, Served(a), vector, limit), limit)
              == MergeResults(SemanticPages(p, Served(b), vector, limit), limit)
              == SemanticSearch(p, UnionAll(Served(a)), vector, limit)
    ensures p.embedder.Some? && config.Accepted() && config.CandidateDepth(limit) >= 1 ==>
              DistributedHybrid(p, Served(a), Served(b), query, limit, config)
              == HybridSearch(p, UnionAll(Served(a)), query, limit, config)
  {
    forall i | 0 <= i < |runs|
      ensures a[i].derived == b[i].derived && router.Owns(i, a[i].derived.documents)
    {
      SettledCopyServesAll(p, router, runs, at, a, i);
      SettledCopyServesAll(p, router, runs, at, b, i);
      ReadyCopyServesPrefix(p, router, runs, at, a, i);
    }
    assert Served(a) == Served(b);
    PartsAreDisjoint(router, Served(a));
    DistributedEqualsSingleNode(p, Served(a), query, limit);
    if p.embedder.Some? {
      DistributedSemanticEqualsSingleNode(p, Served(a), p.embedder.value.embedQuery(query), limit);
    }
    if p.embedder.Some? && config.Accepted() && config.CandidateDepth(limit) >= 1 {
      DistributedHybridEqualsSingleNode(p, Served(a), query, limit, config);
    }
  }

  // ---------------------------------------------------------------------------
  // The coordinator in front of the running shards
  // ---------------------------------------------------------------------------

  /** The states of a shard's run in which a query reaches it: for its statistics, for its
      ranking, and for its similarities.  Writes may land in between. */
  datatype Moments = Moments(counted: nat, scored: nat, matched: nat)

  ghost predicate Within(t: Trace, m: Moments) {
    m.counted <= m.scored < |t.states| && m.matched < |t.states|
  }

  /** The physical copies of a shard in serving order: the primary, then its replicas. */
  function CopyOf(s: Shard, k: nat): Node
    requires k <= |s.replicas|
  {
    if k == 0 then s.primary else s.replicas[k - 1].node
  }

  /** The client answers only while its copy is READY, and then as the copy's engine does,
      from the documents on disk at that moment. */
  ghost predicate Fronts(p: Pipeline, client: ShardClient, counted: Node, scored: Node, matched: Node)
    requires p.Sound()
  {
    && Serves(p, client, Held(counted.disk.documents, scored.disk.documents, matched.disk.documents))
    && (forall terms :: client.corpusStats(terms).Some? ==> counted.state == Ready)
    && (forall query, limit, stats :: client.search(query, limit, stats).Some? ==> scored.state == Ready)
    && (forall vector, limit :: client.semanticSearch(vector, limit).Some? ==> matched.state == Ready)
  }

  /** The clients of one shard are its copies, READY or not. */
  ghost predicate Fronted(p: Pipeline, clients: seq<ShardClient>, t: Trace, m: Moments)
    requires p.Sound() && Within(t, m)
  {
    && |clients| == |t.states[m.counted].replicas| + 1
    && |t.states[m.counted].replicas| == |t.states[m.scored].replicas| == |t.states[m.matched].replicas|
    && forall k :: 0 <= k < |clients| ==>
         Fronts(p, clients[k], CopyOf(t.states[m.counted], k), CopyOf(t.states[m.scored], k),
           CopyOf(t.states[m.matched], k))
  }

  /** The coordinator's topology is the copies of the running shards. */
  ghost predicate Deployed(c: Coordinator, runs: seq<Trace>, at: seq<Moments>) {
    && c.p.Sound() && c.router.shardCount >= 1
    && |c.topology| == |at| == |runs| == c.router.shardCount
    && forall i :: 0 <= i < |runs| ==>
         && Within(runs[i], at[i])
         && ExclusiveRun(c.p, runs[i]) && WritesRouted(c.router, i, runs[i])
         && Fronted(c.p, c.topology[i], runs[i], at[i])
  }

  ghost function HeldBy(t: Trace, m: Moments, k: nat): Held
    requires Within(t, m) && k <= |t.states[m.counted].replicas|
    requires |t.states[m.counted].replicas| == |t.states[m.scored].replicas| == |t.states[m.matched].replicas|
  {
    Held(CopyOf(t.states[m.counted], k).disk.documents,
         CopyOf(t.states[m.scored], k).disk.documents,
         CopyOf(t.states[m.matched], k).disk.documents)
  }

  ghost function HeldByAll(c: Coordinator, runs: seq<Trace>, at: seq<Moments>): seq<seq<Held>>
    requires Deployed(c, runs, at)
  {
    seq(|runs|, i requires 0 <= i < |runs| =>
      seq(|c.topology[i]|, k requires 0 <= k < |c.topology[i]| => HeldBy(runs[i], at[i], k)))
  }

  /** What the coordinator's contracts assume of its clients follows from the runs. */
  lemma DeploymentHolds(c: Coordinator, runs: seq<Trace>, at: seq<Moments>)
    requires Deployed(c, runs, at)
    ensures c.Configured() && c.Holding(HeldByAll(c, runs, at))
  {
    forall i, k | 0 <= i < |runs| && 0 <= k < |c.topology[i]|
      ensures c.Owned(i, HeldBy(runs[i], at[i], k))
      ensures Serves(c.p, c.topology[i][k], HeldBy(runs[i], at[i], k))
    {
      var t, m := runs[i], at[i];
      CopyIsOwned(c.p, c.router, t, m.counted, i, k);
      CopyIsOwned(c.p, c.router, t, m.scored, i, k);
      CopyIsOwned(c.p, c.router, t, m.matched, i, k);
      assert Fronts(c.p, c.topology[i][k], CopyOf(t.states[m.counted], k), CopyOf(t.states[m.scored], k),
                    CopyOf(t.states[m.matched], k));
    }
  }

  /** Any copy, READY or not, holds on disk what a prefix of its shard's log leaves. */
  lemma CopyIsOwned(p: Pipeline, router: ShardRouter, t: Trace, j: nat, shard: nat, k: nat)
    requires router.shardCount >= 1 && ExclusiveRun(p, t) && WritesRouted(router, shard, t)
    requires j < |t.states| && k <= |t.states[j].replicas|
    ensures var n, log := CopyOf(t.states[j], k), t.states[j].log;
            && n.disk.generation <= |log| && n.disk.documents == Replay(log[..n.disk.generation])
            && router.Owns(shard, n.disk.documents)
  {
    var s := t.states[j];
    var n := CopyOf(s, k);
    ExclusiveRunIsSafe(p, t, j);
    assert IsCopy(s, n);
    CopyReplaysPrefix(p, s, n);
    RunLogRouted(p, router, shard, t, j);
    ReplayIsOwned(router, shard, s.log[..n.disk.generation]);
  }

  // ---------------------------------------------------------------------------
  // What the copies that answer hold
  // ---------------------------------------------------------------------------

  /** A prefix of the history of a shard: READY at state `j`, the copy serves the replay of its
      first entries, and everything acknowledged by then is among them. */
  ghost predicate ServesPrefix(t: Trace, j: nat, n: Node) {
    && j < |t.states| && n.state == Ready && n.generation <= |t.states[j].log|
    && n.disk.documents == Replay(t.states[j].log[..n.generation])
    && forall g :: g in t.states[j].acked ==> g <= n.generation
  }

  lemma ReadyServesPrefix(p: Pipeline, t: Trace, j: nat, k: nat)
    requires ExclusiveRun(p, t) && j < |t.states| && k <= |t.states[j].replicas|
    requires CopyOf(t.states[j], k).state == Ready
    ensures ServesPrefix(t, j, CopyOf(t.states[j], k))
  {
    var s := t.states[j];
    var n := CopyOf(s, k);
    ExclusiveRunIsSafe(p, t, j);
    assert IsCopy(s, n);
    CopyReplaysPrefix(p, s, n);
    ReadyIsFresh(p, s, n);
    ExclusiveRunIsGuardedRun(p, t);
    forall g | g in s.acked ensures g <= n.generation {
      AcknowledgedIsDurableEverywhere(p, t, j, j, g, n);
    }
  }

  /** The copies that answer round one, as they are then, ... */
  ghost predicate CountedReady(c: Coordinator, runs: seq<Trace>, at: seq<Moments>, pinned: seq<nat>)
    requires Deployed(c, runs, at) && c.Pins(pinned)
  {
    forall i :: 0 <= i < |runs| ==>
      ServesPrefix(runs[i], at[i].counted, CopyOf(runs[i].states[at[i].counted], pinned[i]))
  }

  /** ... as they are in round two, ... */
  ghost predicate ScoredReady(c: Coordinator, runs: seq<Trace>, at: seq<Moments>, pinned: seq<nat>)
    requires Deployed(c, runs, at) && c.Pins(pinned)
  {
    forall i :: 0 <= i < |runs| ==>
      ServesPrefix(runs[i], at[i].scored, CopyOf(runs[i].states[at[i].scored], pinned[i]))
  }

  /** ... and those that answer semantically. */
  ghost predicate MatchedReady(c: Coordinator, runs: seq<Trace>, at: seq<Moments>, pinned: seq<nat>)
    requires Deployed(c, runs, at) && c.Pins(pinned)
  {
    forall i :: 0 <= i < |runs| ==>
      ServesPrefix(runs[i], at[i].matched, CopyOf(runs[i].states[at[i].matched], pinned[i]))
  }

  lemma PinnedAreReady(c: Coordinator, runs: seq<Trace>, at: seq<Moments>, terms: seq<Term>)
    requires Deployed(c, runs, at) && c.Pins(c.Pinned(terms))
    ensures CountedReady(c, runs, at, c.Pinned(terms))
  {
    forall i | 0 <= i < |runs|
      ensures ServesPrefix(runs[i], at[i].counted, CopyOf(runs[i].states[at[i].counted], c.Pinned(terms)[i]))
    {
      var k := c.Pinned(terms)[i];
      assert c.topology[i][k].corpusStats(terms).Some?;
      ReadyServesPrefix(c.p, runs[i], at[i].counted, k);
    }
  }

  lemma ScorersAreReady(
    c: Coordinator, runs: seq<Trace>, at: seq<Moments>, query: Text, terms: seq<Term>, limit: nat)
    requires Deployed(c, runs, at) && c.Answers(query, terms, limit)
    requires c.Collected(terms).documentCount != 0
    ensures ScoredReady(c, runs, at, c.Pinned(terms))
  {
    forall i | 0 <= i < |runs|
      ensures ServesPrefix(runs[i], at[i].scored, CopyOf(runs[i].states[at[i].scored], c.Pinned(terms)[i]))
    {
      var k := c.Pinned(terms)[i];
      assert c.topology[i][k].search(query, limit, c.Collected(terms)).Some?;
      ReadyServesPrefix(c.p, runs[i], at[i].scored, k);
    }
  }

  lemma AnsweringAreReady(
    c: Coordinator, runs: seq<Trace>, at: seq<Moments>, vector: Vector, limit: nat)
    requires Deployed(c, runs, at) && c.Pins(c.Answering(vector, limit))
    ensures MatchedReady(c, runs, at, c.Answering(vector, limit))
  {
    forall i | 0 <= i < |runs|
      ensures ServesPrefix(
                runs[i], at[i].matched, CopyOf(runs[i].states[at[i].matched], c.Answering(vector, limit)[i]))
    {
      var k := c.Answering(vector, limit)[i];
      assert c.topology[i][k].semanticSearch(vector, limit).Some?;
      ReadyServesPrefix(c.p, runs[i], at[i].matched, k);
    }
  }

  ghost function ChosenBy(c: Coordinator, runs: seq<Trace>, at: seq<Moments>, pinned: seq<nat>): seq<Held>
    requires Deployed(c, runs, at) && c.Pins(pinned)
  {
    Chosen(HeldByAll(c, runs, at), pinned)
  }

  // ---------------------------------------------------------------------------
  // Queries
  // ---------------------------------------------------------------------------

  /** A query through the coordinator, whatever copies answer it, ranks what the pinned copies
      hold when they score with the statistics of what they held when they were counted, and
      both are prefixes of the shards' histories that contain every write acknowledged by
      then. */
  method SearchCluster(
    c: Coordinator, query: Text, limit: nat, ghost runs: seq<Trace>, ghost at: seq<Moments>)
    returns (r: Result<SearchResults, ClusterError>)
    requires Deployed(c, runs, at)
    ensures c.p.analyzer.Analyze(query) == [] ==> r == Success(SearchResults(0, []))
    ensures c.p.analyzer.Analyze(query) != [] ==>
              var terms := SortedTerms(c.p.analyzer.Analyze(query));
              && (r.Success? <==> c.Answers(query, terms, limit))
              && (r.Success? ==>
                    && CountedReady(c, runs, at, c.Pinned(terms))
                    && (c.Collected(terms).documentCount != 0 ==> ScoredReady(c, runs, at, c.Pinned(terms)))
                    && r.value == c.Ranked(ChosenBy(c, runs, at, c.Pinned(terms)), query, limit))
  {
    DeploymentHolds(c, runs, at);
    ghost var terms := SortedTerms(c.p.analyzer.Analyze(query));
    if c.p.analyzer.Analyze(query) != [] && c.Answers(query, terms, limit) {
      PinnedAreReady(c, runs, at, terms);
      if c.Collected(terms).documentCount != 0 {
        ScorersAreReady(c, runs, at, query, terms, limit);
      }
    }
    r := c.Search(query, limit, HeldByAll(c, runs, at));
  }

  /** None of the chosen copies moved between the rounds. */
  ghost predicate StoodStill(c: Coordinator, runs: seq<Trace>, at: seq<Moments>, pinned: seq<nat>)
    requires Deployed(c, runs, at) && c.Pins(pinned)
  {
    forall i :: 0 <= i < |runs| ==>
      CopyOf(runs[i].states[at[i].counted], pinned[i]).disk.generation
      == CopyOf(runs[i].states[at[i].scored], pinned[i]).disk.generation
  }

  /** If none of the pinned copies moved, that is the single-node answer. */
  lemma StillIsSingleNode(
    c: Coordinator, runs: seq<Trace>, at: seq<Moments>, pinned: seq<nat>, query: Text, limit: nat)
    requires Deployed(c, runs, at) && c.Pins(pinned) && StoodStill(c, runs, at, pinned)
    ensures var chosen := ChosenBy(c, runs, at, pinned);
            && Counted(chosen) == Scored(chosen)
            && c.Ranked(chosen, query, limit) == SingleNodeSearch(c.p, UnionAll(Scored(chosen)), query, limit)
  {
    var chosen := ChosenBy(c, runs, at, pinned);
    forall i | 0 <= i < |runs| ensures chosen[i].counted == chosen[i].scored {
      var t, m := runs[i], at[i];
      SameGenerationSameDocuments(c.p, t, m.counted, m.scored, pinned[i], pinned[i]);
    }
    assert Counted(chosen) == Scored(chosen);
  }

  /** Copies of a shard at equal generations hold the same, at any two moments. */
  lemma SameGenerationSameDocuments(p: Pipeline, t: Trace, j: nat, k: nat, a: nat, b: nat)
    requires ExclusiveRun(p, t) && j < |t.states| && k < |t.states|
    requires a <= |t.states[j].replicas| && b <= |t.states[k].replicas|
    requires CopyOf(t.states[j], a).disk.generation == CopyOf(t.states[k], b).disk.generation
    ensures CopyOf(t.states[j], a).disk == CopyOf(t.states[k], b).disk
  {
    var first, second := if j <= k then j else k, if j <= k then k else j;
    RunExtendsHistory(p, t, first, second);
    ExclusiveRunIsSafe(p, t, j);
    ExclusiveRunIsSafe(p, t, k);
    var n, m := CopyOf(t.states[j], a), CopyOf(t.states[k], b);
    assert IsCopy(t.states[j], n) && IsCopy(t.states[k], m);
    CopyReplaysPrefix(p, t.states[j], n);
    CopyReplaysPrefix(p, t.states[k], m);
    assert t.states[first].log[..n.disk.generation] == t.states[second].log[..n.disk.generation];
  }

  /** A semantic query is one engine's over prefixes of the histories. */
  method SemanticSearchCluster(
    c: Coordinator, query: Text, limit: nat, ghost runs: seq<Trace>, ghost at: seq<Moments>)
    returns (r: Result<SearchResults, ClusterError>)
    requires Deployed(c, runs, at) && c.p.embedder.Some?
    ensures var vector := c.p.embedder.value.embedQuery(query);
            var answering := c.Answering(vector, limit);
            && (r.Success? <==> c.Pins(answering))
            && (r.Success? ==>
                  && MatchedReady(c, runs, at, answering)
                  && r.value == SemanticSearch(
                       c.p, UnionAll(Matched(ChosenBy(c, runs, at, answering))), vector, limit))
  {
    DeploymentHolds(c, runs, at);
    ghost var vector := c.p.embedder.value.embedQuery(query);
    if c.Pins(c.Answering(vector, limit)) {
      AnsweringAreReady(c, runs, at, vector, limit);
    }
    r := c.SemanticSearch(query, limit, false, HeldByAll(c, runs, at));
  }

  // ---------------------------------------------------------------------------
  // Queries with nothing in doubt
  // ---------------------------------------------------------------------------

  ghost function Whole(t: Trace, m: Moments): Documents
    requires Within(t, m)
  {
    Replay(t.states[m.counted].log)
  }

  ghost function WholeHistory(runs: seq<Trace>, at: seq<Moments>): seq<Documents>
    requires |runs| == |at| && forall i :: 0 <= i < |runs| ==> Within(runs[i], at[i])
  {
    seq(|runs|, i requires 0 <= i < |runs| => Whole(runs[i], at[i]))
  }

  /** Nothing is committed while the query runs, and everything committed before it had been
      acknowledged at each moment it looks at a shard. */
  ghost predicate QuietShard(t: Trace, m: Moments)
    requires Within(t, m)
  {
    && t.states[m.counted].log == t.states[m.scored].log == t.states[m.matched].log
    && Settled(t.states[m.counted]) && Settled(t.states[m.scored]) && Settled(t.states[m.matched])
  }

  ghost predicate Quiet(runs: seq<Trace>, at: seq<Moments>)
    requires |runs| == |at| && forall i :: 0 <= i < |runs| ==> Within(runs[i], at[i])
  {
    forall i :: 0 <= i < |runs| ==> QuietShard(runs[i], at[i])
  }

  lemma SettledHoldsAll(p: Pipeline, t: Trace, j: nat, k: nat)
    requires ExclusiveRun(p, t) && j < |t.states| && k <= |t.states[j].replicas| && Settled(t.states[j])
    ensures CopyOf(t.states[j], k).disk.documents == Replay(t.states[j].log)
  {
    var s := t.states[j];
    var n := CopyOf(s, k);
    ExclusiveRunIsSafe(p, t, j);
    assert IsCopy(s, n);
    CopyReplaysPrefix(p, s, n);
    if |s.log| > 0 {
      ExclusiveRunIsGuardedRun(p, t);
      AcknowledgedIsDurableEverywhere(p, t, j, j, |s.log|, n);
    }
    assert s.log[..|s.log|] == s.log;
  }

  /** Then every choice of copies, for every purpose, holds the whole history. */
  lemma QuietChoiceIsWhole(c: Coordinator, runs: seq<Trace>, at: seq<Moments>, pinned: seq<nat>)
    requires Deployed(c, runs, at) && Quiet(runs, at) && c.Pins(pinned)
    ensures var chosen := ChosenBy(c, runs, at, pinned);
            Counted(chosen) == Scored(chosen) == Matched(chosen) == WholeHistory(runs, at)
  {
    var chosen, whole := ChosenBy(c, runs, at, pinned), WholeHistory(runs, at);
    forall i | 0 <= i < |runs|
      ensures chosen[i].counted == chosen[i].scored == chosen[i].matched == whole[i]
    {
      assert QuietShard(runs[i], at[i]);
      SettledHoldsAll(c.p, runs[i], at[i].counted, pinned[i]);
      SettledHoldsAll(c.p, runs[i], at[i].scored, pinned[i]);
      SettledHoldsAll(c.p, runs[i], at[i].matched, pinned[i]);
    }
    assert Counted(chosen) == whole && Scored(chosen) == whole && Matched(chosen) == whole;
  }

  /** A hybrid query gives the fusion of both rankings of whatever the copies it chose hold;
      with nothing in doubt, that is the answer of one engine holding the whole history,
      although its two fan-outs choose their copies independently. */
  method HybridSearchCluster(
    c: Coordinator, query: Text, limit: nat, config: FusionConfig,
    ghost runs: seq<Trace>, ghost at: seq<Moments>)
    returns (r: Result<HybridResults, ClusterError>)
    requires Deployed(c, runs, at) && c.p.embedder.Some?
    requires config.Accepted() && config.CandidateDepth(limit) >= 1
    requires c.p.analyzer.Analyze(query) != []
    ensures var terms := SortedTerms(c.p.analyzer.Analyze(query));
            var vector, depth := c.p.embedder.value.embedQuery(query), config.CandidateDepth(limit);
            && (r.Success? <==> c.Answers(query, terms, depth) && c.Pins(c.Answering(vector, depth)))
            && (r.Success? ==>
                  && CountedReady(c, runs, at, c.Pinned(terms))
                  && MatchedReady(c, runs, at, c.Answering(vector, depth))
                  && r.value == c.RankedBoth(
                       ChosenBy(c, runs, at, c.Pinned(terms)),
                       ChosenBy(c, runs, at, c.Answering(vector, depth)),
                       query, vector, depth, limit, config.rrfK))
    ensures r.Success? && Quiet(runs, at) ==>
              r.value == HybridSearch(c.p, UnionAll(WholeHistory(runs, at)), query, limit, config)
  {
    DeploymentHolds(c, runs, at);
    ghost var terms := SortedTerms(c.p.analyzer.Analyze(query));
    ghost var vector, depth := c.p.embedder.value.embedQuery(query), config.CandidateDepth(limit);
    r := c.HybridSearch(query, limit, config, false, HeldByAll(c, runs, at));
    if r.Success? {
      PinnedAreReady(c, runs, at, terms);
      AnsweringAreReady(c, runs, at, vector, depth);
      if Quiet(runs, at) {
        QuietChoiceIsWhole(c, runs, at, c.Pinned(terms));
        QuietChoiceIsWhole(c, runs, at, c.Answering(vector, depth));
        c.FusedPages(ChosenBy(c, runs, at, c.Pinned(terms)), ChosenBy(c, runs, at, c.Answering(vector, depth)),
                     query, limit, config);
      }
    }
  }
}
