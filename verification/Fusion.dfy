/** Reciprocal rank fusion of a lexical and a semantic ranking. */
module Fusion {
  import opened Basics
  import opened Hits

  datatype FusionConfig = FusionConfig(
    rrfK: int, candidateMultiplier: int, maxCandidateDepth: int)
  {
    predicate Accepted() {
      rrfK >= 1 && candidateMultiplier >= 1
    }

    /** As deep as the multiplier asks, but no deeper than the bound. */
    function CandidateDepth(limit: int): (depth: int)
      ensures depth <= maxCandidateDepth && depth <= limit * candidateMultiplier
      ensures depth == maxCandidateDepth || depth == limit * candidateMultiplier
    {
      if limit * candidateMultiplier < maxCandidateDepth then limit * candidateMultiplier
      else maxCandidateDepth
    }
  }

  datatype Provenance = Provenance(
    text: Text,
    lexicalRank: Option<nat>, semanticRank: Option<nat>,
    lexicalScore: Option<real>, semanticScore: Option<real>)

  type HybridHit = Hit<Provenance>

  datatype HybridResults = HybridResults(total: nat, results: seq<HybridHit>)

  datatype FusionError = LimitTooSmall

  // ---------------------------------------------------------------------------
  // Specification
  // ---------------------------------------------------------------------------

  function Reciprocal(k: int, rank: nat): (r: real)
    requires k >= 1
    ensures r * (k + rank) as real == 1.0
  {
    1.0 / (k + rank) as real
  }

  /** What a list adds to a document: one over k + rank for each place it holds. */
  function RankSum(hits: seq<SearchResult>, id: Id, k: int): real
    requires k >= 1
  {
    if hits == [] then 0.0
    else
      RankSum(hits[..|hits| - 1], id, k)
      + (if hits[|hits| - 1].documentId == id then Reciprocal(k, |hits|) else 0.0)
  }

  /** The document's last 1-based rank, its score there, and the first text given for it. */
  function RankOf(hits: seq<SearchResult>, id: Id): Option<nat> {
    if hits == [] then None
    else if hits[|hits| - 1].documentId == id then Some(|hits|)
    else RankOf(hits[..|hits| - 1], id)
  }

  function ScoreOf(hits: seq<SearchResult>, id: Id): Option<real> {
    if hits == [] then None
    else if hits[|hits| - 1].documentId == id then Some(hits[|hits| - 1].score)
    else ScoreOf(hits[..|hits| - 1], id)
  }

  function TextOf(hits: seq<SearchResult>, id: Id): Option<Text> {
    if hits == [] then None
    else
      var earlier := TextOf(hits[..|hits| - 1], id);
      if earlier.Some? || hits[|hits| - 1].documentId != id then earlier
      else Some(hits[|hits| - 1].payload)
  }

  function IdsOf(hits: seq<SearchResult>): set<Id> {
    set i | 0 <= i < |hits| :: hits[i].documentId
  }

  function FusedScore(lexical: seq<SearchResult>, semantic: seq<SearchResult>, k: int, id: Id): real
    requires k >= 1
  {
    RankSum(lexical, id, k) + RankSum(semantic, id, k)
  }

  function Fused(lexical: seq<SearchResult>, semantic: seq<SearchResult>, k: int, id: Id): HybridHit
    requires k >= 1
  {
    var text := TextOf(lexical + semantic, id);
    Hit(id, FusedScore(lexical, semantic, k, id),
        Provenance(if text.Some? then text.value else "",
                   RankOf(lexical, id), RankOf(semantic, id),
                   ScoreOf(lexical, id), ScoreOf(semantic, id)))
  }

  /** The candidate union, each document once. */
  ghost function Candidates(lexical: seq<SearchResult>, semantic: seq<SearchResult>, k: int)
    : map<Id, HybridHit>
    requires k >= 1
  {
    map id | id in IdsOf(lexical) + IdsOf(semantic) :: Fused(lexical, semantic, k, id)
  }

  /** The fused page: the top candidates by fused score, and the size of the union. */
  ghost function FusedResults(
    lexical: seq<SearchResult>, semantic: seq<SearchResult>, limit: nat, k: int): HybridResults
    requires k >= 1
  {
    var candidates := Candidates(lexical, semantic, k);
    HybridResults(|candidates|, Take(Ranking(candidates.Values), limit))
  }

  // ---------------------------------------------------------------------------
  // The two loops
  // ---------------------------------------------------------------------------

  method ReciprocalRankFusion(
    lexical: SearchResults, semantic: SearchResults, limit: int, config: FusionConfig)
    returns (r: Result<HybridResults, FusionError>)
    requires config.Accepted()
    ensures limit < 1 ==> r == Failure(LimitTooSmall)
    ensures limit >= 1 ==>
              r == Success(FusedResults(lexical.results, semantic.results, limit, config.rrfK))
  {
    if limit < 1 {
      return Failure(LimitTooSmall);
    }
    var candidates := WalkLexical(lexical.results, config.rrfK);
    candidates := WalkSemantic(lexical.results, semantic.results, config.rrfK, candidates);
    var ordered := SortCandidates(candidates);
    r := Success(HybridResults(|candidates|, Take(ordered, limit)));
  }

  method WalkLexical(lexical: seq<SearchResult>, k: int) returns (candidates: map<Id, HybridHit>)
    requires k >= 1
    ensures candidates == Candidates(lexical, [], k)
  {
    candidates := map[];
    ghost var seen: seq<SearchResult> := [];
    var i := 0;
    while i < |lexical|
      invariant 0 <= i <= |lexical| && seen == lexical[..i]
      invariant candidates == Candidates(seen, [], k)
    {
      var hit := lexical[i];
      LexicalStep(seen, hit, k);
      seen := seen + [hit];
      var candidate := FindOrAdd(candidates, hit);
      candidates := candidates[hit.documentId := WithLexical(candidate, hit, i + 1, k)];
      i := i + 1;
    }
    assert seen == lexical;
  }

  method WalkSemantic(
    ghost lexical: seq<SearchResult>, semantic: seq<SearchResult>, k: int,
    walked: map<Id, HybridHit>)
    returns (candidates: map<Id, HybridHit>)
    requires k >= 1 && walked == Candidates(lexical, [], k)
    ensures candidates == Candidates(lexical, semantic, k)
  {
    candidates := walked;
    ghost var seen: seq<SearchResult> := [];
    var j := 0;
    while j < |semantic|
      invariant 0 <= j <= |semantic| && seen == semantic[..j]
      invariant candidates == Candidates(lexical, seen, k)
    {
      var hit := semantic[j];
      SemanticStep(lexical, seen, hit, k);
      seen := seen + [hit];
      var candidate := FindOrAdd(candidates, hit);
      candidates := candidates[hit.documentId := WithSemantic(candidate, hit, j + 1, k)];
      j := j + 1;
    }
    assert seen == semantic;
  }

  /** Python's `setdefault` with a blank candidate. */
  function FindOrAdd(candidates: map<Id, HybridHit>, hit: SearchResult): HybridHit {
    if hit.documentId in candidates then candidates[hit.documentId]
    else Hit(hit.documentId, 0.0, Provenance(hit.payload, None, None, None, None))
  }

  /** What one lexical hit records on its candidate. */
  function WithLexical(candidate: HybridHit, hit: SearchResult, rank: nat, k: int): HybridHit
    requires k >= 1
  {
    candidate.(
      score := candidate.score + Reciprocal(k, rank),
      payload := candidate.payload.(lexicalRank := Some(rank), lexicalScore := Some(hit.score)))
  }

  /** What one semantic hit records on its candidate. */
  function WithSemantic(candidate: HybridHit, hit: SearchResult, rank: nat, k: int): HybridHit
    requires k >= 1
  {
    candidate.(
      score := candidate.score + Reciprocal(k, rank),
      payload := candidate.payload.(semanticRank := Some(rank), semanticScore := Some(hit.score)))
  }

  method SortCandidates(candidates: map<Id, HybridHit>) returns (ordered: seq<HybridHit>)
    requires forall id :: id in candidates ==> candidates[id].documentId == id
    ensures ordered == Ranking(candidates.Values)
  {
    var listed: seq<HybridHit> := [];
    var rest := candidates.Keys;
    while rest != {}
      invariant rest <= candidates.Keys
      invariant forall h :: h in listed <==>
                  h.documentId in candidates && h.documentId !in rest && candidates[h.documentId] == h
      invariant DistinctIdList(listed)
    {
      var id :| id in rest;
      listed := listed + [candidates[id]];
      rest := rest - {id};
    }
    assert Elements(listed) == candidates.Values;
    SortRanks(listed);
    ordered := Sort(listed);
  }

  lemma IdsOfAppend(hits: seq<SearchResult>, hit: SearchResult)
    ensures IdsOf(hits + [hit]) == IdsOf(hits) + {hit.documentId}
  {
    var all := hits + [hit];
    forall id | id in IdsOf(hits) ensures id in IdsOf(all) {
      var i :| 0 <= i < |hits| && hits[i].documentId == id;
      assert all[i].documentId == id;
    }
    assert all[|hits|].documentId == hit.documentId;
  }

  lemma {:induction false} AbsentId(hits: seq<SearchResult>, id: Id, k: int)
    requires k >= 1
    ensures id !in IdsOf(hits) <==> RankOf(hits, id).None?
    ensures id !in IdsOf(hits) <==> TextOf(hits, id).None?
    ensures id !in IdsOf(hits) ==> RankSum(hits, id, k) == 0.0 && ScoreOf(hits, id).None?
  {
    if hits != [] {
      var init, last := hits[..|hits| - 1], hits[|hits| - 1];
      AbsentId(init, id, k);
      IdsOfAppend(init, last);
      assert hits == init + [last];
    }
  }

  lemma IdsOfConcat(a: seq<SearchResult>, b: seq<SearchResult>)
    ensures IdsOf(a + b) == IdsOf(a) + IdsOf(b)
  {
    forall id | id in IdsOf(a) ensures id in IdsOf(a + b) {
      var i :| 0 <= i < |a| && a[i].documentId == id;
      assert (a + b)[i].documentId == id;
    }
    forall id | id in IdsOf(b) ensures id in IdsOf(a + b) {
      var i :| 0 <= i < |b| && b[i].documentId == id;
      assert (a + b)[|a| + i].documentId == id;
    }
  }

  lemma AppendHit(hits: seq<SearchResult>, hit: SearchResult, id: Id, k: int)
    requires k >= 1
    ensures var more := hits + [hit];
            if id == hit.documentId then
              && RankSum(more, id, k) == RankSum(hits, id, k) + Reciprocal(k, |hits| + 1)
              && RankOf(more, id) == Some(|hits| + 1) && ScoreOf(more, id) == Some(hit.score)
              && TextOf(more, id) == (if id in IdsOf(hits) then TextOf(hits, id) else Some(hit.payload))
            else
              && RankSum(more, id, k) == RankSum(hits, id, k) && RankOf(more, id) == RankOf(hits, id)
              && ScoreOf(more, id) == ScoreOf(hits, id) && TextOf(more, id) == TextOf(hits, id)
  {
    var more := hits + [hit];
    assert more[..|more| - 1] == hits && more[|more| - 1] == hit;
    AbsentId(hits, id, k);
  }

  /** The candidate a hit updates: the one it already has, or a blank one. */
  ghost function PriorCandidate(
    lexical: seq<SearchResult>, semantic: seq<SearchResult>, hit: SearchResult, k: int): HybridHit
    requires k >= 1
  {
    FindOrAdd(Candidates(lexical, semantic, k), hit)
  }

  lemma FusedAfterLexical(lexical: seq<SearchResult>, hit: SearchResult, k: int, id: Id)
    requires k >= 1
    ensures Fused(lexical + [hit], [], k, id)
         == if id == hit.documentId
            then WithLexical(PriorCandidate(lexical, [], hit, k), hit, |lexical| + 1, k)
            else Fused(lexical, [], k, id)
  {
    assert lexical + [] == lexical && lexical + [hit] + [] == lexical + [hit];
    AppendHit(lexical, hit, id, k);
    AbsentId(lexical, id, k);
  }

  lemma FusedAfterSemantic(
    lexical: seq<SearchResult>, semantic: seq<SearchResult>, hit: SearchResult, k: int, id: Id)
    requires k >= 1
    ensures Fused(lexical, semantic + [hit], k, id)
         == if id == hit.documentId
            then WithSemantic(PriorCandidate(lexical, semantic, hit, k), hit, |semantic| + 1, k)
            else Fused(lexical, semantic, k, id)
  {
    TextAfterSemantic(lexical, semantic, hit, k, id);
    IdsOfConcat(lexical, semantic);
    AppendHit(semantic, hit, id, k);
    if id == hit.documentId && id !in IdsOf(lexical + semantic) {
      AbsentId(lexical, id, k);
      AbsentId(semantic, id, k);
    }
  }

  /** The text of a document is the one it was first found with. */
  lemma TextAfterSemantic(
    lexical: seq<SearchResult>, semantic: seq<SearchResult>, hit: SearchResult, k: int, id: Id)
    requires k >= 1
    ensures var was, now := TextOf(lexical + semantic, id), TextOf(lexical + (semantic + [hit]), id);
            && (id in IdsOf(lexical + semantic) ==> was.Some? && now == was)
            && (id !in IdsOf(lexical + semantic) ==>
                  now == if id == hit.documentId then Some(hit.payload) else was)
  {
    assert lexical + (semantic + [hit]) == lexical + semantic + [hit];
    AppendHit(lexical + semantic, hit, id, k);
    AbsentId(lexical + semantic, id, k);
  }

  /** One lexical hit updates one candidate. */
  lemma LexicalStep(lexical: seq<SearchResult>, hit: SearchResult, k: int)
    requires k >= 1
    ensures Candidates(lexical + [hit], [], k)
         == Candidates(lexical, [], k)[hit.documentId :=
              WithLexical(PriorCandidate(lexical, [], hit, k), hit, |lexical| + 1, k)]
  {
    var was, now := Candidates(lexical, [], k), Candidates(lexical + [hit], [], k);
    IdsOfAppend(lexical, hit);
    assert now.Keys == was.Keys + {hit.documentId};
    FusedAfterLexical(lexical, hit, k, hit.documentId);
    forall id | id in was && id != hit.documentId ensures now[id] == was[id] {
      FusedAfterLexical(lexical, hit, k, id);
    }
    MapWithKey(was, now, hit.documentId, now[hit.documentId]);
  }

  /** One semantic hit updates one candidate. */
  lemma SemanticStep(
    lexical: seq<SearchResult>, semantic: seq<SearchResult>, hit: SearchResult, k: int)
    requires k >= 1
    ensures Candidates(lexical, semantic + [hit], k)
         == Candidates(lexical, semantic, k)[hit.documentId :=
              WithSemantic(PriorCandidate(lexical, semantic, hit, k), hit, |semantic| + 1, k)]
  {
    var was, now := Candidates(lexical, semantic, k), Candidates(lexical, semantic + [hit], k);
    IdsOfAppend(semantic, hit);
    assert now.Keys == was.Keys + {hit.documentId};
    FusedAfterSemantic(lexical, semantic, hit, k, hit.documentId);
    forall id | id in was && id != hit.documentId ensures now[id] == was[id] {
      FusedAfterSemantic(lexical, semantic, hit, k, id);
    }
    MapWithKey(was, now, hit.documentId, now[hit.documentId]);
  }

  // ---------------------------------------------------------------------------
  // What the fused order means
  // ---------------------------------------------------------------------------

  /** On a list of distinct documents the contribution is one over k + rank. */
  lemma {:induction false} RankSumOfDistinct(hits: seq<SearchResult>, i: nat, k: int)
    requires k >= 1 && DistinctIdList(hits) && i < |hits|
    ensures RankSum(hits, hits[i].documentId, k) == Reciprocal(k, i + 1)
    ensures RankOf(hits, hits[i].documentId) == Some(i + 1)
  {
    var id := hits[i].documentId;
    var n := |hits| - 1;
    var init := hits[..n];
    if i < n {
      RankSumOfDistinct(init, i, k);
    } else {
      assert id !in IdsOf(init);
      AbsentId(init, id, k);
    }
  }

  /** The contribution of a document, present or not, in terms of its rank. */
  ghost function Share(rank: Option<nat>, k: int): real
    requires k >= 1
  {
    if rank.Some? then Reciprocal(k, rank.value) else 0.0
  }

  lemma RankSumIsShare(hits: seq<SearchResult>, id: Id, k: int)
    requires k >= 1 && DistinctIdList(hits)
    ensures RankSum(hits, id, k) == Share(RankOf(hits, id), k)
    ensures RankOf(hits, id).Some? ==> 1 <= RankOf(hits, id).value <= |hits|
  {
    if id in IdsOf(hits) {
      var i :| 0 <= i < |hits| && hits[i].documentId == id;
      RankSumOfDistinct(hits, i, k);
    } else {
      AbsentId(hits, id, k);
    }
  }

  /** Each document appears once, with exactly the sum of its shares, best first. */
  lemma FusionIsExact(
    lexical: seq<SearchResult>, semantic: seq<SearchResult>, limit: nat, k: int)
    requires k >= 1 && DistinctIdList(lexical) && DistinctIdList(semantic)
    ensures var r := FusedResults(lexical, semantic, limit, k);
            && r.total == |IdsOf(lexical) + IdsOf(semantic)|
            && StrictlySorted(r.results)
            && |r.results| == (if limit < r.total then limit else r.total)
            && (forall h :: h in r.results ==>
                  && h.documentId in IdsOf(lexical) + IdsOf(semantic)
                  && h.score == Share(RankOf(lexical, h.documentId), k) + Share(RankOf(semantic, h.documentId), k)
                  && h.payload.lexicalRank == RankOf(lexical, h.documentId)
                  && h.payload.semanticRank == RankOf(semantic, h.documentId))
  {
    var candidates := Candidates(lexical, semantic, k);
    assert candidates.Keys == IdsOf(lexical) + IdsOf(semantic);
    ValuesByKey(candidates);
    RankingSorts(candidates.Values);
    var r := Take(Ranking(candidates.Values), limit);
    forall h | h in r
      ensures h.documentId in candidates && h == Fused(lexical, semantic, k, h.documentId)
      ensures h.score == Share(RankOf(lexical, h.documentId), k) + Share(RankOf(semantic, h.documentId), k)
    {
      assert h in Elements(Ranking(candidates.Values));
      RankSumIsShare(lexical, h.documentId, k);
      RankSumIsShare(semantic, h.documentId, k);
    }
  }

  /** A fused hit tells where it comes from: its place and score in each list that holds it,
      and the text it was first found with. */
  ghost predicate Explained(h: HybridHit, lexical: seq<SearchResult>, semantic: seq<SearchResult>) {
    && (forall i :: 0 <= i < |lexical| && lexical[i].documentId == h.documentId ==>
          && h.payload.lexicalRank == Some(i + 1) && h.payload.lexicalScore == Some(lexical[i].score)
          && h.payload.text == lexical[i].payload)
    && (forall i :: 0 <= i < |semantic| && semantic[i].documentId == h.documentId ==>
          && h.payload.semanticRank == Some(i + 1) && h.payload.semanticScore == Some(semantic[i].score)
          && (h.documentId !in IdsOf(lexical) ==> h.payload.text == semantic[i].payload))
    && (h.documentId !in IdsOf(lexical) ==> h.payload.lexicalRank.None? && h.payload.lexicalScore.None?)
    && (h.documentId !in IdsOf(semantic) ==> h.payload.semanticRank.None? && h.payload.semanticScore.None?)
  }

  lemma FusionExplains(
    lexical: seq<SearchResult>, semantic: seq<SearchResult>, limit: nat, k: int, h: HybridHit)
    requires k >= 1 && DistinctIdList(lexical) && DistinctIdList(semantic)
    requires h in FusedResults(lexical, semantic, limit, k).results
    ensures Explained(h, lexical, semantic)
  {
    FusedOf(lexical, semantic, limit, k, h);
    var id := h.documentId;
    AbsentId(lexical, id, k);
    AbsentId(semantic, id, k);
    forall i | 0 <= i < |lexical| && lexical[i].documentId == id
      ensures RankOf(lexical, id) == Some(i + 1) && ScoreOf(lexical, id) == Some(lexical[i].score)
      ensures TextOf(lexical + semantic, id) == Some(lexical[i].payload)
    {
      PlaceOfDistinct(lexical, i, k);
      TextOfFirst(lexical, semantic, i);
    }
    forall i | 0 <= i < |semantic| && semantic[i].documentId == id
      ensures RankOf(semantic, id) == Some(i + 1) && ScoreOf(semantic, id) == Some(semantic[i].score)
      ensures id !in IdsOf(lexical) ==> TextOf(lexical + semantic, id) == Some(semantic[i].payload)
    {
      PlaceOfDistinct(semantic, i, k);
      if id !in IdsOf(lexical) {
        TextOfSecond(lexical, semantic, id, k);
      }
    }
  }

  lemma FusedOf(
    lexical: seq<SearchResult>, semantic: seq<SearchResult>, limit: nat, k: int, h: HybridHit)
    requires k >= 1 && h in FusedResults(lexical, semantic, limit, k).results
    ensures h == Fused(lexical, semantic, k, h.documentId)
  {
    var candidates := Candidates(lexical, semantic, k);
    ValuesByKey(candidates);
    RankingSorts(candidates.Values);
    assert h in Elements(Ranking(candidates.Values));
  }

  /** The one place of a document in a list of distinct documents. */
  lemma {:induction false} PlaceOfDistinct(hits: seq<SearchResult>, i: nat, k: int)
    requires k >= 1 && DistinctIdList(hits) && i < |hits|
    ensures var id := hits[i].documentId;
            && RankOf(hits, id) == Some(i + 1) && ScoreOf(hits, id) == Some(hits[i].score)
            && TextOf(hits, id) == Some(hits[i].payload)
    decreases |hits|
  {
    var init := hits[..|hits| - 1];
    if i < |hits| - 1 {
      PlaceOfDistinct(init, i, k);
    } else {
      AbsentId(init, hits[i].documentId, k);
    }
  }

  /** A text found in the first list is kept; otherwise the second list supplies it. */
  lemma {:induction false} TextOfFirst(lexical: seq<SearchResult>, semantic: seq<SearchResult>, i: nat)
    requires DistinctIdList(lexical) && i < |lexical|
    ensures TextOf(lexical + semantic, lexical[i].documentId) == Some(lexical[i].payload)
    decreases |semantic|
  {
    if semantic == [] {
      assert lexical + semantic == lexical;
      PlaceOfDistinct(lexical, i, 1);
    } else {
      TextOfFirst(lexical, semantic[..|semantic| - 1], i);
      assert (lexical + semantic)[..|lexical + semantic| - 1] == lexical + semantic[..|semantic| - 1];
    }
  }

  lemma {:induction false} TextOfSecond(
    lexical: seq<SearchResult>, semantic: seq<SearchResult>, id: Id, k: int)
    requires k >= 1 && id !in IdsOf(lexical)
    ensures TextOf(lexical + semantic, id) == TextOf(semantic, id)
    decreases |semantic|
  {
    if semantic == [] {
      assert lexical + semantic == lexical;
      AbsentId(lexical, id, k);
    } else {
      TextOfSecond(lexical, semantic[..|semantic| - 1], id, k);
      assert (lexical + semantic)[..|lexical + semantic| - 1] == lexical + semantic[..|semantic| - 1];
    }
  }

  ghost predicate AtLeastAsGood(a: Option<nat>, b: Option<nat>) {
    b.None? || (a.Some? && a.value <= b.value)
  }

  lemma ReciprocalFalls(k: int, a: nat, b: nat)
    requires k >= 1
    ensures a < b ==> Reciprocal(k, a) > Reciprocal(k, b)
    ensures Reciprocal(k, b) > 0.0
  {
    var x, y := (k + a) as real, (k + b) as real;
    var p, q := 1.0 / x, 1.0 / y;
    assert p * x == 1.0 && q * y == 1.0;
    if a < b {
      Inverts(x, y, p, q);
    }
  }

  lemma Inverts(x: real, y: real, p: real, q: real)
    requires 0.0 < x < y && p * x == 1.0 && q * y == 1.0
    ensures p > q
  {
    assert (p - q) * y == p * (y - x);
    assert p > 0.0;
    assert p * (y - x) > 0.0;
  }

  lemma ShareRespectsRank(a: Option<nat>, b: Option<nat>, k: int)
    requires k >= 1 && AtLeastAsGood(a, b)
    ensures Share(a, k) >= Share(b, k)
    ensures a != b ==> Share(a, k) > Share(b, k)
  {
    if a.Some? {
      ReciprocalFalls(k, a.value, if b.Some? then b.value else a.value);
    }
  }

  /** Placed at least as well in both lists and differently in one: always ahead. */
  lemma DominanceIsRespected(
    lexical: seq<SearchResult>, semantic: seq<SearchResult>, k: int, a: Id, b: Id)
    requires k >= 1 && DistinctIdList(lexical) && DistinctIdList(semantic)
    requires AtLeastAsGood(RankOf(lexical, a), RankOf(lexical, b))
    requires AtLeastAsGood(RankOf(semantic, a), RankOf(semantic, b))
    requires RankOf(lexical, a) != RankOf(lexical, b) || RankOf(semantic, a) != RankOf(semantic, b)
    ensures Before(Fused(lexical, semantic, k, a), Fused(lexical, semantic, k, b))
  {
    RankSumIsShare(lexical, a, k);
    RankSumIsShare(lexical, b, k);
    RankSumIsShare(semantic, a, k);
    RankSumIsShare(semantic, b, k);
    ShareRespectsRank(RankOf(lexical, a), RankOf(lexical, b), k);
    ShareRespectsRank(RankOf(semantic, a), RankOf(semantic, b), k);
  }

  // ---------------------------------------------------------------------------
  // How deep the lists may be before agreement stops winning
  // ---------------------------------------------------------------------------

  /** Two rankings of at most `depth` documents in which a document found by both
      paths does not strictly outscore one found by a single path. */
  ghost predicate AgreementLoses(
    lexical: seq<SearchResult>, semantic: seq<SearchResult>, both: Id, one: Id, k: int, depth: nat)
    requires k >= 1
  {
    && DistinctIdList(lexical) && DistinctIdList(semantic)
    && StrictlySorted(lexical) && StrictlySorted(semantic)
    && |lexical| <= depth && |semantic| <= depth
    && both in IdsOf(lexical) && both in IdsOf(semantic)
    && (one in IdsOf(lexical) <==> one !in IdsOf(semantic))
    && FusedScore(lexical, semantic, k, both) <= FusedScore(lexical, semantic, k, one)
  }

  /** The threshold is sharp: agreement always wins exactly up to depth k + 1. */
  lemma AgreementWinsUpToDepth(k: int, depth: nat)
    requires k >= 1
    ensures (exists lexical, semantic, both, one ::
               AgreementLoses(lexical, semantic, both, one, k, depth))
            <==> depth >= k + 2
  {
    if depth >= k + 2 {
      var lexical, semantic := TieAtDepth(k);
      assert AgreementLoses(lexical, semantic, "b", "a", k, depth);
    } else {
      forall lexical, semantic, both, one
        ensures !AgreementLoses(lexical, semantic, both, one, k, depth)
      {
        if DistinctIdList(lexical) && DistinctIdList(semantic)
          && |lexical| <= depth && |semantic| <= depth
          && both in IdsOf(lexical) && both in IdsOf(semantic)
          && (one in IdsOf(lexical) <==> one !in IdsOf(semantic))
        {
          AgreementWins(lexical, semantic, both, one, k);
        }
      }
    }
  }

  lemma AgreementWins(
    lexical: seq<SearchResult>, semantic: seq<SearchResult>, both: Id, one: Id, k: int)
    requires k >= 1 && DistinctIdList(lexical) && DistinctIdList(semantic)
    requires |lexical| <= k + 1 && |semantic| <= k + 1
    requires both in IdsOf(lexical) && both in IdsOf(semantic)
    requires one in IdsOf(lexical) <==> one !in IdsOf(semantic)
    ensures FusedScore(lexical, semantic, k, both) > FusedScore(lexical, semantic, k, one)
  {
    RankSumIsShare(lexical, both, k);
    RankSumIsShare(semantic, both, k);
    RankSumIsShare(lexical, one, k);
    RankSumIsShare(semantic, one, k);
    AbsentId(lexical, both, k);
    AbsentId(semantic, both, k);
    AbsentId(lexical, one, k);
    AbsentId(semantic, one, k);
    HalfOfFirst(k, RankOf(lexical, both).value);
    HalfOfFirst(k, RankOf(semantic, both).value);
    var rank := if one in IdsOf(lexical) then RankOf(lexical, one).value else RankOf(semantic, one).value;
    ReciprocalFalls(k, 1, rank);
  }

  /** Down to rank k + 1 a place is worth more than half of first place. */
  lemma HalfOfFirst(k: int, rank: nat)
    requires k >= 1 && rank <= k + 1
    ensures Reciprocal(k, rank) + Reciprocal(k, rank) > Reciprocal(k, 1)
  {
    var x, y := (k + rank) as real, (k + 1) as real;
    var p, q := 1.0 / x, 1.0 / y;
    assert p * x == 1.0 && q * y == 1.0;
    Inverts(x, 2.0 * y, p, q / 2.0);
  }

  /** Documents of falling score to fill a ranking with. */
  function Filler(k: nat, i: nat): SearchResult {
    Hit(seq(i + 1, _ => 'f'), k as real + 2.0 - i as real, "")
  }

  /** At depth k + 2 a tie exists, and the identifier then decides it the other way. */
  lemma TieAtDepth(k: int) returns (lexical: seq<SearchResult>, semantic: seq<SearchResult>)
    requires k >= 1
    ensures |lexical| == |semantic| == k + 2
    ensures AgreementLoses(lexical, semantic, "b", "a", k, k + 2)
    ensures Before(Fused(lexical, semantic, k, "a"), Fused(lexical, semantic, k, "b"))
  {
    var one: SearchResult, both: SearchResult := Hit("a", k as real + 3.0, ""), Hit("b", 1.0, "");
    lexical := [one] + seq(k, (i: nat) => Filler(k, i)) + [both];
    semantic := seq(k + 1, (i: nat) => Filler(k, i)) + [both];
    assert lexical[0] == one && lexical[k + 1] == both && semantic[k + 1] == both;
    FillersDistinct(k, lexical, 1, k + 1);
    FillersDistinct(k, semantic, 0, k + 1);
    ScoresFall(lexical);
    ScoresFall(semantic);
    ScoresInTie(lexical, semantic, k);
  }

  lemma ScoresFall(hits: seq<SearchResult>)
    requires forall i, j :: 0 <= i < j < |hits| ==> hits[i].score > hits[j].score
    ensures StrictlySorted(hits)
  {
  }

  lemma ScoresInTie(lexical: seq<SearchResult>, semantic: seq<SearchResult>, k: int)
    requires k >= 1 && |lexical| == |semantic| == k + 2
    requires DistinctIdList(lexical) && DistinctIdList(semantic)
    requires StrictlySorted(lexical) && StrictlySorted(semantic)
    requires lexical[0].documentId == "a" && lexical[k + 1].documentId == "b"
    requires semantic[k + 1].documentId == "b"
    requires forall i :: 0 <= i < |semantic| ==> semantic[i].documentId != "a"
    ensures AgreementLoses(lexical, semantic, "b", "a", k, k + 2)
    ensures FusedScore(lexical, semantic, k, "a") == FusedScore(lexical, semantic, k, "b")
  {
    RankSumOfDistinct(lexical, 0, k);
    RankSumOfDistinct(lexical, k + 1, k);
    RankSumOfDistinct(semantic, k + 1, k);
    AbsentId(semantic, "a", k);
    var y := (k + 1) as real;
    assert Reciprocal(k, k + 2) == 1.0 / (2.0 * y);
    assert 1.0 / (2.0 * y) + 1.0 / (2.0 * y) == 1.0 / y;
  }

  lemma FillersDistinct(k: nat, hits: seq<SearchResult>, from: nat, to: nat)
    requires from <= 1 && to + 1 == |hits| && from <= to
    requires from == 1 ==> hits[0].documentId == "a"
    requires forall i :: from <= i < to ==> hits[i] == Filler(k, i - from)
    requires hits[to].documentId == "b"
    ensures DistinctIdList(hits)
    ensures from == 0 ==> forall i :: 0 <= i < |hits| ==> hits[i].documentId != "a"
  {
    forall i | from <= i < to
      ensures |hits[i].documentId| == i - from + 1 && hits[i].documentId[0] == 'f'
    {
    }
  }
}
