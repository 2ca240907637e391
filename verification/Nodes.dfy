/** One physical copy of a shard as a value: what it has on disk, what it derived from that,
    and how every operation of the engine changes it.

    Failures are inputs.  A storage transaction commits document and generation together or
    not at all; a failure while updating derived state leaves it in an arbitrary condition,
    the `wreck`. */
module Nodes {
  import opened Basics
  import opened Analysis
  import opened Hits
  import opened InvertedIndexes
  import opened Statistics
  import opened BM25
  import opened VectorIndexes
  import opened Fusion

  type Documents = map<Id, Text>

  datatype Embedder = Embedder(dimension: nat, embed: Text -> Vector, embedQuery: Text -> Vector)

  /** The pure functions every copy shares. */
  datatype Pipeline = Pipeline(analyzer: Analyzer, scorer: Scorer, embedder: Option<Embedder>) {
    ghost predicate Sound() {
      && scorer.Usable()
      && (embedder.Some? ==>
            && embedder.value.dimension >= 1
            && (forall t :: |embedder.value.embed(t)| == embedder.value.dimension)
            && (forall t :: |embedder.value.embedQuery(t)| == embedder.value.dimension))
    }

    function CountsOf(text: Text): Counts {
      Counter(analyzer.Analyze(text))
    }
  }

  datatype Disk = Disk(documents: Documents, generation: nat)

  datatype Derived = Derived(
    documents: Documents, corpus: Corpus, vectors: Option<map<Id, Vector>>)

  datatype NodeState = Starting | Recovering | Ready | Degraded | OutOfSync

  datatype Node = Node(disk: Disk, generation: nat, derived: Derived, state: NodeState)

  datatype Op = Put(id: Id, text: Text) | Delete(id: Id)

  datatype Fault = NoFault | EmbeddingFails | StorageFails | DerivedFails(wreck: Derived) {
    /** What derived state is left as, when updating it fails. */
    function Wreck(): Option<Derived> {
      if DerivedFails? then Some(wreck) else None
    }
  }

  /** Where an update of derived state can break off. */
  datatype Stage = BeforeCache | BeforeIndex | BeforeVectors

  datatype WriteReply =
    | Stored(created: bool) | Removed
    | NotFound | NotReady | EmbeddingError | StorageError | BecameDegraded

  datatype ReplicationReply = Applied | Duplicate | Gap | Failed(cause: WriteReply)

  // ---------------------------------------------------------------------------
  // Derived state is a function of the documents
  // ---------------------------------------------------------------------------

  function ApplyOp(documents: Documents, op: Op): Documents {
    match op
    case Put(id, text) => documents[id := text]
    case Delete(id) => documents - {id}
  }

  function IndexedCorpus(p: Pipeline, documents: Documents): Corpus {
    map d | d in documents :: p.CountsOf(documents[d])
  }

  /** The term counts of some of the documents. */
  function IndexedPart(p: Pipeline, documents: Documents, ids: set<Id>): Corpus {
    map d | d in ids && d in documents :: p.CountsOf(documents[d])
  }

  lemma OneMoreIndexed(p: Pipeline, documents: Documents, ids: set<Id>, d: Id)
    requires d in documents
    ensures IndexedPart(p, documents, ids + {d})
         == IndexedPart(p, documents, ids)[d := p.CountsOf(documents[d])]
  {
    var was, now := IndexedPart(p, documents, ids), IndexedPart(p, documents, ids + {d});
    MapWithKey(was, now, d, p.CountsOf(documents[d]));
  }

  lemma AllIndexed(p: Pipeline, documents: Documents)
    ensures IndexedPart(p, documents, documents.Keys) == IndexedCorpus(p, documents)
    ensures IndexedPart(p, documents, {}) == map[]
  {
  }

  function EmbeddedDocuments(p: Pipeline, documents: Documents): Option<map<Id, Vector>> {
    if p.embedder.None? then None
    else Some(map d | d in documents :: p.embedder.value.embed(documents[d]))
  }

  /** What a rebuild from these documents produces. */
  function Rebuilt(p: Pipeline, documents: Documents): Derived {
    Derived(documents, IndexedCorpus(p, documents), EmbeddedDocuments(p, documents))
  }

  function Derive(p: Pipeline, d: Derived, op: Op): Derived {
    match op
    case Put(id, text) =>
      Derived(d.documents[id := text], d.corpus[id := p.CountsOf(text)],
              if d.vectors.Some? && p.embedder.Some?
              then Some(d.vectors.value[id := p.embedder.value.embed(text)]) else d.vectors)
    case Delete(id) =>
      Derived(d.documents - {id}, d.corpus - {id},
              if d.vectors.Some? then Some(d.vectors.value - {id}) else None)
  }

  /** What an update that breaks off at this stage leaves: the cache follows the operation
      first, then the index, then the vectors. */
  function Broken(p: Pipeline, d: Derived, op: Op, stage: Stage): Derived {
    var whole := Derive(p, d, op);
    match stage
    case BeforeCache => d
    case BeforeIndex => d.(documents := whole.documents)
    case BeforeVectors => whole.(vectors := d.vectors)
  }

  /** The incremental update and the rebuild commute. */
  lemma DeriveIsRebuild(p: Pipeline, documents: Documents, op: Op)
    ensures Derive(p, Rebuilt(p, documents), op) == Rebuilt(p, ApplyOp(documents, op))
  {
    CorpusAfter(p, documents, op);
    if p.embedder.Some? {
      VectorsAfter(p, documents, op);
    }
  }

  lemma CorpusAfter(p: Pipeline, documents: Documents, op: Op)
    ensures IndexedCorpus(p, ApplyOp(documents, op))
         == match op
            case Put(id, text) => IndexedCorpus(p, documents)[id := p.CountsOf(text)]
            case Delete(id) => IndexedCorpus(p, documents) - {id}
  {
    var was, now := IndexedCorpus(p, documents), IndexedCorpus(p, ApplyOp(documents, op));
    match op
    case Put(id, text) => MapWithKey(was, now, id, p.CountsOf(text));
    case Delete(id) => assert now.Keys == was.Keys - {id};
  }

  lemma VectorsAfter(p: Pipeline, documents: Documents, op: Op)
    requires p.embedder.Some?
    ensures EmbeddedDocuments(p, ApplyOp(documents, op)).value
         == match op
            case Put(id, text) =>
              EmbeddedDocuments(p, documents).value[id := p.embedder.value.embed(text)]
            case Delete(id) => EmbeddedDocuments(p, documents).value - {id}
  {
    var was := EmbeddedDocuments(p, documents).value;
    var now := EmbeddedDocuments(p, ApplyOp(documents, op)).value;
    match op
    case Put(id, text) => MapWithKey(was, now, id, p.embedder.value.embed(text));
    case Delete(id) => assert now.Keys == was.Keys - {id};
  }

  lemma IndexedCorpusWellCounted(p: Pipeline, documents: Documents)
    ensures WellCounted(IndexedCorpus(p, documents))
  {
    forall d | d in documents ensures Positive(IndexedCorpus(p, documents)[d]) {
      CounterSum(p.analyzer.Analyze(documents[d]));
    }
  }

  /** Memory and disk agree, and derived state is what a rebuild would give. */
  predicate Fresh(p: Pipeline, n: Node) {
    n.generation == n.disk.generation && n.derived == Rebuilt(p, n.disk.documents)
  }

  /** What the engine's own `validate` compares: everything except postings with texts. */
  predicate Validates(n: Node) {
    && n.derived.documents == n.disk.documents
    && n.generation == n.disk.generation
    && n.derived.corpus.Keys == n.derived.documents.Keys
    && (n.derived.vectors.Some? ==> n.derived.vectors.value.Keys == n.derived.documents.Keys)
  }

  // ---------------------------------------------------------------------------
  // Local mutations
  // ---------------------------------------------------------------------------

  /** Commits to disk and memory, then updates derived state or degrades. */
  function CommitLocal(p: Pipeline, n: Node, op: Op, wreck: Option<Derived>): Node {
    var generation := n.generation + 1;
    var committed := n.(disk := Disk(ApplyOp(n.disk.documents, op), generation),
                        generation := generation);
    if wreck.Some? then committed.(derived := wreck.value, state := Degraded)
    else committed.(derived := Derive(p, n.derived, op))
  }

  /** A commit that goes through leaves a fresh node fresh. */
  lemma CommitKeepsFresh(p: Pipeline, n: Node, op: Op)
    requires Fresh(p, n)
    ensures Fresh(p, CommitLocal(p, n, op, None))
  {
    DeriveIsRebuild(p, n.disk.documents, op);
  }

  function IndexDocument(p: Pipeline, n: Node, id: Id, text: Text, fault: Fault): (Node, WriteReply) {
    if fault.EmbeddingFails? && p.embedder.Some? then (n, EmbeddingError)
    else if n.state != Ready then (n, NotReady)
    else if fault.StorageFails? then (n, StorageError)
    else
      (CommitLocal(p, n, Put(id, text), fault.Wreck()),
       if fault.DerivedFails? then BecameDegraded else Stored(id !in n.disk.documents))
  }

  function DeleteDocument(p: Pipeline, n: Node, id: Id, fault: Fault): (Node, WriteReply) {
    if n.state != Ready then (n, NotReady)
    else if id !in n.derived.documents then (n, NotFound)
    else if fault.StorageFails? then (n, StorageError)
    else
      (CommitLocal(p, n, Delete(id), fault.Wreck()),
       if fault.DerivedFails? then BecameDegraded else Removed)
  }

  function Write(p: Pipeline, n: Node, op: Op, fault: Fault): (Node, WriteReply) {
    match op
    case Put(id, text) => IndexDocument(p, n, id, text, fault)
    case Delete(id) => DeleteDocument(p, n, id, fault)
  }

  predicate Committed(reply: WriteReply) {
    reply.Stored? || reply.Removed? || reply.BecameDegraded?
  }

  /** Why a write is refused: each reply has its own cause, and one that committed nothing
      changed nothing. */
  lemma LocalReplies(p: Pipeline, n: Node, op: Op, fault: Fault)
    ensures var (after, reply) := Write(p, n, op, fault);
            var unembedded := op.Put? && fault.EmbeddingFails? && p.embedder.Some?;
            var known := op.Put? || op.id in n.derived.documents;
            && (reply == EmbeddingError <==> unembedded)
            && (reply == NotReady <==> n.state != Ready && !unembedded)
            && (reply == NotFound <==> n.state == Ready && !known)
            && (reply == StorageError <==> n.state == Ready && known && fault.StorageFails?)
            && (reply == BecameDegraded <==> n.state == Ready && known && fault.DerivedFails?)
            && (reply.Stored? || reply.Removed? <==>
                  && n.state == Ready && known && !unembedded
                  && !fault.StorageFails? && !fault.DerivedFails?)
            && (!Committed(reply) ==> after == n)
  {
  }

  // ---------------------------------------------------------------------------
  // Replicated mutations
  // ---------------------------------------------------------------------------

  /** Applies exactly the next generation; lower is a redelivery, higher is a gap. */
  function ApplyReplicated(p: Pipeline, n: Node, op: Op, generation: nat, fault: Fault)
    : (Node, ReplicationReply)
  {
    if generation <= n.generation then (n, Duplicate)
    else if generation > n.generation + 1 then (n.(state := OutOfSync), Gap)
    else if n.state != Ready then (n, Failed(NotReady))
    else if op.Put? && fault.EmbeddingFails? && p.embedder.Some? then (n, Failed(EmbeddingError))
    else if fault.StorageFails? then (n, Failed(StorageError))
    else
      (Follow(p, n, op, fault.Wreck()),
       if fault.DerivedFails? && Touches(n, op) then Failed(BecameDegraded) else Applied)
  }

  /** A replicated deletion of a document the copy does not hold leaves derived state alone. */
  predicate Touches(n: Node, op: Op) {
    op.Put? || op.id in n.derived.documents
  }

  /** Commits the next replicated mutation; memory advances only after derived state has. */
  function Follow(p: Pipeline, n: Node, op: Op, wreck: Option<Derived>): Node {
    var generation := n.generation + 1;
    var stored := n.(disk := Disk(ApplyOp(n.disk.documents, op), generation));
    if !Touches(n, op) then stored.(generation := generation)
    else if wreck.Some? then stored.(derived := wreck.value, state := Degraded)
    else stored.(generation := generation, derived := Derive(p, n.derived, op))
  }

  /** What a replica answers: the next generation is applied by a serving replica unless
      something fails, a deletion of an unknown document whatever fails but storage; a lower
      one is a duplicate and changes nothing; a higher one only takes it out of service. */
  lemma ReplicatedReplies(p: Pipeline, n: Node, op: Op, generation: nat, fault: Fault)
    ensures var (after, reply) := ApplyReplicated(p, n, op, generation, fault);
            && (reply == Duplicate <==> generation <= n.generation)
            && (reply == Gap <==> generation > n.generation + 1)
            && (reply == Applied <==>
                  && generation == n.generation + 1 && n.state == Ready && !fault.StorageFails?
                  && !(op.Put? && fault.EmbeddingFails? && p.embedder.Some?)
                  && !(fault.DerivedFails? && Touches(n, op)))
            && (reply == Duplicate ==> after == n)
            && (reply == Gap ==> after == n.(state := OutOfSync))
            && (reply == Applied ==>
                  && after.state == Ready && after.generation == generation
                  && after.disk == Disk(ApplyOp(n.disk.documents, op), generation))
            && (reply.Failed? ==> reply.cause == BecameDegraded || after == n)
  {
  }

  /** So does a replicated mutation that goes through. */
  lemma FollowKeepsFresh(p: Pipeline, n: Node, op: Op)
    requires Fresh(p, n)
    ensures Fresh(p, Follow(p, n, op, None))
  {
    DeriveIsRebuild(p, n.disk.documents, op);
    if !Touches(n, op) {
      assert ApplyOp(n.disk.documents, op) == n.disk.documents;
    }
  }

  // ---------------------------------------------------------------------------
  // Rebuilding and resynchronizing
  // ---------------------------------------------------------------------------

  /** A rebuild can fail with nothing replaced, or after the derived structures have been
      swapped in but before the generation of the disk has been read back. */
  datatype RebuildFault = RebuildSucceeds | NothingRebuilt | GenerationUnread

  function Rebuild(p: Pipeline, n: Node, fault: RebuildFault): Node {
    match fault
    case NothingRebuilt => n
    case GenerationUnread => n.(derived := Rebuilt(p, n.disk.documents))
    case RebuildSucceeds =>
      n.(derived := Rebuilt(p, n.disk.documents), generation := n.disk.generation)
  }

  function Initialize(p: Pipeline, n: Node, fault: RebuildFault): Node {
    var rebuilt := Rebuild(p, n, fault);
    if fault.RebuildSucceeds? then rebuilt.(state := Ready) else rebuilt
  }

  datatype InstallFault = ReplaceFails | Replaced(rebuild: RebuildFault)

  const INSTALLED := Replaced(RebuildSucceeds)

  /** Replaces the corpus by a snapshot and serves again once it has been rebuilt. */
  function Resynchronize(p: Pipeline, n: Node, documents: Documents, generation: nat, fault: InstallFault)
    : Node
  {
    var recovering := n.(state := Recovering);
    if fault.ReplaceFails? then recovering
    else Initialize(p, recovering.(disk := Disk(documents, generation)), fault.rebuild)
  }

  function Snapshot(n: Node): Option<Disk> {
    if n.state != Ready then None else Some(Disk(n.derived.documents, n.generation))
  }

  // ---------------------------------------------------------------------------
  // What validation can and cannot tell
  // ---------------------------------------------------------------------------

  lemma FreshValidates(p: Pipeline, n: Node)
    requires Fresh(p, n)
    ensures Validates(n)
  {
    assert n.derived.corpus.Keys == n.disk.documents.Keys;
  }

  /** The node a local put leaves when it breaks off at the stage. */
  function BrokenPut(p: Pipeline, n: Node, id: Id, text: Text, stage: Stage): Node {
    IndexDocument(p, n, id, text, DerivedFails(Broken(p, n.derived, Put(id, text), stage))).0
  }

  function BrokenDelete(p: Pipeline, n: Node, id: Id, stage: Stage): Node {
    DeleteDocument(p, n, id, DerivedFails(Broken(p, n.derived, Delete(id), stage))).0
  }

  /** After a local put that broke off, validation passes exactly when the stages it did not
      reach had the id already, or had nothing to do. */
  lemma ValidationAfterBrokenPut(p: Pipeline, n: Node, id: Id, text: Text, stage: Stage)
    requires Fresh(p, n) && n.state == Ready
    ensures Validates(BrokenPut(p, n, id, text, stage)) <==>
              match stage
              case BeforeCache => id in n.disk.documents && n.disk.documents[id] == text
              case BeforeIndex => id in n.disk.documents
              case BeforeVectors => id in n.disk.documents || p.embedder.None?
  {
    var was := n.disk.documents;
    var left := Broken(p, n.derived, Put(id, text), stage);
    assert BrokenPut(p, n, id, text, stage)
        == Node(Disk(was[id := text], n.generation + 1), n.generation + 1, left, Degraded);
    assert n.derived.corpus.Keys == was.Keys;
    KeptByUpdate(was, id, text);
    SameKeysWithUpdate(was, was.Keys, id, text);
    match stage
    case BeforeCache => assert left.documents == was;
    case BeforeIndex => assert left.documents == was[id := text] && left.corpus.Keys == was.Keys;
    case BeforeVectors =>
      assert left.documents == was[id := text] && left.corpus.Keys == was[id := text].Keys;
  }

  lemma SameKeysWithUpdate<V>(m: map<Id, V>, keys: set<Id>, id: Id, v: V)
    requires keys == m.Keys
    ensures keys == m[id := v].Keys <==> id in m
  {
    if id in m {
      assert m[id := v].Keys == keys;
    }
  }

  /** ... and derived state is right exactly when the unreached stages would have changed
      nothing. */
  lemma FreshAfterBrokenPut(p: Pipeline, n: Node, id: Id, text: Text, stage: Stage)
    requires Fresh(p, n) && n.state == Ready
    ensures var documents := n.disk.documents;
            Fresh(p, BrokenPut(p, n, id, text, stage)) <==>
              match stage
              case BeforeCache => id in documents && documents[id] == text
              case BeforeIndex =>
                && id in documents && SameCounts(p, documents[id], text)
                && SameVector(p, documents[id], text)
              case BeforeVectors =>
                p.embedder.None? || (id in documents && SameVector(p, documents[id], text))
  {
    var was, now := n.disk.documents, n.disk.documents[id := text];
    CorpusAfter(p, was, Put(id, text));
    KeptByUpdate(IndexedCorpus(p, was), id, p.CountsOf(text));
    KeptByUpdate(was, id, text);
    if p.embedder.Some? {
      VectorsAfter(p, was, Put(id, text));
      KeptByUpdate(EmbeddedDocuments(p, was).value, id, p.embedder.value.embed(text));
    }
  }

  lemma KeptByUpdate<V>(m: map<Id, V>, id: Id, v: V)
    ensures m[id := v] == m <==> id in m && m[id] == v
  {
    if id in m && m[id] == v {
      assert forall d :: d in m ==> m[id := v][d] == m[d];
    }
  }

  predicate SameCounts(p: Pipeline, a: Text, b: Text) {
    p.CountsOf(a) == p.CountsOf(b)
  }

  predicate SameVector(p: Pipeline, a: Text, b: Text) {
    p.embedder.Some? ==> p.embedder.value.embed(a) == p.embedder.value.embed(b)
  }

  /** So validation misses stale derived state in exactly one case: a stored document was
      replaced, and the index or the vectors still answer for its old text. */
  lemma ValidationMissesIff(p: Pipeline, n: Node, id: Id, text: Text, stage: Stage)
    requires Fresh(p, n) && n.state == Ready
    ensures var after := BrokenPut(p, n, id, text, stage);
            Validates(after) && !Fresh(p, after) <==>
              && id in n.disk.documents
              && ((stage.BeforeIndex? && !SameCounts(p, n.disk.documents[id], text))
                  || (!stage.BeforeCache? && !SameVector(p, n.disk.documents[id], text)))
  {
    ValidationAfterBrokenPut(p, n, id, text, stage);
    FreshAfterBrokenPut(p, n, id, text, stage);
  }

  /** The gap is real: replacing a document by one with other term counts, breaking off before
      the index, leaves a node that validates and is not fresh. */
  lemma ValidationIsWeakerThanFresh(p: Pipeline, n: Node, id: Id, text: Text)
    requires Fresh(p, n) && n.state == Ready
    requires id in n.disk.documents && !SameCounts(p, n.disk.documents[id], text)
    ensures var after := BrokenPut(p, n, id, text, BeforeIndex);
            after.state == Degraded && Validates(after) && !Fresh(p, after)
  {
    ValidationMissesIff(p, n, id, text, BeforeIndex);
  }

  /** After a local deletion that broke off, validation is exact: it passes only when there
      were no vectors left to remove, and then derived state is right. */
  lemma ValidationAfterBrokenDelete(p: Pipeline, n: Node, id: Id, stage: Stage)
    requires Fresh(p, n) && n.state == Ready && id in n.disk.documents
    ensures var after := BrokenDelete(p, n, id, stage);
            && (Validates(after) <==> stage.BeforeVectors? && p.embedder.None?)
            && (Fresh(p, after) <==> Validates(after))
  {
    var now := n.disk.documents - {id};
    DeriveIsRebuild(p, n.disk.documents, Delete(id));
    assert id in n.derived.corpus && id !in now;
    assert n.derived.corpus.Keys - {id} == now.Keys;
  }

  /** After a replicated mutation that broke off, however it left derived state, validation
      always fails: memory is a generation behind the disk. */
  lemma ValidationAfterBrokenFollow(p: Pipeline, n: Node, op: Op, wreck: Derived)
    requires Fresh(p, n) && n.state == Ready && Touches(n, op)
    ensures var (after, reply) := ApplyReplicated(p, n, op, n.generation + 1, DerivedFails(wreck));
            reply == Failed(BecameDegraded) && !Validates(after) && !Fresh(p, after)
  {
  }

  // ---------------------------------------------------------------------------
  // Queries
  // ---------------------------------------------------------------------------

  ghost function HitsOf(scores: map<Id, real>, documents: Documents): set<SearchResult>
    requires scores.Keys <= documents.Keys
  {
    set d | d in scores :: Hit(d, scores[d], documents[d])
  }

  ghost function LexicalHits(
    p: Pipeline, documents: Documents, terms: seq<Term>, stats: CorpusStats): set<SearchResult>
    requires p.Sound()
  {
    IndexedCorpusWellCounted(p, documents);
    HitsOf(Scores(p.scorer, IndexedCorpus(p, documents), terms, stats), documents)
  }

  /** `_search_locked`: rank every matching document, keep the first `limit`. */
  ghost function LexicalSearch(
    p: Pipeline, documents: Documents, terms: seq<Term>, limit: nat, stats: CorpusStats): SearchResults
    requires p.Sound()
  {
    if terms == [] then SearchResults(0, [])
    else
      var hits := LexicalHits(p, documents, terms, stats);
      SearchResults(|hits|, Take(Ranking(hits), limit))
  }

  ghost function DocumentStats(p: Pipeline, documents: Documents, terms: set<Term>): CorpusStats {
    IndexedCorpusWellCounted(p, documents);
    StatsOf(IndexedCorpus(p, documents), terms)
  }

  /** Ranking one corpus with statistics collected from another. */
  ghost function SearchAcross(
    p: Pipeline, counted: Documents, scored: Documents, query: Text, limit: nat): SearchResults
    requires p.Sound()
  {
    var terms := p.analyzer.Analyze(query);
    LexicalSearch(p, scored, terms, limit, DocumentStats(p, counted, TermSet(terms)))
  }

  /** What a single engine holding these documents answers to a query. */
  ghost function SingleNodeSearch(p: Pipeline, documents: Documents, query: Text, limit: nat)
    : SearchResults
    requires p.Sound()
  {
    SearchAcross(p, documents, documents, query, limit)
  }

  ghost function SemanticHits(p: Pipeline, documents: Documents, vector: Vector): set<SearchResult>
    requires p.Sound() && p.embedder.Some? && |vector| == p.embedder.value.dimension
  {
    set d | d in documents :: Hit(d, Dot(p.embedder.value.embed(documents[d]), vector), documents[d])
  }

  /** `_semantic_search_locked`: rank every document by similarity; the total is the corpus. */
  ghost function SemanticSearch(p: Pipeline, documents: Documents, vector: Vector, limit: nat)
    : SearchResults
    requires p.Sound() && p.embedder.Some? && |vector| == p.embedder.value.dimension
  {
    SearchResults(|documents|, Take(Ranking(SemanticHits(p, documents, vector)), limit))
  }

  /** Both retrievals to the candidate depth, then fusion. */
  ghost function HybridSearch(
    p: Pipeline, documents: Documents, query: Text, limit: nat, config: FusionConfig): HybridResults
    requires p.Sound() && p.embedder.Some? && config.Accepted() && config.CandidateDepth(limit) >= 1
  {
    if p.analyzer.Analyze(query) == [] then HybridResults(0, [])
    else
      var depth := config.CandidateDepth(limit);
      FusedResults(
        SingleNodeSearch(p, documents, query, depth).results,
        SemanticSearch(p, documents, p.embedder.value.embedQuery(query), depth).results,
        limit, config.rrfK)
  }

  // ---------------------------------------------------------------------------
  // What a query returns
  // ---------------------------------------------------------------------------

  /** The documents sharing a term with the query. */
  ghost function Sharing(p: Pipeline, documents: Documents, query: Text): set<Id> {
    set d | d in documents && SharesTerm(p, documents[d], query)
  }

  ghost predicate SharesTerm(p: Pipeline, text: Text, query: Text) {
    exists t :: t in p.analyzer.Analyze(query) && t in p.analyzer.Analyze(text)
  }

  lemma SharedIsMatched(p: Pipeline, text: Text, query: Text)
    ensures SharesTerm(p, text, query) <==> Matches(p.CountsOf(text), p.analyzer.Analyze(query))
  {
    assert forall t :: t in p.CountsOf(text) <==> t in p.analyzer.Analyze(text);
  }

  /** The scores of the documents under the statistics of just these documents. */
  ghost function OwnScores(p: Pipeline, documents: Documents, query: Text): map<Id, real>
    requires p.Sound()
  {
    var terms := p.analyzer.Analyze(query);
    IndexedCorpusWellCounted(p, documents);
    Scores(p.scorer, IndexedCorpus(p, documents), terms, StatsOf(IndexedCorpus(p, documents), TermSet(terms)))
  }

  /** A lexical query finds exactly the documents sharing a term with it. */
  lemma LexicalFinds(p: Pipeline, documents: Documents, query: Text)
    requires p.Sound()
    ensures var terms := p.analyzer.Analyze(query);
            var hits := LexicalHits(p, documents, terms, DocumentStats(p, documents, TermSet(terms)));
            && DistinctIds(hits)
            && (forall d :: d in Sharing(p, documents, query) <==> exists h :: h in hits && h.documentId == d)
            && (forall h :: h in hits ==>
                  && h.documentId in documents && h.payload == documents[h.documentId]
                  && h.score == ScoreIn(OwnScores(p, documents, query), h.documentId))
  {
    var terms := p.analyzer.Analyze(query);
    var stats := DocumentStats(p, documents, TermSet(terms));
    var hits := LexicalHits(p, documents, terms, stats);
    IndexedCorpusWellCounted(p, documents);
    var scores := Scores(p.scorer, IndexedCorpus(p, documents), terms, stats);
    forall d ensures d in Sharing(p, documents, query) <==> d in scores {
      if d in documents {
        SharedIsMatched(p, documents[d], query);
        if SharesTerm(p, documents[d], query) {
          CounterSum(p.analyzer.Analyze(documents[d]));
          TokensMakeAverage(IndexedCorpus(p, documents), TermSet(terms), d);
        }
      }
    }
    forall d | d in scores ensures exists h :: h in hits && h.documentId == d {
      assert Hit(d, scores[d], documents[d]) in hits;
    }
  }

  /** The total counts them, whatever the limit; the results are the best of them in order,
      each with its own text and its score among just these documents. */
  lemma SearchReturns(p: Pipeline, documents: Documents, query: Text, limit: nat)
    requires p.Sound()
    ensures var r := SingleNodeSearch(p, documents, query, limit);
            && r.total == |Sharing(p, documents, query)|
            && |r.results| == (if limit < r.total then limit else r.total)
            && StrictlySorted(r.results) && DistinctIdList(r.results)
            && forall h :: h in r.results ==>
                 && h.documentId in Sharing(p, documents, query) && h.payload == documents[h.documentId]
                 && h.score == ScoreIn(OwnScores(p, documents, query), h.documentId)
  {
    var terms := p.analyzer.Analyze(query);
    LexicalFinds(p, documents, query);
    if terms == [] {
      assert Sharing(p, documents, query) == {};
    } else {
      var hits := LexicalHits(p, documents, terms, DocumentStats(p, documents, TermSet(terms)));
      RankingSorts(hits);
      SizeByIds(hits, Sharing(p, documents, query));
      TakenIsSorted(hits, limit);
    }
  }

  lemma {:induction false} SizeByIds(hits: set<SearchResult>, ids: set<Id>)
    requires DistinctIds(hits)
    requires forall d :: d in ids <==> exists h :: h in hits && h.documentId == d
    ensures |hits| == |ids|
    decreases |hits|
  {
    if hits == {} {
      assert ids == {};
    } else {
      var h := AnyElement(hits);
      assert h.documentId in ids;
      forall d ensures d in ids - {h.documentId} <==> exists g :: g in hits - {h} && g.documentId == d {
        if d in ids - {h.documentId} {
          var g :| g in hits && g.documentId == d;
          assert g in hits - {h};
        }
      }
      SizeByIds(hits - {h}, ids - {h.documentId});
    }
  }

  lemma TakenIsSorted(hits: set<SearchResult>, limit: nat)
    requires DistinctIds(hits)
    ensures var taken := Take(Ranking(hits), limit);
            && |taken| == (if limit < |hits| then limit else |hits|)
            && StrictlySorted(taken) && DistinctIdList(taken) && forall h :: h in taken ==> h in hits
  {
    RankingSorts(hits);
    var all := Ranking(hits);
    assert forall h :: h in all ==> h in Elements(all);
    forall i, j | 0 <= i < j < |all| ensures all[i].documentId != all[j].documentId {
      assert all[i] in Elements(all) && all[j] in Elements(all);
      assert Before(all[i], all[j]);
      BeforeIrreflexive(all[i]);
    }
  }

  /** Every document is compared; the best are returned in order of their dot product with the
      query's vector, each with its own text. */
  lemma SemanticReturns(p: Pipeline, documents: Documents, vector: Vector, limit: nat)
    requires p.Sound() && p.embedder.Some? && |vector| == p.embedder.value.dimension
    ensures var r := SemanticSearch(p, documents, vector, limit);
            && r.total == |documents|
            && |r.results| == (if limit < r.total then limit else r.total)
            && StrictlySorted(r.results) && DistinctIdList(r.results)
            && forall h :: h in r.results ==>
                 && h.documentId in documents && h.payload == documents[h.documentId]
                 && h.score == Dot(p.embedder.value.embed(h.payload), vector)
  {
    var hits := SemanticHits(p, documents, vector);
    forall d ensures d in documents.Keys <==> exists h :: h in hits && h.documentId == d {
      if d in documents {
        assert Hit(d, Dot(p.embedder.value.embed(documents[d]), vector), documents[d]) in hits;
      }
    }
    SizeByIds(hits, documents.Keys);
    TakenIsSorted(hits, limit);
  }

  /** Each hybrid hit tells its true place in the lexical and in the semantic ranking, both
      taken to the candidate depth, and scores the reciprocal-rank sum of those places; the
      total counts the documents of both. */
  lemma HybridReturns(p: Pipeline, documents: Documents, query: Text, limit: nat, config: FusionConfig)
    requires p.Sound() && p.embedder.Some? && config.Accepted() && config.CandidateDepth(limit) >= 1
    requires p.analyzer.Analyze(query) != []
    ensures var depth := config.CandidateDepth(limit);
            var lexical := SingleNodeSearch(p, documents, query, depth).results;
            var semantic := SemanticSearch(p, documents, p.embedder.value.embedQuery(query), depth).results;
            var r := HybridSearch(p, documents, query, limit, config);
            && r.total == |IdsOf(lexical) + IdsOf(semantic)|
            && |r.results| == (if limit < r.total then limit else r.total)
            && StrictlySorted(r.results)
            && forall h :: h in r.results ==>
                 && Explained(h, lexical, semantic)
                 && h.score == Share(h.payload.lexicalRank, config.rrfK) + Share(h.payload.semanticRank, config.rrfK)
  {
    var depth := config.CandidateDepth(limit);
    SearchReturns(p, documents, query, depth);
    SemanticReturns(p, documents, p.embedder.value.embedQuery(query), depth);
    var lexical := SingleNodeSearch(p, documents, query, depth).results;
    var semantic := SemanticSearch(p, documents, p.embedder.value.embedQuery(query), depth).results;
    FusionIsExact(lexical, semantic, limit, config.rrfK);
    forall h | h in FusedResults(lexical, semantic, limit, config.rrfK).results
      ensures Explained(h, lexical, semantic)
    {
      FusionExplains(lexical, semantic, limit, config.rrfK, h);
    }
  }
}
