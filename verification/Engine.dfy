/** The search engine: durable documents, and derived structures updated in place.

    Each method is one critical section of the original.  Failures the environment can cause
    are passed in as `Trouble`; the contracts say what the whole node is afterwards. */
module Engines {
  import opened Basics
  import opened Analysis
  import opened Hits
  import opened InvertedIndexes
  import opened Statistics
  import opened BM25
  import opened VectorIndexes
  import opened Fusion
  import opened Nodes

  const EMBEDDING_BATCH_SIZE: nat := 64

  datatype Trouble = NoTrouble | CannotEmbed | CannotStore | CannotDerive(stage: Stage)

  datatype RebuildTrouble =
    | NoRebuildTrouble | CannotRead | CannotEmbedBatch(batch: nat) | CannotReadGeneration

  datatype ResyncTrouble = CannotReplace | CannotRebuild(rebuild: RebuildTrouble)

  datatype SearchError =
    | EngineNotReady | SemanticDisabled | QueryNotEmbedded | Vectors(error: VectorError)

  /** The fault a trouble amounts to when it meets this operation. */
  function Resolve(p: Pipeline, trouble: Trouble, before: Derived, op: Op): Fault {
    match trouble
    case NoTrouble => NoFault
    case CannotEmbed => EmbeddingFails
    case CannotStore => StorageFails
    case CannotDerive(stage) => DerivedFails(Broken(p, before, op, stage))
  }

  /** What a trouble leaves derived state as, once the durable write is done. */
  function Wreck(p: Pipeline, trouble: Trouble, before: Derived, op: Op): Option<Derived> {
    if trouble.CannotDerive? then Some(Broken(p, before, op, trouble.stage)) else None
  }

  /** A put in sequence that nothing prevents from being stored is followed. */
  lemma NextPutFollows(p: Pipeline, n: Node, id: Id, text: Text, trouble: Trouble)
    requires n.state == Ready
    ensures !trouble.CannotStore? && !(trouble.CannotEmbed? && p.embedder.Some?) ==>
              var op := Put(id, text);
              Nodes.ApplyReplicated(p, n, op, n.generation + 1, Resolve(p, trouble, n.derived, op))
              == (Follow(p, n, op, Wreck(p, trouble, n.derived, op)),
                  if trouble.CannotDerive? then Failed(BecameDegraded) else Applied)
  {
  }

  /** The node a commit leaves, whether derived state follows or breaks off. */
  lemma CommitShape(p: Pipeline, n: Node, op: Op, trouble: Trouble)
    requires Fresh(p, n)
    ensures var after := CommitLocal(p, n, op, Wreck(p, trouble, n.derived, op));
            && after == Node(
                 Disk(ApplyOp(n.disk.documents, op), n.generation + 1), n.generation + 1,
                 if trouble.CannotDerive? then Broken(p, n.derived, op, trouble.stage)
                 else Derive(p, n.derived, op),
                 if trouble.CannotDerive? then Degraded else n.state)
            && (!trouble.CannotDerive? ==> Fresh(p, after))
  {
    if !trouble.CannotDerive? {
      CommitKeepsFresh(p, n, op);
    }
  }

  /** How a rebuild of this many documents ends. */
  function Outcome(trouble: RebuildTrouble, count: nat, semantic: bool): RebuildFault {
    match trouble
    case NoRebuildTrouble => RebuildSucceeds
    case CannotRead => NothingRebuilt
    case CannotEmbedBatch(batch) =>
      if semantic && batch * EMBEDDING_BATCH_SIZE < count then NothingRebuilt else RebuildSucceeds
    case CannotReadGeneration => GenerationUnread
  }

  function InstallOutcome(trouble: ResyncTrouble, count: nat, semantic: bool): InstallFault {
    match trouble
    case CannotReplace => ReplaceFails
    case CannotRebuild(rebuild) => Replaced(Outcome(rebuild, count, semantic))
  }

  // ---------------------------------------------------------------------------
  // The document store: documents and generation in one transaction
  // ---------------------------------------------------------------------------

  class DocumentStore {
    var documents: Documents
    var generation: nat

    constructor (disk: Disk)
      ensures Disk(documents, generation) == disk
    {
      documents, generation := disk.documents, disk.generation;
    }

    /** Reports whether the document is new. */
    method Put(id: Id, text: Text, generation: nat) returns (created: bool)
      modifies this
      ensures documents == old(documents)[id := text] && this.generation == generation
      ensures created <==> id !in old(documents)
    {
      created := id !in documents;
      documents := documents[id := text];
      this.generation := generation;
    }

    /** Reports whether a document was removed. */
    method Delete(id: Id, generation: nat) returns (existed: bool)
      modifies this
      ensures documents == old(documents) - {id} && this.generation == generation
      ensures existed <==> id in old(documents)
    {
      existed := id in documents;
      documents := documents - {id};
      this.generation := generation;
    }

    method ReplaceAll(documents: Documents, generation: nat)
      modifies this
      ensures this.documents == documents && this.generation == generation
    {
      this.documents, this.generation := documents, generation;
    }
  }

  // ---------------------------------------------------------------------------
  // Ranking a score map
  // ---------------------------------------------------------------------------

  method RankScores(scores: map<Id, real>, documents: Documents, limit: nat)
    returns (r: SearchResults)
    requires scores.Keys <= documents.Keys
    ensures r == SearchResults(|HitsOf(scores, documents)|,
                               Take(Ranking(HitsOf(scores, documents)), limit))
  {
    var listed: seq<SearchResult> := [];
    var rest := scores.Keys;
    while rest != {}
      invariant rest <= scores.Keys
      invariant forall h :: h in listed <==>
                  h.documentId in scores && h.documentId !in rest
                  && h == Hit(h.documentId, scores[h.documentId], documents[h.documentId])
      invariant DistinctIdList(listed)
    {
      var d :| d in rest;
      listed := listed + [Hit(d, scores[d], documents[d])];
      rest := rest - {d};
    }
    assert Elements(listed) == HitsOf(scores, documents);
    SortRanks(listed);
    SortSorts(listed);
    r := SearchResults(|listed|, Take(Sort(listed), limit));
  }

  method ListKeys<V>(m: map<Id, V>) returns (keys: seq<Id>)
    ensures forall id :: id in keys <==> id in m
    ensures forall i, j :: 0 <= i < j < |keys| ==> keys[i] != keys[j]
    ensures |keys| == |m|
  {
    keys := [];
    var rest := m.Keys;
    while rest != {}
      invariant rest <= m.Keys
      invariant forall id :: id in keys <==> id in m && id !in rest
      invariant forall i, j :: 0 <= i < j < |keys| ==> keys[i] != keys[j]
      invariant |keys| + |rest| == |m|
    {
      var id :| id in rest;
      keys := keys + [id];
      rest := rest - {id};
    }
  }

  /** The vectors of some of the documents. */
  ghost function Embeddings(embedder: Embedder, documents: Documents, ids: set<Id>): map<Id, Vector> {
    map d | d in ids && d in documents :: embedder.embed(documents[d])
  }

  ghost function Prefix(ids: seq<Id>, n: nat): set<Id>
    requires n <= |ids|
  {
    set d | d in ids[..n]
  }

  lemma PrefixNext(ids: seq<Id>, n: nat)
    requires n < |ids|
    ensures Prefix(ids, n + 1) == Prefix(ids, n) + {ids[n]}
  {
    assert ids[..n + 1] == ids[..n] + [ids[n]];
  }

  lemma AllEmbedded(p: Pipeline, documents: Documents)
    requires p.embedder.Some?
    ensures EmbeddedDocuments(p, documents)
         == Some(Embeddings(p.embedder.value, documents, documents.Keys))
  {
    assert EmbeddedDocuments(p, documents).value
        == Embeddings(p.embedder.value, documents, documents.Keys);
  }

  lemma OneMoreEmbedding(embedder: Embedder, documents: Documents, ids: set<Id>, d: Id)
    requires d in documents
    ensures Embeddings(embedder, documents, ids + {d})
         == Embeddings(embedder, documents, ids)[d := embedder.embed(documents[d])]
  {
    var was, now := Embeddings(embedder, documents, ids), Embeddings(embedder, documents, ids + {d});
    MapWithKey(was, now, d, embedder.embed(documents[d]));
  }

  // ---------------------------------------------------------------------------
  // The engine
  // ---------------------------------------------------------------------------

  class SearchEngine {
    const p: Pipeline
    const store: DocumentStore
    var index: InvertedIndex
    var vectors: ExactVectorIndex?
    var documents: Documents
    var state: NodeState
    var generation: nat

    ghost var Repr: set<object>

    ghost predicate Structure()
      reads this`Repr, this`index, this`vectors, index, vectors
      reads if vectors == null then {} else {vectors.matrix}
      ensures Structure() ==> this in Repr && store in Repr && index in Repr
      ensures Structure() ==> (vectors != null ==> vectors in Repr && vectors.matrix in Repr)
    {
      && this in Repr && store in Repr && index in Repr
      && index.Valid()
      && p.Sound()
      && (vectors != null <==> p.embedder.Some?)
      && (vectors != null ==>
            && vectors in Repr && vectors.matrix in Repr
            && vectors.Valid() && vectors.dimension == p.embedder.value.dimension)
    }

    ghost function DiskView(): Disk
      reads store
    {
      Disk(store.documents, store.generation)
    }

    ghost function DerivedView(): Derived
      reads this`documents, this`index, this`vectors, index, vectors
    {
      Derived(documents, index.corpus, if vectors == null then None else Some(vectors.vectors))
    }

    ghost function View(): Node
      reads this, store, index, vectors
    {
      Node(DiskView(), generation, DerivedView(), state)
    }

    /** A READY engine's memory and derived state are exactly what its disk calls for. */
    ghost predicate Valid()
      reads this, store, index, vectors
      reads if vectors == null then {} else {vectors.matrix}
      ensures Valid() ==> this in Repr
    {
      Structure() && (state == Ready ==> Fresh(p, View()))
    }

    constructor (p: Pipeline, store: DocumentStore)
      requires p.Sound()
      ensures Valid() && this.p == p && this.store == store && fresh(Repr - {store})
      ensures View() == Node(Disk(store.documents, store.generation), 0, Rebuilt(p, map[]), Starting)
    {
      this.p, this.store := p, store;
      index := new InvertedIndex();
      if p.embedder.Some? {
        vectors := new ExactVectorIndex(p.embedder.value.dimension);
      } else {
        vectors := null;
      }
      documents, generation, state := map[], 0, Starting;
      new;
      Repr := {this, store, index};
      if vectors != null {
        Repr := Repr + {vectors, vectors.matrix};
      }
    }

    // -------------------------------------------------------------------------
    // State changes
    // -------------------------------------------------------------------------

    method MarkRecovering()
      requires Valid()
      modifies this`state
      ensures Valid() && View() == old(View()).(state := Recovering)
    {
      state := Recovering;
    }

    method MarkOutOfSync()
      requires Valid()
      modifies this`state
      ensures Valid() && View() == old(View()).(state := OutOfSync)
    {
      state := OutOfSync;
    }

    /** Unconditional: the engine stays valid exactly when the node had earned it. */
    method MarkReady()
      requires Structure()
      modifies this`state
      ensures Structure() && View() == old(View()).(state := Ready)
      ensures Valid() <==> old(Fresh(p, View()))
    {
      state := Ready;
    }

    // -------------------------------------------------------------------------
    // Derived state
    // -------------------------------------------------------------------------

    /** Cache, then index, then vectors.  Breaking off leaves the earlier updates in place. */
    method ApplyDerived(id: Id, text: Text, tokens: seq<Term>, vector: Option<Vector>, trouble: Trouble)
      returns (done: bool)
      requires Structure()
      requires tokens == p.analyzer.Analyze(text)
      requires vector == if p.embedder.Some? then Some(p.embedder.value.embed(text)) else None
      modifies this`documents, this`Repr, index, vectors, if vectors == null then {} else {vectors.matrix}
      ensures Structure() && fresh(Repr - old(Repr))
      ensures index == old(index) && vectors == old(vectors)
      ensures done <==> !trouble.CannotDerive?
      ensures DerivedView() == if done then Derive(p, old(DerivedView()), Put(id, text))
                               else Broken(p, old(DerivedView()), Put(id, text), trouble.stage)
    {
      if trouble.CannotDerive? && trouble.stage.BeforeCache? {
        return false;
      }
      documents := documents[id := text];
      if trouble.CannotDerive? && trouble.stage.BeforeIndex? {
        return false;
      }
      index.AddDocument(id, tokens);
      if trouble.CannotDerive? && trouble.stage.BeforeVectors? {
        return false;
      }
      if vectors != null && vector.Some? {
        var _ := vectors.Add(id, vector.value);
        Repr := Repr + {vectors.matrix};
      }
      done := true;
    }

    method RemoveDerived(id: Id, trouble: Trouble) returns (done: bool)
      requires Structure()
      modifies this`documents, index, vectors, if vectors == null then {} else {vectors.matrix}
      ensures Structure()
      ensures done <==> !trouble.CannotDerive?
      ensures DerivedView() == if done then Derive(p, old(DerivedView()), Delete(id))
                               else Broken(p, old(DerivedView()), Delete(id), trouble.stage)
    {
      if trouble.CannotDerive? && trouble.stage.BeforeCache? {
        return false;
      }
      documents := documents - {id};
      if trouble.CannotDerive? && trouble.stage.BeforeIndex? {
        return false;
      }
      var _ := index.RemoveDocument(id);
      if trouble.CannotDerive? && trouble.stage.BeforeVectors? {
        return false;
      }
      if vectors != null {
        var _ := vectors.Remove(id);
      }
      done := true;
    }

    /** The durable write, then the derived one. */
    method PutStored(
      id: Id, text: Text, tokens: seq<Term>, vector: Option<Vector>, next: nat, trouble: Trouble)
      returns (done: bool)
      requires Structure()
      requires tokens == p.analyzer.Analyze(text)
      requires vector == if p.embedder.Some? then Some(p.embedder.value.embed(text)) else None
      modifies this`documents, this`Repr, store, index, vectors
      modifies if vectors == null then {} else {vectors.matrix}
      ensures Structure() && fresh(Repr - old(Repr))
      ensures index == old(index) && vectors == old(vectors)
      ensures done <==> !trouble.CannotDerive?
      ensures View() == old(View()).(
                disk := Disk(ApplyOp(old(store.documents), Put(id, text)), next),
                derived := if done then Derive(p, old(DerivedView()), Put(id, text))
                           else Broken(p, old(DerivedView()), Put(id, text), trouble.stage))
    {
      var _ := store.Put(id, text, next);
      done := ApplyDerived(id, text, tokens, vector, trouble);
    }

    /** The durable deletion, then the derived one. */
    method RemoveStored(id: Id, next: nat, trouble: Trouble) returns (done: bool)
      requires Structure()
      modifies this`documents, store, index, vectors, if vectors == null then {} else {vectors.matrix}
      ensures Structure()
      ensures done <==> !trouble.CannotDerive?
      ensures View() == old(View()).(
                disk := Disk(ApplyOp(old(store.documents), Delete(id)), next),
                derived := if done then Derive(p, old(DerivedView()), Delete(id))
                           else Broken(p, old(DerivedView()), Delete(id), trouble.stage))
    {
      var _ := store.Delete(id, next);
      done := RemoveDerived(id, trouble);
    }

    // -------------------------------------------------------------------------
    // Local mutations
    // -------------------------------------------------------------------------

    /** `None` is the vector of every text when semantic search is disabled. */
    method EmbedDocument(text: Text, trouble: Trouble) returns (r: Result<Option<Vector>, WriteReply>)
      ensures r == if p.embedder.None? then Success(None)
                   else if trouble.CannotEmbed? then Failure(EmbeddingError)
                   else Success(Some(p.embedder.value.embed(text)))
    {
      if p.embedder.None? {
        return Success(None);
      }
      if trouble.CannotEmbed? {
        return Failure(EmbeddingError);
      }
      r := Success(Some(p.embedder.value.embed(text)));
    }

    method AnalyzeText(text: Text) returns (terms: seq<Term>)
      ensures terms == p.analyzer.Analyze(text)
    {
      terms := Tokenize(p.analyzer.normalize(text), p.analyzer.isAlnum);
    }

    /** Analysis and embedding come first, outside the critical section. */
    method IndexDocument(id: Id, text: Text, trouble: Trouble) returns (reply: WriteReply)
      requires Valid()
      modifies Repr
      ensures Valid() && fresh(Repr - old(Repr))
      ensures (View(), reply) == Nodes.IndexDocument(p, old(View()), id, text,
                                   Resolve(p, trouble, old(DerivedView()), Put(id, text)))
    {
      var tokens := AnalyzeText(text);
      var vector := EmbedDocument(text, trouble);
      if vector.Failure? {
        return vector.error;
      }
      reply := IndexLocked(id, text, tokens, vector.value, trouble);
    }

    method IndexLocked(id: Id, text: Text, tokens: seq<Term>, vector: Option<Vector>, trouble: Trouble)
      returns (reply: WriteReply)
      requires Valid() && (trouble.CannotEmbed? ==> p.embedder.None?)
      requires tokens == p.analyzer.Analyze(text)
      requires vector == if p.embedder.Some? then Some(p.embedder.value.embed(text)) else None
      modifies Repr
      ensures Valid() && fresh(Repr - old(Repr))
      ensures (View(), reply) == Nodes.IndexDocument(p, old(View()), id, text,
                                   Resolve(p, trouble, old(DerivedView()), Put(id, text)))
    {
      if state != Ready {
        return NotReady;
      }
      if trouble.CannotStore? {
        return StorageError;
      }
      var created := id !in store.documents;
      var done := CommitPut(id, text, tokens, vector, trouble);
      reply := if done then Stored(created) else BecameDegraded;
    }

    /** Past the durable write a failure can only degrade the engine. */
    method CommitPut(id: Id, text: Text, tokens: seq<Term>, vector: Option<Vector>, trouble: Trouble)
      returns (done: bool)
      requires Valid() && state == Ready
      requires !trouble.CannotStore? && (trouble.CannotEmbed? ==> p.embedder.None?)
      requires tokens == p.analyzer.Analyze(text)
      requires vector == if p.embedder.Some? then Some(p.embedder.value.embed(text)) else None
      modifies Repr
      ensures Valid() && fresh(Repr - old(Repr))
      ensures View() == CommitLocal(p, old(View()), Put(id, text),
                                   Wreck(p, trouble, old(DerivedView()), Put(id, text)))
      ensures done <==> !trouble.CannotDerive?
    {
      CommitShape(p, View(), Put(id, text), trouble);
      var next := generation + 1;
      done := PutStored(id, text, tokens, vector, next, trouble);
      if done {
        generation := next;
      } else {
        generation, state := next, Degraded;
      }
    }

    method DeleteDocument(id: Id, trouble: Trouble) returns (reply: WriteReply)
      requires Valid()
      modifies Repr
      ensures Valid() && fresh(Repr - old(Repr))
      ensures (View(), reply) == Nodes.DeleteDocument(p, old(View()), id,
                                   Resolve(p, trouble, old(DerivedView()), Delete(id)))
    {
      if state != Ready {
        return NotReady;
      }
      if id !in documents {
        return NotFound;
      }
      if trouble.CannotStore? {
        return StorageError;
      }
      var done := CommitDelete(id, trouble);
      if done {
        reply := Removed;
      } else {
        reply := BecameDegraded;
      }
    }

    method CommitDelete(id: Id, trouble: Trouble) returns (done: bool)
      requires Valid() && state == Ready && !trouble.CannotStore?
      modifies Repr
      ensures Valid() && fresh(Repr - old(Repr))
      ensures View() == CommitLocal(p, old(View()), Delete(id),
                                   Wreck(p, trouble, old(DerivedView()), Delete(id)))
      ensures done <==> !trouble.CannotDerive?
    {
      CommitShape(p, View(), Delete(id), trouble);
      var next := generation + 1;
      done := RemoveStored(id, next, trouble);
      if done {
        generation := next;
      } else {
        generation, state := next, Degraded;
      }
    }

    // -------------------------------------------------------------------------
    // Replicated mutations
    // -------------------------------------------------------------------------

    /** `None` means: apply it. */
    method ClassifyGeneration(incoming: nat) returns (decided: Option<ReplicationReply>)
      requires Valid()
      modifies this`state
      ensures Valid()
      ensures decided == if incoming <= generation then Some(Duplicate)
                         else if incoming > generation + 1 then Some(Gap)
                         else if old(state) != Ready then Some(Failed(NotReady)) else None
      ensures state == if decided == Some(Gap) then OutOfSync else old(state)
    {
      if incoming <= generation {
        return Some(Duplicate);
      }
      if incoming > generation + 1 {
        state := OutOfSync;
        return Some(Gap);
      }
      if state != Ready {
        return Some(Failed(NotReady));
      }
      decided := None;
    }

    method ApplyReplicatedPut(id: Id, text: Text, incoming: nat, trouble: Trouble)
      returns (reply: ReplicationReply)
      requires Valid()
      modifies Repr
      ensures Valid() && fresh(Repr - old(Repr))
      ensures (View(), reply) == Nodes.ApplyReplicated(
                p, old(View()), Put(id, text), incoming,
                Resolve(p, trouble, old(DerivedView()), Put(id, text)))
    {
      var decided := ClassifyGeneration(incoming);
      if decided.Some? {
        return decided.value;
      }
      reply := ApplyNextPut(id, text, trouble);
    }

    /** The next put in sequence, on an engine that serves.  Embedding comes first, so a
        replica that cannot embed has committed nothing. */
    method ApplyNextPut(id: Id, text: Text, trouble: Trouble) returns (reply: ReplicationReply)
      requires Valid() && state == Ready
      modifies Repr
      ensures Valid() && fresh(Repr - old(Repr))
      ensures (View(), reply) == Nodes.ApplyReplicated(
                p, old(View()), Put(id, text), old(generation) + 1,
                Resolve(p, trouble, old(DerivedView()), Put(id, text)))
    {
      NextPutFollows(p, View(), id, text, trouble);
      var tokens := AnalyzeText(text);
      var vector := EmbedDocument(text, trouble);
      if vector.Failure? {
        return Failed(vector.error);
      }
      if trouble.CannotStore? {
        return Failed(StorageError);
      }
      var done := FollowPut(id, text, tokens, vector.value, trouble);
      if done {
        reply := Applied;
      } else {
        reply := Failed(BecameDegraded);
      }
    }

    /** Memory advances only once derived state has followed the durable write. */
    method FollowPut(id: Id, text: Text, tokens: seq<Term>, vector: Option<Vector>, trouble: Trouble)
      returns (done: bool)
      requires Valid() && state == Ready
      requires !trouble.CannotStore? && (trouble.CannotEmbed? ==> p.embedder.None?)
      requires tokens == p.analyzer.Analyze(text)
      requires vector == if p.embedder.Some? then Some(p.embedder.value.embed(text)) else None
      modifies Repr
      ensures Valid() && fresh(Repr - old(Repr))
      ensures View() == Follow(p, old(View()), Put(id, text),
                              Wreck(p, trouble, old(DerivedView()), Put(id, text)))
      ensures done <==> !trouble.CannotDerive?
    {
      ghost var was := View();
      CommitKeepsFresh(p, was, Put(id, text));
      var next := generation + 1;
      done := PutStored(id, text, tokens, vector, next, trouble);
      if done {
        generation := next;
        assert View() == CommitLocal(p, was, Put(id, text), None);
      } else {
        state := Degraded;
      }
    }

    method ApplyReplicatedDelete(id: Id, incoming: nat, trouble: Trouble)
      returns (reply: ReplicationReply)
      requires Valid()
      modifies Repr
      ensures Valid() && fresh(Repr - old(Repr))
      ensures (View(), reply) == Nodes.ApplyReplicated(
                p, old(View()), Delete(id), incoming,
                Resolve(p, trouble, old(DerivedView()), Delete(id)))
    {
      var decided := ClassifyGeneration(incoming);
      if decided.Some? {
        return decided.value;
      }
      reply := ApplyNextDelete(id, trouble);
    }

    /** The next deletion in sequence, on an engine that serves. */
    method ApplyNextDelete(id: Id, trouble: Trouble) returns (reply: ReplicationReply)
      requires Valid() && state == Ready
      modifies Repr
      ensures Valid() && fresh(Repr - old(Repr))
      ensures (View(), reply) == Nodes.ApplyReplicated(
                p, old(View()), Delete(id), old(generation) + 1,
                Resolve(p, trouble, old(DerivedView()), Delete(id)))
    {
      if trouble.CannotStore? {
        return Failed(StorageError);
      }
      reply := FollowDeletion(id, trouble);
    }

    method FollowDeletion(id: Id, trouble: Trouble) returns (reply: ReplicationReply)
      requires Valid() && state == Ready && !trouble.CannotStore?
      modifies Repr
      ensures Valid() && fresh(Repr - old(Repr))
      ensures View() == Follow(p, old(View()), Delete(id),
                  Wreck(p, trouble, old(DerivedView()), Delete(id)))
      ensures reply == if trouble.CannotDerive? && id in old(documents) then Failed(BecameDegraded)
                       else Applied
    {
      if id in documents {
        reply := FollowDelete(id, trouble);
      } else {
        reply := SkipDelete(id);
      }
    }

    /** Nothing to remove from derived state, but the generation is still consumed. */
    method SkipDelete(id: Id) returns (reply: ReplicationReply)
      requires Valid() && state == Ready && id !in documents
      modifies this`generation, store
      ensures Valid()
      ensures View() == old(View()).(
                disk := Disk(ApplyOp(old(store.documents), Delete(id)), old(generation) + 1),
                generation := old(generation) + 1)
      ensures reply == Applied
    {
      FollowKeepsFresh(p, View(), Delete(id));
      var next := generation + 1;
      var _ := store.Delete(id, next);
      generation := next;
      reply := Applied;
    }

    method FollowDelete(id: Id, trouble: Trouble) returns (reply: ReplicationReply)
      requires Valid() && state == Ready && !trouble.CannotStore?
      modifies Repr
      ensures Valid() && fresh(Repr - old(Repr))
      ensures !trouble.CannotDerive? ==> View() == CommitLocal(p, old(View()), Delete(id), None)
      ensures trouble.CannotDerive? ==>
                View() == Node(Disk(ApplyOp(old(store.documents), Delete(id)), old(generation) + 1),
                               old(generation),
                               Broken(p, old(DerivedView()), Delete(id), trouble.stage), Degraded)
      ensures reply == if trouble.CannotDerive? then Failed(BecameDegraded) else Applied
    {
      CommitKeepsFresh(p, View(), Delete(id));
      var next := generation + 1;
      var done := RemoveStored(id, next, trouble);
      if !done {
        state := Degraded;
        return Failed(BecameDegraded);
      }
      generation := next;
      reply := Applied;
    }

    // -------------------------------------------------------------------------
    // Recovery
    // -------------------------------------------------------------------------

    /** Rebuilds into fresh structures, swaps them in, and reads the generation back last. */
    method Rebuild(trouble: RebuildTrouble) returns (ok: bool)
      requires Structure()
      modifies this
      ensures Structure() && fresh(Repr - old(Repr))
      ensures ok <==> Outcome(trouble, |store.documents|, p.embedder.Some?).RebuildSucceeds?
      ensures View() == Nodes.Rebuild(p, old(View()), Outcome(trouble, |store.documents|, p.embedder.Some?))
    {
      if trouble.CannotRead? {
        return false;
      }
      var rebuilt := RebuildIndex();
      var structures: ExactVectorIndex?;
      ok, structures := RebuildVectors(trouble);
      if !ok {
        return;
      }
      ok := Adopt(rebuilt, structures, trouble.CannotReadGeneration?);
    }

    /** Swaps in structures rebuilt from the stored documents. */
    method Adopt(rebuilt: InvertedIndex, structures: ExactVectorIndex?, unread: bool) returns (ok: bool)
      requires p.Sound() && rebuilt.Valid() && rebuilt.corpus == IndexedCorpus(p, store.documents)
      requires structures != null <==> p.embedder.Some?
      requires structures != null ==>
                 && structures.Valid() && structures.dimension == p.embedder.value.dimension
                 && Some(structures.vectors) == EmbeddedDocuments(p, store.documents)
      modifies this
      ensures Structure() && ok == !unread
      ensures structures == null ==> Repr <= {this, store, rebuilt}
      ensures structures != null ==> Repr <= {this, store, rebuilt, structures, structures.matrix}
      ensures View() == Nodes.Rebuild(p, old(View()), if unread then GenerationUnread else RebuildSucceeds)
    {
      index := rebuilt;
      documents := store.documents;
      vectors := structures;
      Repr := {this, store, index};
      if vectors != null {
        Repr := Repr + {vectors, vectors.matrix};
      }
      if unread {
        return false;
      }
      generation := store.generation;
      ok := true;
    }

    method RebuildIndex() returns (rebuilt: InvertedIndex)
      requires Structure()
      ensures fresh(rebuilt) && rebuilt.Valid()
      ensures rebuilt.corpus == IndexedCorpus(p, store.documents)
    {
      rebuilt := IndexAll(store.documents);
      var sound := CheckIndex(rebuilt);
      assert sound;
    }

    /** Validation of a well-kept index never fails. */
    method CheckIndex(index: InvertedIndex) returns (sound: bool)
      requires index.Valid()
      ensures sound
    {
      index.StateIsCanonical();
      sound := index.Validate();
    }

    method IndexAll(documents: Documents) returns (rebuilt: InvertedIndex)
      ensures fresh(rebuilt) && rebuilt.Valid()
      ensures rebuilt.corpus == IndexedCorpus(p, documents)
    {
      rebuilt := new InvertedIndex();
      AllIndexed(p, documents);
      ghost var done: set<Id> := {};
      var rest := documents.Keys;
      while rest != {}
        invariant rest <= documents.Keys && done == documents.Keys - rest
        invariant fresh(rebuilt) && rebuilt.Valid()
        invariant rebuilt.corpus == IndexedPart(p, documents, done)
      {
        var id :| id in rest;
        OneMoreIndexed(p, documents, done, id);
        var tokens := AnalyzeText(documents[id]);
        rebuilt.AddDocument(id, tokens);
        done := done + {id};
        rest := rest - {id};
      }
      assert done == documents.Keys;
    }

    /** Re-embeds the corpus in batches, each document exactly once. */
    method RebuildVectors(trouble: RebuildTrouble) returns (ok: bool, rebuilt: ExactVectorIndex?)
      requires Structure() && !trouble.CannotRead?
      ensures ok <==> !Outcome(trouble, |store.documents|, p.embedder.Some?).NothingRebuilt?
      ensures ok ==> (rebuilt != null <==> p.embedder.Some?)
      ensures ok && rebuilt != null ==>
                && fresh(rebuilt) && fresh(rebuilt.matrix) && rebuilt.Valid()
                && rebuilt.dimension == p.embedder.value.dimension
                && Some(rebuilt.vectors) == EmbeddedDocuments(p, store.documents)
    {
      if p.embedder.None? {
        return true, null;
      }
      AllEmbedded(p, store.documents);
      ok, rebuilt := EmbedAll(p.embedder.value, store.documents, trouble);
      if ok {
        var sound := rebuilt.Validate();
        assert sound;
      }
    }

    method EmbedAll(embedder: Embedder, documents: Documents, trouble: RebuildTrouble)
      returns (ok: bool, rebuilt: ExactVectorIndex)
      requires p.Sound() && p.embedder == Some(embedder) && !trouble.CannotRead?
      ensures ok <==> !Outcome(trouble, |documents|, true).NothingRebuilt?
      ensures fresh(rebuilt) && fresh(rebuilt.matrix) && rebuilt.Valid()
      ensures rebuilt.dimension == embedder.dimension
      ensures ok ==> rebuilt.vectors == Embeddings(embedder, documents, documents.Keys)
    {
      rebuilt := new ExactVectorIndex(embedder.dimension);
      var ids := ListKeys(documents);
      var start: nat, covered: nat, batch: nat := 0, 0, 0;
      while start < |ids|
        invariant start == batch * EMBEDDING_BATCH_SIZE && covered == if start < |ids| then start else |ids|
        invariant fresh(rebuilt) && fresh(rebuilt.matrix) && rebuilt.Valid()
        invariant rebuilt.dimension == embedder.dimension
        invariant rebuilt.vectors == Embeddings(embedder, documents, Prefix(ids, covered))
        invariant trouble.CannotEmbedBatch? ==> trouble.batch >= batch || trouble.batch * EMBEDDING_BATCH_SIZE >= |ids|
        decreases |ids| - start
      {
        if trouble.CannotEmbedBatch? && trouble.batch == batch {
          return false, rebuilt;
        }
        var end := if start + EMBEDDING_BATCH_SIZE < |ids| then start + EMBEDDING_BATCH_SIZE else |ids|;
        AddBatch(rebuilt, embedder, documents, ids, start, end);
        start, covered, batch := start + EMBEDDING_BATCH_SIZE, end, batch + 1;
      }
      assert Prefix(ids, covered) == documents.Keys;
      ok := true;
    }

    method EmbedBatch(embedder: Embedder, documents: Documents, batch: seq<Id>)
      returns (embedded: seq<Vector>)
      requires forall d :: d in batch ==> d in documents
      ensures |embedded| == |batch|
      ensures forall i :: 0 <= i < |batch| ==> embedded[i] == embedder.embed(documents[batch[i]])
    {
      embedded := seq(|batch|, i requires 0 <= i < |batch| => embedder.embed(documents[batch[i]]));
    }

    method AddBatch(
      target: ExactVectorIndex, embedder: Embedder, documents: Documents, ids: seq<Id>,
      start: nat, end: nat)
      requires p.Sound() && p.embedder == Some(embedder)
      requires target.Valid() && target.dimension == embedder.dimension
      requires start <= end <= |ids| && forall d :: d in ids ==> d in documents
      requires target.vectors == Embeddings(embedder, documents, Prefix(ids, start))
      modifies target, target.matrix
      ensures target.Valid()
      ensures target.matrix == old(target.matrix) || fresh(target.matrix)
      ensures target.vectors == Embeddings(embedder, documents, Prefix(ids, end))
    {
      var embedded := EmbedBatch(embedder, documents, ids[start..end]);
      var i := start;
      while i < end
        invariant start <= i <= end
        invariant target.Valid()
        invariant target.matrix == old(target.matrix) || fresh(target.matrix)
        invariant target.vectors == Embeddings(embedder, documents, Prefix(ids, i))
      {
        PrefixNext(ids, i);
        OneMoreEmbedding(embedder, documents, Prefix(ids, i), ids[i]);
        var _ := target.Add(ids[i], embedded[i - start]);
        i := i + 1;
      }
    }

    method Initialize(trouble: RebuildTrouble) returns (ok: bool)
      requires Valid()
      modifies this
      ensures Valid() && fresh(Repr - old(Repr))
      ensures ok <==> Outcome(trouble, |store.documents|, p.embedder.Some?).RebuildSucceeds?
      ensures View() == Nodes.Initialize(
                p, old(View()), Outcome(trouble, |store.documents|, p.embedder.Some?))
    {
      ok := Rebuild(trouble);
      if ok {
        state := Ready;
      }
    }

    method ExportSnapshot() returns (snapshot: Option<Disk>)
      requires Valid()
      ensures snapshot == Snapshot(View())
      ensures snapshot.Some? ==> snapshot.value == DiskView()
    {
      if state != Ready {
        return None;
      }
      snapshot := Some(Disk(documents, generation));
    }

    /** Replaces the corpus, rebuilds, and serves only if the rebuild went through. */
    method Resynchronize(snapshot: Documents, newGeneration: nat, trouble: ResyncTrouble)
      returns (ok: bool)
      requires Valid()
      modifies Repr
      ensures Valid() && fresh(Repr - old(Repr))
      ensures ok <==> InstallOutcome(trouble, |snapshot|, p.embedder.Some?) == INSTALLED
      ensures View() == Nodes.Resynchronize(p, old(View()), snapshot, newGeneration,
                          InstallOutcome(trouble, |snapshot|, p.embedder.Some?))
    {
      state := Recovering;
      if trouble.CannotReplace? {
        return false;
      }
      store.ReplaceAll(snapshot, newGeneration);
      ok := Rebuild(trouble.rebuild);
      if ok {
        state := Ready;
      }
    }

    // -------------------------------------------------------------------------
    // Queries
    // -------------------------------------------------------------------------

    method CorpusStatistics(terms: seq<Term>) returns (r: Result<CorpusStats, SearchError>)
      requires Valid()
      ensures r == if state != Ready then Failure(EngineNotReady)
                   else Success(DocumentStats(p, store.documents, TermSet(terms)))
    {
      if state != Ready {
        return Failure(EngineNotReady);
      }
      var stats := CollectStats(index, terms);
      r := Success(stats);
    }

    /** Scores against the given statistics, or against this engine's own. */
    method Search(query: Text, limit: nat, corpusStats: Option<CorpusStats>)
      returns (r: Result<SearchResults, SearchError>)
      requires Valid()
      ensures r == if state != Ready then Failure(EngineNotReady)
                   else Success(LexicalSearch(p, store.documents, p.analyzer.Analyze(query), limit,
                          if corpusStats.Some? then corpusStats.value
                          else DocumentStats(p, store.documents, TermSet(p.analyzer.Analyze(query)))))
    {
      var terms := AnalyzeText(query);
      if state != Ready {
        return Failure(EngineNotReady);
      }
      var results := SearchLocked(terms, limit, corpusStats);
      r := Success(results);
    }

    method SearchLocked(terms: seq<Term>, limit: nat, corpusStats: Option<CorpusStats>)
      returns (r: SearchResults)
      requires Valid() && state == Ready
      ensures r == LexicalSearch(p, store.documents, terms, limit,
                     if corpusStats.Some? then corpusStats.value
                     else DocumentStats(p, store.documents, TermSet(terms)))
    {
      if terms == [] {
        return SearchResults(0, []);
      }
      var scores := ScoreQuery(p.scorer, index, terms, corpusStats);
      r := RankScores(scores, documents, limit);
    }

    /** Asks the vector index, then attaches each document's text. */
    method SemanticSearch(vector: Vector, limit: int) returns (r: Result<SearchResults, SearchError>)
      requires Valid()
      ensures state != Ready ==> r == Failure(EngineNotReady)
      ensures state == Ready && p.embedder.None? ==> r == Failure(SemanticDisabled)
      ensures state == Ready && p.embedder.Some? && limit < 1 ==> r == Failure(Vectors(BadLimit))
      ensures state == Ready && p.embedder.Some? && limit >= 1 && |vector| == p.embedder.value.dimension ==>
                r == Success(Nodes.SemanticSearch(p, store.documents, vector, limit))
      ensures state == Ready && p.embedder.Some? && limit >= 1 && |vector| != p.embedder.value.dimension ==>
                r == if store.documents == map[] then Success(SearchResults(0, []))
                     else Failure(Vectors(WrongDimension))
    {
      if state != Ready {
        return Failure(EngineNotReady);
      }
      if vectors == null {
        return Failure(SemanticDisabled);
      }
      RowsMatchDocuments();
      var found := vectors.Search(vector, limit);
      if found.Failure? {
        return Failure(Vectors(found.error));
      }
      if |vector| == p.embedder.value.dimension {
        SemanticRanking(p, documents, vector, limit);
      } else {
        assert store.documents == map[] && WithTexts(found.value, documents) == [];
      }
      r := Success(SearchResults(vectors.Count(), WithTexts(found.value, documents)));
    }

    /** A serving engine has one row for each document. */
    lemma RowsMatchDocuments()
      requires Valid() && state == Ready && vectors != null
      ensures vectors.Count() == |store.documents|
      ensures vectors.vectors == EmbeddedDocuments(p, store.documents).value
      ensures vectors.vectors == map[] <==> store.documents == map[]
    {
      assert vectors.vectors.Keys == store.documents.Keys;
      ForwardAndCountIsInverse(vectors.ids, vectors.positions);
      assert vectors.positions.Keys == documents.Keys;
    }

    method HybridSearch(query: Text, limit: int, config: FusionConfig, unembeddable: bool)
      returns (r: Result<HybridResults, SearchError>)
      requires Valid() && config.Accepted()
      ensures p.analyzer.Analyze(query) == [] ==> r == Success(HybridResults(0, []))
      ensures p.analyzer.Analyze(query) != [] ==>
                && (p.embedder.None? ==> r == Failure(SemanticDisabled))
                && (p.embedder.Some? && unembeddable ==> r == Failure(QueryNotEmbedded))
                && (p.embedder.Some? && !unembeddable && state != Ready ==> r == Failure(EngineNotReady))
                && (p.embedder.Some? && !unembeddable && state == Ready && config.CandidateDepth(limit) < 1 ==>
                      r == Failure(Vectors(BadLimit)))
                && (p.embedder.Some? && !unembeddable && state == Ready && limit >= 1
                    && config.CandidateDepth(limit) >= 1 ==>
                      r == Success(Nodes.HybridSearch(p, store.documents, query, limit, config)))
    {
      var terms := AnalyzeText(query);
      if terms == [] {
        return Success(HybridResults(0, []));
      }
      if p.embedder.None? {
        return Failure(SemanticDisabled);
      }
      if unembeddable {
        return Failure(QueryNotEmbedded);
      }
      var vector := p.embedder.value.embedQuery(query);
      var depth := config.CandidateDepth(limit);
      if state != Ready {
        return Failure(EngineNotReady);
      }
      if depth < 1 {
        // The vector index refuses such a depth, so the whole request fails.
        return Failure(Vectors(BadLimit));
      }
      r := FuseAtDepth(query, terms, vector, depth, limit, config);
    }

    /** Both retrievals see the same corpus; fusion needs no more than their results. */
    method FuseAtDepth(
      ghost query: Text, terms: seq<Term>, vector: Vector, depth: nat, limit: int, config: FusionConfig)
      returns (r: Result<HybridResults, SearchError>)
      requires Valid() && state == Ready && p.embedder.Some? && config.Accepted()
      requires terms == p.analyzer.Analyze(query) && terms != []
      requires vector == p.embedder.value.embedQuery(query)
      requires depth == config.CandidateDepth(limit) && depth >= 1
      ensures limit >= 1 ==> r == Success(Nodes.HybridSearch(p, store.documents, query, limit, config))
    {
      var lexical := SearchLocked(terms, depth, None);
      var semantic := SemanticSearch(vector, depth);
      var fused := ReciprocalRankFusion(lexical, semantic.value, limit, config);
      r := match fused case Success(value) => Success(value) case Failure(_) => Failure(Vectors(BadLimit));
    }

    // -------------------------------------------------------------------------
    // Validation
    // -------------------------------------------------------------------------

    /** Agreement of all the structures, whatever condition they are in. */
    ghost predicate Agrees()
      reads this, store, index, vectors
      reads if vectors == null then {} else {vectors.matrix}
      requires vectors != null ==> |vectors.ids| <= vectors.matrix.Length
    {
      && IsCanonical(index.State())
      && documents.Keys == index.documentLengths.Keys
      && (vectors != null ==>
            && Inverse(vectors.ids, vectors.positions)
            && (forall i :: 0 <= i < |vectors.ids| ==> |vectors.matrix[i]| == vectors.dimension)
            && vectors.positions.Keys == documents.Keys)
      && DiskView() == Disk(documents, generation)
    }

    /** Works on a torn engine too; on a well-kept one it compares everything except postings
        with texts. */
    method Validate() returns (ok: bool)
      requires vectors != null ==> |vectors.ids| <= vectors.matrix.Length
      ensures ok <==> Agrees()
      ensures Structure() ==> (ok <==> Validates(View()))
      ensures Valid() && state == Ready ==> ok
    {
      ok := StructuresAgree();
      if Structure() {
        AgreesIsValidates();
      }
    }

    method StructuresAgree() returns (ok: bool)
      requires vectors != null ==> |vectors.ids| <= vectors.matrix.Length
      ensures ok <==> Agrees()
    {
      ok := index.Validate();
      if !ok || documents.Keys != index.documentLengths.Keys {
        return false;
      }
      if vectors != null {
        ok := vectors.Validate();
        if !ok || vectors.positions.Keys != documents.Keys {
          return false;
        }
      }
      if store.generation != generation {
        return false;
      }
      ok := SameDocuments(store.documents, documents);
    }

    lemma AgreesIsValidates()
      requires Structure()
      ensures Agrees() <==> Validates(View())
      ensures Valid() && state == Ready ==> Agrees()
    {
      WellKeptIndex(index);
      if vectors != null {
        WellKeptVectors(vectors);
      }
      if Valid() && state == Ready {
        FreshValidates(p, View());
      }
    }
  }

  lemma WellKeptIndex(index: InvertedIndex)
    requires index.Valid()
    ensures IsCanonical(index.State()) && index.documentLengths.Keys == index.corpus.Keys
  {
    index.StateIsCanonical();
  }

  lemma WellKeptVectors(vectors: ExactVectorIndex)
    requires vectors.Valid()
    ensures Inverse(vectors.ids, vectors.positions)
    ensures forall i :: 0 <= i < |vectors.ids| ==> |vectors.matrix[i]| == vectors.dimension
    ensures vectors.positions.Keys == vectors.vectors.Keys
  {
    assert forall i :: 0 <= i < |vectors.ids| ==> vectors.ids[i] in vectors.vectors;
  }

  /** Validation is weaker than freshness on a state the engine itself reaches: replacing a
      stored document breaks off before the index.  The cache and all the ids agree, so
      validation passes, while the index still answers for the old text. */
  method ReplaceWithoutIndexing(engine: SearchEngine, id: Id, text: Text) returns (passes: bool)
    requires engine.Valid() && engine.state == Ready && id in engine.store.documents
    requires !SameCounts(engine.p, engine.store.documents[id], text)
    modifies engine.Repr
    ensures engine.Valid() && engine.state == Degraded
    ensures passes && !Fresh(engine.p, engine.View())
  {
    LeaveIndexStale(engine, id, text);
    passes := engine.Validate();
  }

  method LeaveIndexStale(engine: SearchEngine, id: Id, text: Text)
    requires engine.Valid() && engine.state == Ready && id in engine.store.documents
    requires !SameCounts(engine.p, engine.store.documents[id], text)
    modifies engine.Repr
    ensures engine.Valid() && engine.state == Degraded
    ensures Validates(engine.View()) && !Fresh(engine.p, engine.View())
  {
    ValidationIsWeakerThanFresh(engine.p, engine.View(), id, text);
    BreakOffPut(engine, id, text, BeforeIndex);
  }

  method BreakOffPut(engine: SearchEngine, id: Id, text: Text, stage: Stage)
    requires engine.Valid() && engine.state == Ready
    modifies engine.Repr
    ensures engine.Valid() && fresh(engine.Repr - old(engine.Repr))
    ensures engine.View() == BrokenPut(engine.p, old(engine.View()), id, text, stage)
  {
    ghost var was := engine.View();
    BrokenPutIs(engine.p, was, id, text, stage);
    var _ := engine.IndexDocument(id, text, CannotDerive(stage));
  }

  lemma BrokenPutIs(p: Pipeline, n: Node, id: Id, text: Text, stage: Stage)
    ensures Nodes.IndexDocument(p, n, id, text, Resolve(p, CannotDerive(stage), n.derived, Put(id, text))).0
         == BrokenPut(p, n, id, text, stage)
  {
  }

  /** Compares storage with the cache: counts first, then document by document. */
  method SameDocuments(stored: Documents, cached: Documents) returns (same: bool)
    ensures same <==> stored == cached
  {
    if |stored| != |cached| {
      assert stored == cached ==> |stored| == |cached|;
      return false;
    }
    var rest := stored.Keys;
    while rest != {}
      invariant rest <= stored.Keys
      invariant forall d :: d in stored && d !in rest ==> d in cached && cached[d] == stored[d]
    {
      var d :| d in rest;
      if d !in cached || cached[d] != stored[d] {
        return false;
      }
      rest := rest - {d};
    }
    assert |stored.Keys| == |cached.Keys|;
    SameSizeSameKeys(stored.Keys, cached.Keys);
    same := true;
  }

  lemma SameSizeSameKeys<T>(a: set<T>, b: set<T>)
    requires a <= b && |a| == |b|
    ensures a == b
  {
    if a != b {
      SmallerSubset(a, b);
      assert false;
    }
  }

  // ---------------------------------------------------------------------------
  // Attaching texts to a ranking
  // ---------------------------------------------------------------------------

  function WithTexts(hits: seq<Hit<()>>, documents: Documents): seq<SearchResult>
    requires forall h :: h in hits ==> h.documentId in documents
  {
    seq(|hits|, i requires 0 <= i < |hits| =>
      Hit(hits[i].documentId, hits[i].score, documents[hits[i].documentId]))
  }

  /** Ranking does not look at what a hit carries, so texts may be attached afterwards. */
  lemma RankingWithTexts(plain: set<Hit<()>>, full: set<SearchResult>, documents: Documents)
    requires DistinctIds(plain) && DistinctIds(full)
    requires forall h :: h in plain ==> h.documentId in documents
    requires full == set h | h in plain :: Hit(h.documentId, h.score, documents[h.documentId])
    ensures forall h :: h in Ranking(plain) ==> h.documentId in documents
    ensures WithTexts(Ranking(plain), documents) == Ranking(full)
  {
    RankingSorts(plain);
    RankingSorts(full);
    var r := Ranking(plain);
    forall h | h in r ensures h.documentId in documents {
      assert h in Elements(r);
    }
    TextsOfElements(r, plain, full, documents);
    SortedListsAgree(WithTexts(r, documents), Ranking(full));
  }

  lemma TextsOfElements(
    r: seq<Hit<()>>, plain: set<Hit<()>>, full: set<SearchResult>, documents: Documents)
    requires Elements(r) == plain && forall h :: h in r ==> h.documentId in documents
    requires forall h :: h in plain ==> h.documentId in documents
    requires full == set h | h in plain :: Hit(h.documentId, h.score, documents[h.documentId])
    ensures Elements(WithTexts(r, documents)) == full
  {
    var texts := WithTexts(r, documents);
    forall h | h in full ensures h in texts {
      var bare :| bare in plain && h == Hit(bare.documentId, bare.score, documents[bare.documentId]);
      assert bare in Elements(r);
      var i :| 0 <= i < |r| && r[i] == bare;
      assert texts[i] == h;
    }
    forall h | h in texts ensures h in full {
      var i :| 0 <= i < |texts| && texts[i] == h;
      assert r[i] in Elements(r);
    }
  }

  lemma SemanticRanking(p: Pipeline, documents: Documents, vector: Vector, limit: nat)
    requires p.Sound() && p.embedder.Some? && |vector| == p.embedder.value.dimension
    ensures var found := Take(Ranking(Similarities(EmbeddedDocuments(p, documents).value, vector)), limit);
            && (forall h :: h in found ==> h.documentId in documents)
            && WithTexts(found, documents) == Take(Ranking(SemanticHits(p, documents, vector)), limit)
  {
    var plain := Similarities(EmbeddedDocuments(p, documents).value, vector);
    SemanticImage(p, documents, vector);
    RankingWithTexts(plain, SemanticHits(p, documents, vector), documents);
  }

  lemma SemanticImage(p: Pipeline, documents: Documents, vector: Vector)
    requires p.Sound() && p.embedder.Some? && |vector| == p.embedder.value.dimension
    ensures var plain := Similarities(EmbeddedDocuments(p, documents).value, vector);
            && DistinctIds(plain) && DistinctIds(SemanticHits(p, documents, vector))
            && (forall h :: h in plain ==> h.documentId in documents)
            && SemanticHits(p, documents, vector)
               == set h | h in plain :: Hit(h.documentId, h.score, documents[h.documentId])
  {
    var vectors := EmbeddedDocuments(p, documents).value;
    var plain, full := Similarities(vectors, vector), SemanticHits(p, documents, vector);
    forall h | h in full
      ensures exists bare :: bare in plain && h == Hit(bare.documentId, bare.score, documents[bare.documentId])
    {
      var d :| d in documents && h == Hit(d, Dot(p.embedder.value.embed(documents[d]), vector), documents[d]);
      var bare: Hit<()> := Hit(d, Dot(vectors[d], vector), ());
      assert d in vectors && bare in plain;
    }
  }
}
