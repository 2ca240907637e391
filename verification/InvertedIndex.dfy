/** The inverted index: four structures updated in place, and the corpus they stand for.

    A document is known to the index only through its term counts, so the abstract value of
    an index is a map from identifiers to counts.  `Canonical` says what the four structures
    must be for a given corpus; every operation keeps them canonical. */
module InvertedIndexes {
  import opened Basics

  type Counts = map<Term, int>
  type Corpus = map<Id, Counts>

  // ---------------------------------------------------------------------------
  // The index as a value
  // ---------------------------------------------------------------------------

  datatype IndexState = IndexState(
    postings: map<Term, map<Id, int>>,
    documentTerms: map<Id, set<Term>>,
    documentLengths: map<Id, int>,
    totalLength: int)

  /** Python's `Counter`. */
  function Counter(tokens: seq<Term>): Counts {
    map t | t in tokens :: multiset(tokens)[t]
  }

  ghost predicate Positive(counts: Counts) {
    forall t :: t in counts ==> counts[t] >= 1
  }

  ghost predicate WellCounted(corpus: Corpus) {
    forall d :: d in corpus ==> Positive(corpus[d])
  }

  ghost function Vocabulary(corpus: Corpus): set<Term> {
    set d, t | d in corpus && t in corpus[d] :: t
  }

  ghost function PostingsOf(corpus: Corpus, t: Term): map<Id, int> {
    map d | d in corpus && t in corpus[d] :: corpus[d][t]
  }

  ghost function AllPostings(corpus: Corpus): map<Term, map<Id, int>> {
    map t | t in Vocabulary(corpus) :: PostingsOf(corpus, t)
  }

  ghost function Lengths(corpus: Corpus): map<Id, int> {
    map d | d in corpus :: Sum(corpus[d])
  }

  ghost function Canonical(corpus: Corpus): IndexState {
    IndexState(AllPostings(corpus), TermSets(corpus),
               Lengths(corpus), Sum(Lengths(corpus)))
  }

  /** What `validate` is meant to establish: these structures index some corpus. */
  ghost predicate IsCanonical(s: IndexState) {
    exists corpus :: WellCounted(corpus) && s == Canonical(corpus)
  }

  function Occurrences(tokens: seq<Term>, t: Term): nat {
    if tokens == [] then 0 else Occurrences(tokens[1..], t) + (if tokens[0] == t then 1 else 0)
  }

  /** Counts are the numbers of places a term stands at; absent terms are not counted. */
  lemma {:induction false} CounterCounts(tokens: seq<Term>, t: Term)
    ensures t in Counter(tokens) <==> Occurrences(tokens, t) >= 1
    ensures t in Counter(tokens) ==> Counter(tokens)[t] == Occurrences(tokens, t)
    decreases |tokens|
  {
    if tokens != [] {
      CounterCounts(tokens[1..], t);
      assert tokens == [tokens[0]] + tokens[1..];
    }
  }

  /** Term counts add up to the number of tokens. */
  lemma {:induction false} CounterSum(tokens: seq<Term>)
    ensures Sum(Counter(tokens)) == |tokens|
    ensures Positive(Counter(tokens))
  {
    if tokens != [] {
      var init, last := tokens[..|tokens| - 1], tokens[|tokens| - 1];
      CounterSum(init);
      CounterAppend(init, last);
      assert tokens == init + [last];
      SumUpdate(Counter(init), last, (if last in init then Counter(init)[last] else 0) + 1);
    }
  }

  lemma CounterAppend(tokens: seq<Term>, t: Term)
    ensures Counter(tokens + [t])
         == Counter(tokens)[t := (if t in tokens then Counter(tokens)[t] else 0) + 1]
  {
    assert multiset(tokens + [t]) == multiset(tokens) + multiset{t};
    assert t !in tokens ==> multiset(tokens)[t] == 0;
  }

  // ---------------------------------------------------------------------------
  // One posting at a time
  // ---------------------------------------------------------------------------

  lemma AddPosting(corpus: Corpus, id: Id, counts: Counts, t: Term, n: int)
    requires t !in counts
    ensures var before := AllPostings(corpus[id := counts]);
            var list := if t in before then before[t] else map[];
            AllPostings(corpus[id := counts[t := n]]) == before[t := list[id := n]]
  {
    var a, b := corpus[id := counts], corpus[id := counts[t := n]];
    var before := AllPostings(a);
    var list := if t in before then before[t] else map[];
    NonEmptyPostings(a, t);
    NonEmptyPostings(b, t);
    assert list == PostingsOf(a, t);
    assert PostingsOf(b, t) == list[id := n] && id in list[id := n];
    OtherPostings(a, b, t, list[id := n]);
  }

  /** Two corpora that differ at one term only have postings that differ there only. */
  lemma OtherPostings(a: Corpus, b: Corpus, t: Term, list: map<Id, int>)
    requires a.Keys == b.Keys
    requires forall d, u :: d in a && u != t ==>
               (u in a[d] <==> u in b[d]) && (u in a[d] ==> a[d][u] == b[d][u])
    requires PostingsOf(b, t) == list
    ensures AllPostings(b)
         == if list == map[] then AllPostings(a) - {t} else AllPostings(a)[t := list]
  {
    var before, after := AllPostings(a), AllPostings(b);
    var expected := if list == map[] then before - {t} else before[t := list];
    forall u ensures u in after <==> u in expected
             ensures u in after ==> after[u] == expected[u]
    {
      PostingsAt(a, u);
      PostingsAt(b, u);
      if u != t {
        SameUnder(a, b, u);
      }
    }
    MapsAgree(after, expected);
  }

  lemma DropPosting(corpus: Corpus, id: Id, counts: Counts, t: Term)
    requires t in counts
    ensures var before := AllPostings(corpus[id := counts]);
            && t in before && id in before[t]
            && AllPostings(corpus[id := counts - {t}])
               == (if before[t] - {id} == map[] then before - {t} else before[t := before[t] - {id}])
  {
    var a, b := corpus[id := counts], corpus[id := counts - {t}];
    NonEmptyPostings(a, t);
    assert id in PostingsOf(a, t);
    assert PostingsOf(b, t) == PostingsOf(a, t) - {id};
    OtherPostings(a, b, t, PostingsOf(a, t) - {id});
  }

  /** A term's postings depend only on that term's counts. */
  lemma SameUnder(a: Corpus, b: Corpus, t: Term)
    requires a.Keys == b.Keys
    requires forall d :: d in a ==> (t in a[d] <==> t in b[d]) && (t in a[d] ==> a[d][t] == b[d][t])
    ensures PostingsOf(a, t) == PostingsOf(b, t)
    ensures t in Vocabulary(a) <==> t in Vocabulary(b)
  {
    NonEmptyPostings(a, t);
    NonEmptyPostings(b, t);
  }

  lemma NonEmptyPostings(corpus: Corpus, t: Term)
    ensures t in Vocabulary(corpus) <==> PostingsOf(corpus, t) != map[]
  {
    if t in Vocabulary(corpus) {
      var d :| d in corpus && t in corpus[d];
      assert d in PostingsOf(corpus, t);
    }
    if PostingsOf(corpus, t) != map[] {
      var d := AnyKey(PostingsOf(corpus, t));
      assert d in corpus && t in corpus[d];
    }
  }

  /** Looking a term up, an absent term having an empty list. */
  lemma PostingsAt(corpus: Corpus, t: Term)
    ensures (if t in AllPostings(corpus) then AllPostings(corpus)[t] else map[])
         == PostingsOf(corpus, t)
    ensures t in AllPostings(corpus) <==> PostingsOf(corpus, t) != map[]
  {
    NonEmptyPostings(corpus, t);
  }

  /** A document with no terms leaves no trace in the postings. */
  lemma NoTermsNoPostings(corpus: Corpus, id: Id)
    ensures AllPostings(corpus[id := map[]]) == AllPostings(corpus - {id})
  {
    var a, b := corpus[id := map[]], corpus - {id};
    forall t ensures PostingsOf(a, t) == PostingsOf(b, t) && (t in Vocabulary(a) <==> t in Vocabulary(b)) {
      assert PostingsOf(a, t) == PostingsOf(b, t);
      NonEmptyPostings(a, t);
      NonEmptyPostings(b, t);
    }
  }

  ghost function TermSets(corpus: Corpus): map<Id, set<Term>> {
    map d | d in corpus :: corpus[d].Keys
  }

  lemma LengthsWith(corpus: Corpus, id: Id, counts: Counts)
    ensures Lengths(corpus[id := counts]) == Lengths(corpus)[id := Sum(counts)]
  {
    var a, b := Lengths(corpus[id := counts]), Lengths(corpus)[id := Sum(counts)];
    assert a.Keys == b.Keys;
    assert forall d :: d in a ==> a[d] == b[d];
  }

  lemma TermSetsWith(corpus: Corpus, id: Id, counts: Counts)
    ensures TermSets(corpus[id := counts]) == TermSets(corpus)[id := counts.Keys]
  {
    var a, b := TermSets(corpus[id := counts]), TermSets(corpus)[id := counts.Keys];
    assert a.Keys == b.Keys;
    assert forall d :: d in a ==> a[d] == b[d];
  }

  /** Indexing a new document extends each structure at one place. */
  lemma ExtendCorpus(corpus: Corpus, id: Id, tokens: seq<Term>)
    requires WellCounted(corpus) && id !in corpus
    ensures var more := corpus[id := Counter(tokens)];
            && WellCounted(more)
            && TermSets(more) == TermSets(corpus)[id := Counter(tokens).Keys]
            && Lengths(more) == Lengths(corpus)[id := |tokens|]
            && Sum(Lengths(more)) == Sum(Lengths(corpus)) + |tokens|
  {
    var counts := Counter(tokens);
    CounterSum(tokens);
    TermSetsWith(corpus, id, counts);
    LengthsWith(corpus, id, counts);
    SumInsert(Lengths(corpus), id, |tokens|);
  }

  /** Removing a document shrinks each structure at one place. */
  lemma ShrinkCorpus(corpus: Corpus, id: Id)
    requires id in corpus
    ensures var less := corpus - {id};
            && AllPostings(corpus[id := map[]]) == AllPostings(less)
            && TermSets(less) == TermSets(corpus) - {id}
            && Lengths(less) == Lengths(corpus) - {id}
            && Sum(Lengths(less)) == Sum(Lengths(corpus)) - Lengths(corpus)[id]
  {
    NoTermsNoPostings(corpus, id);
    SumRemove(Lengths(corpus), id);
    assert Lengths(corpus - {id}) == Lengths(corpus) - {id};
  }

  // ---------------------------------------------------------------------------
  // validate is exact
  // ---------------------------------------------------------------------------

  ghost predicate PostingConsistent(s: IndexState, t: Term)
    requires t in s.postings
  {
    && s.postings[t] != map[]
    && forall d :: d in s.postings[t] ==>
         && d in s.documentLengths && s.postings[t][d] >= 1
         && d in s.documentTerms && t in s.documentTerms[d]
  }

  ghost function CountsIn(s: IndexState, d: Id): Counts
    requires d in s.documentTerms
  {
    map t | t in s.documentTerms[d] && t in s.postings && d in s.postings[t] :: s.postings[t][d]
  }

  ghost predicate DocumentConsistent(s: IndexState, d: Id)
    requires d in s.documentTerms && d in s.documentLengths
  {
    && (forall t :: t in s.documentTerms[d] ==> t in s.postings && d in s.postings[t])
    && Sum(CountsIn(s, d)) == s.documentLengths[d]
  }

  ghost predicate PassesChecks(s: IndexState) {
    && s.documentTerms.Keys == s.documentLengths.Keys
    && s.totalLength == Sum(s.documentLengths)
    && (forall d :: d in s.documentLengths ==> s.documentLengths[d] >= 0)
    && (forall t :: t in s.postings ==> PostingConsistent(s, t))
    && (forall d :: d in s.documentTerms ==> DocumentConsistent(s, d))
  }

  /** The corpus that consistent structures stand for. */
  ghost function CorpusOf(s: IndexState): Corpus {
    map d | d in s.documentTerms :: CountsIn(s, d)
  }

  /** Round trip: the corpus can be read back from its index, so equal indexes mean equal
      corpora. */
  lemma CorpusOfCanonical(corpus: Corpus)
    ensures CorpusOf(Canonical(corpus)) == corpus
  {
    var s := Canonical(corpus);
    forall d | d in corpus ensures CountsIn(s, d) == corpus[d] {
      assert forall t :: t in corpus[d] ==> t in Vocabulary(corpus);
    }
  }

  lemma CanonicalIsInjective(a: Corpus, b: Corpus)
    ensures Canonical(a) == Canonical(b) <==> a == b
  {
    CorpusOfCanonical(a);
    CorpusOfCanonical(b);
  }

  lemma CanonicalPasses(corpus: Corpus)
    requires WellCounted(corpus)
    ensures PassesChecks(Canonical(corpus))
  {
    var s := Canonical(corpus);
    CorpusOfCanonical(corpus);
    forall d | d in s.documentLengths ensures s.documentLengths[d] >= 0 {
      SumNonNegative(corpus[d]);
    }
    forall t | t in s.postings ensures PostingConsistent(s, t) {
      NonEmptyPostings(corpus, t);
    }
    forall d | d in s.documentTerms ensures DocumentConsistent(s, d) {
      assert CorpusOf(s)[d] == corpus[d];
      assert forall t :: t in corpus[d] ==> t in Vocabulary(corpus);
    }
  }

  lemma PassingCounts(s: IndexState, d: Id)
    requires PassesChecks(s) && d in s.documentTerms
    ensures d in s.documentLengths
    ensures CountsIn(s, d).Keys == s.documentTerms[d]
    ensures Sum(CountsIn(s, d)) == s.documentLengths[d]
    ensures Positive(CountsIn(s, d))
  {
    assert DocumentConsistent(s, d);
    forall t | t in CountsIn(s, d) ensures CountsIn(s, d)[t] >= 1 {
      assert PostingConsistent(s, t);
    }
  }

  lemma PassingPosting(s: IndexState, t: Term)
    requires PassesChecks(s)
    ensures PostingsOf(CorpusOf(s), t) == if t in s.postings then s.postings[t] else map[]
  {
    var corpus := CorpusOf(s);
    var list := if t in s.postings then s.postings[t] else map[];
    var found := PostingsOf(corpus, t);
    forall d
      ensures d in list <==> d in found
      ensures d in list ==> list[d] == found[d]
    {
      PassingEntry(s, t, d);
    }
    MapsAgree(list, found);
  }

  lemma PassingEntry(s: IndexState, t: Term, d: Id)
    requires PassesChecks(s)
    ensures var found := PostingsOf(CorpusOf(s), t);
            && (d in found <==> t in s.postings && d in s.postings[t])
            && (d in found ==> found[d] == s.postings[t][d])
  {
    if t in s.postings && d in s.postings[t] {
      assert PostingConsistent(s, t);
    }
  }

  lemma PassingIsCanonical(s: IndexState)
    requires PassesChecks(s)
    ensures WellCounted(CorpusOf(s)) && s == Canonical(CorpusOf(s))
  {
    var corpus := CorpusOf(s);
    forall d | d in corpus
      ensures corpus[d].Keys == s.documentTerms[d] && Sum(corpus[d]) == s.documentLengths[d]
      ensures Positive(corpus[d])
    {
      PassingCounts(s, d);
    }
    PassingPostings(s);
    assert Lengths(corpus) == s.documentLengths;
    assert s.documentTerms == TermSets(corpus);
  }

  lemma PassingPostings(s: IndexState)
    requires PassesChecks(s)
    ensures s.postings == AllPostings(CorpusOf(s))
  {
    var all := AllPostings(CorpusOf(s));
    forall t
      ensures t in s.postings <==> t in all
      ensures t in s.postings ==> s.postings[t] == all[t]
    {
      PassingTerm(s, t);
    }
    MapsAgree(s.postings, all);
  }

  lemma PassingTerm(s: IndexState, t: Term)
    requires PassesChecks(s)
    ensures var all := AllPostings(CorpusOf(s));
            (t in s.postings <==> t in all) && (t in s.postings ==> s.postings[t] == all[t])
  {
    PassingPosting(s, t);
    NonEmptyPostings(CorpusOf(s), t);
    assert t in s.postings ==> PostingConsistent(s, t);
  }

  /** The checks accept exactly the canonical indexes. */
  lemma ChecksAreExact(s: IndexState)
    ensures PassesChecks(s) <==> IsCanonical(s)
  {
    if PassesChecks(s) {
      PassingIsCanonical(s);
    }
    if IsCanonical(s) {
      var corpus :| WellCounted(corpus) && s == Canonical(corpus);
      CanonicalPasses(corpus);
    }
  }

  // ---------------------------------------------------------------------------
  // The class
  // ---------------------------------------------------------------------------

  method SumValues<K(==)>(m: map<K, int>) returns (total: int)
    ensures total == Sum(m)
  {
    total := 0;
    var rest := m.Keys;
    assert m - rest == map[];
    while rest != {}
      invariant rest <= m.Keys
      invariant total == Sum(m - rest)
    {
      var k :| k in rest;
      assert m - (rest - {k}) == (m - rest)[k := m[k]];
      SumInsert(m - rest, k, m[k]);
      total := total + m[k];
      rest := rest - {k};
    }
    assert m - rest == m;
  }

  class InvertedIndex {
    var postings: map<Term, map<Id, int>>
    var documentTerms: map<Id, set<Term>>
    var documentLengths: map<Id, int>
    var totalLength: int

    ghost var corpus: Corpus

    function State(): IndexState
      reads this
    {
      IndexState(postings, documentTerms, documentLengths, totalLength)
    }

    ghost predicate Valid()
      reads this
    {
      && WellCounted(corpus)
      && postings == AllPostings(corpus)
      && documentTerms == TermSets(corpus)
      && documentLengths == Lengths(corpus)
      && totalLength == Sum(Lengths(corpus))
    }

    lemma StateIsCanonical()
      requires Valid()
      ensures State() == Canonical(corpus)
    {
    }

    constructor ()
      ensures Valid() && corpus == map[]
    {
      postings, documentTerms, documentLengths, totalLength := map[], map[], map[], 0;
      corpus := map[];
      new;
      assert Lengths(corpus) == map[];
    }

    method AddDocument(id: Id, tokens: seq<Term>)
      requires Valid()
      modifies this
      ensures Valid()
      ensures corpus == old(corpus)[id := Counter(tokens)]
    {
      RemoveThenInsert(corpus, id, Counter(tokens));
      if id in documentLengths {
        var _ := RemoveDocument(id);
      }
      InsertDocument(id, tokens);
    }

    method InsertDocument(id: Id, tokens: seq<Term>)
      requires Valid() && id !in corpus
      modifies this
      ensures Valid()
      ensures corpus == old(corpus)[id := Counter(tokens)]
    {
      var frequencies := Counter(tokens);
      AddPostings(id, frequencies);
      documentTerms := documentTerms[id := frequencies.Keys];
      documentLengths := documentLengths[id := |tokens|];
      totalLength := totalLength + |tokens|;
      ExtendCorpus(corpus, id, tokens);
      corpus := corpus[id := frequencies];
    }

    /** Enters one document's term frequencies into the posting lists. */
    method AddPostings(id: Id, frequencies: Counts)
      requires postings == AllPostings(corpus) && id !in corpus
      modifies `postings
      ensures postings == AllPostings(corpus[id := frequencies])
    {
      var rest := frequencies.Keys;
      ghost var entered: Counts := map[];
      NoTermsNoPostings(corpus, id);
      assert corpus - {id} == corpus;
      while rest != {}
        invariant rest <= frequencies.Keys && entered.Keys == frequencies.Keys - rest
        invariant forall t :: t in entered ==> entered[t] == frequencies[t]
        invariant postings == AllPostings(corpus[id := entered])
      {
        var t :| t in rest;
        AddPosting(corpus, id, entered, t, frequencies[t]);
        entered := entered[t := frequencies[t]];
        var list := if t in postings then postings[t] else map[];
        postings := postings[t := list[id := frequencies[t]]];
        rest := rest - {t};
      }
      assert entered == frequencies;
    }

    /** Fails, changing nothing, when the document is not indexed (`KeyError`). */
    method RemoveDocument(id: Id) returns (removed: bool)
      requires Valid()
      modifies this
      ensures Valid()
      ensures removed <==> id in old(corpus)
      ensures corpus == old(corpus) - {id}
    {
      if id !in documentLengths {
        assert corpus == corpus - {id};
        return false;
      }
      RemovePostings(id, documentTerms[id]);
      ShrinkCorpus(corpus, id);
      documentTerms := documentTerms - {id};
      totalLength := totalLength - documentLengths[id];
      documentLengths := documentLengths - {id};
      corpus := corpus - {id};
      removed := true;
    }

    /** Takes one document out of the posting lists of its terms; a list left empty goes. */
    method RemovePostings(id: Id, terms: set<Term>)
      requires postings == AllPostings(corpus) && id in corpus && terms == corpus[id].Keys
      modifies `postings
      ensures postings == AllPostings(corpus[id := map[]])
    {
      ghost var counts := corpus[id];
      var rest := terms;
      ghost var left := counts;
      assert corpus[id := counts] == corpus;
      while rest != {}
        invariant left.Keys == rest
        invariant postings == AllPostings(corpus[id := left])
      {
        var t :| t in rest;
        DropPosting(corpus, id, left, t);
        left := left - {t};
        var list := postings[t] - {id};
        if list == map[] {
          postings := postings - {t};
        } else {
          postings := postings[t := list];
        }
        rest := rest - {t};
      }
      assert left == map[];
    }

    /** The consistency check: it never misses a fault and never raises a false alarm. */
    method Validate() returns (ok: bool)
      ensures ok <==> IsCanonical(State())
    {
      ghost var s := State();
      ChecksAreExact(s);
      if documentTerms.Keys != documentLengths.Keys {
        return false;
      }
      var expected := SumValues(documentLengths);
      if totalLength != expected {
        return false;
      }
      if exists d :: d in documentLengths && documentLengths[d] < 0 {
        return false;
      }
      ok := ValidatePostings();
      if !ok {
        return;
      }
      ok := ValidateDocuments();
    }

    method ValidatePostings() returns (ok: bool)
      requires documentTerms.Keys == documentLengths.Keys
      ensures ok <==> forall t :: t in postings ==> PostingConsistent(State(), t)
    {
      ghost var s := State();
      var rest := postings.Keys;
      while rest != {}
        invariant rest <= postings.Keys
        invariant forall t :: t in postings && t !in rest ==> PostingConsistent(s, t)
      {
        var t :| t in rest;
        if postings[t] == map[] {
          assert !PostingConsistent(s, t);
          return false;
        }
        var ids := postings[t].Keys;
        while ids != {}
          invariant ids <= postings[t].Keys
          invariant forall d :: d in postings[t] && d !in ids ==>
                      d in documentLengths && postings[t][d] >= 1 && t in documentTerms[d]
        {
          var d :| d in ids;
          if d !in documentLengths || postings[t][d] < 1 || t !in documentTerms[d] {
            assert !PostingConsistent(s, t);
            return false;
          }
          ids := ids - {d};
        }
        rest := rest - {t};
      }
      ok := true;
    }

    method ValidateDocuments() returns (ok: bool)
      requires documentTerms.Keys == documentLengths.Keys
      ensures ok <==> forall d :: d in documentTerms ==> DocumentConsistent(State(), d)
    {
      ghost var s := State();
      var rest := documentTerms.Keys;
      while rest != {}
        invariant rest <= documentTerms.Keys
        invariant forall d :: d in documentTerms && d !in rest ==> DocumentConsistent(s, d)
      {
        var d :| d in rest;
        ghost var counts := CountsIn(s, d);
        var summed := 0;
        var terms := documentTerms[d];
        assert counts - terms == map[];
        while terms != {}
          invariant terms <= documentTerms[d]
          invariant forall t :: t in documentTerms[d] && t !in terms ==> t in postings && d in postings[t]
          invariant summed == Sum(counts - terms)
        {
          var t :| t in terms;
          if t !in postings || d !in postings[t] {
            assert !DocumentConsistent(s, d);
            return false;
          }
          assert counts - (terms - {t}) == (counts - terms)[t := counts[t]];
          SumInsert(counts - terms, t, counts[t]);
          summed := summed + postings[t][d];
          terms := terms - {t};
        }
        assert counts - terms == counts;
        if summed != documentLengths[d] {
          assert !DocumentConsistent(s, d);
          return false;
        }
        rest := rest - {d};
      }
      ok := true;
    }

    // -------------------------------------------------------------------------
    // Observers
    // -------------------------------------------------------------------------

    function DocumentCount(): nat
      reads this
    {
      |documentLengths|
    }

    function PostingMap(t: Term): map<Id, int>
      reads this
    {
      if t in postings then postings[t] else map[]
    }

    function DocumentFrequency(t: Term): nat
      reads this
    {
      |PostingMap(t)|
    }

    lemma PostingMapMeans(t: Term)
      requires Valid()
      ensures PostingMap(t) == PostingsOf(corpus, t)
    {
      PostingsAt(corpus, t);
    }
  }
}
