/**
 * The `Retrieve` class of the retriever: the counting passes of its constructor
 * and the candidate-set and binary `qd_val` bookkeeping of `forQuery`.
 *
 * Python exceptions are modelled as `Error` values. Iteration over a dict or a
 * set picks its elements in an unspecified order (`Pick`), so every result below
 * holds whatever order the interpreter uses.
 */
module Retriever {
  import opened Wrappers
  import opened Postings

  /**
   * The term-weighting tag. The source only ever compares the tag with
   * "binary" and "tfidf", so every other tag (including "tf") behaves as `Tf`.
   */
  datatype Scheme = Binary | Tf | Tfidf

  function SchemeOf(termWeighting: string): Scheme
  {
    if termWeighting == "binary" then Binary
    else if termWeighting == "tfidf" then Tfidf
    else Tf
  }

  /** The exceptions the constructor and `forQuery` can raise. */
  datatype Error =
    | AttributeError(attribute: string)  // reading an attribute that was never assigned
    | ZeroDivisionError                  // `/` with a zero divisor
    | MathDomainError                    // `log10` of a non-positive number (Python's ValueError)

  /**
   * An IDF value, kept as the fraction whose `log10` the source stores:
   * collection_size / document frequency. The logarithm itself is floating point.
   */
  datatype IdfInput = IdfInput(collectionSize: nat, documentFrequency: nat)

  /**
   * Line 56: `log10(collection_size / num_occurrences)`. The division fails on a
   * zero document frequency; a zero collection size makes the quotient 0.0,
   * outside the domain of `log10`.
   */
  function IdfOf(collectionSize: nat, documentFrequency: nat): Result<IdfInput, Error>
  {
    if documentFrequency == 0 then Err(ZeroDivisionError)
    else if collectionSize == 0 then Err(MathDomainError)
    else Ok(IdfInput(collectionSize, documentFrequency))
  }

  /**
   * Lines 71-78: the first posting of a non-binary index divides its count by
   * `docid_num_elements[docid]` and, when that succeeds, adds the quotient to
   * `document_vector_sizes`, an attribute that is never assigned.
   */
  function VectorSizeError(numElements: int): Error
  {
    if numElements == 0 then ZeroDivisionError else AttributeError("document_vector_sizes")
  }

  /** The IDF entries of the terms of `terms`, from their posting-list lengths. */
  ghost function IdfTable(index: Index, collectionSize: nat, terms: set<string>): map<string, IdfInput>
  {
    map t | t in terms && t in index :: IdfInput(collectionSize, |index[t]|)
  }

  /** Every term of `terms` that is in the index has a defined IDF. */
  ghost predicate IdfDefined(index: Index, collectionSize: nat, terms: set<string>)
  {
    forall t :: t in terms && t in index ==> IdfOf(collectionSize, |index[t]|).Ok?
  }

  /** `range(1, 11)`, the value `forQuery` returns. */
  const FixedResult: seq<int> := seq(10, i => i + 1)

  class Retrieve {
    const index: Index
    const scheme: Scheme
    var collectionSize: nat
    var idfValues: map<string, IdfInput>
    var docidNumElements: map<int, int>
    /**
     * `self.document_summed_vectors`: None while the attribute does not exist.
     * Its initialiser (line 26) is commented out, so the constructor leaves it None.
     */
    var documentSummedVectors: Option<map<int, int>>

    /**
     * The counts after lines 30-45 of a constructor that did not raise: in binary
     * mode, for every posted docid the number of terms posting it, and the number
     * of distinct docids; otherwise nothing, since no index with a posting gets
     * that far.
     */
    ghost predicate Counted()
      reads this
    {
      && (scheme == Binary ==>
            && docidNumElements.Keys == AllDocs(index)
            && (forall d :: d in docidNumElements ==> docidNumElements[d] == NumElements(index, d))
            && collectionSize == |AllDocs(index)|)
      && (scheme != Binary ==>
            && AllDocs(index) == {}
            && docidNumElements == map[]
            && collectionSize == 0)
    }

    /** The state of every object the constructor returns without raising. */
    ghost predicate Valid()
      reads this
    {
      && Counted()
      && documentSummedVectors == None
      && idfValues == map[]
      && (scheme == Tfidf ==> index.Keys == {})
    }

    /** Lines 7-26: the attributes before the counting passes. */
    constructor (index: Index, termWeighting: string)
      ensures this.index == index && scheme == SchemeOf(termWeighting)
      ensures collectionSize == 0 && idfValues == map[] && docidNumElements == map[]
      ensures documentSummedVectors == None
    {
      this.index := index;
      scheme := SchemeOf(termWeighting);
      collectionSize := 0;
      idfValues := map[];
      docidNumElements := map[];
      documentSummedVectors := None;
    }

    /**
     * Lines 32-41 for one term: in binary mode each docid of its posting map adds
     * 1 to `docidNumElements[docid]`; otherwise it adds its raw count to
     * `document_summed_vectors[docid]`, which raises while that attribute is missing.
     */
    method CountTerm(term: string) returns (err: Option<Error>)
      requires term in index
      modifies this`docidNumElements, this`documentSummedVectors
      ensures scheme == Binary ==>
        && err == None
        && documentSummedVectors == old(documentSummedVectors)
        && docidNumElements.Keys == old(docidNumElements).Keys + index[term].Keys
        && forall d :: Get(docidNumElements, d)
                      == Get(old(docidNumElements), d) + (if d in index[term] then 1 else 0)
      ensures scheme != Binary ==> docidNumElements == old(docidNumElements)
      ensures scheme != Binary && old(documentSummedVectors) == None ==>
        && documentSummedVectors == None
        && (err == None <==> index[term].Keys == {})
        && (err != None ==> err == Some(AttributeError("document_summed_vectors")))
      ensures scheme != Binary && old(documentSummedVectors).Some? ==>
        && err == None
        && documentSummedVectors.Some?
        && documentSummedVectors.value.Keys == old(documentSummedVectors).value.Keys + index[term].Keys
        && forall d :: Get(documentSummedVectors.value, d)
                      == Get(old(documentSummedVectors).value, d) + Count(index, term, d)
    {
      err := None;
      var docids := index[term].Keys;
      ghost var seen: set<int> := {};
      while docids != {}
        invariant docids + seen == index[term].Keys && docids !! seen
        invariant scheme == Binary ==>
          && documentSummedVectors == old(documentSummedVectors)
          && docidNumElements.Keys == old(docidNumElements).Keys + seen
          && forall d :: Get(docidNumElements, d)
                        == Get(old(docidNumElements), d) + (if d in seen then 1 else 0)
        invariant scheme != Binary ==> docidNumElements == old(docidNumElements)
        invariant scheme != Binary && old(documentSummedVectors) == None ==>
          documentSummedVectors == None && seen == {}
        invariant scheme != Binary && old(documentSummedVectors).Some? ==>
          && documentSummedVectors.Some?
          && documentSummedVectors.value.Keys == old(documentSummedVectors).value.Keys + seen
          && forall d :: Get(documentSummedVectors.value, d)
                        == Get(old(documentSummedVectors).value, d)
                           + (if d in seen then Count(index, term, d) else 0)
        decreases docids
      {
        var docid := Pick(docids);
        if scheme == Binary {
          docidNumElements := docidNumElements[docid := Get(docidNumElements, docid) + 1];
        } else {
          match documentSummedVectors
          case None =>
            return Some(AttributeError("document_summed_vectors"));
          case Some(acc) =>
            documentSummedVectors := Some(acc[docid := Get(acc, docid) + index[term][docid]]);
        }
        docids := docids - {docid};
        seen := seen + {docid};
      }
    }

    /**
     * Lines 30-41: `CountTerm` for every term of the index. In binary mode
     * `docidNumElements[d]` ends up as the number of terms posting `d`; otherwise
     * the summed raw counts of `d` go to `document_summed_vectors`, or the first
     * posting raises while that attribute is missing.
     */
    method CountElements() returns (err: Option<Error>)
      modifies this`docidNumElements, this`documentSummedVectors
      ensures scheme == Binary ==>
        && err == None
        && documentSummedVectors == old(documentSummedVectors)
        && CountedFrom(index, old(docidNumElements), docidNumElements, index.Keys)
      ensures scheme != Binary ==> docidNumElements == old(docidNumElements)
      ensures scheme != Binary && old(documentSummedVectors) == None ==>
        && documentSummedVectors == None
        && (err == None <==> AllDocs(index) == {})
        && (err != None ==> err == Some(AttributeError("document_summed_vectors")))
      ensures scheme != Binary && old(documentSummedVectors).Some? ==>
        && err == None
        && documentSummedVectors.Some?
        && SummedFrom(index, old(documentSummedVectors).value, documentSummedVectors.value, index.Keys)
    {
      err := None;
      var terms := index.Keys;
      ghost var done: set<string> := {};
      while terms != {}
        invariant terms + done == index.Keys && terms !! done
        invariant err == None
        invariant scheme == Binary ==>
          && documentSummedVectors == old(documentSummedVectors)
          && CountedFrom(index, old(docidNumElements), docidNumElements, done)
        invariant scheme != Binary ==> docidNumElements == old(docidNumElements)
        invariant scheme != Binary && old(documentSummedVectors) == None ==>
          documentSummedVectors == None && DocsIn(index, done) == {}
        invariant scheme != Binary && old(documentSummedVectors).Some? ==>
          && documentSummedVectors.Some?
          && SummedFrom(index, old(documentSummedVectors).value, documentSummedVectors.value, done)
        decreases terms
      {
        var term :| term in terms;
        ghost var before := docidNumElements;
        ghost var summedBefore := documentSummedVectors;
        err := CountTerm(term);
        if err.Some? {
          var docid := Pick(index[term].Keys);
          PostedDoc(index, index.Keys, term, docid);
          return;
        }
        if scheme == Binary {
          CountedStep(index, old(docidNumElements), before, docidNumElements, done, term);
        } else if summedBefore.Some? {
          SummedStep(index, old(documentSummedVectors).value, summedBefore.value,
                     documentSummedVectors.value, done, term);
        } else {
          DocsInStep(index, done, term);
        }
        terms := terms - {term};
        done := done + {term};
      }
    }

    /** Lines 44-45: one increment of `collection_size` per key of `docid_num_elements`. */
    method CountCollection()
      modifies this`collectionSize
      ensures collectionSize == old(collectionSize) + |docidNumElements|
    {
      var pending := docidNumElements.Keys;
      ghost var counted: set<int> := {};
      while pending != {}
        invariant pending + counted == docidNumElements.Keys && pending !! counted
        invariant collectionSize == old(collectionSize) + |counted|
        decreases pending
      {
        var docid := Pick(pending);
        collectionSize := collectionSize + 1;
        pending := pending - {docid};
        counted := counted + {docid};
      }
      assert |docidNumElements.Keys| == |docidNumElements|;
    }

    /**
     * Lines 50-58: in tfidf mode, the document frequency of every term is the
     * size of its posting map, and its IDF is computed from it; the first term
     * whose IDF cannot be computed raises.
     */
    method ComputeIdf() returns (err: Option<Error>)
      modifies this`idfValues
      ensures scheme != Tfidf ==> err == None && idfValues == old(idfValues)
      ensures scheme == Tfidf ==> (err == None <==> IdfDefined(index, collectionSize, index.Keys))
      ensures scheme == Tfidf && err.Some? ==>
        exists t :: t in index && IdfOf(collectionSize, |index[t]|) == Err(err.value)
      ensures scheme == Tfidf && err == None ==>
        idfValues == old(idfValues) + IdfTable(index, collectionSize, index.Keys)
    {
      err := None;
      if scheme == Tfidf {
        var n := collectionSize;
        var terms := index.Keys;
        ghost var done: set<string> := {};
        while terms != {}
          invariant terms + done == index.Keys && terms !! done
          invariant IdfDefined(index, n, done)
          invariant idfValues == old(idfValues) + IdfTable(index, n, done)
          decreases terms
        {
          var term :| term in terms;
          var numOccurrences := |index[term]|;
          var idf := IdfOf(n, numOccurrences);
          if idf.Err? {
            return Some(idf.error);
          }
          assert IdfTable(index, n, done + {term}) == IdfTable(index, n, done)[term := idf.value];
          idfValues := idfValues[term := idf.value];
          terms := terms - {term};
          done := done + {term};
        }
      }
    }

    /**
     * Lines 64-78: in tf and tfidf mode the first posting met raises, either
     * dividing by a zero `docid_num_elements` entry or writing the missing
     * `document_vector_sizes` attribute. Nothing is assigned before that.
     */
    method ComputeVectorSizes() returns (err: Option<Error>)
      ensures scheme == Binary || AllDocs(index) == {} ==> err == None
      ensures scheme != Binary && AllDocs(index) != {} ==> err.Some?
      ensures err.Some? ==>
        exists d :: d in AllDocs(index) && err.value == VectorSizeError(Get(docidNumElements, d))
      ensures err.Some? && (forall d :: d in AllDocs(index) ==> Get(docidNumElements, d) == 0) ==>
        err == Some(ZeroDivisionError)
      ensures err.Some? && (forall d :: d in AllDocs(index) ==> Get(docidNumElements, d) != 0) ==>
        err == Some(AttributeError("document_vector_sizes"))
    {
      err := None;
      if scheme != Binary {
        var terms := index.Keys;
        ghost var done: set<string> := {};
        while terms != {}
          invariant terms + done == index.Keys && terms !! done
          invariant DocsIn(index, done) == {}
          invariant err == None
          decreases terms
        {
          var term :| term in terms;
          var docids := index[term].Keys;
          if docids != {} {
            var docid := Pick(docids);
            PostedDoc(index, index.Keys, term, docid);
            return Some(VectorSizeError(Get(docidNumElements, docid)));
          }
          DocsInStep(index, done, term);
          terms := terms - {term};
          done := done + {term};
        }
      }
    }

    /**
     * Lines 103-107: every docid posted under a query term that is in the index.
     */
    method FirstRunCandidates(query: map<string, int>) returns (candidates: set<int>)
      ensures candidates == DocsIn(index, query.Keys)
    {
      candidates := {};
      var terms := query.Keys;
      ghost var done: set<string> := {};
      while terms != {}
        invariant terms + done == query.Keys && terms !! done
        invariant candidates == DocsIn(index, done)
        decreases terms
      {
        var term :| term in terms;
        if term in index {
          var docids := index[term].Keys;
          ghost var seen: set<int> := {};
          while docids != {}
            invariant docids + seen == index[term].Keys && docids !! seen
            invariant candidates == DocsIn(index, done) + seen
            decreases docids
          {
            var docid := Pick(docids);
            candidates := candidates + {docid};
            docids := docids - {docid};
            seen := seen + {docid};
          }
        }
        DocsInStep(index, done, term);
        terms := terms - {term};
        done := done + {term};
      }
    }

    /**
     * Lines 118-123 for one query term that is in the index: a scan of its
     * posting map that adds 1 to `qd_val` when it meets the docid. The
     * non-binary branch (lines 125-139) is floating point; on a constructed
     * object it is never reached, since a non-binary object has no postings.
     */
    method TermHits(term: string, docid: int) returns (hits: int)
      requires term in index
      requires scheme == Binary || AllDocs(index) == {}
      ensures hits == if docid in index[term] then 1 else 0
    {
      hits := 0;
      var checkDocs := index[term].Keys;
      ghost var seen: set<int> := {};
      while checkDocs != {}
        invariant checkDocs + seen == index[term].Keys && checkDocs !! seen
        invariant hits == if docid in seen then 1 else 0
        decreases checkDocs
      {
        var checkDoc := Pick(checkDocs);
        if checkDoc == docid {
          if scheme == Binary {
            hits := hits + 1;
          } else {
            PostedDoc(index, index.Keys, term, checkDoc);
            assert false;
          }
        }
        checkDocs := checkDocs - {checkDoc};
        seen := seen + {checkDoc};
      }
    }

    /**
     * Lines 114-123: `qd_val` for one candidate, reset to 0 and raised by 1 for
     * every query term in the index whose posting map holds the docid.
     */
    method QdVal(query: map<string, int>, docid: int) returns (qdVal: int)
      requires Valid()
      ensures qdVal == |TermsPosting(index, query.Keys, docid)|
    {
      assert scheme == Binary || AllDocs(index) == {};
      qdVal := 0;
      var terms := query.Keys;
      ghost var done: set<string> := {};
      while terms != {}
        invariant terms + done == query.Keys && terms !! done
        invariant qdVal == |TermsPosting(index, done, docid)|
        decreases terms
      {
        var term :| term in terms;
        if term in index {
          var hits := TermHits(term, docid);
          qdVal := qdVal + hits;
        }
        TermsPostingStep(index, done, term, docid);
        terms := terms - {term};
        done := done + {term};
      }
    }

    /**
     * Lines 88-178. With no candidate the loop body never runs and the fixed
     * `range(1, 11)` is returned. Otherwise the first candidate visited gets its
     * `qd_val`, and line 142 then reads `document_vector_sizes`, which was never
     * assigned. Nothing of the object changes.
     */
    method ForQuery(query: map<string, int>) returns (r: Result<seq<int>, Error>)
      requires Valid()
      ensures r.Ok? <==> DocsIn(index, query.Keys) == {}
      ensures r.Ok? ==> r.value == FixedResult
      ensures r.Err? ==> r.error == AttributeError("document_vector_sizes")
    {
      var candidates := FirstRunCandidates(query);
      if candidates != {} {
        var docid := Pick(candidates);
        var qdVal := QdVal(query, docid);
        return Err(AttributeError("document_vector_sizes"));
      }
      return Ok(FixedResult);
    }
    /**
     * Lines 29-45 on a freshly initialised object: the element counts, then the
     * collection size.
     */
    method CountingPasses() returns (err: Option<Error>)
      requires collectionSize == 0 && docidNumElements == map[] && documentSummedVectors == None
      modifies this`docidNumElements, this`documentSummedVectors, this`collectionSize
      ensures err.Some? <==> scheme != Binary && AllDocs(index) != {}
      ensures err.Some? ==> err == Some(AttributeError("document_summed_vectors"))
      ensures err == None ==> Counted() && documentSummedVectors == None
    {
      err := CountElements();
      if err.Some? {
        return;
      }
      CountCollection();
      assert |docidNumElements| == |docidNumElements.Keys|;
    }

    /**
     * Lines 49-78 after the counting passes: in tfidf mode the IDF of any term
     * divides by a zero document frequency; the vector-size pass finds no posting.
     */
    method WeightingPasses() returns (err: Option<Error>)
      requires Counted() && idfValues == map[]
      modifies this`idfValues
      ensures Counted()
      ensures err.Some? <==> scheme == Tfidf && index.Keys != {}
      ensures err.Some? ==> err == Some(ZeroDivisionError)
      ensures err == None ==> idfValues == map[]
    {
      err := ComputeIdf();
      if err.Some? {
        var t :| t in index && IdfOf(collectionSize, |index[t]|) == Err(err.value);
        DocumentFrequencyBound(index, t);
        return;
      }
      assert scheme == Tfidf ==> index.Keys == {} && IdfTable(index, collectionSize, index.Keys) == map[];
      err := ComputeVectorSizes();
      // A binary object skips lines 64-78, and a non-binary one that got this far has no postings.
      assert err == None;
    }
  }

  /**
   * `Retrieve(index, termWeighting)`, lines 6-78: the constructor either returns
   * an object in the `Valid` state or raises.
   */
  method Create(index: Index, termWeighting: string) returns (r: Result<Retrieve, Error>)
    ensures r.Ok? ==> fresh(r.value) && r.value.Valid()
    ensures r.Ok? ==> r.value.index == index && r.value.scheme == SchemeOf(termWeighting)
    ensures SchemeOf(termWeighting) == Binary ==> r.Ok?
    ensures SchemeOf(termWeighting) != Binary && AllDocs(index) != {} ==>
      r == Err(AttributeError("document_summed_vectors"))
    ensures SchemeOf(termWeighting) == Tf && AllDocs(index) == {} ==> r.Ok?
    ensures SchemeOf(termWeighting) == Tfidf && AllDocs(index) == {} ==>
      if index.Keys == {} then r.Ok? else r == Err(ZeroDivisionError)
  {
    var retrieve := new Retrieve(index, termWeighting);
    var err := retrieve.CountingPasses();
    if err.Some? {
      return Err(err.value);
    }
    err := retrieve.WeightingPasses();
    if err.Some? {
      return Err(err.value);
    }
    r := Ok(retrieve);
  }
}
