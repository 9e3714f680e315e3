/**
 * The inverted index consumed by the retriever, and the counting
 * aggregations over it that the retriever's loops compute.
 */
module Postings {

  /** term -> (docid -> raw occurrence count), the `index` argument of `Retrieve`. */
  type Index = map<string, map<int, int>>

  /** Reading a `defaultdict(int)`: a missing key reads as 0. */
  function Get(m: map<int, int>, d: int): int
  {
    if d in m then m[d] else 0
  }

  /** The raw count of term `t` in document `d`; 0 when either is not posted. */
  function Count(index: Index, t: string, d: int): int
  {
    if t in index then Get(index[t], d) else 0
  }

  /** The terms among `terms` that are in the index and whose posting map holds docid `d`. */
  function TermsPosting(index: Index, terms: set<string>, d: int): set<string>
  {
    set t | t in terms && t in index && d in index[t]
  }

  /** Every docid posted under some term of `terms` that is in the index. */
  function DocsIn(index: Index, terms: set<string>): set<int>
  {
    set t, d | t in terms && t in index && d in index[t] :: d
  }

  /** The distinct docids across all posting lists of the index. */
  function AllDocs(index: Index): set<int>
  {
    DocsIn(index, index.Keys)
  }

  /** The number of index terms whose posting map holds docid `d`. */
  function NumElements(index: Index, d: int): nat
  {
    |TermsPosting(index, index.Keys, d)|
  }

  /** The sum of the raw counts of docid `d` over the terms of `terms`. */
  ghost function DocTotal(index: Index, terms: set<string>, d: int): int
    decreases terms
  {
    if terms == {} then 0
    else
      var t :| t in terms;
      Count(index, t, d) + DocTotal(index, terms - {t}, d)
  }

  /** The data model's invariant: every listed occurrence count is at least 1. */
  ghost predicate PositiveCounts(index: Index)
  {
    forall t, d :: t in index && d in index[t] ==> index[t][d] >= 1
  }

  /** The next element of a loop over a dict or a set, in whatever order the interpreter uses. */
  method Pick<T>(s: set<T>) returns (x: T)
    requires s != {}
    ensures x in s
  {
    x :| x in s;
  }

  // ---------------------------------------------------------------------------
  // Helper lemmas for the loops

  lemma {:induction false} SubsetCardinality<T>(a: set<T>, b: set<T>)
    requires a <= b
    ensures |a| <= |b|
    decreases a
  {
    if a != {} {
      var x :| x in a;
      SubsetCardinality(a - {x}, b - {x});
    }
  }

  lemma PostedDoc(index: Index, terms: set<string>, t: string, d: int)
    requires t in terms && t in index && d in index[t]
    ensures d in DocsIn(index, terms)
    ensures t in TermsPosting(index, terms, d)
  {
  }

  lemma TermsPostingStep(index: Index, done: set<string>, t: string, d: int)
    requires t !in done
    ensures TermsPosting(index, done + {t}, d)
         == TermsPosting(index, done, d) + (if t in index && d in index[t] then {t} else {})
    ensures |TermsPosting(index, done + {t}, d)|
         == |TermsPosting(index, done, d)| + (if t in index && d in index[t] then 1 else 0)
  {
    assert TermsPosting(index, done + {t}, d)
        == TermsPosting(index, done, d) + (if t in index && d in index[t] then {t} else {});
  }

  lemma DocsInStep(index: Index, done: set<string>, t: string)
    ensures DocsIn(index, done + {t})
         == DocsIn(index, done) + (if t in index then index[t].Keys else {})
  {
    forall d | d in DocsIn(index, done + {t})
      ensures d in DocsIn(index, done) + (if t in index then index[t].Keys else {})
    {
      var u :| u in done + {t} && u in index && d in index[u];
      if u != t {
        PostedDoc(index, done, u, d);
      }
    }
    forall d | d in (if t in index then index[t].Keys else {})
      ensures d in DocsIn(index, done + {t})
    {
      PostedDoc(index, done + {t}, t, d);
    }
  }

  lemma {:induction false} DocTotalRemove(index: Index, terms: set<string>, u: string, d: int)
    requires u in terms
    ensures DocTotal(index, terms, d) == Count(index, u, d) + DocTotal(index, terms - {u}, d)
    decreases terms
  {
    var t :| t in terms && DocTotal(index, terms, d) == Count(index, t, d) + DocTotal(index, terms - {t}, d);
    if t != u {
      DocTotalRemove(index, terms - {t}, u, d);
      DocTotalRemove(index, terms - {u}, t, d);
      assert terms - {t} - {u} == terms - {u} - {t};
    }
  }

  lemma DocTotalStep(index: Index, done: set<string>, t: string, d: int)
    requires t !in done
    ensures DocTotal(index, done + {t}, d) == DocTotal(index, done, d) + Count(index, t, d)
  {
    DocTotalRemove(index, done + {t}, t, d);
    assert done + {t} - {t} == done;
  }

  /**
   * `m` is `m0` after adding 1 per posting of each docid under the terms of `terms`
   * (lines 30-36 run over those terms).
   */
  ghost predicate CountedFrom(index: Index, m0: map<int, int>, m: map<int, int>, terms: set<string>)
  {
    && m.Keys == m0.Keys + DocsIn(index, terms)
    && forall d :: Get(m, d) == Get(m0, d) + |TermsPosting(index, terms, d)|
  }

  /**
   * `m` is `m0` after adding the raw counts of each docid under the terms of
   * `terms` (line 41 run over those terms).
   */
  ghost predicate SummedFrom(index: Index, m0: map<int, int>, m: map<int, int>, terms: set<string>)
  {
    && m.Keys == m0.Keys + DocsIn(index, terms)
    && forall d :: Get(m, d) == Get(m0, d) + DocTotal(index, terms, d)
  }

  lemma CountedStep(index: Index, m0: map<int, int>, m: map<int, int>, m': map<int, int>,
                    done: set<string>, t: string)
    requires CountedFrom(index, m0, m, done) && t !in done && t in index
    requires m'.Keys == m.Keys + index[t].Keys
    requires forall d :: Get(m', d) == Get(m, d) + (if d in index[t] then 1 else 0)
    ensures CountedFrom(index, m0, m', done + {t})
  {
    DocsInStep(index, done, t);
    forall d ensures Get(m', d) == Get(m0, d) + |TermsPosting(index, done + {t}, d)| {
      TermsPostingStep(index, done, t, d);
    }
  }

  lemma SummedStep(index: Index, m0: map<int, int>, m: map<int, int>, m': map<int, int>,
                   done: set<string>, t: string)
    requires SummedFrom(index, m0, m, done) && t !in done && t in index
    requires m'.Keys == m.Keys + index[t].Keys
    requires forall d :: Get(m', d) == Get(m, d) + Count(index, t, d)
    ensures SummedFrom(index, m0, m', done + {t})
  {
    DocsInStep(index, done, t);
    forall d ensures Get(m', d) == Get(m0, d) + DocTotal(index, done + {t}, d) {
      DocTotalStep(index, done, t, d);
    }
  }

  // ---------------------------------------------------------------------------
  // Properties of the aggregations

  /** A docid is a candidate for `terms` exactly when at least one of those terms posts it. */
  lemma {:induction false} DocsInIff(index: Index, terms: set<string>, d: int)
    ensures d in DocsIn(index, terms) <==> |TermsPosting(index, terms, d)| >= 1
  {
    if d in DocsIn(index, terms) {
      var t :| t in terms && t in index && d in index[t];
      assert t in TermsPosting(index, terms, d);
    }
    if |TermsPosting(index, terms, d)| >= 1 {
      var t :| t in TermsPosting(index, terms, d);
      PostedDoc(index, terms, t, d);
    }
  }

  /**
   * The number of terms posting `d` is at least 1 exactly for the posted docids,
   * and never more than the number of terms looked at.
   */
  lemma {:induction false} TermsPostingBounds(index: Index, terms: set<string>, d: int)
    ensures d in DocsIn(index, terms) <==> |TermsPosting(index, terms, d)| >= 1
    ensures |TermsPosting(index, terms, d)| <= |terms|
    ensures |TermsPosting(index, terms, d)| <= NumElements(index, d)
  {
    DocsInIff(index, terms, d);
    SubsetCardinality(TermsPosting(index, terms, d), terms);
    SubsetCardinality(TermsPosting(index, terms, d), TermsPosting(index, index.Keys, d));
  }

  /** Only the query terms that are in the index contribute candidates. */
  lemma {:induction false} DocsInIgnoresAbsentTerms(index: Index, terms: set<string>)
    ensures DocsIn(index, terms) == DocsIn(index, terms * index.Keys)
    ensures DocsIn(index, terms) <= AllDocs(index)
  {
    forall d | d in DocsIn(index, terms)
      ensures d in DocsIn(index, terms * index.Keys) && d in AllDocs(index)
    {
      var t :| t in terms && t in index && d in index[t];
      PostedDoc(index, terms * index.Keys, t, d);
      PostedDoc(index, index.Keys, t, d);
    }
  }

  /** The candidate set of a union of term sets is the union of their candidate sets. */
  lemma {:induction false} DocsInUnion(index: Index, a: set<string>, b: set<string>)
    ensures DocsIn(index, a + b) == DocsIn(index, a) + DocsIn(index, b)
  {
    forall d | d in DocsIn(index, a + b)
      ensures d in DocsIn(index, a) + DocsIn(index, b)
    {
      var t :| t in a + b && t in index && d in index[t];
      if t in a { PostedDoc(index, a, t, d); } else { PostedDoc(index, b, t, d); }
    }
    forall d | d in DocsIn(index, a) + DocsIn(index, b)
      ensures d in DocsIn(index, a + b)
    {
      var t :| (t in a || t in b) && t in index && d in index[t];
      PostedDoc(index, a + b, t, d);
    }
  }

  /**
   * The document frequency of a term (the size of its posting map) never exceeds
   * the number of distinct docids of the index; it is 0 for every term of an index
   * without postings.
   */
  lemma {:induction false} DocumentFrequencyBound(index: Index, t: string)
    requires t in index
    ensures |index[t]| <= |AllDocs(index)|
    ensures AllDocs(index) == {} ==> |index[t]| == 0
  {
    forall d | d in index[t].Keys ensures d in AllDocs(index) {
      PostedDoc(index, index.Keys, t, d);
    }
    SubsetCardinality(index[t].Keys, AllDocs(index));
    assert |index[t].Keys| == |index[t]|;
  }

  /**
   * With positive counts, the summed raw counts of a document are at least the
   * number of terms posting it, with equality when every one of its counts is 1.
   */
  lemma {:induction false} DocTotalAtLeastNumElements(index: Index, terms: set<string>, d: int)
    requires PositiveCounts(index)
    ensures DocTotal(index, terms, d) >= |TermsPosting(index, terms, d)|
    ensures (forall t :: t in index && d in index[t] ==> index[t][d] == 1)
            ==> DocTotal(index, terms, d) == |TermsPosting(index, terms, d)|
    decreases terms
  {
    if terms != {} {
      var t :| t in terms;
      var rest := terms - {t};
      DocTotalRemove(index, terms, t, d);
      DocTotalAtLeastNumElements(index, rest, d);
      TermsPostingStep(index, rest, t, d);
      assert rest + {t} == terms;
    }
  }

  /** A docid that no term posts has no raw count to sum. */
  lemma {:induction false} DocTotalUnposted(index: Index, terms: set<string>, d: int)
    requires d !in DocsIn(index, terms)
    ensures DocTotal(index, terms, d) == 0
    decreases terms
  {
    if terms != {} {
      var t :| t in terms;
      DocTotalRemove(index, terms, t, d);
      if t in index && d in index[t] {
        PostedDoc(index, terms, t, d);
      }
      forall e | e in DocsIn(index, terms - {t}) ensures e in DocsIn(index, terms) {
        var u :| u in terms - {t} && u in index && e in index[u];
        PostedDoc(index, terms, u, e);
      }
      DocTotalUnposted(index, terms - {t}, d);
    }
  }

  /**
   * A two-term index: docid 1 is posted under both terms and docid 2 under one,
   * so there are two distinct docids, counted 2 and 1 terms.
   */
  lemma TwoTermExample()
    ensures var index: Index := map["a" := map[1 := 1, 2 := 1], "b" := map[1 := 1]];
      && AllDocs(index) == {1, 2}
      && |AllDocs(index)| == 2
      && NumElements(index, 1) == 2
      && NumElements(index, 2) == 1
      && DocsIn(index, {"b", "c"}) == {1}
  {
    var index: Index := map["a" := map[1 := 1, 2 := 1], "b" := map[1 := 1]];
    assert index.Keys == {"a", "b"};
    PostedDoc(index, index.Keys, "a", 2);
    PostedDoc(index, index.Keys, "a", 1);
    assert AllDocs(index) == {1, 2};
    assert TermsPosting(index, index.Keys, 1) == {"a", "b"};
    assert TermsPosting(index, index.Keys, 2) == {"a"};
    PostedDoc(index, {"b", "c"}, "b", 1);
    assert DocsIn(index, {"b", "c"}) == {1};
  }
}
