# Retrieve: integer bookkeeping of a vector-space retriever

This project models, in Dafny, the `Retrieve` class of `my_retriever.py`. The
class is built from an inverted index (`term -> (docid -> raw count)`) and a
term-weighting tag (`binary`, `tf` or `tfidf`). It is then asked `forQuery`
for a query (`term -> count`). The model covers the class's counting work:

- `docid_num_elements`: for each docid, the number of terms that post it.
- the per-document sum of raw counts that line 41 accumulates.
- `collection_size`.
- the document frequency behind each IDF value.
- the candidate set of a query.
- the binary `qd_val` of a candidate.
- the value `forQuery` returns.

Python exceptions are part of the model. The class is unfinished, and several
of the attributes it reads are never assigned.

- `Wrappers.dfy`: `Option` and `Result`.
- `Postings.dfy`: the index type and the counting aggregations the loops
  compute: `TermsPosting`, `DocsIn`, `AllDocs`, `NumElements` and the summed
  raw count `DocTotal`. It also holds the lemmas about them.
- `Retriever.dfy`: the `Scheme` tag, the `Error` exceptions and the class
  `Retrieve`. The class's fields are `index`, `scheme`, `collectionSize`,
  `idfValues`, `docidNumElements` and `documentSummedVectors`. The constructor
  is split into its passes, one method each, grouped as `CountingPasses`
  (lines 29-45) and `WeightingPasses` (lines 49-78). `Create` is the Python
  constructor call, and it returns the object or the exception raised.

## How the code behaves

- **A raised exception** is an `Error` value. This covers `AttributeError`,
  `ZeroDivisionError`, and the `ValueError` that `log10` raises on 0.
  `Create` returns `Err` exactly where `Retrieve(index, termWeighting)` raises.
- **A `defaultdict(int)`** becomes a `map<int, int>` that `Get` reads, with 0
  for a missing key. Every `+=` writes the key.
- **Iteration over a dict or a set** takes its elements in an unspecified
  order (`Pick`, or `:|` on terms). Every result is therefore proved for every
  iteration order.
- **The tag** is compared only with `"binary"` (lines 35, 64, 121) and with
  `"tfidf"` (lines 50, 73, 133). Every other tag therefore behaves as `Tf`.
- **`document_summed_vectors` is never created**, because its initialiser at
  line 26 is commented out. It is modelled as
  `documentSummedVectors: Option<map<int, int>>`, and the constructor leaves
  it `None`. In `tf` or `tfidf` mode, the first posting of the index raises
  `AttributeError` at line 41. `CountTerm` and `CountElements` also state what
  line 41 accumulates once the attribute exists: the sum of the raw counts of
  each docid (`SummedFrom`).
- **`collection_size` is 0 in every non-binary object.** It counts the keys of
  `docid_num_elements` (lines 44-45), and only binary mode fills that map. So a
  `tf` object gets past line 41 only for an index without postings. A `tfidf`
  object then also divides by a zero document frequency at line 56 for any
  term. A `tfidf` object is therefore built only from an empty index.
- **`document_vector_sizes` is never created either.** Lines 64-78 raise on
  the first posting of a non-binary index. On a binary object, `forQuery`
  reads that attribute at line 142, inside the loop over candidates. As
  written, `forQuery` therefore returns `range(1, 11)` only when no query
  term posts any document (`Retrieve.ForQuery`). Otherwise it raises
  `AttributeError` after computing the first candidate's `qd_val`.
- **Differences from the intended design.** The intended design ranks the top
  ten documents by a cosine score. It also counts `collection_size` in every
  mode, and in `tf`/`tfidf` mode it keeps token totals in
  `docid_num_elements`. The code does none of these. The model follows the
  code.
- **The object invariant.** `Retrieve.Valid()` is the state of every object
  `Create` returns:
  - binary: `docidNumElements[d]` is the number of terms posting `d`, only
    posted docids have an entry, and `collectionSize` is the number of
    distinct docids;
  - otherwise: no postings, an empty `docidNumElements` and a zero
    `collectionSize`;
  - always: an empty `idfValues`.

## Model

| member | source | states |
|---|---|---|
| `Retriever.Retrieve.constructor` | my_retriever.py:7-26 | the attributes start as given index and tag, collection size 0, empty IDF and element maps, and no `document_summed_vectors` attribute |
| `Retriever.Retrieve.CountTerm` | my_retriever.py:32-41 | one term's postings add 1 per docid in binary mode; otherwise they add their raw counts to the accumulator, or raise AttributeError at the first posting while the accumulator is missing; nothing else changes |
| `Retriever.Retrieve.CountElements` | my_retriever.py:30-41 | binary: `docidNumElements[d]` grows by the number of index terms posting `d` and gains keys exactly for the posted docids; non-binary without the accumulator: raises AttributeError exactly when the index has a posting; with it: each docid's raw counts summed over all terms |
| `Retriever.Retrieve.CountCollection` | my_retriever.py:44-45 | `collectionSize` grows by the number of keys of `docidNumElements` |
| `Retriever.Retrieve.ComputeIdf` | my_retriever.py:50-58 | only tfidf mode computes IDF; it succeeds exactly when every term's IDF is defined, then records for every term the collection size and the posting-list length as document frequency, and otherwise raises the error of some term |
| `Retriever.Retrieve.ComputeVectorSizes` | my_retriever.py:64-78 | binary mode and an index without postings pass; a non-binary index with a posting raises the error of some posted docid: ZeroDivisionError when its `docid_num_elements` count is 0 (line 71), AttributeError on `document_vector_sizes` otherwise (lines 75, 78); so ZeroDivisionError when all posted docids have a zero count and AttributeError when none has |
| `Retriever.Retrieve.CountingPasses` | my_retriever.py:29-45 | on a fresh object the counting passes raise AttributeError exactly for a non-binary index with a posting, and otherwise leave the counts of `Counted` (binary: per-docid term counts and the number of distinct docids; otherwise empty and 0) |
| `Retriever.Retrieve.WeightingPasses` | my_retriever.py:49-78 | after the counting passes, the IDF and vector-size passes raise ZeroDivisionError exactly for a tfidf object with a non-empty index, and otherwise leave no IDF entries |
| `Retriever.Create` | my_retriever.py:6-78 | binary construction always succeeds, in the `Valid` state (element counts per docid, collection size = number of distinct docids); non-binary construction raises AttributeError for any index with a posting, tfidf raises ZeroDivisionError for any other non-empty index, tf succeeds otherwise |
| `Retriever.Retrieve.FirstRunCandidates` | my_retriever.py:103-107 | the candidate set is exactly the docids posted under the query terms that are in the index |
| `Retriever.Retrieve.TermHits` | my_retriever.py:116-123 | scanning one term's posting map adds 1 exactly when it holds the docid |
| `Retriever.Retrieve.QdVal` | my_retriever.py:113-123 | `qd_val` starts at 0 for each candidate and ends as the number of query terms in the index whose posting map holds the docid, whatever the iteration order |
| `Retriever.Retrieve.ForQuery` | my_retriever.py:88-178 | returns `range(1, 11)` exactly when the candidate set is empty, and otherwise raises AttributeError on `document_vector_sizes`; the object is not changed |
| `Postings.DocsInIff` | my_retriever.py:103-107 | a docid is a candidate exactly when at least one query term in the index posts it |
| `Postings.TermsPostingBounds` | my_retriever.py:113-123 | for a candidate, `qd_val` is at least 1, at most the number of query terms, and at most the docid's `docid_num_elements` count; for a non-candidate it is 0 |
| `Postings.DocsInIgnoresAbsentTerms` | my_retriever.py:103-107 | query terms absent from the index contribute no candidate, and every candidate is a docid of the index |
| `Postings.DocsInUnion` | my_retriever.py:103-107 | the candidates of a union of term sets are the union of their candidates, so each query term adds its posting list independently |
| `Postings.DocumentFrequencyBound` | my_retriever.py:53-56 | a term's document frequency `len(index[term])` never exceeds the number of distinct docids, and is 0 for every term of an index without postings |
| `Postings.DocTotalAtLeastNumElements` | my_retriever.py:35-41 | with positive counts, a document's summed raw counts (line 41) are at least its number of posting terms (line 36), equal when every count is 1 |
| `Postings.DocTotalUnposted` | my_retriever.py:40-41 | a docid in no posting list sums to 0 |
| `Postings.TwoTermExample` | my_retriever.py:30-45 | for the index {a: {1, 2}, b: {1}}: 2 distinct docids, docid 1 posted by 2 terms and docid 2 by 1, and query {b, c} has the single candidate 1 |

## Left out

- Floating point. This covers `log10` at line 56, and the tf ratios and tfidf
  products at lines 71-78 and 127-139. It also covers the cosine division at
  line 142. An IDF is kept as the fraction whose logarithm the source takes
  (`IdfInput`). The non-binary `qd_val` branch (lines 125-139) is not
  computed: a non-binary object has no postings, so the branch is never
  reached.
- The `print` of the collection size at line 46, and the commented-out debug
  prints. Both are I/O.
- `docid_idf_values` and `docid_tf_values` (lines 22-23). They are created and
  never used.
- `similarity_values` and `candidate_values` (lines 91, 97). They are created
  in `forQuery` and never used.
- Ranking, top-10 selection and tie-breaking. The source has none of them.
- Building the index and the query (tokenising, loading files). This happens
  outside this file.
- Retriever.Retrieve.ComputeIdf: it does not say what `idfValues` holds after
  it raises. The half-built object is discarded with the exception.
- Retriever.Retrieve.ComputeVectorSizes: it does not state the entries that
  the `defaultdict` reads at lines 71 and 74 insert before they raise. The
  object is discarded with the exception. When some posted docids have a zero
  count and others do not, the error raised depends on iteration order. The
  contract says it is the error of some posted docid, not which one.
- Retriever.Retrieve.ForQuery: which candidate gets its `qd_val` before the
  exception depends on set iteration order. The contract leaves it open.
  `Retrieve.QdVal` states the value for every candidate.
