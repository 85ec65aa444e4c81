/**
 * The searcher over one index reader: its leaves (segments), the slices it
 * hands to an executor, the similarity it scores with, and the wrapping of a
 * query by a filter, as in Lucene's IndexSearcher.
 */
module Searcher {
  import opened Wrappers

  /** Opaque handle for one leaf (segment) reader context. */
  datatype AtomicReaderContext = AtomicReaderContext(ord: nat)

  /** Opaque handle for an index reader. */
  datatype IndexReader = IndexReader(id: nat)

  /** A reader context: whether it is top-level, its reader and its leaves. */
  datatype IndexReaderContext = IndexReaderContext(
    isTopLevel: bool,
    reader: IndexReader,
    leaves: seq<AtomicReaderContext>)

  /** Opaque handle for the executor that runs slices in parallel. */
  datatype ExecutorService = ExecutorService(id: nat)

  /** A scoring model: the default one, or any other. */
  datatype Similarity = DefaultSimilarity | OtherSimilarity(id: nat)

  /** Opaque filter, and queries, one of which wraps a query with a filter. */
  datatype Filter = Filter(id: nat)
  datatype Query = BaseQuery(id: nat) | FilteredQuery(query: Query, filter: Filter)

  /** The leaves one thread searches. */
  datatype LeafSlice = LeafSlice(leaves: seq<AtomicReaderContext>)

  /** The leaves of the slices, slice after slice. */
  function Concat(slices: seq<LeafSlice>): seq<AtomicReaderContext>
  {
    if slices == [] then [] else slices[0].leaves + Concat(slices[1..])
  }

  /**
   * The slices cover the leaves completely, without overlap and in order:
   * read one after the other they give back the leaves, and none is empty.
   */
  predicate IsOrderedCover(slices: seq<LeafSlice>, leaves: seq<AtomicReaderContext>)
  {
    && Concat(slices) == leaves
    && forall i :: 0 <= i < |slices| ==> slices[i].leaves != []
  }

  /** Slice i holds exactly leaf i. */
  predicate OneSlicePerLeaf(slices: seq<LeafSlice>, leaves: seq<AtomicReaderContext>)
  {
    && |slices| == |leaves|
    && forall i :: 0 <= i < |slices| ==> slices[i].leaves == [leaves[i]]
  }

  /** One singleton slice per leaf, in leaf order, is an ordered cover of the leaves. */
  lemma {:induction false} OneSlicePerLeafCovers(slices: seq<LeafSlice>, leaves: seq<AtomicReaderContext>)
    requires OneSlicePerLeaf(slices, leaves)
    ensures IsOrderedCover(slices, leaves)
    decreases |slices|
  {
    if slices != [] {
      assert OneSlicePerLeaf(slices[1..], leaves[1..]) by {
        forall i | 0 <= i < |slices| - 1
          ensures slices[1..][i].leaves == [leaves[1..][i]]
        {
          assert slices[1..][i] == slices[i + 1];
        }
      }
      OneSlicePerLeafCovers(slices[1..], leaves[1..]);
      assert leaves == [leaves[0]] + leaves[1..];
    }
  }

  /** When the leaves are all different, different singleton slices share no leaf. */
  lemma OneSlicePerLeafDisjoint(slices: seq<LeafSlice>, leaves: seq<AtomicReaderContext>, i: int, j: int)
    requires OneSlicePerLeaf(slices, leaves)
    requires forall p, q :: 0 <= p < q < |leaves| ==> leaves[p] != leaves[q]
    requires 0 <= i < |slices| && 0 <= j < |slices| && i != j
    ensures forall x :: x in slices[i].leaves ==> x !in slices[j].leaves
  {
  }

  class IndexSearcher {
    const reader: IndexReader
    const readerContext: IndexReaderContext
    const leafContexts: seq<AtomicReaderContext>
    /** Used with the executor: one slice per thread of work; null without one. */
    const leafSlices: array?<LeafSlice>
    const executor: Option<ExecutorService>
    var similarity: Similarity

    /** What the constructor establishes between the searcher's constant fields. */
    ghost predicate Valid()
    {
      && readerContext.isTopLevel
      && reader == readerContext.reader
      && leafContexts == readerContext.leaves
    }

    /** The process-wide default: an instance of the default similarity. */
    static function GetDefaultSimilarity(): (s: Similarity)
      ensures s.DefaultSimilarity?
    {
      DefaultSimilarity
    }

    /**
     * Searches the given top-level context; builds slices only when an
     * executor is supplied.
     */
    constructor (context: IndexReaderContext, executor: Option<ExecutorService>)
      requires context.isTopLevel
      ensures reader == context.reader && readerContext == context
      ensures leafContexts == context.leaves && this.executor == executor
      ensures leafSlices == null <==> executor == None
      ensures leafSlices != null ==> OneSlicePerLeaf(leafSlices[..], leafContexts)
      ensures leafSlices != null ==> IsOrderedCover(leafSlices[..], leafContexts)
      ensures leafSlices != null ==> fresh(leafSlices)
      ensures Valid()
      ensures GetSimilarity() == GetDefaultSimilarity()
    {
      reader := context.reader;
      this.executor := executor;
      readerContext := context;
      leafContexts := context.leaves;
      var slices: array?<LeafSlice> := null;
      if executor != None {
        slices := Slices(context.leaves);
      }
      leafSlices := slices;
      similarity := GetDefaultSimilarity();
    }

    /** One singleton slice per leaf, in leaf order. */
    static method Slices(leaves: seq<AtomicReaderContext>) returns (slices: array<LeafSlice>)
      ensures OneSlicePerLeaf(slices[..], leaves)
      ensures IsOrderedCover(slices[..], leaves)
      ensures fresh(slices)
    {
      slices := new LeafSlice[|leaves|];
      for i := 0 to slices.Length
        invariant forall k :: 0 <= k < i ==> slices[k] == LeafSlice([leaves[k]])
      {
        slices[i] := LeafSlice([leaves[i]]);
      }
      OneSlicePerLeafCovers(slices[..], leaves);
    }

    /** The reader of the top-level context this searcher searches. */
    function GetIndexReader(): (r: IndexReader)
      requires Valid()
      ensures r == readerContext.reader
    {
      reader
    }

    method SetSimilarity(similarity: Similarity)
      modifies this`similarity
      ensures GetSimilarity() == similarity
    {
      this.similarity := similarity;
    }

    function GetSimilarity(): Similarity
      reads this
    {
      similarity
    }

    /** The query itself without a filter; otherwise the query wrapped with the filter. */
    function WrapFilter(query: Query, filter: Option<Filter>): (r: Query)
      ensures r == query <==> filter == None
      ensures filter != None ==> r.FilteredQuery? && r.query == query && r.filter == filter.value
    {
      if filter == None then query
      else
        var wrapped := FilteredQuery(query, filter.value);
        assert query < wrapped;
        wrapped
    }
  }
}
