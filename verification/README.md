# Lucene index-file bookkeeping and shard-merge ordering in Dafny

This project models three pieces of the execution core of a Lucene-derived
search engine:

- **IndexFileDeleter** (`index_file_deleter.dfy`, module `FileDeleter`).
  `RefCount` counts the references to one index file. Its first `IncRef`
  initialises it. After that, every increment and every decrement asserts
  that the count is positive. A `CommitPoint` captures one commit's metadata.
  The deletion policy retires a commit point by calling `Delete`. The first
  call marks it deleted and enrolls it once in the `commitsToDelete` list,
  which it shares with the deleter (`CommitList`). Beside the class, a pure
  state machine (`Step`, `Run` over a trace of `Inc`/`Dec` calls) states what
  any sequence of calls does.
- **TopDocs** (`top_docs.dfy`, module `TopDocsMerge`). This covers the
  `TopDocs` record, the `ShardRef` merge cursor, and the
  `ScoreMergeSortQueue`. The queue's constructor keeps a reference to each
  shard's hit array. Its `lessThan` orders hits by score descending, then by shard index
  ascending, then by position ascending. The lemmas prove that this order is
  a strict total order on distinct hits.
- **IndexSearcher** (`index_searcher.dfy`, module `Searcher`). `Slices` builds
  one singleton slice per leaf, in leaf order. The constructor builds slices
  only when an executor is given. The model also covers the similarity
  setter and getter, and `wrapFilter`. The lemmas prove that the slices are a
  complete, non-overlapping, order-preserving cover of the leaves.

Java `assert` statements are modelled as preconditions. Java's `int` `++` on a
reference count is modelled with its wrap-around from 2^31-1 to -2^31
(`Int32Inc`). Scores are reals, a totally ordered stand-in for Java floats.
`Float.NaN` as "max score not tracked" is `MaxScore.NotTracked`. Opaque
collaborators are datatypes that carry only an identity: the directory,
readers, leaf contexts, the executor, filters, base queries and non-default
similarities.

## Model

| member | source | states |
|---|---|---|
| FileDeleter.Int32Inc | lucene/core/src/java/org/apache/lucene/index/IndexFileDeleter.java:138 | Java `++count` on an int: adds one below 2^31-1 and wraps to -2^31 at it; the result stays an int |
| FileDeleter.Step | lucene/core/src/java/org/apache/lucene/index/IndexFileDeleter.java:132-144 | one IncRef/DecRef call succeeds exactly when its assertion holds (increment: not yet initialised or count > 0; decrement: count > 0), and the count stays a Java int |
| FileDeleter.RunAppend | lucene/core/src/java/org/apache/lucene/index/IndexFileDeleter.java:132-144 | running two sequences of calls one after the other equals running their concatenation, a failed assertion stopping both |
| FileDeleter.RunCounts | lucene/core/src/java/org/apache/lucene/index/IndexFileDeleter.java:121-146 | along any run whose assertions hold and that cannot overflow, the count equals start + increments - decrements, is never negative, and the RefCount is initialised once any call happened |
| FileDeleter.FreshRunCounts | lucene/core/src/java/org/apache/lucene/index/IndexFileDeleter.java:126-144 | from a fresh RefCount, a successful run ends with count = increments - decrements >= 0, initialised exactly when the run is non-empty |
| FileDeleter.DeadStaysDead | lucene/core/src/java/org/apache/lucene/index/IndexFileDeleter.java:133-143 | once the count has fallen back to 0 after initialisation, any further call fails its assertion: the file cannot be revived |
| FileDeleter.IncThenDecRestores | lucene/core/src/java/org/apache/lucene/index/IndexFileDeleter.java:132-144 | an increment followed by a decrement restores the count; on an initialised RefCount it restores the whole state |
| FileDeleter.RefCount.constructor | lucene/core/src/java/org/apache/lucene/index/IndexFileDeleter.java:124-130 | a new RefCount keeps its file name, is not initialised, and has count 0 |
| FileDeleter.RefCount.IncRef | lucene/core/src/java/org/apache/lucene/index/IndexFileDeleter.java:132-139 | requires a positive count once initialised; sets initDone, increments the count by one (with int wrap-around), returns the new count, and agrees with Step |
| FileDeleter.RefCount.DecRef | lucene/core/src/java/org/apache/lucene/index/IndexFileDeleter.java:141-144 | requires a positive count; decrements it by one, returns the new, non-negative count, leaves initDone alone, and agrees with Step |
| FileDeleter.CommitList.constructor | lucene/core/src/java/org/apache/lucene/index/IndexFileDeleter.java:103 | the shared list of commits to delete starts empty and consistent |
| FileDeleter.CommitPoint.constructor | lucene/core/src/java/org/apache/lucene/index/IndexFileDeleter.java:165-209 | the getters return the directory, user data, segments file name, generation, file names and segment count captured from the SegmentInfos; the commit is not deleted; it joins the commits sharing the list, whose items are unchanged and which stays consistent if it was |
| FileDeleter.CommitPoint.Delete | lucene/core/src/java/org/apache/lucene/index/IndexFileDeleter.java:216-226 | idempotent: afterwards isDeleted() holds; the first call appends this commit to commitsToDelete, later calls leave the list unchanged; a consistent shared list (exactly the deleted commits, each once) stays consistent and holds this commit |
| TopDocsMerge.TopDocs.constructor | lucene/core/src/java/org/apache/lucene/search/TopDocs.java:51-54 | stores totalHits and scoreDocs unchanged; the max score is "not tracked" |
| TopDocsMerge.TopDocs.WithMaxScore | lucene/core/src/java/org/apache/lucene/search/TopDocs.java:56-60 | stores totalHits, scoreDocs and maxScore unchanged |
| TopDocsMerge.TopDocs.SetMaxScore | lucene/core/src/java/org/apache/lucene/search/TopDocs.java:42-49 | getMaxScore() returns the value last set |
| TopDocsMerge.ShardRef.constructor | lucene/core/src/java/org/apache/lucene/search/TopDocs.java:63-72 | a new cursor has the given (final) shard index and hit index 0 |
| TopDocsMerge.ScoreMergeSortQueue.constructor | lucene/core/src/java/org/apache/lucene/search/TopDocs.java:85-91 | shardHits has one entry per shard, and entry i is shard i's scoreDocs array itself |
| TopDocsMerge.ScoreMergeSortQueue.KeyOf | lucene/core/src/java/org/apache/lucene/search/TopDocs.java:97-98 | the key of a cursor is the score of its current hit, with its shard index and hit index |
| TopDocsMerge.ScoreMergeSortQueue.LessThan | lucene/core/src/java/org/apache/lucene/search/TopDocs.java:95-117 | requires distinct cursors and, on equal score and shard, distinct hit indexes; true exactly when the first has the higher score, or an equal score and a lower shard, or equal score and shard and a lower hit index |
| TopDocsMerge.OutranksIrreflexive | lucene/core/src/java/org/apache/lucene/search/TopDocs.java:100-114 | no hit comes before itself |
| TopDocsMerge.OutranksTotal | lucene/core/src/java/org/apache/lucene/search/TopDocs.java:100-114 | of two hits in different shards or positions, exactly one comes first |
| TopDocsMerge.OutranksTransitive | lucene/core/src/java/org/apache/lucene/search/TopDocs.java:100-114 | the merge order is transitive |
| TopDocsMerge.ScoreMergeSortQueue.LessThanAntisymmetric | lucene/core/src/java/org/apache/lucene/search/TopDocs.java:95-117 | for two cursors on different hits exactly one of lessThan(a, b) and lessThan(b, a) holds |
| TopDocsMerge.ScoreMergeSortQueue.LessThanTransitive | lucene/core/src/java/org/apache/lucene/search/TopDocs.java:95-117 | lessThan is transitive on cursors on distinct hits |
| Searcher.OneSlicePerLeafCovers | lucene/core/src/java/org/apache/lucene/search/IndexSearcher.java:175-181 | one singleton slice per leaf in leaf order concatenates back to the leaves and has no empty slice: a complete, non-overlapping, order-preserving cover |
| Searcher.OneSlicePerLeafDisjoint | lucene/core/src/java/org/apache/lucene/search/IndexSearcher.java:177-180 | with distinct leaves, two different slices share no leaf |
| Searcher.IndexSearcher.Slices | lucene/core/src/java/org/apache/lucene/search/IndexSearcher.java:175-181 | returns a new array with as many slices as leaves, slice i holding exactly leaf i, and the slices are an ordered cover of the leaves |
| Searcher.IndexSearcher.constructor | lucene/core/src/java/org/apache/lucene/search/IndexSearcher.java:145-152 | requires a top-level context; keeps its reader, the context and its leaves; leafSlices is null exactly when no executor is given and otherwise a new array holding the one-slice-per-leaf cover; the similarity starts as the default |
| Searcher.IndexSearcher.GetDefaultSimilarity | lucene/core/src/java/org/apache/lucene/search/IndexSearcher.java:91-103 | the default similarity is an instance of DefaultSimilarity |
| Searcher.IndexSearcher.GetIndexReader | lucene/core/src/java/org/apache/lucene/search/IndexSearcher.java:184-187 | returns the reader of the top-level context the searcher was built on |
| Searcher.IndexSearcher.SetSimilarity | lucene/core/src/java/org/apache/lucene/search/IndexSearcher.java:224-230 | getSimilarity() returns the similarity last set |
| Searcher.IndexSearcher.WrapFilter | lucene/core/src/java/org/apache/lucene/search/IndexSearcher.java:233-235 | returns the query itself exactly when there is no filter, and otherwise a filtered query holding that query and that filter |

## Left out

- IndexFileDeleter.java defines only the fields of the deleter (84-116), not checkpoint, deleteCommits, incRef/decRef over file lists or deletion retries. The model keeps only the shared commitsToDelete list.
- The other fields of IndexFileDeleter (deleTable, refCounts, commits, lastFiles, infoStream, directory, policy, startingCommitDeleted, lastSegmentInfos, VERBOSE_REF_COUNTS, writer) are declared, and some initialised, but not otherwise used in IndexFileDeleter.java; they are not modelled.
- CommitPoint.toString and ShardRef.toString build diagnostic text only.
- CommitPoint's files, segmentsFileName, generation, directory and commitsToDelete are non-final in Java (IndexFileDeleter.java:156-161) but assigned only in the constructor; the model makes them constants.
- CommitPoint keeps the Collection returned by SegmentInfos.files (IndexFileDeleter.java:171); the model keeps it as a sequence in that order.
- SegmentInfos and Directory are not part of this model; a commit's metadata is passed in as a value.
- FileDeleter.CommitPoint.constructor: cannot fail. In Java it throws IOException when SegmentInfos.files cannot list the commit's files (IndexFileDeleter.java:165, 171); that call is not part of this model.
- Java assertions can be switched off at run time; the model treats each as a precondition, as if they were on.
- The PriorityQueue superclass (its heap and capacity) is not part of this model, and TopDocs.java holds no merge loop; only the ordering a merge would use is modelled.
- Float scores: NaN and rounding are not modelled. Scores are reals, so lessThan never sees an unordered pair.
- A null element in the TopDocs array handed to the queue constructor (a NullPointerException in Java) is excluded by the type.
- TopDocsMerge.ScoreMergeSortQueue.LessThan: requires both cursors to point at an existing hit (InRange). In Java a cursor on a null shard array or past its end throws NullPointerException or ArrayIndexOutOfBoundsException at TopDocs.java:97-98; the model does not represent those exceptions.
- IndexSearcher's thread-pool search, the document-fetch helpers doc/document and the reader-based constructors (which go through IndexReader.getContext, not part of this model) are left out. The one-argument context constructor is the modelled constructor with no executor.
- Searcher.IndexSearcher.Slices: is a static method here. In Java it is an overridable instance method, and overriding is not modelled.
- Searcher.IndexSearcher.SetSimilarity: a null similarity is not modelled.
