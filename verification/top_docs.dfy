/**
 * The hits of a search and the ordering used to merge the hits of several
 * shards, as in Lucene's TopDocs.
 *
 * Scores are Java floats in the source; here they are reals, a totally
 * ordered stand-in without NaN.
 */
module TopDocsMerge {

  /** One hit: a document number and its score. */
  datatype ScoreDoc = ScoreDoc(doc: int, score: real)

  /** A maximum score, or none when scores were not tracked (Java's Float.NaN). */
  datatype MaxScore = NotTracked | Tracked(value: real)

  /** The hits returned for a query. */
  class TopDocs {
    var totalHits: int
    var scoreDocs: array?<ScoreDoc>
    var maxScore: MaxScore

    /** Stores its arguments unchanged; maxScore defaults to "not tracked". */
    constructor (totalHits: int, scoreDocs: array?<ScoreDoc>)
      ensures this.totalHits == totalHits && this.scoreDocs == scoreDocs
      ensures GetMaxScore() == NotTracked
    {
      this.totalHits := totalHits;
      this.scoreDocs := scoreDocs;
      this.maxScore := NotTracked;
    }

    /** Stores its arguments unchanged. */
    constructor WithMaxScore(totalHits: int, scoreDocs: array?<ScoreDoc>, maxScore: MaxScore)
      ensures this.totalHits == totalHits && this.scoreDocs == scoreDocs
      ensures GetMaxScore() == maxScore
    {
      this.totalHits := totalHits;
      this.scoreDocs := scoreDocs;
      this.maxScore := maxScore;
    }

    function GetMaxScore(): MaxScore
      reads this
    {
      maxScore
    }

    method SetMaxScore(maxScore: MaxScore)
      modifies this`maxScore
      ensures GetMaxScore() == maxScore
    {
      this.maxScore := maxScore;
    }
  }

  /** A merge cursor: one shard, and the position of its current hit. */
  class ShardRef {
    const shardIndex: int
    var hitIndex: int

    constructor (shardIndex: int)
      ensures this.shardIndex == shardIndex && hitIndex == 0
    {
      this.shardIndex := shardIndex;
      hitIndex := 0;
    }
  }

  /** What the merge order looks at in a cursor. */
  datatype HitKey = HitKey(score: real, shardIndex: int, hitIndex: int)

  /**
   * The order the merge follows: higher score first, then lower shard index,
   * then lower position within the shard.
   */
  predicate Outranks(a: HitKey, b: HitKey)
  {
    || a.score > b.score
    || (a.score == b.score && a.shardIndex < b.shardIndex)
    || (a.score == b.score && a.shardIndex == b.shardIndex && a.hitIndex < b.hitIndex)
  }

  /** Two keys name different hits: different shards or different positions. */
  predicate DistinctHits(a: HitKey, b: HitKey)
  {
    a.shardIndex != b.shardIndex || a.hitIndex != b.hitIndex
  }

  lemma OutranksIrreflexive(a: HitKey)
    ensures !Outranks(a, a)
  {
  }

  /** On distinct hits exactly one of the two outranks the other. */
  lemma OutranksTotal(a: HitKey, b: HitKey)
    requires DistinctHits(a, b)
    ensures Outranks(a, b) != Outranks(b, a)
  {
  }

  lemma OutranksTransitive(a: HitKey, b: HitKey, c: HitKey)
    requires Outranks(a, b) && Outranks(b, c)
    ensures Outranks(a, c)
  {
  }

  /** Merges the hits of several shards by score, descending. */
  class ScoreMergeSortQueue {
    const shardHits: array<array?<ScoreDoc>>

    /** Takes each shard's hit array (by reference), in shard order. */
    constructor (shardHits: array<TopDocs>)
      ensures this.shardHits.Length == shardHits.Length
      ensures forall i :: 0 <= i < shardHits.Length ==> this.shardHits[i] == shardHits[i].scoreDocs
      ensures fresh(this.shardHits)
    {
      var hits := new array?<ScoreDoc>[shardHits.Length];
      var shardIdx := 0;
      while shardIdx < shardHits.Length
        invariant 0 <= shardIdx <= shardHits.Length
        invariant forall i :: 0 <= i < shardIdx ==> hits[i] == shardHits[i].scoreDocs
      {
        hits[shardIdx] := shardHits[shardIdx].scoreDocs;
        shardIdx := shardIdx + 1;
      }
      this.shardHits := hits;
    }

    /** The cursor points at an existing hit. */
    predicate InRange(r: ShardRef)
      reads this, shardHits, r
    {
      && 0 <= r.shardIndex < shardHits.Length
      && shardHits[r.shardIndex] != null
      && 0 <= r.hitIndex < shardHits[r.shardIndex].Length
    }

    function KeyOf(r: ShardRef): (k: HitKey)
      requires InRange(r)
      reads this, shardHits, shardHits[r.shardIndex], r
      ensures k.shardIndex == r.shardIndex && k.hitIndex == r.hitIndex
    {
      HitKey(shardHits[r.shardIndex][r.hitIndex].score, r.shardIndex, r.hitIndex)
    }

    /**
     * True if `first` comes before `second` in the merged order. Requires two
     * different cursors, and different positions when scores and shards tie.
     */
    function LessThan(first: ShardRef, second: ShardRef): (r: bool)
      requires first != second
      requires InRange(first) && InRange(second)
      requires KeyOf(first).score == KeyOf(second).score && first.shardIndex == second.shardIndex
               ==> first.hitIndex != second.hitIndex
      reads this, shardHits, shardHits[first.shardIndex], shardHits[second.shardIndex], first, second
      ensures r <==> Outranks(KeyOf(first), KeyOf(second))
    {
      var firstScore := shardHits[first.shardIndex][first.hitIndex].score;
      var secondScore := shardHits[second.shardIndex][second.hitIndex].score;
      if firstScore < secondScore then
        false
      else if firstScore > secondScore then
        true
      else if first.shardIndex < second.shardIndex then
        true
      else if first.shardIndex > second.shardIndex then
        false
      else
        first.hitIndex < second.hitIndex
    }

    /** Exactly one of two cursors on different hits comes first. */
    lemma LessThanAntisymmetric(a: ShardRef, b: ShardRef)
      requires a != b && InRange(a) && InRange(b)
      requires DistinctHits(KeyOf(a), KeyOf(b))
      ensures LessThan(a, b) != LessThan(b, a)
    {
      OutranksTotal(KeyOf(a), KeyOf(b));
    }

    lemma LessThanTransitive(a: ShardRef, b: ShardRef, c: ShardRef)
      requires a != b && b != c && a != c
      requires InRange(a) && InRange(b) && InRange(c)
      requires DistinctHits(KeyOf(a), KeyOf(b)) && DistinctHits(KeyOf(b), KeyOf(c))
      requires DistinctHits(KeyOf(a), KeyOf(c))
      requires LessThan(a, b) && LessThan(b, c)
      ensures LessThan(a, c)
    {
      OutranksTransitive(KeyOf(a), KeyOf(b), KeyOf(c));
    }
  }
}
