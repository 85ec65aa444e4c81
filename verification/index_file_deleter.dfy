/**
 * Reference counting of index files and the retirement bookkeeping of commit
 * points, as kept by Lucene's IndexFileDeleter.
 *
 * A `RefCount` counts how many live commits or checkpoints reference one file.
 * A `CommitPoint` is the snapshot of one committed generation; the deletion
 * policy retires it by calling `Delete`, which enrolls it once in the list of
 * commits to delete that it shares with the deleter.
 */
module FileDeleter {
  import opened Wrappers

  // ---------------------------------------------------------------------------
  // Java `int` arithmetic
  // ---------------------------------------------------------------------------

  const INT_MIN: int := -0x8000_0000
  const INT_MAX: int := 0x7fff_ffff

  predicate IsInt32(x: int) { INT_MIN <= x <= INT_MAX }

  /** Java's `++` on an `int`: wraps from INT_MAX to INT_MIN. */
  function Int32Inc(x: int): (r: int)
    requires IsInt32(x)
    ensures IsInt32(r)
    ensures x < INT_MAX ==> r == x + 1
    ensures x == INT_MAX ==> r == INT_MIN
  {
    if x == INT_MAX then INT_MIN else x + 1
  }

  // ---------------------------------------------------------------------------
  // The reference count of one file as a state machine
  // ---------------------------------------------------------------------------

  /** What a RefCount holds besides its file name. */
  datatype RefState = RefState(initDone: bool, count: int)

  /** A RefCount as its constructor leaves it. */
  const Fresh: RefState := RefState(false, 0)

  datatype Op = Inc | Dec

  /**
   * One call of IncRef or DecRef; `None` when the call's assertion fails
   * (the count is not positive before an increment after initialisation, or
   * before any decrement).
   */
  function Step(s: RefState, op: Op): (r: Option<RefState>)
    requires IsInt32(s.count)
    ensures r.Some? ==> IsInt32(r.value.count)
    ensures r.Some? <==> (if op == Inc then !s.initDone || s.count > 0 else s.count > 0)
  {
    match op
    case Inc =>
      if !s.initDone then Some(RefState(true, Int32Inc(s.count)))
      else if s.count > 0 then Some(RefState(true, Int32Inc(s.count)))
      else None
    case Dec =>
      if s.count > 0 then Some(RefState(s.initDone, s.count - 1)) else None
  }

  /** A sequence of calls, stopping at the first failed assertion. */
  function Run(s: RefState, ops: seq<Op>): (r: Option<RefState>)
    requires IsInt32(s.count)
    ensures r.Some? ==> IsInt32(r.value.count)
    decreases |ops|
  {
    if ops == [] then Some(s)
    else
      match Step(s, ops[0])
      case None => None
      case Some(t) => Run(t, ops[1..])
  }

  function Incs(ops: seq<Op>): nat
  {
    if ops == [] then 0 else (if ops[0] == Inc then 1 else 0) + Incs(ops[1..])
  }

  function Decs(ops: seq<Op>): nat
  {
    if ops == [] then 0 else (if ops[0] == Dec then 1 else 0) + Decs(ops[1..])
  }

  /** Running two sequences of calls one after the other is running their concatenation. */
  lemma {:induction false} RunAppend(s: RefState, a: seq<Op>, b: seq<Op>)
    requires IsInt32(s.count)
    ensures Run(s, a + b) ==
      match Run(s, a)
      case None => None
      case Some(t) => Run(t, b)
    decreases |a|
  {
    if a == [] {
      assert a + b == b;
    } else {
      assert (a + b)[0] == a[0];
      assert (a + b)[1..] == a[1..] + b;
      match Step(s, a[0])
      case None =>
      case Some(t) =>
        RunAppend(t, a[1..], b);
    }
  }

  /**
   * Along any run whose assertions all hold, starting from a state reachable
   * from a fresh RefCount and too short to overflow, the count is the number
   * of increments minus the number of decrements, it is never negative, and
   * the RefCount is initialised as soon as anything happened to it.
   */
  lemma {:induction false} RunCounts(s: RefState, ops: seq<Op>)
    requires 0 <= s.count && s.count + |ops| <= INT_MAX
    requires !s.initDone ==> s.count == 0
    requires Run(s, ops).Some?
    ensures Run(s, ops).value.count == s.count + Incs(ops) - Decs(ops)
    ensures Run(s, ops).value.count >= 0
    ensures Run(s, ops).value.initDone == (s.initDone || ops != [])
    decreases |ops|
  {
    if ops != [] {
      var t := Step(s, ops[0]).value;
      assert Run(s, ops) == Run(t, ops[1..]);
      RunCounts(t, ops[1..]);
    }
  }

  /** Starting from a fresh RefCount: the count is increments minus decrements. */
  lemma FreshRunCounts(ops: seq<Op>)
    requires |ops| <= INT_MAX
    requires Run(Fresh, ops).Some?
    ensures Run(Fresh, ops).value.count == Incs(ops) - Decs(ops) >= 0
    ensures Run(Fresh, ops).value.initDone <==> ops != []
  {
    RunCounts(Fresh, ops);
  }

  /**
   * A RefCount whose count has fallen back to 0 after initialisation can
   * never be incremented or decremented again: every further call fails its
   * assertion.
   */
  lemma {:induction false} DeadStaysDead(prefix: seq<Op>, more: seq<Op>)
    requires Run(Fresh, prefix) == Some(RefState(true, 0))
    requires more != []
    ensures Run(Fresh, prefix + more) == None
  {
    RunAppend(Fresh, prefix, more);
    assert Run(RefState(true, 0), more) == None by {
      assert Step(RefState(true, 0), more[0]) == None;
    }
  }

  /**
   * An increment followed by a decrement on an initialised, live RefCount
   * restores it; on a fresh one it restores the count but leaves it
   * initialised, so that it is then dead.
   */
  lemma IncThenDecRestores(s: RefState)
    requires 0 <= s.count < INT_MAX
    requires s.initDone ==> s.count > 0
    ensures Run(s, [Inc, Dec]) == Some(RefState(true, s.count))
    ensures s.initDone ==> Run(s, [Inc, Dec]) == Some(s)
  {
  }

  // ---------------------------------------------------------------------------
  // RefCount
  // ---------------------------------------------------------------------------

  /** Tracks the reference count for a single index file. */
  class RefCount {
    const fileName: string
    var initDone: bool
    var count: int

    ghost predicate Valid()
      reads this
    {
      IsInt32(count)
    }

    ghost function State(): RefState
      reads this
    {
      RefState(initDone, count)
    }

    constructor (fileName: string)
      ensures this.fileName == fileName
      ensures Valid() && State() == Fresh
    {
      this.fileName := fileName;
      initDone := false;
      count := 0;
    }

    /**
     * The first call initialises the count without checking it; later calls
     * require a positive count. Returns the incremented count.
     */
    method IncRef() returns (r: int)
      requires Valid()
      requires initDone ==> count > 0
      modifies this`initDone, this`count
      ensures Valid() && initDone
      ensures count == Int32Inc(old(count)) && r == count
      ensures old(count) < INT_MAX ==> count == old(count) + 1
      ensures Step(old(State()), Inc) == Some(State())
    {
      if !initDone {
        initDone := true;
      }
      count := if count == INT_MAX then INT_MIN else count + 1;
      r := count;
    }

    /** Requires a positive count; returns the decremented count, never negative. */
    method DecRef() returns (r: int)
      requires Valid()
      requires count > 0
      modifies this`count
      ensures Valid()
      ensures count == old(count) - 1 && r == count && r >= 0
      ensures initDone == old(initDone)
      ensures Step(old(State()), Dec) == Some(State())
    {
      count := count - 1;
      r := count;
    }
  }

  // ---------------------------------------------------------------------------
  // Commit points and the shared list of commits to delete
  // ---------------------------------------------------------------------------

  /** Opaque handle for the storage directory a commit lives in. */
  datatype Directory = Directory(id: nat)

  /** What a CommitPoint reads from the SegmentInfos of its commit. */
  datatype SegmentInfos = SegmentInfos(
    userData: map<string, string>,
    segmentsFileName: string,
    generation: int,
    files: seq<string>,
    size: nat)

  predicate NoDuplicates<T(==)>(s: seq<T>)
  {
    forall i, j :: 0 <= i < j < |s| ==> s[i] != s[j]
  }

  /**
   * The list of commits the deletion policy has decided to delete, shared by
   * the deleter and every commit point it creates. `members` is the set of
   * commit points that share it.
   */
  class CommitList {
    var items: seq<CommitPoint>
    ghost var members: set<CommitPoint>

    /**
     * Exactly the deleted members are enrolled, each once, and nothing else
     * is enrolled.
     */
    ghost predicate Valid()
      reads this, members
    {
      && (forall c :: c in members ==> c.commitsToDelete == this)
      && (forall c :: c in members ==> (c.deleted <==> c in items))
      && (forall c :: c in items ==> c in members)
      && NoDuplicates(items)
    }

    constructor ()
      ensures Valid() && items == [] && members == {}
    {
      items := [];
      members := {};
    }
  }

  /** Holds the details of one commit point; also handed to the deletion policy. */
  class CommitPoint {
    const files: seq<string>
    const segmentsFileName: string
    var deleted: bool
    const directory: Directory
    const commitsToDelete: CommitList
    const generation: int
    const userData: map<string, string>
    const segmentCount: nat

    /** Captures the commit's metadata; the new commit is not deleted. */
    constructor (commitsToDelete: CommitList, directory: Directory, segmentInfos: SegmentInfos)
      modifies commitsToDelete`members
      ensures GetDirectory() == directory && this.commitsToDelete == commitsToDelete
      ensures GetUserData() == segmentInfos.userData
      ensures GetSegmentsFileName() == segmentInfos.segmentsFileName
      ensures GetGeneration() == segmentInfos.generation
      ensures GetFileNames() == segmentInfos.files
      ensures GetSegmentCount() == segmentInfos.size
      ensures !IsDeleted()
      ensures commitsToDelete.members == old(commitsToDelete.members) + {this}
      ensures commitsToDelete.items == old(commitsToDelete.items)
      ensures old(commitsToDelete.Valid()) ==> commitsToDelete.Valid()
    {
      this.directory := directory;
      this.commitsToDelete := commitsToDelete;
      userData := segmentInfos.userData;
      segmentsFileName := segmentInfos.segmentsFileName;
      generation := segmentInfos.generation;
      files := segmentInfos.files;
      segmentCount := segmentInfos.size;
      deleted := false;
      new;
      commitsToDelete.members := commitsToDelete.members + {this};
    }

    function GetSegmentCount(): nat { segmentCount }

    function GetSegmentsFileName(): string { segmentsFileName }

    /** The commit's files, a read-only collection. */
    function GetFileNames(): seq<string> { files }

    function GetDirectory(): Directory { directory }

    function GetGeneration(): int { generation }

    function GetUserData(): map<string, string> { userData }

    function IsDeleted(): bool
      reads this
    {
      deleted
    }

    /**
     * Called by the deletion policy to retire this commit. The first call
     * marks it deleted and enrolls it in the shared list; later calls change
     * nothing.
     */
    method Delete()
      modifies this`deleted, commitsToDelete`items
      ensures IsDeleted()
      ensures old(deleted) ==> commitsToDelete.items == old(commitsToDelete.items)
      ensures !old(deleted) ==> commitsToDelete.items == old(commitsToDelete.items) + [this]
      ensures old(this in commitsToDelete.members && commitsToDelete.Valid()) ==>
                this in commitsToDelete.items && commitsToDelete.Valid()
    {
      if !deleted {
        deleted := true;
        commitsToDelete.items := commitsToDelete.items + [this];
      }
    }
  }
}
