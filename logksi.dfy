/*
 * The LOGKSI context: the per-file and per-block bookkeeping that every task
 * driver shares, the growable line buffer, and the monotone error level.
 */
module Logksi {
  import opened BlocksInfo

  /** Size of the line buffer's first allocation. */
  const LineBufferInitial: nat := 1024

  /**
   * Verification result levels.  Their values live in a header that is not part of
   * this model; what is proved about them holds for any `VerResInvalid < VerResCount`.
   */
  const VerResInvalid: int := 0
  const VerResCount: int := 4

  function Min(a: nat, b: nat): nat { if a <= b then a else b }
  function Max(a: int, b: int): int { if a >= b then a else b }

  function Pow2(k: nat): (r: nat)
    ensures r >= 1
  {
    if k == 0 then 1 else 2 * Pow2(k - 1)
  }

  /**
   * What the model sees of a block's Merkle tree: the root of the unmerged subtree
   * at each level (None when the slot is empty); the tree's height is the length.
   */
  datatype TreeView = TreeView(subTreeRoots: seq<Option<Hash>>)

  /** Every field of the context except the bytes of the line buffer. */
  datatype Context = Context(
    taskId: TaskId,
    blockNo: nat,
    currentLine: nat,
    quietError: Res,
    isContinuedOnFail: bool,
    sigNo: nat,
    sigTime0: nat,
    tree: Option<TreeView>,
    logLineCapacity: nat,
    logLineLen: nat,
    verRes: int,
    task: TaskState,
    file: FileInfo,
    block: BlockInfo)

  /** The state `LOGKSI_initialize` establishes. */
  const Initial: Context :=
    Context(TaskNone, 0, 0, Ok, false, 0, 0, None, 0, 0, VerResInvalid, InitialTask, InitialFile, InitialBlock)

  // ---------------------------------------------------------------------
  // Block boundary
  // ---------------------------------------------------------------------

  /** Per-block parts of the task state, cleared at every block boundary. */
  function ResetTaskBlockInfo(t: TaskState): TaskState {
    t.(sign := t.sign.(curBlockJustReSigned := false),
       integrate := t.integrate.(unsignedRootHash := false),
       extend := ExtendTask(0),
       extract := t.extract.(
         metaRecord := None,
         info := match t.extract.info
                 case None => None
                 case Some(e) => Some(e.(inBlock := []))))
  }

  /** The context at the start of the next block (block number, signing times, counters). */
  function NextBlock(c: Context): Context {
    var carried := c.block.sigTime1 > 0 || c.block.curBlockNotSigned;
    c.(blockNo := c.blockNo + 1,
       sigTime0 := if carried then c.block.sigTime1 else c.sigTime0,
       block := InitialBlock.(firstLineNo := c.file.nofTotalRecordHashes + 1),
       task := ResetTaskBlockInfo(c.task))
  }

  /** Number of log lines accounted for so far: finished blocks plus the current one. */
  function NofLines(c: Context): nat {
    c.block.nofRecordHashes + c.file.nofTotalRecordHashes
  }

  /**
   * Starting a block numbers it one past the previous, carries the closing signing time
   * forward only when it was set (or the block was explicitly unsigned), and leaves
   * the file counters and the signature count alone.
   */
  lemma NextBlockAdvances(c: Context)
    ensures NextBlock(c).blockNo == c.blockNo + 1
    ensures NextBlock(c).block.firstLineNo == c.file.nofTotalRecordHashes + 1
    ensures c.block.sigTime1 > 0 || c.block.curBlockNotSigned ==> NextBlock(c).sigTime0 == c.block.sigTime1
    ensures !(c.block.sigTime1 > 0 || c.block.curBlockNotSigned) ==> NextBlock(c).sigTime0 == c.sigTime0
    ensures NextBlock(c).block.sigTime1 == 0 && !NextBlock(c).block.signatureTLVReached
    ensures NextBlock(c).file == c.file && NextBlock(c).sigNo == c.sigNo
    ensures NextBlock(c).quietError == c.quietError && NextBlock(c).verRes == c.verRes
  {
  }

  /** At the start of a block the line count and the block's first line agree. */
  lemma NofLinesAtBlockStart(c: Context)
    ensures NofLines(NextBlock(c)) + 1 == NextBlock(c).block.firstLineNo
    ensures BlockCountersValid(NextBlock(c).block)
  {
  }

  /** `k` consecutive block headers. */
  function NextBlocks(c: Context, k: nat): Context {
    if k == 0 then c else NextBlock(NextBlocks(c, k - 1))
  }

  /**
   * Over any number of block headers the block number counts the headers, and the
   * previous signing time is either the one held before or one that a block closed with.
   */
  lemma {:induction false} NextBlocksCountHeaders(c: Context, k: nat)
    ensures NextBlocks(c, k).blockNo == c.blockNo + k
    ensures NextBlocks(c, k).file == c.file
    ensures k > 0 ==> NextBlocks(c, k).block.sigTime1 == 0
    ensures NextBlocks(c, k).sigTime0 == c.sigTime0 || NextBlocks(c, k).sigTime0 == c.block.sigTime1
  {
    if k > 0 {
      NextBlocksCountHeaders(c, k - 1);
    }
  }

  // ---------------------------------------------------------------------
  // Aggregation level
  // ---------------------------------------------------------------------

  /** Number of halvings that bring `c` to zero (the bit length of `c`). */
  function Halvings(c: nat): nat {
    if c == 0 then 0 else 1 + Halvings(c / 2)
  }

  /** Level at which a block's root is signed, given the declared record count. */
  function AggregationLevel(version: LogSigVersion, recordCount: nat): nat {
    if version == LogSig11 then 0
    else if recordCount == 0 then 0
    else 1 + Halvings(recordCount - 1)
  }

  lemma {:induction false} HalvingsBounds(c: nat)
    ensures c < Pow2(Halvings(c))
    ensures c > 0 ==> Pow2(Halvings(c) - 1) <= c
  {
    if c > 0 {
      HalvingsBounds(c / 2);
    }
  }

  lemma {:induction false} Pow2Monotone(a: nat, b: nat)
    requires a <= b
    ensures Pow2(a) <= Pow2(b)
  {
    if a < b {
      Pow2Monotone(a, b - 1);
    }
  }

  /**
   * For a current-format block the level is one more than the height of the smallest
   * binary tree holding `recordCount` leaves: `recordCount <= 2^(level-1)`, and
   * `2^(level-2) < recordCount` once the level is at least 2.
   */
  lemma AggregationLevelIsTreeHeight(version: LogSigVersion, recordCount: nat)
    requires version != LogSig11 && recordCount > 0
    ensures AggregationLevel(version, recordCount) >= 1
    ensures recordCount <= Pow2(AggregationLevel(version, recordCount) - 1)
    ensures AggregationLevel(version, recordCount) >= 2 ==> Pow2(AggregationLevel(version, recordCount) - 2) < recordCount
  {
    HalvingsBounds(recordCount - 1);
  }

  /** Those two bounds pin the level down: a level satisfying them is the aggregation level. */
  lemma AggregationLevelUnique(version: LogSigVersion, recordCount: nat, k: nat)
    requires version != LogSig11 && recordCount > 0
    requires recordCount <= Pow2(k) && (k > 0 ==> Pow2(k - 1) < recordCount)
    ensures AggregationLevel(version, recordCount) == k + 1
  {
    AggregationLevelIsTreeHeight(version, recordCount);
    var l := AggregationLevel(version, recordCount);
    if l - 1 < k {
      Pow2Monotone(l - 1, k - 1);
    } else if l - 1 > k {
      Pow2Monotone(k, l - 2);
    }
  }

  /** The legacy format always signs at level 0; no records also gives 0; 1 record gives 1, 5..8 give 4, 9..16 give 5. */
  lemma AggregationLevelExamples(version: LogSigVersion, recordCount: nat)
    ensures AggregationLevel(LogSig11, recordCount) == 0
    ensures AggregationLevel(version, 0) == 0
    ensures version != LogSig11 ==> AggregationLevel(version, 1) == 1
    ensures version != LogSig11 && 5 <= recordCount <= 8 ==> AggregationLevel(version, recordCount) == 4
    ensures version != LogSig11 && 9 <= recordCount <= 16 ==> AggregationLevel(version, recordCount) == 5
  {
    if version != LogSig11 && 5 <= recordCount <= 8 {
      AggregationLevelUnique(version, recordCount, 3);
    }
    if version != LogSig11 && 9 <= recordCount <= 16 {
      AggregationLevelUnique(version, recordCount, 4);
    }
  }

  // ---------------------------------------------------------------------
  // Line buffer growth
  // ---------------------------------------------------------------------

  /** Capacity after one growth step: 1024 at first, then doubling, never beyond the limit. */
  function NextCapacity(cap: nat, limit: nat): (r: nat)
    requires cap < limit
    ensures cap < r <= limit
  {
    if cap == 0 then Min(LineBufferInitial, limit) else Min(2 * cap, limit)
  }

  /** Capacity reached by growing from `cap` until `need` bytes fit; None when the limit is hit first. */
  function FitCapacity(cap: nat, need: nat, limit: nat): Option<nat>
    requires 0 < cap <= limit
    decreases limit - cap
  {
    if need <= cap then Some(cap)
    else if cap == limit then None
    else FitCapacity(NextCapacity(cap, limit), need, limit)
  }

  /** Capacity the buffer has before its first read: unchanged unless nothing was allocated yet. */
  function FirstCapacity(cap: nat, limit: nat): nat
    requires cap <= limit && limit > 0
  {
    if cap == 0 then NextCapacity(0, limit) else cap
  }

  /**
   * Growth succeeds exactly when the need is within the limit; the capacity reached holds
   * the need, stays within the limit, and is less than twice the need whenever growth was needed.
   */
  lemma {:induction false} FitCapacityCorrect(cap: nat, need: nat, limit: nat)
    requires 0 < cap <= limit
    ensures FitCapacity(cap, need, limit).Some? <==> need <= limit
    ensures FitCapacity(cap, need, limit).Some? ==>
      var c := FitCapacity(cap, need, limit).value;
      need <= c <= limit && (c == cap || c < 2 * need)
    decreases limit - cap
  {
    if need > cap && cap < limit {
      var next := NextCapacity(cap, limit);
      FitCapacityCorrect(next, need, limit);
      if need <= next {
        assert FitCapacity(cap, need, limit) == Some(next);
      }
    }
  }

  /** The line source: the rest of the current line, or a reader that fails with an error code. */
  datatype LineSource = Line(text: seq<char>) | Unreadable(code: nat)

  /**
   * What the reader delivers when asked for the rest of `text` from `offset` with room
   * for `room` characters: the rest if it fits, otherwise `room` characters and a
   * "buffer too small" report (the first component).
   */
  function ReadChunk(text: seq<char>, offset: nat, room: nat): (r: (bool, nat))
    requires offset <= |text|
    ensures r.1 <= room && offset + r.1 <= |text|
    ensures !r.0 <==> offset + r.1 == |text|
    ensures r.0 ==> r.1 == room
  {
    if |text| - offset <= room then (false, |text| - offset) else (true, room)
  }

  // ---------------------------------------------------------------------
  // Error level
  // ---------------------------------------------------------------------

  predicate ErrorLevelAccepted(lvl: int) {
    lvl != VerResInvalid && lvl < VerResCount
  }

  /** The stored level after a series of `LOGKSI_setErrorLevel` calls. */
  function ApplyErrorLevels(stored: int, lvls: seq<int>): int {
    if lvls == [] then stored
    else
      var last := lvls[|lvls| - 1];
      var before := ApplyErrorLevels(stored, lvls[..|lvls| - 1]);
      if ErrorLevelAccepted(last) then Max(before, last) else before
  }

  /**
   * The stored level never decreases: after any series of calls it is at least the
   * initial level and at least every accepted level, and it is one of those values.
   */
  lemma {:induction false} ErrorLevelIsMaximum(stored: int, lvls: seq<int>)
    ensures ApplyErrorLevels(stored, lvls) >= stored
    ensures forall i | 0 <= i < |lvls| && ErrorLevelAccepted(lvls[i]) :: ApplyErrorLevels(stored, lvls) >= lvls[i]
    ensures ApplyErrorLevels(stored, lvls) == stored ||
            exists i | 0 <= i < |lvls| :: ErrorLevelAccepted(lvls[i]) && ApplyErrorLevels(stored, lvls) == lvls[i]
  {
    if lvls != [] {
      var init := lvls[..|lvls| - 1];
      ErrorLevelIsMaximum(stored, init);
      forall i | 0 <= i < |init| ensures init[i] == lvls[i] { }
      var before := ApplyErrorLevels(stored, init);
      if before != stored && ApplyErrorLevels(stored, lvls) == before {
        var i :| 0 <= i < |init| && ErrorLevelAccepted(init[i]) && before == init[i];
        assert lvls[i] == init[i];
      }
    }
  }

  // ---------------------------------------------------------------------
  // Final hashes
  // ---------------------------------------------------------------------

  function SubTreeRoots(c: Context): seq<Option<Hash>> {
    match c.tree
    case None => []
    case Some(t) => t.subTreeRoots
  }

  /** Levels holding an unmerged subtree root. */
  ghost function NonEmptyLevels(roots: seq<Option<Hash>>): set<nat> {
    set i: nat | i < |roots| && roots[i].Some?
  }

  lemma NonEmptyLevelsStep(roots: seq<Option<Hash>>, i: nat)
    requires i < |roots|
    ensures NonEmptyLevels(roots[..i + 1]) ==
            NonEmptyLevels(roots[..i]) + (if roots[i].Some? then {i} else {})
    ensures i !in NonEmptyLevels(roots[..i])
  {
    var a := roots[..i + 1];
    var b := roots[..i];
    assert forall k: nat | k < i :: a[k] == b[k];
  }

  // ---------------------------------------------------------------------
  // The context object
  // ---------------------------------------------------------------------

  class Logksi {
    const lineBufferLimit: nat

    var taskId: TaskId
    var blockNo: nat
    var currentLine: nat
    var quietError: Res
    var isContinuedOnFail: bool
    var sigNo: nat
    var sigTime0: nat
    var tree: Option<TreeView>
    var logLine: array<char>
    var logLineCapacity: nat
    var logLineLen: nat
    var verRes: int
    var task: TaskState
    var file: FileInfo
    var block: BlockInfo

    /**
     * The line buffer is an allocation of exactly `logLineCapacity` characters (none
     * while the capacity is 0), never larger than the limit, and large enough for the
     * line terminator and the string end.
     */
    ghost predicate Valid()
      reads this
    {
      && lineBufferLimit >= 2
      && logLine.Length == logLineCapacity
      && logLineCapacity <= lineBufferLimit
      && (logLineCapacity == 0 || logLineCapacity >= 2)
      && logLineLen <= logLineCapacity
    }

    function Value(): Context
      reads this
    {
      Context(taskId, blockNo, currentLine, quietError, isContinuedOnFail, sigNo, sigTime0,
              tree, logLineCapacity, logLineLen, verRes, task, file, block)
    }

    constructor (limit: nat)
      requires limit >= 2
      ensures Valid() && Value() == Initial && lineBufferLimit == limit
    {
      lineBufferLimit := limit;
      taskId := TaskNone;
      blockNo, currentLine, sigNo, sigTime0 := 0, 0, 0, 0;
      quietError := Ok;
      isContinuedOnFail := false;
      tree := None;
      logLine := new char[0];
      logLineCapacity, logLineLen := 0, 0;
      verRes := VerResInvalid;
      task := InitialTask;
      file := InitialFile;
      block := InitialBlock;
    }

    /** Every counter, flag and reference back to its initial value. */
    method Initialize()
      requires Valid()
      modifies this
      ensures Valid() && Value() == Initial
    {
      var buf := new char[0];
      taskId, blockNo, currentLine, quietError, isContinuedOnFail, sigNo, sigTime0 :=
        TaskNone, 0, 0, Ok, false, 0, 0;
      tree, logLine, logLineCapacity, logLineLen, verRes := None, buf, 0, 0, VerResInvalid;
      task, file, block := InitialTask, InitialFile, InitialBlock;
    }

    /** Releases the tree, the line buffer and all held hashes, then re-initialises. */
    method FreeAndClearInternals()
      requires Valid()
      modifies this
      ensures Valid() && Value() == Initial
    {
      Initialize();
    }

    /**
     * Returns the line buffer, growing it first when nothing is allocated yet or when
     * `incr` asks for more room.  At the limit, growth fails and nothing changes.
     */
    method GetLineBuffer(incr: bool) returns (res: Res)
      requires Valid()
      modifies this
      ensures Valid()
      ensures !(old(logLineCapacity) == 0 || incr) ==>
        res == Ok && logLine == old(logLine) && logLineCapacity == old(logLineCapacity)
      ensures (old(logLineCapacity) == 0 || incr) && old(logLineCapacity) == lineBufferLimit ==>
        res == IndexOverflow && logLine == old(logLine) && logLineCapacity == old(logLineCapacity)
      ensures (old(logLineCapacity) == 0 || incr) && old(logLineCapacity) < lineBufferLimit ==>
        && res == Ok
        && logLineCapacity == NextCapacity(old(logLineCapacity), lineBufferLimit)
        && fresh(logLine)
        && logLine[..old(logLineCapacity)] == old(logLine[..])
      ensures Value() == old(Value()).(logLineCapacity := logLineCapacity)
    {
      if logLineCapacity == 0 || incr {
        if logLineCapacity == lineBufferLimit {
          return IndexOverflow;
        }
        var newCap := if logLineCapacity == 0 then LineBufferInitial else logLineCapacity * 2;
        if newCap > lineBufferLimit {
          newCap := lineBufferLimit;
        }
        var tmp := new char[newCap];
        forall k | 0 <= k < logLineCapacity {
          tmp[k] := logLine[k];
        }
        logLine := tmp;
        logLineCapacity := newCap;
      }
      res := Ok;
    }

    /**
     * Reads one line into the buffer, growing it while the reader reports that it is too
     * small.  On success the buffer holds the line, then '\n', then '\0', and the length
     * counts the line and its '\n'.  A reader error is returned as it is, after the
     * first allocation.
     */
    method ReadLine(source: LineSource) returns (res: Res)
      requires Valid()
      modifies this, logLine
      ensures Valid()
      ensures source.Line? ==>
        match LineCapacity(old(logLineCapacity), |source.text| + 2, lineBufferLimit)
        case Some(cap) =>
          && res == Ok
          && logLineCapacity == cap
          && logLineLen == |source.text| + 1
          && logLineLen < logLineCapacity
          && logLine[..logLineLen] == source.text + ['\n']
          && logLine[logLineLen] == '\0'
        case None =>
          res == IndexOverflow && logLineCapacity == lineBufferLimit && logLineLen == old(logLineLen)
      ensures source.Unreadable? ==>
        && res == Failed(source.code)
        && logLineCapacity == FirstCapacity(old(logLineCapacity), lineBufferLimit)
        && logLineLen == old(logLineLen)
      ensures Value() == old(Value()).(logLineCapacity := logLineCapacity, logLineLen := logLineLen)
    {
      match source
      case Unreadable(code) =>
        res := GetLineBuffer(false);
        res := Failed(code);
      case Line(text) =>
        res := ReadText(text);
    }

    method ReadText(text: seq<char>) returns (res: Res)
      requires Valid()
      modifies this, logLine
      ensures Valid()
      ensures match LineCapacity(old(logLineCapacity), |text| + 2, lineBufferLimit)
        case Some(cap) =>
          && res == Ok
          && logLineCapacity == cap
          && logLineLen == |text| + 1
          && logLineLen < logLineCapacity
          && logLine[..logLineLen] == text + ['\n']
          && logLine[logLineLen] == '\0'
        case None =>
          res == IndexOverflow && logLineCapacity == lineBufferLimit && logLineLen == old(logLineLen)
      ensures Value() == old(Value()).(logLineCapacity := logLineCapacity, logLineLen := logLineLen)
    {
      ghost var cap0 := logLineCapacity;
      ghost var need := |text| + 2;
      var i: nat := 0;
      var readCount: nat := 0;
      var more := true;
      while more
        invariant Valid()
        invariant logLine == old(logLine) || fresh(logLine)
        invariant Value() == old(Value()).(logLineCapacity := logLineCapacity)
        invariant readCount <= logLine.Length && readCount <= |text|
        invariant logLine[..readCount] == text[..readCount]
        invariant i == 0 ==> readCount == 0 && logLineCapacity == cap0
        invariant i > 0 && more ==> 0 < logLineCapacity && readCount + 2 == logLineCapacity < need
        invariant i > 0 && more ==>
          LineCapacity(cap0, need, lineBufferLimit) == FitCapacity(logLineCapacity, need, lineBufferLimit)
        invariant !more ==>
          && readCount == |text| && readCount + 2 <= logLineCapacity
          && LineCapacity(cap0, need, lineBufferLimit) == Some(logLineCapacity)
        decreases more, lineBufferLimit - logLineCapacity, if i == 0 then 1 else 0
      {
        res := GrowForRead(i > 0, text, readCount);
        if res != Ok {
          return;
        }
        assert LineCapacity(cap0, need, lineBufferLimit) == FitCapacity(logLineCapacity, need, lineBufferLimit);
        var room := logLineCapacity - readCount - 2;
        var chunk := ReadChunk(text, readCount, room);
        var c := chunk.1;
        CopyLinePart(text, readCount, c);
        readCount := readCount + c;
        i := i + 1;
        more := chunk.0;
      }
      logLine[readCount] := '\n';
      logLine[readCount + 1] := '\0';
      logLineLen := readCount + 1;
      assert logLine[..logLineLen] == logLine[..readCount] + ['\n'];
      res := Ok;
    }

    /** `GetLineBuffer`, keeping the part of the line already read. */
    method GrowForRead(incr: bool, text: seq<char>, readCount: nat) returns (res: Res)
      requires Valid()
      requires readCount <= logLine.Length && readCount <= |text|
      requires logLine[..readCount] == text[..readCount]
      modifies this
      ensures Valid()
      ensures !(old(logLineCapacity) == 0 || incr) ==>
        res == Ok && logLine == old(logLine) && logLineCapacity == old(logLineCapacity)
      ensures (old(logLineCapacity) == 0 || incr) && old(logLineCapacity) == lineBufferLimit ==>
        res == IndexOverflow && logLine == old(logLine) && logLineCapacity == old(logLineCapacity)
      ensures (old(logLineCapacity) == 0 || incr) && old(logLineCapacity) < lineBufferLimit ==>
        res == Ok && logLineCapacity == NextCapacity(old(logLineCapacity), lineBufferLimit) && fresh(logLine)
      ensures logLine[..readCount] == text[..readCount]
      ensures Value() == old(Value()).(logLineCapacity := logLineCapacity)
    {
      ghost var capBefore := logLineCapacity;
      ghost var bufBefore := logLine[..];
      res := GetLineBuffer(incr);
      assert logLine[..readCount] == logLine[..capBefore][..readCount];
      assert bufBefore[..readCount] == text[..readCount];
    }

    /** Stores `c` more characters of `text` after the `from` already in the buffer. */
    method CopyLinePart(text: seq<char>, from: nat, c: nat)
      requires from + c <= logLine.Length && from + c <= |text|
      requires logLine[..from] == text[..from]
      modifies logLine
      ensures logLine[..from + c] == text[..from + c]
    {
      ghost var filled := logLine[..];
      forall k | from <= k < from + c {
        logLine[k] := text[k];
      }
      assert forall k | 0 <= k < from :: logLine[k] == filled[k] == text[k];
    }

    /** Called right before a block header is processed: moves the bookkeeping to the next block. */
    method InitNextBlock() returns (res: Res)
      modifies this
      ensures res == Ok
      ensures Value() == NextBlock(old(Value()))
      ensures logLine == old(logLine) && Valid() == old(Valid())
    {
      blockNo := blockNo + 1;
      if block.sigTime1 > 0 || block.curBlockNotSigned {
        sigTime0 := block.sigTime1;
        block := block.(sigTime1 := 0);
      }
      block := InitialBlock;
      task := ResetTaskBlockInfo(task);
      block := block.(firstLineNo := file.nofTotalRecordHashes + 1);
      res := Ok;
    }

    /** The level at which the current block's root is signed. */
    method GetAggregationLevel() returns (level: nat)
      ensures level == AggregationLevel(file.version, block.recordCount)
    {
      level := 0;
      if file.version == LogSig11 {
        level := 0;
      } else if block.recordCount != 0 {
        level := 1;
        var c: nat := block.recordCount - 1;
        while c != 0
          invariant level + Halvings(c) == 1 + Halvings(block.recordCount - 1)
        {
          level := level + 1;
          c := c / 2;
        }
      }
    }

    /** Whether any of the three warning flags was raised. */
    method HasWarnings() returns (w: bool)
      ensures w <==> task.integrate.warningSignatures || file.warningTreeHashes || file.warningLegacy
    {
      w := task.integrate.warningSignatures || file.warningTreeHashes || file.warningLegacy;
    }

    /** One less than the number of non-empty subtree roots: how many final hashes may follow the last leaf. */
    method GetMaxFinalHashes() returns (n: int)
      ensures n == |NonEmptyLevels(SubTreeRoots(Value()))| - 1
      ensures n < |SubTreeRoots(Value())|
    {
      var roots := SubTreeRoots(Value());
      var count := 0;
      var i := 0;
      while i < |roots|
        invariant i <= |roots|
        invariant count == |NonEmptyLevels(roots[..i])|
        invariant count <= i
      {
        NonEmptyLevelsStep(roots, i);
        if roots[i].Some? {
          count := count + 1;
        }
        i := i + 1;
      }
      assert roots[..|roots|] == roots;
      n := count - 1;
    }

    /** Lines accounted for: the current block's hashes plus all finished blocks. */
    method GetNofLines() returns (n: nat)
      ensures n == NofLines(Value())
    {
      n := block.nofRecordHashes + file.nofTotalRecordHashes;
    }

    /** Raises the stored level to `lvl`; the invalid level and levels out of range are rejected. */
    method SetErrorLevel(lvl: int) returns (res: Res)
      modifies this
      ensures res == (if ErrorLevelAccepted(lvl) then Ok else InvalidArgument)
      ensures verRes == ApplyErrorLevels(old(verRes), [lvl])
      ensures verRes >= old(verRes)
      ensures Value() == old(Value()).(verRes := verRes)
    {
      if lvl == VerResInvalid || lvl >= VerResCount {
        return InvalidArgument;
      }
      if verRes < lvl {
        verRes := lvl;
      }
      res := Ok;
    }

    method GetErrorLevel() returns (lvl: int)
      ensures lvl == verRes
    {
      lvl := verRes;
    }
  }

  /** Capacity reached while reading a line that needs `need` bytes; None means the limit was hit. */
  function LineCapacity(cap0: nat, need: nat, limit: nat): Option<nat>
    requires cap0 <= limit && limit > 0
  {
    FitCapacity(FirstCapacity(cap0, limit), need, limit)
  }
}
