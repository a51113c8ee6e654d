/*
 * Data model of the log-signature engine: link directions, task ids,
 * file-format versions, record-chain entries and the per-file / per-block
 * counters that the bookkeeping state machine and the task drivers share.
 */
module BlocksInfo {

  /** Maximum height of a block's Merkle tree; also the capacity of a record chain. */
  const MaxTreeHeight: nat := 31

  /** Length of the magic prefix that selects the file version. */
  const MagicSize: nat := 8

  /** `size_t` arithmetic wraps modulo this value. */
  const SizeModulus: nat := 0x1_0000_0000_0000_0000

  datatype Option<T> = None | Some(value: T)

  /** A data hash; the model only ever compares hashes for equality. */
  datatype Hash = Hash(digest: seq<bv8>)

  /** Result codes of the tool.  `Failed` carries codes of collaborators outside the model. */
  datatype Res =
    | Ok
    | InvalidArgument
    | InvalidInputFormat
    | VerificationFailure
    | KsiVerificationFailure
    | VerificationSkipped
    | SigningFailure
    | IndexOverflow
    | OutOfMemory
    | InvalidCmdParam
    | UserInputFailure
    | Failed(code: nat)

  /** `size_t` subtraction: wraps around instead of going negative. */
  function SizeSub(a: nat, b: nat): (r: nat)
    ensures r < SizeModulus
    ensures b <= a < SizeModulus ==> r == a - b
    ensures a < b <= SizeModulus ==> r == SizeModulus - (b - a)
  {
    (a - b) % SizeModulus
  }

  // ---------------------------------------------------------------------
  // Enumerations
  // ---------------------------------------------------------------------

  datatype LinkDirection = LeftLink | RightLink

  function DirectionCode(d: LinkDirection): (c: nat)
    ensures c <= 1
  {
    match d
    case LeftLink => 0
    case RightLink => 1
  }

  function DirectionFromCode(c: nat): (r: Option<LinkDirection>)
    ensures r.Some? <==> c <= 1
    ensures r.Some? ==> DirectionCode(r.value) == c
  {
    if c == 0 then Some(LeftLink) else if c == 1 then Some(RightLink) else None
  }

  datatype TaskId = TaskNone | TaskVerify | TaskExtend | TaskExtract | TaskSign | TaskIntegrate

  function TaskCode(t: TaskId): (c: nat)
    ensures c <= 5
    ensures c == 0 <==> t == TaskNone
  {
    match t
    case TaskNone => 0
    case TaskVerify => 1
    case TaskExtend => 2
    case TaskExtract => 3
    case TaskSign => 4
    case TaskIntegrate => 5
  }

  function TaskFromCode(c: nat): (r: Option<TaskId>)
    ensures r.Some? <==> c <= 5
    ensures r.Some? ==> TaskCode(r.value) == c
  {
    if c == 0 then Some(TaskNone)
    else if c == 1 then Some(TaskVerify)
    else if c == 2 then Some(TaskExtend)
    else if c == 3 then Some(TaskExtract)
    else if c == 4 then Some(TaskSign)
    else if c == 5 then Some(TaskIntegrate)
    else None
  }

  /** The task id of a run is determined by its code: decoding an encoded id gives it back. */
  lemma TaskCodeRoundTrip(t: TaskId)
    ensures TaskFromCode(TaskCode(t)) == Some(t)
  {
  }

  datatype LogSigVersion = LogSig11 | LogSig12 | RecSig11 | RecSig12 | Log12Blk | Log12Sig | UnknownVersion

  /** Number of known versions (the enumerator that follows the last version). */
  const NofVersions: nat := 6

  /** Code of the unknown version. */
  const UnknownVersionCode: nat := 0xff

  function VersionCode(v: LogSigVersion): (c: nat)
    ensures c < NofVersions <==> v != UnknownVersion
    ensures v == UnknownVersion ==> c == UnknownVersionCode
  {
    match v
    case LogSig11 => 0
    case LogSig12 => 1
    case RecSig11 => 2
    case RecSig12 => 3
    case Log12Blk => 4
    case Log12Sig => 5
    case UnknownVersion => UnknownVersionCode
  }

  function VersionFromCode(c: nat): (r: Option<LogSigVersion>)
    ensures r.Some? <==> c < NofVersions || c == UnknownVersionCode
    ensures r.Some? ==> VersionCode(r.value) == c
  {
    if c == 0 then Some(LogSig11)
    else if c == 1 then Some(LogSig12)
    else if c == 2 then Some(RecSig11)
    else if c == 3 then Some(RecSig12)
    else if c == 4 then Some(Log12Blk)
    else if c == 5 then Some(Log12Sig)
    else if c == UnknownVersionCode then Some(UnknownVersion)
    else None
  }

  /** Versions and their codes are in one-to-one correspondence. */
  lemma VersionCodeRoundTrip(v: LogSigVersion)
    ensures VersionFromCode(VersionCode(v)) == Some(v)
  {
  }

  /** Excerpt files (RECSIG) hold selected records with their chains, not a whole log. */
  predicate IsExcerpt(v: LogSigVersion) {
    v == RecSig11 || v == RecSig12
  }

  /** Full log-signature files whose blocks are processed tag by tag. */
  predicate IsLogSignature(v: LogSigVersion) {
    v == LogSig11 || v == LogSig12
  }

  // ---------------------------------------------------------------------
  // Record chains (extraction)
  // ---------------------------------------------------------------------

  /** One entry of an authentication path: the sibling, on which side it is, and a level correction. */
  datatype RecChainLink = RecChainLink(dir: LinkDirection, sibling: Hash, corr: nat)

  /** Sum of the level corrections of a chain. */
  function SumCorr(chain: seq<RecChainLink>): nat {
    if chain == [] then 0 else SumCorr(chain[..|chain| - 1]) + chain[|chain| - 1].corr
  }

  /**
   * A record whose chain is being extracted: its log-line position, its offset in the
   * tree (1-based count of record and meta-record hashes), the level its chain has
   * reached, the chain itself, the hash and the line (or meta-record) it stands for.
   */
  datatype RecordInfo = RecordInfo(
    position: nat,
    offset: nat,
    level: nat,
    chain: seq<RecChainLink>,
    hash: Hash,
    isMetaRecord: bool,
    logLine: seq<char>,
    metaRecord: seq<bv8>)

  /**
   * A record is well formed when its chain fits the fixed-size chain array and its
   * level is exactly what its links account for: each link lifts it one level plus
   * that link's correction.
   */
  predicate RecordInfoValid(r: RecordInfo) {
    |r.chain| <= MaxTreeHeight && r.level == |r.chain| + SumCorr(r.chain)
  }

  /** Requested positions, the cursor into them, and the records opened in the current block. */
  datatype ExtractInfo = ExtractInfo(positions: seq<nat>, next: nat, inBlock: seq<RecordInfo>)

  predicate ExtractInfoValid(e: ExtractInfo) {
    e.next <= |e.positions| && forall j | 0 <= j < |e.inBlock| :: RecordInfoValid(e.inBlock[j])
  }

  // ---------------------------------------------------------------------
  // Task-specific state
  // ---------------------------------------------------------------------

  datatype SignTask = SignTask(
    blockCount: nat,           // blocks counted before signing starts
    noSigCount: nat,           // unsigned blocks counted before signing starts
    noSigNo: nat,              // unsigned blocks met so far
    noSigCreated: nat,         // signatures created for unsigned blocks
    curBlockJustReSigned: bool,
    outSigModified: bool)

  datatype IntegrateTask = IntegrateTask(partNo: nat, unsignedRootHash: bool, warningSignatures: bool)

  /** `metaRecordLen` is a separate field in the source and is not cleared together with `metaRecord`. */
  datatype ExtractTask = ExtractTask(info: Option<ExtractInfo>, metaRecord: Option<seq<bv8>>, metaRecordLen: nat)

  datatype ExtendTask = ExtendTask(extendedToTime: nat)

  datatype VerifyTask = VerifyTask(
    clientIdLast: seq<char>,
    clientIdMatch: Option<seq<char>>,  // the compiled client-id pattern, if any
    lastBlockWasSkipped: bool,
    errSignTime: bool)

  datatype TaskState = TaskState(
    sign: SignTask,
    integrate: IntegrateTask,
    extract: ExtractTask,
    extend: ExtendTask,
    verify: VerifyTask)

  // ---------------------------------------------------------------------
  // Per-file and per-block counters
  // ---------------------------------------------------------------------

  /**
   * Counters accumulated over a whole file.  `nofTotalRecordHashes` counts record hashes
   * over all finished blocks (no tree hashes, no meta-records) and is folded in only at
   * the end of a block.  A record time of 0 means "not seen".
   */
  datatype FileInfo = FileInfo(
    version: LogSigVersion,
    nofTotalRecordHashes: nat,
    nofTotalMetarecords: nat,
    nofTotalFailedBlocks: nat,
    nofTotalHashFails: nat,
    recTimeMin: nat,
    recTimeMax: nat,
    warningLegacy: bool,
    warningTreeHashes: bool)

  /**
   * Counters of the current block.  `recordCount` is the count declared by the file and
   * may differ from the real one; `nofRecordHashes` counts record and meta-record hashes
   * aggregated into the tree (never tree hashes), so it is at least `nofMetaRecords`.
   */
  datatype BlockInfo = BlockInfo(
    firstLineNo: nat,
    recordCount: nat,
    nofRecordHashes: nat,
    nofMetaRecords: nat,
    nofTreeHashes: nat,
    nofHashFails: nat,
    recTimeMin: nat,
    recTimeMax: nat,
    sigTime1: nat,
    hashAlgo: Option<nat>,      // None: no algorithm known yet
    inputHash: Option<Hash>,
    rootHash: Option<Hash>,
    metarecordHash: Option<Hash>,
    keepRecordHashes: bool,
    keepTreeHashes: bool,
    finalTreeHashesNone: bool,
    finalTreeHashesSome: bool,
    finalTreeHashesAll: bool,
    finalTreeHashesLeaf: bool,
    curBlockNotSigned: bool,
    signatureTLVReached: bool)

  /** The documented relation between the block counters. */
  predicate BlockCountersValid(b: BlockInfo) {
    b.nofMetaRecords <= b.nofRecordHashes
  }

  /** A freshly reset block: every counter and flag cleared, no hashes held. */
  const InitialBlock: BlockInfo :=
    BlockInfo(0, 0, 0, 0, 0, 0, 0, 0, 0, None, None, None, None,
              false, false, false, false, false, false, false, false)

  const InitialFile: FileInfo :=
    FileInfo(UnknownVersion, 0, 0, 0, 0, 0, 0, false, false)

  const InitialTask: TaskState :=
    TaskState(
      SignTask(0, 0, 0, 0, false, false),
      IntegrateTask(0, false, false),
      ExtractTask(None, None, 0),
      ExtendTask(0),
      VerifyTask([], None, false, false))

  /** A reset block satisfies the documented counter relation and holds no signature state. */
  lemma InitialBlockIsClean()
    ensures BlockCountersValid(InitialBlock)
    ensures !InitialBlock.signatureTLVReached && InitialBlock.sigTime1 == 0
    ensures InitialBlock.inputHash.None? && InitialBlock.rootHash.None? && InitialBlock.metarecordHash.None?
  {
  }
}
