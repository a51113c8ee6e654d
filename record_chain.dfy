/*
 * The two callbacks the Merkle tree makes while a block is being extracted: one
 * when a leaf is added (it may open a record whose authentication path is wanted)
 * and one when two subtrees are merged (every open record whose path has reached
 * that level gets the sibling as its next link).
 */
module RecordChain {
  import opened BlocksInfo
  import opened Logksi

  // ---------------------------------------------------------------------
  // Opening a record
  // ---------------------------------------------------------------------

  /** Whether an extract position is still waiting to be found. */
  predicate Pending(e: ExtractInfo) {
    e.next < |e.positions|
  }

  /**
   * Whether the leaf being added is the next requested record: the requested position,
   * counted from the start of the file, minus the record hashes of finished blocks
   * (`size_t` arithmetic) is the count of record hashes in this block so far.
   */
  predicate AtRequestedLeaf(e: ExtractInfo, totalHashes: nat, blockHashes: nat) {
    Pending(e) && SizeSub(e.positions[e.next], totalHashes) == blockHashes
  }

  /** The link a new record's chain starts with: the mask, on the left of a meta-record and on the right of a log record. */
  function MaskLink(isMetaRecord: bool, mask: Hash): RecChainLink {
    RecChainLink(if isMetaRecord then LeftLink else RightLink, mask, 0)
  }

  /**
   * A new record for the leaf `hash`: its position, its offset in the block's tree, a chain
   * holding the mask link, the line it stands for (or the meta-record).
   */
  function NewRecord(position: nat, offset: nat, isMetaRecord: bool, hash: Hash, mask: Hash,
                     line: seq<char>, metaRecord: Option<seq<bv8>>): (r: RecordInfo)
    ensures RecordInfoValid(r) && r.level == 1 && |r.chain| == 1
    ensures r.position == position && r.offset == offset && r.hash == hash
  {
    var meta := if isMetaRecord && metaRecord.Some? then metaRecord.value else [];
    var chain := [MaskLink(isMetaRecord, mask)];
    assert chain[..0] == [];
    assert SumCorr(chain) == SumCorr([]) + 0;
    RecordInfo(position, offset, 1, chain, hash, isMetaRecord,
               if isMetaRecord then [] else line, meta)
  }

  /** `logksi_new_record_chain` on the extract state. */
  function OpenRecord(e: ExtractInfo, totalHashes: nat, blockHashes: nat, isMetaRecord: bool, hash: Hash, mask: Hash,
                      line: seq<char>, metaRecord: Option<seq<bv8>>): ExtractInfo
  {
    if AtRequestedLeaf(e, totalHashes, blockHashes) then
      e.(next := e.next + 1,
         inBlock := e.inBlock + [NewRecord(e.positions[e.next], blockHashes, isMetaRecord, hash, mask, line, metaRecord)])
    else e
  }

  /**
   * A record is opened exactly at the requested leaf, and then for the requested position,
   * at the current offset, and the cursor moves on; the records already open are kept and
   * the extract state stays well formed.
   */
  lemma OpenRecordSpec(e: ExtractInfo, totalHashes: nat, blockHashes: nat, isMetaRecord: bool, hash: Hash, mask: Hash,
                       line: seq<char>, metaRecord: Option<seq<bv8>>)
    requires ExtractInfoValid(e)
    ensures var r := OpenRecord(e, totalHashes, blockHashes, isMetaRecord, hash, mask, line, metaRecord);
      && ExtractInfoValid(r)
      && r.positions == e.positions
      && r.inBlock[..|e.inBlock|] == e.inBlock
      && (AtRequestedLeaf(e, totalHashes, blockHashes) <==> |r.inBlock| == |e.inBlock| + 1)
      && (AtRequestedLeaf(e, totalHashes, blockHashes) ==>
            && r.next == e.next + 1
            && var rec := r.inBlock[|e.inBlock|];
               rec.position == e.positions[e.next] && rec.offset == blockHashes && rec.hash == hash
               && rec.chain == [MaskLink(isMetaRecord, mask)])
      && (!AtRequestedLeaf(e, totalHashes, blockHashes) ==> r == e)
  {
  }

  /** Without wrap-around, the requested leaf is the one at `position - totalHashes` in the block. */
  lemma RequestedLeafWithoutWrap(e: ExtractInfo, totalHashes: nat, blockHashes: nat)
    requires Pending(e) && totalHashes <= e.positions[e.next] < SizeModulus
    ensures AtRequestedLeaf(e, totalHashes, blockHashes) <==> e.positions[e.next] == totalHashes + blockHashes
  {
  }

  // ---------------------------------------------------------------------
  // Extending the chains
  // ---------------------------------------------------------------------

  /** Bit `k` of `x`. */
  predicate Bit(x: nat, k: nat) {
    (x / Pow2(k)) % 2 == 1
  }

  /**
   * Whether a merge at `level` extends a record whose chain has reached `recordLevel`: the
   * next level exactly, or any level up to it while the tree is being closed.
   */
  predicate Qualifies(closing: bool, level: nat, recordLevel: nat) {
    if closing then level + 1 >= recordLevel else level + 1 == recordLevel
  }

  /**
   * The sibling a merge at `level` contributes: the tree's hash at that level on the right
   * when bit `level` of the record's zero-based index is set, the left link otherwise,
   * with the level difference as correction.
   */
  function LinkAt(rec: RecordInfo, level: nat, leftLink: Hash, treeHash: Hash): RecChainLink
    requires level + 1 >= rec.level
  {
    var right := Bit(SizeSub(rec.offset, 1), level);
    RecChainLink(if right then RightLink else LeftLink, if right then treeHash else leftLink, level + 1 - rec.level)
  }

  /** Appending a link: refused when the chain is full; otherwise the level rises past the link. */
  function AddLink(rec: RecordInfo, link: RecChainLink): (r: Option<RecordInfo>)
    ensures r.Some? <==> |rec.chain| < MaxTreeHeight
    ensures r.Some? ==> r.value.chain == rec.chain + [link] && r.value.level == rec.level + link.corr + 1
  {
    if |rec.chain| < MaxTreeHeight then Some(rec.(chain := rec.chain + [link], level := rec.level + link.corr + 1))
    else None
  }

  /** Adding a link keeps a record well formed. */
  lemma AddLinkKeepsValid(rec: RecordInfo, link: RecChainLink)
    requires RecordInfoValid(rec) && AddLink(rec, link).Some?
    ensures RecordInfoValid(AddLink(rec, link).value)
  {
    var c := rec.chain + [link];
    assert c[..|c| - 1] == rec.chain;
  }

  datatype Extension = Extension(res: Res, records: seq<RecordInfo>)

  /** `logksi_extract_record_chain` over the open records from `j` on; the first refused link stops it. */
  function ExtendFrom(recs: seq<RecordInfo>, j: nat, level: nat, leftLink: Hash, treeHash: Hash, closing: bool): Extension
    requires j <= |recs|
    decreases |recs| - j
  {
    if j == |recs| then Extension(Ok, recs)
    else if Qualifies(closing, level, recs[j].level) then
      match AddLink(recs[j], LinkAt(recs[j], level, leftLink, treeHash))
      case None => Extension(IndexOverflow, recs)
      case Some(r) => ExtendFrom(recs[j := r], j + 1, level, leftLink, treeHash, closing)
    else ExtendFrom(recs, j + 1, level, leftLink, treeHash, closing)
  }

  /** `b` is `a` with at most one link appended: same position, offset and hash, the old links kept. */
  predicate GainsAtMostOneLink(a: RecordInfo, b: RecordInfo) {
    && b.position == a.position && b.offset == a.offset && b.hash == a.hash
    && |a.chain| <= |b.chain| <= |a.chain| + 1
    && b.chain[..|a.chain|] == a.chain
  }

  /**
   * Extension keeps the records, their positions, offsets and hashes; a record's chain
   * keeps its links and gains at most one; every record stays well formed.
   */
  lemma {:induction false} ExtendKeepsRecords(recs: seq<RecordInfo>, j: nat, level: nat, leftLink: Hash, treeHash: Hash, closing: bool)
    requires j <= |recs|
    requires forall k | 0 <= k < |recs| :: RecordInfoValid(recs[k])
    ensures var x := ExtendFrom(recs, j, level, leftLink, treeHash, closing);
      && |x.records| == |recs|
      && (forall k | 0 <= k < j :: x.records[k] == recs[k])
      && (forall k | 0 <= k < |recs| :: RecordInfoValid(x.records[k]))
      && (forall k | 0 <= k < |recs| :: GainsAtMostOneLink(recs[k], x.records[k]))
    decreases |recs| - j
  {
    if j < |recs| {
      if Qualifies(closing, level, recs[j].level) {
        var link := LinkAt(recs[j], level, leftLink, treeHash);
        match AddLink(recs[j], link)
        case None =>
          forall k | 0 <= k < |recs| ensures GainsAtMostOneLink(recs[k], recs[k]) {
            assert recs[k].chain[..|recs[k].chain|] == recs[k].chain;
          }
        case Some(r) =>
          AddLinkKeepsValid(recs[j], link);
          assert r.chain[..|recs[j].chain|] == recs[j].chain;
          var recs' := recs[j := r];
          ExtendKeepsRecords(recs', j + 1, level, leftLink, treeHash, closing);
          var x := ExtendFrom(recs', j + 1, level, leftLink, treeHash, closing);
          assert x.records[j] == r;
          forall k | 0 <= k < |recs| ensures GainsAtMostOneLink(recs[k], x.records[k]) {
            if k != j {
              assert recs'[k] == recs[k];
            }
          }
      } else {
        ExtendKeepsRecords(recs, j + 1, level, leftLink, treeHash, closing);
      }
    } else {
      forall k | 0 <= k < |recs| ensures GainsAtMostOneLink(recs[k], recs[k]) {
        assert recs[k].chain[..|recs[k].chain|] == recs[k].chain;
      }
    }
  }

  /**
   * Which record gains which link: after a merge that succeeds, every qualifying record
   * from `j` on has gained one link, on the right with the tree's hash at `level` when bit
   * `level` of its zero-based index is set and on the left with `leftLink` otherwise, with
   * correction `level + 1` minus its old level, so that it now stands at `level + 2`; every
   * other record is unchanged.
   */
  lemma {:induction false} ExtendLinks(recs: seq<RecordInfo>, j: nat, level: nat, leftLink: Hash, treeHash: Hash, closing: bool)
    requires j <= |recs|
    ensures var x := ExtendFrom(recs, j, level, leftLink, treeHash, closing);
      && |x.records| == |recs|
      && (forall k | 0 <= k < j :: x.records[k] == recs[k])
      && (x.res == Ok ==> forall k | j <= k < |recs| ::
            if Qualifies(closing, level, recs[k].level) then
              var right := Bit(SizeSub(recs[k].offset, 1), level);
              x.records[k] == recs[k].(chain := recs[k].chain + [RecChainLink(if right then RightLink else LeftLink,
                                                                              if right then treeHash else leftLink,
                                                                              level + 1 - recs[k].level)],
                                       level := level + 2)
            else x.records[k] == recs[k])
    decreases |recs| - j
  {
    if j < |recs| {
      if Qualifies(closing, level, recs[j].level) {
        match AddLink(recs[j], LinkAt(recs[j], level, leftLink, treeHash))
        case None =>
        case Some(r) =>
          var recs' := recs[j := r];
          ExtendLinks(recs', j + 1, level, leftLink, treeHash, closing);
          assert forall k | j + 1 <= k < |recs| :: recs'[k] == recs[k];
      } else {
        ExtendLinks(recs, j + 1, level, leftLink, treeHash, closing);
      }
    }
  }

  /** Extension fails, with `IndexOverflow`, exactly when some qualifying record already has a full chain. */
  lemma {:induction false} ExtendOverflowIff(recs: seq<RecordInfo>, j: nat, level: nat, leftLink: Hash, treeHash: Hash, closing: bool)
    requires j <= |recs|
    ensures var x := ExtendFrom(recs, j, level, leftLink, treeHash, closing);
      && (x.res == Ok || x.res == IndexOverflow)
      && (x.res == IndexOverflow <==>
            exists k | j <= k < |recs| :: Qualifies(closing, level, recs[k].level) && |recs[k].chain| >= MaxTreeHeight)
    decreases |recs| - j
  {
    if j < |recs| {
      if Qualifies(closing, level, recs[j].level) {
        match AddLink(recs[j], LinkAt(recs[j], level, leftLink, treeHash))
        case None =>
          assert |recs[j].chain| >= MaxTreeHeight;
        case Some(r) =>
          var recs' := recs[j := r];
          ExtendOverflowIff(recs', j + 1, level, leftLink, treeHash, closing);
          assert forall k | j + 1 <= k < |recs| :: recs'[k] == recs[k];
      } else {
        ExtendOverflowIff(recs, j + 1, level, leftLink, treeHash, closing);
      }
    }
  }

  /**
   * Outside closing, a record's path reads the record's zero-based index in binary: its
   * level is the length of its chain, and link `k` (after the mask) lies on the right
   * exactly when bit `k - 1` of the index is set.
   */
  predicate SpellsIndex(rec: RecordInfo) {
    && rec.level == |rec.chain|
    && forall k | 1 <= k < |rec.chain| :: (rec.chain[k].dir == RightLink) == Bit(SizeSub(rec.offset, 1), k - 1)
  }

  /** A freshly opened record spells its index. */
  lemma NewRecordSpellsIndex(position: nat, offset: nat, isMetaRecord: bool, hash: Hash, mask: Hash,
                             line: seq<char>, metaRecord: Option<seq<bv8>>)
    ensures SpellsIndex(NewRecord(position, offset, isMetaRecord, hash, mask, line, metaRecord))
  {
  }

  /** Merges outside closing keep every record spelling its index, one bit per level. */
  lemma {:induction false} ExtendSpellsIndex(recs: seq<RecordInfo>, j: nat, level: nat, leftLink: Hash, treeHash: Hash)
    requires j <= |recs|
    requires forall k | 0 <= k < |recs| :: SpellsIndex(recs[k])
    ensures var x := ExtendFrom(recs, j, level, leftLink, treeHash, false);
      |x.records| == |recs| && forall k | 0 <= k < |recs| :: SpellsIndex(x.records[k])
    decreases |recs| - j
  {
    if j < |recs| {
      if Qualifies(false, level, recs[j].level) {
        var link := LinkAt(recs[j], level, leftLink, treeHash);
        match AddLink(recs[j], link)
        case None =>
        case Some(r) =>
          var c := r.chain;
          forall k | 1 <= k < |c|
            ensures (c[k].dir == RightLink) == Bit(SizeSub(r.offset, 1), k - 1)
          {
            if k < |recs[j].chain| {
              assert c[k] == recs[j].chain[k];
            } else {
              assert c[k] == link;
            }
          }
          ExtendSpellsIndex(recs[j := r], j + 1, level, leftLink, treeHash);
      } else {
        ExtendSpellsIndex(recs, j + 1, level, leftLink, treeHash);
      }
    }
  }

  // ---------------------------------------------------------------------
  // The callbacks on the tool's state
  // ---------------------------------------------------------------------

  function WithInfo(c: Context, e: ExtractInfo): Context {
    c.(task := c.task.(extract := c.task.extract.(info := Some(e))))
  }

  /** The context after `logksi_new_record_chain`: nothing happens without extract state. */
  function NewRecordChainSpec(c: Context, isMetaRecord: bool, hash: Hash, mask: Hash, line: seq<char>): Context {
    match c.task.extract.info
    case None => c
    case Some(e) =>
      WithInfo(c, OpenRecord(e, c.file.nofTotalRecordHashes, c.block.nofRecordHashes, isMetaRecord, hash, mask,
                             line, c.task.extract.metaRecord))
  }

  /** The result and context after `logksi_extract_record_chain`. */
  function ExtractRecordChainSpec(c: Context, level: nat, leftLink: Hash, treeHash: Hash, closing: bool): (Res, Context) {
    match c.task.extract.info
    case None => (Ok, c)
    case Some(e) =>
      var x := ExtendFrom(e.inBlock, 0, level, leftLink, treeHash, closing);
      (x.res, WithInfo(c, e.(inBlock := x.records)))
  }

  /**
   * `logksi_new_record_chain`: `hash` is the leaf being added, `mask` the tree's previous
   * mask; the record stores a copy of the current log line.
   */
  method NewRecordChain(l: Logksi, isMetaRecord: bool, hash: Hash, mask: Hash)
    requires l.Valid()
    modifies l
    ensures l.Valid() && l.logLine == old(l.logLine)
    ensures l.Value() == NewRecordChainSpec(old(l.Value()), isMetaRecord, hash, mask, l.logLine[..l.logLineLen])
  {
    if l.task.extract.info.Some? {
      var e := l.task.extract.info.value;
      if Pending(e) && SizeSub(e.positions[e.next], l.file.nofTotalRecordHashes) == l.block.nofRecordHashes {
        var rec := NewRecord(e.positions[e.next], l.block.nofRecordHashes, isMetaRecord, hash, mask,
                             l.logLine[..l.logLineLen], l.task.extract.metaRecord);
        e := e.(next := e.next + 1, inBlock := e.inBlock + [rec]);
        l.task := l.task.(extract := l.task.extract.(info := Some(e)));
      }
    }
  }

  /**
   * `logksi_extract_record_chain`: the tree merged two subtrees at `level`; `leftLink` is
   * the left one's root and `treeHash` the tree's hash at that level.  Open records
   * are extended one by one, in place.
   */
  method ExtractRecordChain(l: Logksi, level: nat, leftLink: Hash, treeHash: Hash, closing: bool) returns (res: Res)
    requires l.Valid()
    modifies l
    ensures l.Valid() && l.logLine == old(l.logLine)
    ensures (res, l.Value()) == ExtractRecordChainSpec(old(l.Value()), level, leftLink, treeHash, closing)
  {
    if l.task.extract.info.None? {
      return Ok;
    }
    ghost var c0 := l.Value();
    ghost var e0 := l.task.extract.info.value;
    var j := 0;
    while j < |l.task.extract.info.value.inBlock|
      invariant l.Valid() && l.logLine == old(l.logLine)
      invariant l.task.extract.info.Some?
      invariant var e := l.task.extract.info.value;
        && j <= |e.inBlock|
        && l.Value() == WithInfo(c0, e0.(inBlock := e.inBlock))
        && ExtendFrom(e.inBlock, j, level, leftLink, treeHash, closing) == ExtendFrom(e0.inBlock, 0, level, leftLink, treeHash, closing)
      decreases |l.task.extract.info.value.inBlock| - j
    {
      var e := l.task.extract.info.value;
      var rec := e.inBlock[j];
      if Qualifies(closing, level, rec.level) {
        var added := AddLink(rec, LinkAt(rec, level, leftLink, treeHash));
        if added.None? {
          return IndexOverflow;
        }
        l.task := l.task.(extract := l.task.extract.(info := Some(e.(inBlock := e.inBlock[j := added.value]))));
      }
      j := j + 1;
    }
    res := Ok;
  }
}
