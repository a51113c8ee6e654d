/*
 * The verification driver: its per-TLV dispatch on the file version, the
 * continue-on-failure policy with its deferred error, the small state machine
 * that skips the rest of a block that failed, the check that links the first
 * block to the previous file, and the folding of excerpt blocks into the file
 * counters.
 */
module RsyslogVerify {
  import opened BlocksInfo
  import opened Logksi
  import opened TlvStream
  import opened Rsyslog

  // ---------------------------------------------------------------------
  // Skipping a block that did not verify
  // ---------------------------------------------------------------------

  /** Record hashes of the block that were checked against log lines (meta-records have none). */
  function RecordsChecked(b: BlockInfo): nat {
    if b.nofMetaRecords <= b.nofRecordHashes then b.nofRecordHashes - b.nofMetaRecords else 0
  }

  /** Log lines left to skip, as the skipping code computes them: in `size_t`, which wraps. */
  function LinesToSkipAsWritten(b: BlockInfo): nat {
    SizeSub(b.recordCount, SizeSub(b.nofRecordHashes, b.nofMetaRecords))
  }

  /** Log lines of the block that were not read yet: none when more were checked than declared. */
  function LinesToSkip(b: BlockInfo): (r: nat)
    ensures r <= b.recordCount
    ensures RecordsChecked(b) <= b.recordCount ==> r + RecordsChecked(b) == b.recordCount
    ensures RecordsChecked(b) >= b.recordCount ==> r == 0
  {
    if RecordsChecked(b) <= b.recordCount then b.recordCount - RecordsChecked(b) else 0
  }

  /** The two agree whenever the declared count covers the checked records. */
  lemma LinesToSkipAgreesWithoutWrap(b: BlockInfo)
    requires BlockCountersValid(b)
    requires RecordsChecked(b) <= b.recordCount < SizeModulus && b.nofRecordHashes < SizeModulus
    ensures LinesToSkipAsWritten(b) == LinesToSkip(b)
  {
  }

  /**
   * A block that declares 2 records but had 3 record hashes checked: the written
   * computation wraps around and asks for 2^64 - 1 lines to be skipped.
   */
  lemma LinesToSkipWraps()
    ensures var b := InitialBlock.(recordCount := 2, nofRecordHashes := 3);
      BlockCountersValid(b) && LinesToSkipAsWritten(b) == SizeModulus - 1 && LinesToSkip(b) == 0
  {
  }

  datatype SkipOutcome = SkipOutcome(ctx: Context, skip: bool, lines: nat)

  /**
   * One TLV while skipping: a block header ends the skip, first folding the skipped
   * block's declared count into the file total when nothing folded it yet, and reports
   * the log lines to skip; a block signature that parses records its declared count and
   * counts the signature; anything else is ignored.
   */
  function SkipStep(c: Context, t: Tlv): SkipOutcome {
    if t.tag == 0x901 then
      var folded := SizeSub(c.block.firstLineNo, 1) == c.file.nofTotalRecordHashes;
      var file := if folded then c.file.(nofTotalRecordHashes := c.file.nofTotalRecordHashes + c.block.recordCount)
                  else c.file;
      SkipOutcome(c.(file := file), false, LinesToSkipAsWritten(c.block))
    else if t.tag == 0x904 && t.parse == Ok && t.recordCount.Some? then
      SkipOutcome(c.(block := c.block.(recordCount := t.recordCount.value), sigNo := c.sigNo + 1), true, 0)
    else SkipOutcome(c, true, 0)
  }

  /** Only a block header ends a skip, and a skip changes nothing but these counters. */
  lemma SkipStepFrame(c: Context, t: Tlv)
    ensures SkipStep(c, t).skip <==> t.tag != 0x901
    ensures SkipStep(c, t).ctx.quietError == c.quietError
    ensures SkipStep(c, t).ctx.isContinuedOnFail == c.isContinuedOnFail
    ensures SkipStep(c, t).ctx.blockNo == c.blockNo
    ensures t.tag == 0x901 && 1 <= c.block.firstLineNo <= SizeModulus && c.block.firstLineNo - 1 == c.file.nofTotalRecordHashes ==>
      SkipStep(c, t).ctx.file.nofTotalRecordHashes == c.block.firstLineNo - 1 + c.block.recordCount
  {
  }

  /**
   * The lines a skip reports: none until the block header; there, whenever the declared
   * count covers the records already checked and fits in `size_t`, exactly the declared
   * lines that were not checked yet.
   */
  lemma SkipStepLines(c: Context, t: Tlv)
    requires BlockCountersValid(c.block)
    requires RecordsChecked(c.block) <= c.block.recordCount < SizeModulus && c.block.nofRecordHashes < SizeModulus
    ensures t.tag != 0x901 ==> SkipStep(c, t).lines == 0
    ensures t.tag == 0x901 ==> SkipStep(c, t).lines + RecordsChecked(c.block) == c.block.recordCount
  {
    LinesToSkipAgreesWithoutWrap(c.block);
  }

  // ---------------------------------------------------------------------
  // The per-TLV step
  // ---------------------------------------------------------------------

  /** The context after the processors handled a TLV. */
  function Processed(c: Context, p: Processing): Context {
    var b := ApplyEffect(c.block, p.effect);
    c.(block := b,
       file := if p.effect.closesBlock
               then c.file.(nofTotalRecordHashes := c.file.nofTotalRecordHashes + b.nofRecordHashes)
               else c.file,
       task := c.task.(verify := c.task.verify.(errSignTime := c.task.verify.errSignTime || p.errSignTime)))
  }

  /** Loop state: the context, whether the current block is skipped, whether the inter-file link is still to be checked, lines skipped. */
  datatype VState = VState(ctx: Context, skip: bool, isFirst: bool, linesSkipped: nat)

  /** Whether a processing failure may be continued from. */
  predicate IsVerificationFailure(r: Res) {
    r == VerificationFailure || r == KsiVerificationFailure
  }

  /** A block TLV of a log-signature file. */
  function LogSigStep(firstLink: Option<Hash>, st: VState, t: Tlv, p: Processing): Step<VState> {
    if !IsBlockTag(t.tag) then Continue(st)
    else
      var c := Processed(if t.tag == 0x901 then NextBlock(st.ctx) else st.ctx, p);
      if p.verdict != Ok then
        if IsVerificationFailure(p.verdict) && c.isContinuedOnFail then
          var skipped := c.(quietError := VerificationFailure,
                            task := c.task.(verify := c.task.verify.(lastBlockWasSkipped := true)));
          Continue(st.(ctx := skipped, skip := true))
        else Stop(p.verdict, st.(ctx := c))
      else if t.tag == 0x901 && st.isFirst && firstLink.Some? then
        if firstLink.value != p.prevLeaf then Stop(VerificationFailure, st.(ctx := c, isFirst := false))
        else Continue(st.(ctx := c, isFirst := false))
      else Continue(st.(ctx := c))
  }

  /** The file's earliest record time so far, folded with a block's: 0 stands for "none". */
  function FoldMin(fileMin: nat, blockMin: nat): nat {
    if (fileMin == 0 || fileMin > blockMin) && blockMin > 0 then blockMin else fileMin
  }

  function FoldMax(fileMax: nat, blockMax: nat): nat {
    if fileMax == 0 || fileMax < blockMax then blockMax else fileMax
  }

  /** Closing an excerpt block: its record hashes and record times go into the file counters. */
  function FoldBlock(c: Context): Context {
    c.(file := c.file.(nofTotalRecordHashes := c.file.nofTotalRecordHashes + c.block.nofRecordHashes,
                       recTimeMin := FoldMin(c.file.recTimeMin, c.block.recTimeMin),
                       recTimeMax := FoldMax(c.file.recTimeMax, c.block.recTimeMax)))
  }

  /** A TLV of an excerpt file: a block signature closes the block, a record chain is checked. */
  function ExcerptStep(st: VState, t: Tlv, p: Processing): Step<VState> {
    if t.tag == 0x905 then
      var c := Processed(FoldBlock(st.ctx), p);
      if p.verdict != Ok then Stop(p.verdict, st.(ctx := c))
      else Continue(st.(ctx := c.(block := c.block.(nofRecordHashes := 0, recTimeMin := 0))))
    else if t.tag == 0x907 then
      var c := Processed(st.ctx, p);
      if p.verdict != Ok then Stop(p.verdict, st.(ctx := c))
      else if p.check != Ok then Stop(p.check, st.(ctx := c))
      else Continue(st.(ctx := c))
    else Continue(st)
  }

  /** One TLV of the verification loop: the skip machine first, then dispatch on the file version. */
  function VerifyStep(firstLink: Option<Hash>, st: VState, t: Tlv, p: Processing): Step<VState> {
    var sk := if st.skip then SkipStep(st.ctx, t) else SkipOutcome(st.ctx, false, 0);
    var st1 := st.(ctx := sk.ctx, skip := sk.skip, linesSkipped := st.linesSkipped + sk.lines);
    if st1.skip then Continue(st1)
    else if IsLogSignature(st1.ctx.file.version) then LogSigStep(firstLink, st1, t, p)
    else if IsExcerpt(st1.ctx.file.version) then ExcerptStep(st1, t, p)
    else Continue(st1)
  }

  function VerifyStepOf(firstLink: Option<Hash>): (VState, Tlv, Processing) -> Step<VState> {
    (st: VState, t: Tlv, p: Processing) => VerifyStep(firstLink, st, t, p)
  }

  // ---------------------------------------------------------------------
  // The whole run
  // ---------------------------------------------------------------------

  /**
   * What verification hands back: the result, the signing time the next call starts from,
   * the last leaf and the last record time (when the run got that far) and the number of
   * log lines skipped.
   */
  datatype VerifyOutcome = VerifyOutcome(res: Res, lastSignatureTime: nat, lastLeaf: Option<Hash>, lastRecTime: Option<nat>, linesSkipped: nat)

  /** The context once the run is set up: task, fresh tree, continue-on-failure flag, previous signing time, version. */
  function VerifyStart(c: Context, continueOnFail: bool, lastSignatureTime: nat, magic: Magic): Context {
    c.(taskId := TaskVerify,
       tree := Some(TreeView([])),
       isContinuedOnFail := continueOnFail,
       sigTime0 := lastSignatureTime,
       file := if magic.res == Ok then c.file.(version := magic.version) else c.file)
  }

  /** The cleanup every exit goes through: a deferred error replaces the result. */
  function Cleanup(c: Context, r: Res, leaf: Option<Hash>, recTime: Option<nat>, lines: nat): VerifyOutcome {
    VerifyOutcome(if c.quietError != Ok then c.quietError else r, c.block.sigTime1, leaf, recTime, lines)
  }

  /** After the loop: an excerpt's last block is counted, then finalisation and the signing-time check. */
  function VerifyFinish(c: Context, finalVerdict: Res, treeLastLeaf: Hash, lines: nat): VerifyOutcome {
    var c1 := if IsExcerpt(c.file.version)
              then c.(file := c.file.(nofTotalRecordHashes := c.file.nofTotalRecordHashes + c.block.nofRecordHashes))
              else c;
    var r := if finalVerdict != Ok then finalVerdict
             else if c1.task.verify.errSignTime then VerificationFailure
             else Ok;
    Cleanup(c1, r, Some(treeLastLeaf), Some(c1.block.recTimeMax), lines)
  }

  function VerifyInit(c0: Context, continueOnFail: bool, lastSignatureTime: nat, magic: Magic): VState {
    VState(VerifyStart(c0, continueOnFail, lastSignatureTime, magic), false, true, 0)
  }

  /**
   * `logsignature_verify` on the context `c0`.  `lastSignatureTime` is the closing signing
   * time the previous call left behind; `treeLastLeaf` is the tree's last leaf at the end.
   */
  function VerifyResult(c0: Context, results: seq<ReadResult>, firstLink: Option<Hash>, continueOnFail: bool,
                        lastSignatureTime: nat, magic: Magic, finalVerdict: Res, treeLastLeaf: Hash): VerifyOutcome
  {
    var init := VerifyInit(c0, continueOnFail, lastSignatureTime, magic);
    if magic.res != Ok then Cleanup(init.ctx, magic.res, None, None, 0)
    else VerifyRun(init.ctx, results, firstLink, finalVerdict, treeLastLeaf)
  }

  /** The loop from the context `c` once set up, and what follows it. */
  function VerifyRun(c: Context, results: seq<ReadResult>, firstLink: Option<Hash>, finalVerdict: Res, treeLastLeaf: Hash): VerifyOutcome {
    var o := Run(results, 0, VState(c, false, true, 0), VerifyStepOf(firstLink));
    var st := OutcomeState(o);
    match o
    case Aborted(r, _) => Cleanup(st.ctx, r, None, None, st.linesSkipped)
    case Finished(_) => VerifyFinish(st.ctx, finalVerdict, treeLastLeaf, st.linesSkipped)
  }

  // ---------------------------------------------------------------------
  // Properties
  // ---------------------------------------------------------------------

  /** One step keeps the continue flag and either keeps the deferred error or sets it to a verification failure. */
  lemma VerifyStepQuietError(firstLink: Option<Hash>, st: VState, t: Tlv, p: Processing)
    ensures var s := VerifyStep(firstLink, st, t, p).s;
      && s.ctx.isContinuedOnFail == st.ctx.isContinuedOnFail
      && (s.ctx.quietError == st.ctx.quietError || s.ctx.quietError == VerificationFailure)
      && (!st.ctx.isContinuedOnFail ==> s.ctx.quietError == st.ctx.quietError)
  {
  }

  /**
   * Over a whole run the deferred error only ever becomes a verification failure, and
   * never does without continue-on-failure.
   */
  lemma {:induction false} QuietErrorOnlyRises(results: seq<ReadResult>, i: nat, st: VState, firstLink: Option<Hash>)
    requires i <= |results|
    ensures var e := OutcomeState(Run(results, i, st, VerifyStepOf(firstLink))).ctx;
      && e.isContinuedOnFail == st.ctx.isContinuedOnFail
      && (e.quietError == st.ctx.quietError || e.quietError == VerificationFailure)
      && (!st.ctx.isContinuedOnFail ==> e.quietError == st.ctx.quietError)
    decreases |results| - i
  {
    if i < |results| && results[i].Read? {
      var t := results[i].tlv;
      var p := results[i].proc;
      VerifyStepQuietError(firstLink, st, t, p);
      var s := VerifyStep(firstLink, st, t, p);
      if s.Continue? {
        QuietErrorOnlyRises(results, i + 1, s.s, firstLink);
      }
    }
  }

  /**
   * Continue-on-failure: once a block failed and was skipped, the run returns
   * `VerificationFailure` whatever follows, including later successes and later errors.
   */
  lemma ContinuedFailureFailsRun(c0: Context, q: seq<ReadResult>, rest: seq<ReadResult>, firstLink: Option<Hash>,
                                 lastSignatureTime: nat, magic: Magic, finalVerdict: Res, treeLastLeaf: Hash)
    requires magic.res == Ok
    requires var init := VerifyInit(c0, true, lastSignatureTime, magic);
      ReachesEnd(q, 0, init, VerifyStepOf(firstLink)) &&
      OutcomeState(Run(q, 0, init, VerifyStepOf(firstLink))).ctx.quietError == VerificationFailure
    ensures VerifyResult(c0, q + rest, firstLink, true, lastSignatureTime, magic, finalVerdict, treeLastLeaf).res
            == VerificationFailure
  {
    var init := VerifyInit(c0, true, lastSignatureTime, magic);
    var step := VerifyStepOf(firstLink);
    RunAppend(q, rest, 0, init, step);
    RunReachingEnd(q, 0, init, step);
    var mid := OutcomeState(Run(q, 0, init, step));
    QuietErrorOnlyRises(rest, 0, mid, firstLink);
  }

  /**
   * Without continue-on-failure (and no deferred error held before), nothing replaces the
   * result: a run that stops returns the failure that stopped it.
   */
  lemma NoContinueReturnsFailure(c0: Context, results: seq<ReadResult>, firstLink: Option<Hash>,
                                 lastSignatureTime: nat, magic: Magic, finalVerdict: Res, treeLastLeaf: Hash)
    requires magic.res == Ok && c0.quietError == Ok
    ensures var o := Run(results, 0, VerifyInit(c0, false, lastSignatureTime, magic), VerifyStepOf(firstLink));
      o.Aborted? ==> VerifyResult(c0, results, firstLink, false, lastSignatureTime, magic, finalVerdict, treeLastLeaf).res == o.res
  {
    QuietErrorOnlyRises(results, 0, VerifyInit(c0, false, lastSignatureTime, magic), firstLink);
  }

  /** Signatures in `[i, end)` that parse and declare a record count. */
  function CountDeclaringSignatures(results: seq<ReadResult>, i: nat, end: nat): nat
    requires i <= end <= |results|
    decreases end - i
  {
    if i == end then 0
    else (if results[i].Read? && results[i].tlv.tag == 0x904 && results[i].tlv.parse == Ok && results[i].tlv.recordCount.Some? then 1 else 0)
         + CountDeclaringSignatures(results, i + 1, end)
  }

  /** Whether no TLV in `[i, end)` is a block header. */
  predicate NoHeader(results: seq<ReadResult>, i: nat, end: nat)
    requires i <= end <= |results|
  {
    forall k | i <= k < end :: results[k].Read? ==> results[k].tlv.tag != 0x901
  }

  /**
   * While skipping, TLVs other than a block header never stop the run and never leave the
   * skip; the file counters, the deferred error and the block number stay as they were,
   * and the signature number grows by one for each signature that declares a record count.
   */
  lemma {:induction false} SkippingIgnoresTlvs(results: seq<ReadResult>, i: nat, st: VState, firstLink: Option<Hash>)
    requires i <= |results| && st.skip
    requires NoHeader(results, i, CleanEnd(results, i))
    ensures var o := Run(results, i, st, VerifyStepOf(firstLink));
      var e := OutcomeState(o);
      && (o.Aborted? ==> o.res == InvalidInputFormat)
      && e.skip
      && e.ctx.file == st.ctx.file
      && e.ctx.quietError == st.ctx.quietError
      && e.ctx.blockNo == st.ctx.blockNo
      && e.linesSkipped == st.linesSkipped
      && e.ctx.sigNo == st.ctx.sigNo + CountDeclaringSignatures(results, i, CleanEnd(results, i))
    decreases |results| - i
  {
    if i < CleanEnd(results, i) {
      var s := VerifyStep(firstLink, st, results[i].tlv, results[i].proc);
      assert s.Continue? && s.s.skip;
      SkippingIgnoresTlvs(results, i + 1, s.s, firstLink);
      assert CleanEnd(results, i) == CleanEnd(results, i + 1);
    }
  }

  /**
   * The first block header of a log-signature file, when a link to the previous file is
   * given, must find that link as the tree's previous leaf; otherwise the run stops with
   * `VerificationFailure`.
   */
  lemma FirstLinkChecked(firstLink: Option<Hash>, st: VState, t: Tlv, p: Processing)
    requires !st.skip && st.isFirst && IsLogSignature(st.ctx.file.version)
    requires t.tag == 0x901 && p.verdict == Ok && firstLink.Some?
    ensures VerifyStep(firstLink, st, t, p).s.isFirst == false
    ensures VerifyStep(firstLink, st, t, p).Stop? <==> firstLink.value != p.prevLeaf
    ensures VerifyStep(firstLink, st, t, p).Stop? ==> VerifyStep(firstLink, st, t, p).res == VerificationFailure
  {
  }

  /** Folding the earliest record time is taking the smaller of the two, ignoring zeros ("none"). */
  lemma FoldMinIsMinimum(fileMin: nat, blockMin: nat)
    ensures fileMin == 0 ==> FoldMin(fileMin, blockMin) == blockMin
    ensures blockMin == 0 ==> FoldMin(fileMin, blockMin) == fileMin
    ensures fileMin > 0 && blockMin > 0 ==> FoldMin(fileMin, blockMin) == if fileMin <= blockMin then fileMin else blockMin
  {
  }

  /** Folding the latest record time is taking the larger of the two. */
  lemma FoldMaxIsMaximum(fileMax: nat, blockMax: nat)
    ensures FoldMax(fileMax, blockMax) == Max(fileMax, blockMax)
  {
  }

  /** The earliest record time of a file after folding in the blocks' times, one by one. */
  function FoldMins(fileMin: nat, blockMins: seq<nat>): nat {
    if blockMins == [] then fileMin else FoldMin(FoldMins(fileMin, blockMins[..|blockMins| - 1]), blockMins[|blockMins| - 1])
  }

  /**
   * After any number of blocks the file's earliest record time is the smallest non-zero
   * time seen (0 when there is none): it is one of them and no non-zero time is smaller.
   */
  lemma {:induction false} FoldMinsIsSmallestNonZero(fileMin: nat, blockMins: seq<nat>)
    ensures var m := FoldMins(fileMin, blockMins);
      && (fileMin > 0 ==> 0 < m <= fileMin)
      && (forall k | 0 <= k < |blockMins| && blockMins[k] > 0 :: 0 < m <= blockMins[k])
      && (m == fileMin || exists k | 0 <= k < |blockMins| :: m == blockMins[k])
  {
    if blockMins != [] {
      var init := blockMins[..|blockMins| - 1];
      FoldMinsIsSmallestNonZero(fileMin, init);
      assert forall k | 0 <= k < |init| :: init[k] == blockMins[k];
      var m0 := FoldMins(fileMin, init);
      if m0 != fileMin && FoldMins(fileMin, blockMins) == m0 {
        var k :| 0 <= k < |init| && m0 == init[k];
        assert m0 == blockMins[k];
      }
    }
  }

  // ---------------------------------------------------------------------
  // The driver
  // ---------------------------------------------------------------------

  /** `skip_current_block_as_it_does_not_verify`: nothing happens unless the block is being skipped. */
  method SkipCurrentBlock(l: Logksi, t: Tlv, skip: bool) returns (stillSkipping: bool, lines: nat)
    modifies l
    ensures skip ==> SkipOutcome(l.Value(), stillSkipping, lines) == SkipStep(old(l.Value()), t)
    ensures !skip ==> l.Value() == old(l.Value()) && !stillSkipping && lines == 0
    ensures l.logLine == old(l.logLine) && (old(l.Valid()) ==> l.Valid())
  {
    if !skip {
      return false, 0;
    }
    stillSkipping, lines := true, 0;
    if t.tag == 0x901 {
      stillSkipping := false;
      if SizeSub(l.block.firstLineNo, 1) == l.file.nofTotalRecordHashes {
        l.file := l.file.(nofTotalRecordHashes := l.file.nofTotalRecordHashes + l.block.recordCount);
      }
      lines := LinesToSkipAsWritten(l.block);
    } else if t.tag == 0x904 {
      if t.parse == Ok && t.recordCount.Some? {
        l.block := l.block.(recordCount := t.recordCount.value);
        l.sigNo := l.sigNo + 1;
      }
    }
  }

  /** Hands a TLV to the processors: their effect on the block, the file total and the time check. */
  method Process(l: Logksi, p: Processing)
    modifies l
    ensures l.Value() == Processed(old(l.Value()), p)
    ensures l.logLine == old(l.logLine) && (old(l.Valid()) ==> l.Valid())
  {
    var b := ApplyEffect(l.block, p.effect);
    l.block := b;
    if p.effect.closesBlock {
      l.file := l.file.(nofTotalRecordHashes := l.file.nofTotalRecordHashes + b.nofRecordHashes);
    }
    l.task := l.task.(verify := l.task.verify.(errSignTime := l.task.verify.errSignTime || p.errSignTime));
  }

  /** Loop result of one TLV: the step taken and the new local flags. */
  datatype TlvResult = TlvResult(stop: bool, res: Res, skip: bool, isFirst: bool, lines: nat)

  function AsStep(c: Context, r: TlvResult): Step<VState> {
    var st := VState(c, r.skip, r.isFirst, r.lines);
    if r.stop then Stop(r.res, st) else Continue(st)
  }

  /** A block TLV of a log-signature file. */
  method LogSigTlv(l: Logksi, firstLink: Option<Hash>, isFirst: bool, lines: nat, t: Tlv, p: Processing)
    returns (r: TlvResult)
    modifies l
    ensures AsStep(l.Value(), r) == LogSigStep(firstLink, VState(old(l.Value()), false, isFirst, lines), t, p)
    ensures l.logLine == old(l.logLine) && (old(l.Valid()) ==> l.Valid())
  {
    r := TlvResult(false, Ok, false, isFirst, lines);
    if !IsBlockTag(t.tag) {
      return;
    }
    if t.tag == 0x901 {
      var _ := l.InitNextBlock();
    }
    Process(l, p);
    if p.verdict != Ok {
      if IsVerificationFailure(p.verdict) && l.isContinuedOnFail {
        l.quietError := VerificationFailure;
        l.task := l.task.(verify := l.task.verify.(lastBlockWasSkipped := true));
        return r.(skip := true);
      }
      return r.(stop := true, res := p.verdict);
    }
    if t.tag == 0x901 && isFirst && firstLink.Some? {
      r := r.(isFirst := false);
      if firstLink.value != p.prevLeaf {
        r := r.(stop := true, res := VerificationFailure);
      }
    }
  }

  /** A TLV of an excerpt file. */
  method ExcerptTlv(l: Logksi, isFirst: bool, lines: nat, t: Tlv, p: Processing) returns (r: TlvResult)
    modifies l
    ensures AsStep(l.Value(), r) == ExcerptStep(VState(old(l.Value()), false, isFirst, lines), t, p)
    ensures l.logLine == old(l.logLine) && (old(l.Valid()) ==> l.Valid())
  {
    r := TlvResult(false, Ok, false, isFirst, lines);
    if t.tag == 0x905 {
      l.file := l.file.(nofTotalRecordHashes := l.file.nofTotalRecordHashes + l.block.nofRecordHashes,
                        recTimeMin := FoldMin(l.file.recTimeMin, l.block.recTimeMin),
                        recTimeMax := FoldMax(l.file.recTimeMax, l.block.recTimeMax));
      Process(l, p);
      if p.verdict != Ok {
        return r.(stop := true, res := p.verdict);
      }
      l.block := l.block.(nofRecordHashes := 0, recTimeMin := 0);
    } else if t.tag == 0x907 {
      Process(l, p);
      if p.verdict != Ok {
        return r.(stop := true, res := p.verdict);
      }
      if p.check != Ok {
        return r.(stop := true, res := p.check);
      }
    }
  }

  /** One TLV of the verification loop. */
  method VerifyTlv(l: Logksi, firstLink: Option<Hash>, skip: bool, isFirst: bool, lines: nat, t: Tlv, p: Processing)
    returns (r: TlvResult)
    modifies l
    ensures AsStep(l.Value(), r) == VerifyStep(firstLink, VState(old(l.Value()), skip, isFirst, lines), t, p)
    ensures l.logLine == old(l.logLine) && (old(l.Valid()) ==> l.Valid())
  {
    var stillSkipping, skipped := SkipCurrentBlock(l, t, skip);
    var lines1 := lines + skipped;
    if stillSkipping {
      return TlvResult(false, Ok, true, isFirst, lines1);
    }
    if IsLogSignature(l.file.version) {
      r := LogSigTlv(l, firstLink, isFirst, lines1, t, p);
    } else if IsExcerpt(l.file.version) {
      r := ExcerptTlv(l, isFirst, lines1, t, p);
    } else {
      r := TlvResult(false, Ok, false, isFirst, lines1);
    }
  }

  /** Sets the context up for verification (the tree is modelled by its view only). */
  method StartVerify(l: Logksi, continueOnFail: bool, lastSignatureTime: nat, magic: Magic)
    modifies l
    ensures l.Value() == VerifyStart(old(l.Value()), continueOnFail, lastSignatureTime, magic)
    ensures l.logLine == old(l.logLine) && (old(l.Valid()) ==> l.Valid())
  {
    l.taskId, l.tree, l.isContinuedOnFail, l.sigTime0 := TaskVerify, Some(TreeView([])), continueOnFail, lastSignatureTime;
    if magic.res == Ok {
      l.file := l.file.(version := magic.version);
    }
  }

  /** What follows a loop that reached the end of the file. */
  method FinishVerify(l: Logksi, finalVerdict: Res, treeLastLeaf: Hash, lines: nat) returns (out: VerifyOutcome)
    modifies l
    ensures out == VerifyFinish(old(l.Value()), finalVerdict, treeLastLeaf, lines)
    ensures l.logLine == old(l.logLine) && (old(l.Valid()) ==> l.Valid())
  {
    if IsExcerpt(l.file.version) {
      l.file := l.file.(nofTotalRecordHashes := l.file.nofTotalRecordHashes + l.block.nofRecordHashes);
    }
    var res := if finalVerdict != Ok then finalVerdict
               else if l.task.verify.errSignTime then VerificationFailure
               else Ok;
    out := Cleanup(l.Value(), res, Some(treeLastLeaf), Some(l.block.recTimeMax), lines);
  }

  function AsOutcome(c: Context, r: TlvResult): Outcome<VState> {
    var st := VState(c, r.skip, r.isFirst, r.lines);
    if r.stop then Aborted(r.res, st) else Finished(st)
  }

  /** The loop over the signature file, from a fresh start. */
  method VerifyLoop(l: Logksi, f: SmartFile, firstLink: Option<Hash>) returns (r: TlvResult)
    requires l.Valid() && f.Valid() && f.pos == 0
    modifies l, f
    ensures AsOutcome(l.Value(), r) == Run(f.content, 0, VState(old(l.Value()), false, true, 0), VerifyStepOf(firstLink))
    ensures l.Valid()
  {
    ghost var init := VState(l.Value(), false, true, 0);
    var step := VerifyStepOf(firstLink);
    var skip, isFirst, lines: nat := false, true, 0;
    while !f.IsEof()
      invariant l.Valid() && f.Valid()
      invariant Run(f.content, f.pos, VState(l.Value(), skip, isFirst, lines), step) == Run(f.content, 0, init, step)
      decreases |f.content| - f.pos
    {
      var rd := f.Read();
      match rd
      case ReadFailed(n) =>
        return TlvResult(n > 0, InvalidInputFormat, skip, isFirst, lines);
      case Read(t, p) =>
        var tr := VerifyTlv(l, firstLink, skip, isFirst, lines, t, p);
        if tr.stop {
          return tr;
        }
        skip, isFirst, lines := tr.skip, tr.isFirst, tr.lines;
    }
    r := TlvResult(false, Ok, skip, isFirst, lines);
  }

  /**
   * `logsignature_verify`: runs verification over `f` on the context `l`, which is cleared
   * at the end.  The signing time the next call needs is returned instead of being kept
   * in a hidden static variable.
   */
  method Verify(l: Logksi, f: SmartFile, firstLink: Option<Hash>, continueOnFail: bool, lastSignatureTime: nat,
                magic: Magic, finalVerdict: Res, treeLastLeaf: Hash) returns (out: VerifyOutcome)
    requires l.Valid() && f.Valid() && f.pos == 0
    modifies l, f
    ensures out == VerifyResult(old(l.Value()), f.content, firstLink, continueOnFail, lastSignatureTime, magic, finalVerdict, treeLastLeaf)
    ensures l.Valid() && l.Value() == Initial
  {
    StartVerify(l, continueOnFail, lastSignatureTime, magic);
    if magic.res != Ok {
      out := Cleanup(l.Value(), magic.res, None, None, 0);
    } else {
      out := LoopAndFinish(l, f, firstLink, finalVerdict, treeLastLeaf);
    }
    l.FreeAndClearInternals();
  }

  /** The loop and what follows it, from the context as set up. */
  method LoopAndFinish(l: Logksi, f: SmartFile, firstLink: Option<Hash>, finalVerdict: Res, treeLastLeaf: Hash)
    returns (out: VerifyOutcome)
    requires l.Valid() && f.Valid() && f.pos == 0
    modifies l, f
    ensures out == VerifyRun(old(l.Value()), f.content, firstLink, finalVerdict, treeLastLeaf)
    ensures l.Valid()
  {
    var r := VerifyLoop(l, f, firstLink);
    if r.stop {
      out := Cleanup(l.Value(), r.res, None, None, r.lines);
    } else {
      out := FinishVerify(l, finalVerdict, treeLastLeaf, r.lines);
    }
  }
}
