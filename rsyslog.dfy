/*
 * The task drivers that walk a log-signature file TLV by TLV: extend, extract,
 * sign (with its block-counting pass) and integrate.  The processors that do
 * the work for each TLV are outside the model; what they return arrives with
 * each read result.  Verification has its own module.
 */
module Rsyslog {
  import opened BlocksInfo
  import opened TlvStream

  /** What reading the magic number gives: a result code and, on success, the file version. */
  datatype Magic = Magic(res: Res, version: LogSigVersion)

  /** Block header, record hash, tree hash, meta-record and block signature. */
  predicate IsBlockTag(tag: nat) {
    tag == 0x901 || tag == 0x902 || tag == 0x903 || tag == 0x911 || tag == 0x904
  }

  /** The block TLVs other than the signature. */
  predicate IsLogSigTag(tag: nat) {
    tag == 0x901 || tag == 0x902 || tag == 0x903 || tag == 0x911
  }

  /** The result of a driver whose loop ended as `o`, when finalisation returns `finalVerdict`. */
  function LoopResult<S>(o: Outcome<S>, finalVerdict: Res): Res {
    match o
    case Aborted(r, _) => r
    case Finished(_) => finalVerdict
  }

  /** Index of the first read at or after `i` at which a failing block-TLV verdict stops the loop. */
  function FirstFailure(results: seq<ReadResult>, i: nat): (r: nat)
    requires i <= |results|
    ensures i <= r <= CleanEnd(results, i)
    ensures forall k | i <= k < r :: !(IsBlockTag(results[k].tlv.tag) && results[k].proc.verdict != Ok)
    ensures r < CleanEnd(results, i) ==> IsBlockTag(results[r].tlv.tag) && results[r].proc.verdict != Ok
    decreases |results| - i
  {
    if i == |results| || results[i].ReadFailed? then i
    else if IsBlockTag(results[i].tlv.tag) && results[i].proc.verdict != Ok then i
    else FirstFailure(results, i + 1)
  }

  // ---------------------------------------------------------------------
  // Extend and extract
  // ---------------------------------------------------------------------

  /** Extend and extract: every block TLV goes to the processors; the first failure ends the run. */
  function ProcessStep(u: (), t: Tlv, p: Processing): Step<()> {
    if IsBlockTag(t.tag) && p.verdict != Ok then Stop(p.verdict, ()) else Continue(())
  }

  function ExtendResult(results: seq<ReadResult>, magic: Magic, finalVerdict: Res): Res {
    if magic.res != Ok then magic.res
    else if IsExcerpt(magic.version) then VerificationSkipped
    else LoopResult(Run(results, 0, (), ProcessStep), finalVerdict)
  }

  /**
   * The loop of extend and extract has an independent description: it stops at the first
   * block TLV whose processing fails, with that result; otherwise at the first failed read,
   * with `InvalidInputFormat` when that read consumed bytes; otherwise it runs to the end.
   */
  lemma {:induction false} ProcessRunIsFirstFailure(results: seq<ReadResult>, i: nat)
    requires i <= |results|
    ensures var k := FirstFailure(results, i);
      Run(results, i, (), ProcessStep) ==
        if k < |results| && results[k].Read? then Aborted(results[k].proc.verdict, ())
        else if k < |results| && results[k].ftlvLen > 0 then Aborted(InvalidInputFormat, ())
        else Finished(())
    decreases |results| - i
  {
    if i < |results| && results[i].Read? && !(IsBlockTag(results[i].tlv.tag) && results[i].proc.verdict != Ok) {
      ProcessRunIsFirstFailure(results, i + 1);
    }
  }

  /** Extending succeeds exactly when the header is fine, the file is not an excerpt, no block fails, the data is not truncated and finalisation succeeds. */
  lemma ExtendOkIff(results: seq<ReadResult>, magic: Magic, finalVerdict: Res)
    ensures ExtendResult(results, magic, finalVerdict) == Ok <==>
      && magic.res == Ok
      && !IsExcerpt(magic.version)
      && FirstFailure(results, 0) == CleanEnd(results, 0)
      && (CleanEnd(results, 0) < |results| ==> results[CleanEnd(results, 0)].ftlvLen == 0)
      && finalVerdict == Ok
  {
    ProcessRunIsFirstFailure(results, 0);
    var k := FirstFailure(results, 0);
    if k < |results| && results[k].Read? {
      assert k < CleanEnd(results, 0);
    }
  }

  /** Runs the extend loop over `f`, from the first TLV after the magic number. */
  method ProcessAll(f: SmartFile, finalVerdict: Res) returns (res: Res)
    requires f.Valid() && f.pos == 0
    modifies f
    ensures res == LoopResult(Run(f.content, 0, (), ProcessStep), finalVerdict)
  {
    while !f.IsEof()
      invariant f.Valid()
      invariant Run(f.content, f.pos, (), ProcessStep) == Run(f.content, 0, (), ProcessStep)
      decreases |f.content| - f.pos
    {
      var r := f.Read();
      match r
      case ReadFailed(n) =>
        if n > 0 {
          return InvalidInputFormat;
        }
        return finalVerdict;
      case Read(t, p) =>
        if IsBlockTag(t.tag) && p.verdict != Ok {
          return p.verdict;
        }
    }
    res := finalVerdict;
  }

  /** `logsignature_extend`: excerpt files cannot be extended. */
  method Extend(f: SmartFile, magic: Magic, finalVerdict: Res) returns (res: Res)
    requires f.Valid() && f.pos == 0
    modifies f
    ensures res == ExtendResult(f.content, magic, finalVerdict)
  {
    if magic.res != Ok {
      return magic.res;
    }
    if IsExcerpt(magic.version) {
      return VerificationSkipped;
    }
    res := ProcessAll(f, finalVerdict);
  }

  /** Extraction additionally needs its position list; excerpt files cannot be extracted from. */
  function ExtractResult(results: seq<ReadResult>, rangeRes: Res, magic: Magic, finalVerdict: Res): Res {
    if rangeRes != Ok then rangeRes
    else if magic.res != Ok then magic.res
    else if IsExcerpt(magic.version) then VerificationSkipped
    else LoopResult(Run(results, 0, (), ProcessStep), finalVerdict)
  }

  /** `logsignature_extract`: `rangeRes` is the result of setting up the requested positions. */
  method Extract(f: SmartFile, rangeRes: Res, magic: Magic, finalVerdict: Res) returns (res: Res)
    requires f.Valid() && f.pos == 0
    modifies f
    ensures res == ExtractResult(f.content, rangeRes, magic, finalVerdict)
  {
    if rangeRes != Ok {
      return rangeRes;
    }
    if magic.res != Ok {
      return magic.res;
    }
    if IsExcerpt(magic.version) {
      return VerificationSkipped;
    }
    res := ProcessAll(f, finalVerdict);
  }

  /** Once its positions are set up, extraction walks the file exactly as extending does. */
  lemma ExtractWalksLikeExtend(results: seq<ReadResult>, rangeRes: Res, magic: Magic, finalVerdict: Res)
    ensures rangeRes == Ok ==> ExtractResult(results, rangeRes, magic, finalVerdict) == ExtendResult(results, magic, finalVerdict)
    ensures rangeRes != Ok ==> ExtractResult(results, rangeRes, magic, finalVerdict) == rangeRes
  {
  }

  // ---------------------------------------------------------------------
  // Counting blocks
  // ---------------------------------------------------------------------

  /** `count_blocks`: headers are counted, and signatures that carry a "no-sig" element. */
  function CountStep(c: SignTask, t: Tlv, p: Processing): Step<SignTask> {
    if t.tag == 0x901 then Continue(c.(blockCount := c.blockCount + 1))
    else if t.tag == 0x904 then
      if t.parse != Ok then Stop(t.parse, c)
      else if t.hasNoSig then Continue(c.(noSigCount := c.noSigCount + 1))
      else Continue(c)
    else Continue(c)
  }

  /** Signatures that parse and carry a "no-sig" element among the reads in `[i, end)`. */
  function CountNoSig(results: seq<ReadResult>, i: nat, end: nat): nat
    requires i <= end <= |results|
    decreases end - i
  {
    if i == end then 0
    else (if results[i].Read? && results[i].tlv.tag == 0x904 && results[i].tlv.hasNoSig then 1 else 0)
         + CountNoSig(results, i + 1, end)
  }

  /** Whether every signature TLV among the reads in `[i, end)` parses. */
  predicate SignaturesParse(results: seq<ReadResult>, i: nat, end: nat)
    requires i <= end <= |results|
  {
    forall k | i <= k < end :: results[k].Read? && results[k].tlv.tag == 0x904 ==> results[k].tlv.parse == Ok
  }

  /** The counts and the result of `count_blocks`; stream input is not counted at all. */
  function CountBlocksResult(results: seq<ReadResult>, isStream: bool, c0: SignTask): (Res, SignTask) {
    if isStream then (Ok, c0)
    else
      var o := Run(results, 0, c0.(blockCount := 0, noSigCount := 0, noSigNo := 0), CountStep);
      (LoopResult(o, Ok), OutcomeState(o))
  }

  /**
   * When every signature parses, counting runs to the first failed read and the counts are
   * the number of block headers and of "no-sig" signatures before it; the other counters
   * are left alone.
   */
  lemma {:induction false} CountStepCounts(results: seq<ReadResult>, i: nat, c: SignTask)
    requires i <= |results|
    requires SignaturesParse(results, i, CleanEnd(results, i))
    ensures var o := Run(results, i, c, CountStep);
      && OutcomeState(o).blockCount == c.blockCount + CountTag(results, i, CleanEnd(results, i), 0x901)
      && OutcomeState(o).noSigCount == c.noSigCount + CountNoSig(results, i, CleanEnd(results, i))
      && OutcomeState(o).noSigNo == c.noSigNo
      && (o.Aborted? ==> o.res == InvalidInputFormat)
    decreases |results| - i
  {
    var e := CleanEnd(results, i);
    if i < e {
      var t := results[i].tlv;
      var next := CountStep(c, t, results[i].proc).s;
      CountStepCounts(results, i + 1, next);
      assert CleanEnd(results, i) == CleanEnd(results, i + 1);
    }
  }

  /**
   * `count_blocks`: a counting pass over `f`, which is rewound to its first TLV afterwards;
   * a stream is not read at all.
   */
  method CountBlocks(f: SmartFile, sign: SignTask) returns (res: Res, counts: SignTask)
    requires f.Valid() && f.pos == 0
    modifies f
    ensures (res, counts) == CountBlocksResult(f.content, f.isStream, sign)
    ensures f.pos == 0
    ensures f.isStream ==> unchanged(f)
    ensures f.Valid()
  {
    counts := sign;
    if f.isStream {
      return Ok, counts;
    }
    counts := counts.(blockCount := 0, noSigCount := 0, noSigNo := 0);
    ghost var c0 := counts;
    res := Ok;
    while !f.IsEof()
      invariant f.Valid()
      invariant Run(f.content, f.pos, counts, CountStep) == Run(f.content, 0, c0, CountStep)
      decreases |f.content| - f.pos
    {
      var r := f.Read();
      match r
      case ReadFailed(n) =>
        if n > 0 {
          res := InvalidInputFormat;
        }
        break;
      case Read(t, p) =>
        if t.tag == 0x901 {
          counts := counts.(blockCount := counts.blockCount + 1);
        } else if t.tag == 0x904 {
          if t.parse != Ok {
            res := t.parse;
            break;
          }
          if t.hasNoSig {
            counts := counts.(noSigCount := counts.noSigCount + 1);
          }
        }
    }
    f.Rewind();
  }

  // ---------------------------------------------------------------------
  // Signing
  // ---------------------------------------------------------------------

  /**
   * Sign: block TLVs other than the signature must process; a signature whose signing
   * fails is left unsigned and remembered, any other failure stops the run.
   */
  function SignStep(lastError: Res, t: Tlv, p: Processing): Step<Res> {
    if IsLogSigTag(t.tag) then
      if p.verdict != Ok then Stop(p.verdict, lastError) else Continue(lastError)
    else if t.tag == 0x904 then
      if p.verdict == SigningFailure then Continue(SigningFailure)
      else if p.verdict != Ok then Stop(p.verdict, lastError)
      else Continue(lastError)
    else Continue(lastError)
  }

  /** Whether progress is shown and blocks are counted first: only when the input can be rewound. */
  function SignProgress(isStream: bool, debug: bool, showProgress: bool): bool {
    !isStream && debug && showProgress
  }

  /** The progress condition as the signing driver writes it: the input must be a stream. */
  function SignProgressAsWritten(isStream: bool, debug: bool, showProgress: bool): bool {
    isStream && debug && showProgress
  }

  datatype SignOutcome = SignOutcome(res: Res, counts: SignTask)

  /**
   * The result of signing and the block counts shown as progress.  `closeRes` is the
   * result of marking the output file consistent.
   */
  function SignResult(results: seq<ReadResult>, isStream: bool, progress: bool, magic: Magic, finalVerdict: Res, closeRes: Res): SignOutcome {
    if magic.res != Ok then SignOutcome(magic.res, InitialTask.sign)
    else if IsExcerpt(magic.version) then SignOutcome(VerificationSkipped, InitialTask.sign)
    else
      var counted := if progress then CountBlocksResult(results, isStream, InitialTask.sign) else (Ok, InitialTask.sign);
      if counted.0 != Ok then SignOutcome(counted.0, counted.1)
      else
        SignOutcome(SignLoopResult(Run(results, 0, Ok, SignStep), finalVerdict, closeRes), counted.1)
  }

  /** The result once the signing loop ended as `o`: a remembered signing failure replaces any other. */
  function SignLoopResult(o: Outcome<Res>, finalVerdict: Res, closeRes: Res): Res {
    var res := match o
      case Aborted(r, _) => r
      case Finished(_) => if finalVerdict != Ok then finalVerdict else closeRes;
    if OutcomeState(o) != Ok then OutcomeState(o) else res
  }

  /** The remembered error is Ok or a signing failure, and once a signing failure is remembered it stays. */
  lemma {:induction false} SignRemembers(results: seq<ReadResult>, i: nat, lastError: Res)
    requires i <= |results|
    requires lastError == Ok || lastError == SigningFailure
    ensures var e := OutcomeState(Run(results, i, lastError, SignStep));
      (e == Ok || e == SigningFailure) && (lastError == SigningFailure ==> e == SigningFailure)
    decreases |results| - i
  {
    if i < |results| && results[i].Read? {
      var st := SignStep(lastError, results[i].tlv, results[i].proc);
      if st.Continue? {
        SignRemembers(results, i + 1, st.s);
      }
    }
  }

  /**
   * A signature whose signing failed makes the whole run return `SigningFailure`, even when
   * a later block stops the run with another error: the failed block is left unsigned and
   * the run goes on.
   */
  lemma SigningFailureIsReturned(p: seq<ReadResult>, t: Tlv, pr: Processing, rest: seq<ReadResult>,
                                 isStream: bool, magic: Magic, finalVerdict: Res, closeRes: Res)
    requires magic.res == Ok && !IsExcerpt(magic.version)
    requires ReachesEnd(p, 0, Ok, SignStep)
    requires t.tag == 0x904 && pr.verdict == SigningFailure
    ensures SignResult(p + [Read(t, pr)] + rest, isStream, false, magic, finalVerdict, closeRes).res == SigningFailure
  {
    var step := SignStep;
    RunAppend(p, [Read(t, pr)] + rest, 0, Ok, step);
    assert p + [Read(t, pr)] + rest == p + ([Read(t, pr)] + rest);
    RunReachingEnd(p, 0, Ok, step);
    var e := OutcomeState(Run(p, 0, Ok, step));
    SignRemembers(p, 0, Ok);
    var q := [Read(t, pr)] + rest;
    SignRemembers(q, 1, SigningFailure);
  }

  /**
   * Any other failure of a signature, or a failure of another block TLV, stops the run
   * with that result when no signing failure came before it.
   */
  lemma OtherFailureStops(p: seq<ReadResult>, t: Tlv, pr: Processing, rest: seq<ReadResult>,
                          isStream: bool, magic: Magic, finalVerdict: Res, closeRes: Res)
    requires magic.res == Ok && !IsExcerpt(magic.version)
    requires ReachesEnd(p, 0, Ok, SignStep) && OutcomeState(Run(p, 0, Ok, SignStep)) == Ok
    requires (t.tag == 0x904 || IsLogSigTag(t.tag)) && pr.verdict != Ok && pr.verdict != SigningFailure
    ensures SignResult(p + [Read(t, pr)] + rest, isStream, false, magic, finalVerdict, closeRes).res == pr.verdict
  {
    var step := SignStep;
    RunAppend(p, [Read(t, pr)] + rest, 0, Ok, step);
    assert p + [Read(t, pr)] + rest == p + ([Read(t, pr)] + rest);
    RunReachingEnd(p, 0, Ok, step);
  }

  /**
   * As written, signing never counts blocks: progress needs a stream, and streams are not
   * counted, so the run is the one without progress, counts left at zero.
   */
  lemma AsWrittenSignNeverCounts(results: seq<ReadResult>, isStream: bool, debug: bool, showProgress: bool,
                                 magic: Magic, finalVerdict: Res, closeRes: Res)
    ensures var o := SignResult(results, isStream, SignProgressAsWritten(isStream, debug, showProgress), magic, finalVerdict, closeRes);
      o == SignResult(results, isStream, false, magic, finalVerdict, closeRes) && o.counts == InitialTask.sign
  {
  }

  /**
   * With the progress condition corrected, a rewindable input with progress requested is
   * counted: the counts shown are its block headers and its "no-sig" signatures.
   */
  lemma CorrectedSignCounts(results: seq<ReadResult>, magic: Magic, finalVerdict: Res, closeRes: Res)
    requires magic.res == Ok && !IsExcerpt(magic.version)
    requires SignaturesParse(results, 0, CleanEnd(results, 0))
    ensures var c := SignResult(results, false, SignProgress(false, true, true), magic, finalVerdict, closeRes).counts;
      c.blockCount == CountTag(results, 0, CleanEnd(results, 0), 0x901) &&
      c.noSigCount == CountNoSig(results, 0, CleanEnd(results, 0))
  {
    CountStepCounts(results, 0, InitialTask.sign);
  }

  /** Runs the signing loop over `f`; returns the loop's result and the remembered error. */
  method SignAll(f: SmartFile) returns (o: Outcome<Res>)
    requires f.Valid() && f.pos == 0
    modifies f
    ensures o == Run(f.content, 0, Ok, SignStep)
  {
    var lastError := Ok;
    while !f.IsEof()
      invariant f.Valid()
      invariant Run(f.content, f.pos, lastError, SignStep) == Run(f.content, 0, Ok, SignStep)
      decreases |f.content| - f.pos
    {
      var r := f.Read();
      match r
      case ReadFailed(n) =>
        if n > 0 {
          return Aborted(InvalidInputFormat, lastError);
        }
        return Finished(lastError);
      case Read(t, p) =>
        if IsLogSigTag(t.tag) {
          if p.verdict != Ok {
            return Aborted(p.verdict, lastError);
          }
        } else if t.tag == 0x904 {
          if p.verdict == SigningFailure {
            lastError := SigningFailure;
          } else if p.verdict != Ok {
            return Aborted(p.verdict, lastError);
          }
        }
    }
    o := Finished(lastError);
  }

  /** `logsignature_sign`, with the progress condition as written. */
  method Sign(f: SmartFile, debug: bool, showProgress: bool, magic: Magic, finalVerdict: Res, closeRes: Res)
    returns (out: SignOutcome)
    requires f.Valid() && f.pos == 0
    modifies f
    ensures out == SignResult(f.content, f.isStream, SignProgressAsWritten(f.isStream, debug, showProgress), magic, finalVerdict, closeRes)
  {
    if magic.res != Ok {
      return SignOutcome(magic.res, InitialTask.sign);
    }
    if IsExcerpt(magic.version) {
      return SignOutcome(VerificationSkipped, InitialTask.sign);
    }
    var counts := InitialTask.sign;
    if SignProgressAsWritten(f.isStream, debug, showProgress) {
      var res;
      res, counts := CountBlocks(f, counts);
      if res != Ok {
        return SignOutcome(res, counts);
      }
    }
    var o := SignAll(f);
    out := SignOutcome(SignLoopResult(o, finalVerdict, closeRes), counts);
  }

  // ---------------------------------------------------------------------
  // Integrating
  // ---------------------------------------------------------------------

  /**
   * Integrate: the state is the number of signatures read from the signatures file.  Each
   * block signature in the blocks file must be matched by the next TLV of the signatures
   * file, which must be a block signature too.
   */
  function IntegrateStep(sigs: seq<ReadResult>, j: nat, t: Tlv, p: Processing): Step<nat> {
    if IsLogSigTag(t.tag) then
      if p.verdict != Ok then Stop(p.verdict, j) else Continue(j)
    else if t.tag == 0x904 then
      if p.verdict != Ok then Stop(p.verdict, j)
      else if j >= |sigs| then Stop(InvalidInputFormat, j)
      else match sigs[j]
        case ReadFailed(_) => Stop(InvalidInputFormat, j + 1)
        case Read(st, sp) =>
          if st.tag != 0x904 then Stop(InvalidInputFormat, j + 1)
          else if sp.verdict != Ok then Stop(sp.verdict, j + 1)
          else Continue(j + 1)
    else Continue(j)
  }

  function IntegrateStepOf(sigs: seq<ReadResult>): (nat, Tlv, Processing) -> Step<nat> {
    (j: nat, t: Tlv, p: Processing) => IntegrateStep(sigs, j, t, p)
  }

  function IntegrateResult(blocks: seq<ReadResult>, sigs: seq<ReadResult>, magic: Magic, finalVerdict: Res): Res {
    if magic.res != Ok then magic.res
    else LoopResult(Run(blocks, 0, 0, IntegrateStepOf(sigs)), finalVerdict)
  }

  /** Whether the signatures in `[j, k)` of the signatures file are all block signatures that process. */
  predicate SignaturesMatch(sigs: seq<ReadResult>, j: nat, k: nat)
    requires j <= k <= |sigs|
  {
    forall m | j <= m < k :: sigs[m].Read? && sigs[m].tlv.tag == 0x904 && sigs[m].proc.verdict == Ok
  }

  /**
   * When integration runs to a clean end, the signatures consumed are exactly one per
   * block signature in the blocks file, and each of them is a block signature.
   */
  lemma {:induction false} IntegratePairsSignatures(blocks: seq<ReadResult>, sigs: seq<ReadResult>, i: nat, j: nat)
    requires i <= |blocks| && j <= |sigs|
    ensures var o := Run<nat>(blocks, i, j, IntegrateStepOf(sigs));
      o.Finished? ==>
        && o.s == j + CountTag(blocks, i, CleanEnd(blocks, i), 0x904)
        && o.s <= |sigs|
        && SignaturesMatch(sigs, j, o.s)
    decreases |blocks| - i
  {
    var step := IntegrateStepOf(sigs);
    if i < |blocks| && blocks[i].Read? {
      var st := step(j, blocks[i].tlv, blocks[i].proc);
      if st.Continue? {
        IntegratePairsSignatures(blocks, sigs, i + 1, st.s);
        assert CleanEnd(blocks, i) == CleanEnd(blocks, i + 1);
      }
    }
  }

  /** A block signature whose partner in the signatures file is missing, truncated or of another kind fails the run with `InvalidInputFormat`. */
  lemma UnpairedSignatureRejected(p: seq<ReadResult>, t: Tlv, pr: Processing, rest: seq<ReadResult>,
                                  sigs: seq<ReadResult>, magic: Magic, finalVerdict: Res)
    requires magic.res == Ok
    requires ReachesEnd(p, 0, 0, IntegrateStepOf(sigs))
    requires t.tag == 0x904 && pr.verdict == Ok
    requires var j := OutcomeState(Run(p, 0, 0, IntegrateStepOf(sigs)));
      j >= |sigs| || sigs[j].ReadFailed? || sigs[j].tlv.tag != 0x904
    ensures IntegrateResult(p + [Read(t, pr)] + rest, sigs, magic, finalVerdict) == InvalidInputFormat
  {
    var step := IntegrateStepOf(sigs);
    RunAppend(p, [Read(t, pr)] + rest, 0, 0, step);
    assert p + [Read(t, pr)] + rest == p + ([Read(t, pr)] + rest);
    RunReachingEnd(p, 0, 0, step);
  }

  /** `logsignature_integrate` over the blocks file and the signatures file. */
  method Integrate(blocks: SmartFile, sigs: SmartFile, magic: Magic, finalVerdict: Res) returns (res: Res)
    requires blocks != sigs
    requires blocks.Valid() && blocks.pos == 0 && sigs.Valid() && sigs.pos == 0
    modifies blocks, sigs
    ensures res == IntegrateResult(blocks.content, sigs.content, magic, finalVerdict)
  {
    if magic.res != Ok {
      return magic.res;
    }
    var step := IntegrateStepOf(sigs.content);
    while !blocks.IsEof()
      invariant blocks.Valid() && sigs.Valid()
      invariant Run(blocks.content, blocks.pos, sigs.pos, step) == Run(blocks.content, 0, 0, step)
      decreases |blocks.content| - blocks.pos
    {
      var r := blocks.Read();
      match r
      case ReadFailed(n) =>
        if n > 0 {
          return InvalidInputFormat;
        }
        return finalVerdict;
      case Read(t, p) =>
        if IsLogSigTag(t.tag) {
          if p.verdict != Ok {
            return p.verdict;
          }
        } else if t.tag == 0x904 {
          if p.verdict != Ok {
            return p.verdict;
          }
          if sigs.IsEof() {
            return InvalidInputFormat;
          }
          var s := sigs.Read();
          match s
          case ReadFailed(_) =>
            return InvalidInputFormat;
          case Read(st, sp) =>
            if st.tag != 0x904 {
              return InvalidInputFormat;
            }
            if sp.verdict != Ok {
              return sp.verdict;
            }
        }
    }
    res := finalVerdict;
  }
}
