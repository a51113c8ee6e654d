/*
 * The stream of TLV read results every task driver walks, the file it comes
 * from, and the one policy all drivers share for telling a clean end of the
 * stream from truncated data.
 */
module TlvStream {
  import opened BlocksInfo

  /** Size of the raw buffer a single TLV is read into (largest TLV plus its header). */
  const FtlvBufferSize: nat := 0xffff + 4

  /**
   * A TLV as far as the drivers look into it: its tag, whether its sub-elements parse
   * (the parse result), whether it holds a 0x02 "no-sig" sub-element and the value of
   * its 0x01 "record count" sub-element, if any.
   */
  datatype Tlv = Tlv(tag: nat, parse: Res, hasNoSig: bool, recordCount: Option<nat>)

  /**
   * What the processors (outside this model) do to the current block's counters when
   * they handle a TLV: hashes added to the tree, the declared record count, the record
   * time range and the signing time they set, and whether they closed the block by
   * folding its record hashes into the file total.
   */
  datatype Effect = Effect(
    recordHashes: nat,
    metaRecords: nat,
    recordCount: Option<nat>,
    recTimeMin: Option<nat>,
    recTimeMax: Option<nat>,
    sigTime: Option<nat>,
    closesBlock: bool)

  /**
   * The outcome of handing a TLV to the processors: the verdict of the main processor,
   * the verdict of the follow-up check (record-time check, signature processing), the
   * effect on the block, the tree's previous leaf afterwards, and whether a signing
   * time out of order was noticed.
   */
  datatype Processing = Processing(verdict: Res, check: Res, effect: Effect, prevLeaf: Hash, errSignTime: bool)

  /** One call of the TLV reader: a TLV, or a failure after `ftlvLen` bytes (0: nothing was there). */
  datatype ReadResult = Read(tlv: Tlv, proc: Processing) | ReadFailed(ftlvLen: nat)

  function Set(prev: nat, v: Option<nat>): nat {
    match v
    case None => prev
    case Some(x) => x
  }

  /** The block counters after the processors' effect. */
  function ApplyEffect(b: BlockInfo, e: Effect): (r: BlockInfo)
    ensures r.nofRecordHashes - r.nofMetaRecords == b.nofRecordHashes - b.nofMetaRecords + e.recordHashes - e.metaRecords
    ensures r.firstLineNo == b.firstLineNo
  {
    b.(nofRecordHashes := b.nofRecordHashes + e.recordHashes,
       nofMetaRecords := b.nofMetaRecords + e.metaRecords,
       recordCount := Set(b.recordCount, e.recordCount),
       recTimeMin := Set(b.recTimeMin, e.recTimeMin),
       recTimeMax := Set(b.recTimeMax, e.recTimeMax),
       sigTime1 := Set(b.sigTime1, e.sigTime))
  }

  /** Processors never count more meta-records than hashes they add. */
  predicate EffectValid(e: Effect) {
    e.metaRecords <= e.recordHashes
  }

  /** A well-behaved effect keeps the documented relation between the block counters. */
  lemma ApplyEffectKeepsCounters(b: BlockInfo, e: Effect)
    requires BlockCountersValid(b) && EffectValid(e)
    ensures BlockCountersValid(ApplyEffect(b, e))
    ensures ApplyEffect(b, e).nofRecordHashes >= b.nofRecordHashes
  {
  }

  // ---------------------------------------------------------------------
  // The stream loop
  // ---------------------------------------------------------------------

  /** What a driver does with one TLV: go on with a new state, or stop with a result. */
  datatype Step<S> = Continue(s: S) | Stop(res: Res, s: S)

  /** How a driver loop ends: the stream ended cleanly, or the loop stopped with a result. */
  datatype Outcome<S> = Finished(s: S) | Aborted(res: Res, s: S)

  function OutcomeState<S>(o: Outcome<S>): S {
    match o
    case Finished(s) => s
    case Aborted(_, s) => s
  }

  /**
   * The loop shared by every driver, from read `i` on: a TLV goes to `step`; a failed
   * read that consumed bytes means truncated data; a failed read with nothing
   * consumed, like the end of the file, ends the loop normally.
   */
  function Run<S>(results: seq<ReadResult>, i: nat, s: S, step: (S, Tlv, Processing) -> Step<S>): Outcome<S>
    requires i <= |results|
    decreases |results| - i
  {
    if i == |results| then Finished(s)
    else match results[i]
      case ReadFailed(n) => if n > 0 then Aborted(InvalidInputFormat, s) else Finished(s)
      case Read(t, p) =>
        match step(s, t, p)
        case Continue(s') => Run(results, i + 1, s', step)
        case Stop(r, s') => Aborted(r, s')
  }

  /** Running over a prefix, then on from where it ended. */
  function Then<S>(o: Outcome<S>, results: seq<ReadResult>, step: (S, Tlv, Processing) -> Step<S>): Outcome<S> {
    match o
    case Finished(s) => Run(results, 0, s, step)
    case Aborted(_, _) => o
  }

  /** Whether the loop, run over `results`, reaches their end (no stop, no failed read). */
  predicate ReachesEnd<S>(results: seq<ReadResult>, i: nat, s: S, step: (S, Tlv, Processing) -> Step<S>)
    requires i <= |results|
    decreases |results| - i
  {
    i == |results| ||
    (results[i].Read? &&
     step(s, results[i].tlv, results[i].proc).Continue? &&
     ReachesEnd(results, i + 1, step(s, results[i].tlv, results[i].proc).s, step))
  }

  /**
   * A run over a concatenation is a run over the first part followed, if that reached
   * its end, by a run over the second part.
   */
  lemma {:induction false} RunAppend<S>(p: seq<ReadResult>, q: seq<ReadResult>, i: nat, s: S, step: (S, Tlv, Processing) -> Step<S>)
    requires i <= |p|
    ensures ReachesEnd(p, i, s, step) ==> Run(p + q, i, s, step) == Then(Run(p, i, s, step), q, step)
    ensures !ReachesEnd(p, i, s, step) ==> Run(p + q, i, s, step) == Run(p, i, s, step)
    decreases |p| - i
  {
    if i == |p| {
      RunShift(p, q, 0, s, step);
    } else {
      assert (p + q)[i] == p[i];
      match p[i]
      case ReadFailed(n) =>
      case Read(t, pr) =>
        match step(s, t, pr)
        case Continue(s') => RunAppend(p, q, i + 1, s', step);
        case Stop(_, _) =>
    }
  }

  /** Running over `q` placed after `p` is running over `q` itself. */
  lemma {:induction false} RunShift<S>(p: seq<ReadResult>, q: seq<ReadResult>, j: nat, s: S, step: (S, Tlv, Processing) -> Step<S>)
    requires j <= |q|
    ensures Run(p + q, |p| + j, s, step) == Run(q, j, s, step)
    decreases |q| - j
  {
    if j < |q| {
      assert (p + q)[|p| + j] == q[j];
      match q[j]
      case ReadFailed(n) =>
      case Read(t, pr) =>
        match step(s, t, pr)
        case Continue(s') => RunShift(p, q, j + 1, s', step);
        case Stop(_, _) =>
    }
  }

  /**
   * Clean end of stream: a failed read that consumed nothing ends the loop as if the
   * file ended there; whatever follows it is never looked at.
   */
  lemma CleanEndStopsReading<S>(p: seq<ReadResult>, rest: seq<ReadResult>, s: S, step: (S, Tlv, Processing) -> Step<S>)
    ensures Run(p + [ReadFailed(0)] + rest, 0, s, step) == Run(p, 0, s, step)
  {
    RunAppend(p, [ReadFailed(0)] + rest, 0, s, step);
    assert p + [ReadFailed(0)] + rest == p + ([ReadFailed(0)] + rest);
    if ReachesEnd(p, 0, s, step) {
      RunReachingEnd(p, 0, s, step);
    }
  }

  /**
   * Truncated data: a failed read that consumed bytes ends the loop with
   * `InvalidInputFormat`, unless the driver stopped earlier.
   */
  lemma TruncationAborts<S>(p: seq<ReadResult>, n: nat, rest: seq<ReadResult>, s: S, step: (S, Tlv, Processing) -> Step<S>)
    requires n > 0
    ensures ReachesEnd(p, 0, s, step) ==>
      Run(p + [ReadFailed(n)] + rest, 0, s, step) == Aborted(InvalidInputFormat, OutcomeState(Run(p, 0, s, step)))
    ensures !ReachesEnd(p, 0, s, step) ==>
      Run(p + [ReadFailed(n)] + rest, 0, s, step) == Run(p, 0, s, step)
  {
    RunAppend(p, [ReadFailed(n)] + rest, 0, s, step);
    assert p + [ReadFailed(n)] + rest == p + ([ReadFailed(n)] + rest);
    if ReachesEnd(p, 0, s, step) {
      RunReachingEnd(p, 0, s, step);
    }
  }

  /** A run that reaches the end of its results finishes normally. */
  lemma {:induction false} RunReachingEnd<S>(p: seq<ReadResult>, i: nat, s: S, step: (S, Tlv, Processing) -> Step<S>)
    requires i <= |p| && ReachesEnd(p, i, s, step)
    ensures Run(p, i, s, step).Finished?
    decreases |p| - i
  {
    if i < |p| {
      RunReachingEnd(p, i + 1, step(s, p[i].tlv, p[i].proc).s, step);
    }
  }

  /** Index of the first failed read at or after `i`; the length when every read succeeds. */
  function CleanEnd(results: seq<ReadResult>, i: nat): (r: nat)
    requires i <= |results|
    ensures i <= r <= |results|
    ensures forall k | i <= k < r :: results[k].Read?
    ensures r < |results| ==> results[r].ReadFailed?
    decreases |results| - i
  {
    if i == |results| || results[i].ReadFailed? then i else CleanEnd(results, i + 1)
  }

  /** Number of TLVs tagged `tag` among the reads in `[i, end)`. */
  function CountTag(results: seq<ReadResult>, i: nat, end: nat, tag: nat): nat
    requires i <= end <= |results|
    decreases end - i
  {
    if i == end then 0
    else (if results[i].Read? && results[i].tlv.tag == tag then 1 else 0) + CountTag(results, i + 1, end, tag)
  }

  // ---------------------------------------------------------------------
  // The input file
  // ---------------------------------------------------------------------

  /**
   * A signature file as the drivers read it: the results its TLV results give, in order,
   * and the read position.  A stream (standard input) cannot be rewound.
   */
  class SmartFile {
    const content: seq<ReadResult>
    const isStream: bool
    var pos: nat

    ghost predicate Valid()
      reads this
    {
      pos <= |content|
    }

    constructor (content: seq<ReadResult>, isStream: bool)
      ensures Valid() && pos == 0
      ensures this.content == content && this.isStream == isStream
    {
      this.content := content;
      this.isStream := isStream;
      pos := 0;
    }

    predicate IsEof()
      reads this
    {
      pos >= |content|
    }

    /** The next read result; the position moves past it. */
    method Read() returns (r: ReadResult)
      requires Valid() && !IsEof()
      modifies this
      ensures Valid() && pos == old(pos) + 1
      ensures r == content[old(pos)]
    {
      r := content[pos];
      pos := pos + 1;
    }

    method Rewind()
      modifies this
      ensures Valid() && pos == 0
    {
      pos := 0;
    }
  }
}
