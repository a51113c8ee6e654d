# logksi bookkeeping core and task drivers, in Dafny

This project models the core of logksi, a tool for KSI-signed log files. It covers three parts:

- **The bookkeeping object.** The `LOGKSI` context holds the current block and file counters. It also holds the growable line buffer, the aggregation-level rule and the error level.
- **The task drivers.** Verify, extend, extract, sign (with its block-counting pass) and integrate each walk a log-signature file one TLV at a time and dispatch on the tag and the file version.
- **The extraction callbacks.** They open a record at a requested position and build its authentication path as the Merkle tree merges subtrees.

The processors that do the work for each TLV (hash checks, KSI signature calls, TLV decoding) are outside the model. What they return is delivered with each read result. A read result is either a TLV together with the processing verdict, its effect on the block counters and the tree's previous leaf, or a failed read with the number of bytes it consumed. Every driver loop is the same stream combinator `TlvStream.Run`. Each driver method holds the invariant that the run from the current position, in the current state, equals the run over the whole file. So every driver is proved against a specification function, and the properties are proved about that function.

Modules:

- `blocks_info.dfy` (`BlocksInfo`): enums and records, `size_t` subtraction.
- `logksi.dfy` (`Logksi`): the `Logksi` class and its specification functions.
- `tlv_stream.dfy` (`TlvStream`): the stream, the combinator, the input file.
- `rsyslog.dfy` (`Rsyslog`): extend, extract, count, sign, integrate.
- `rsyslog_verify.dfy` (`RsyslogVerify`): verification, the skip state machine, continue-on-failure.
- `record_chain.dfy` (`RecordChain`): the two extraction callbacks.

## Model

| member | source | states |
|---|---|---|
| BlocksInfo.SizeSub | src/tool_box/rsyslog.c:866-870 | `size_t` subtraction is exact without underflow and wraps to 2^64 minus the difference otherwise |
| BlocksInfo.DirectionFromCode | src/tool_box/blocks_info_impl.h:36-39 | exactly the codes 0 and 1 are link directions, and decoding inverts `DirectionCode` |
| BlocksInfo.TaskCodeRoundTrip | src/tool_box/blocks_info_impl.h:41-48 | the six task ids have distinct codes 0..5, and decoding a code gives the id back |
| BlocksInfo.VersionCodeRoundTrip | src/tool_box/blocks_info_impl.h:66-75 | the versions are LOGSIG11..LOG12SIG (0..5) plus the unknown version 0xff, and codes decode back to versions |
| BlocksInfo.InitialBlockIsClean | src/tool_box/blocks_info_impl.h:133-156 | a reset block holds no hashes and no signing time, and satisfies meta-records <= record hashes |
| Logksi.NextBlockAdvances | src/tool_box/logksi.c:160-176 | a new block is numbered one past the last; it starts at line nofTotalRecordHashes+1; the closing signing time is carried into sigTime0 only when set or when the block was unsigned; file counters, signature number and error state are unchanged |
| Logksi.NofLinesAtBlockStart | src/tool_box/logksi.c:238-244 | at a block start, the line count is one less than the block's first line number |
| Logksi.NextBlocksCountHeaders | src/tool_box/logksi.c:160-176 | after k headers the block number has grown by k, the file counters are untouched, and sigTime0 is the old one or the last closing time |
| Logksi.AggregationLevelIsTreeHeight | src/tool_box/logksi.c:178-204 | for LOGSIG12, n > 0 records are signed at level L with n <= 2^(L-1) and 2^(L-2) < n, i.e. one more than the height of the smallest perfect tree holding them |
| Logksi.AggregationLevelUnique | src/tool_box/logksi.c:178-204 | those bounds determine the level |
| Logksi.AggregationLevelExamples | src/tool_box/logksi.c:180-199 | LOGSIG11 always gives 0, no records give 0, 1 record gives 1, 5..8 give 4, 9..16 give 5 |
| Logksi.NextCapacity | src/tool_box/logksi.c:92-93 | a growth step starts at 1024 and then doubles, strictly increasing, capped at the limit |
| Logksi.FitCapacityCorrect | src/tool_box/logksi.c:83-134 | a line fits exactly when it needs no more than the limit; the capacity reached covers it, stays within the limit, and is the old one or below twice the need |
| Logksi.ReadChunk | src/tool_box/logksi.c:119-120 | a chunk read stops at the room left or at the end of the line, and reports "too small" exactly when the line goes on |
| Logksi.ErrorLevelIsMaximum | src/tool_box/logksi.c:246-250 | after any series of calls the stored level is the maximum of the initial level and the accepted levels |
| Logksi.NonEmptyLevelsStep | src/tool_box/logksi.c:215-236 | the set of non-empty subtree-root levels grows by level i exactly when that root is present |
| Logksi.Logksi.constructor | src/tool_box/logksi.c:49-81 | a new context is the initial context with no line buffer |
| Logksi.Logksi.Initialize | src/tool_box/logksi.c:49-81 | every field is reset to its initial value |
| Logksi.Logksi.FreeAndClearInternals | src/tool_box/logksi.c:137-156 | the context is released and re-initialised |
| Logksi.Logksi.GetLineBuffer | src/tool_box/logksi.c:83-106 | with a buffer already allocated and no increase asked for, nothing changes; at the limit, growth fails with `IndexOverflow`; otherwise the capacity becomes `NextCapacity` and nothing else changes |
| Logksi.Logksi.ReadLine | src/tool_box/logksi.c:108-135 | a line that fits ends up in the buffer followed by '\n' and '\0', with length line+1 and capacity `LineCapacity`; a line that does not fit gives `IndexOverflow`; a reader error is returned after the first allocation |
| Logksi.Logksi.ReadText | src/tool_box/logksi.c:116-128 | the growth loop reaches exactly `LineCapacity` of the line, or fails at the limit |
| Logksi.Logksi.GrowForRead | src/tool_box/logksi.c:116-118 | growing the buffer keeps the part of the line already read |
| Logksi.Logksi.CopyLinePart | src/tool_box/logksi.c:120-123 | after a chunk is read, the buffer holds the line up to the new read count |
| Logksi.Logksi.InitNextBlock | src/tool_box/logksi.c:160-176 | returns OK and moves the context to `NextBlock` of the old one, including the per-task resets of lines 398-434 |
| Logksi.Logksi.GetAggregationLevel | src/tool_box/logksi.c:178-204 | the halving loop computes `AggregationLevel` |
| Logksi.Logksi.HasWarnings | src/tool_box/logksi.c:206-213 | true exactly when one of the three warning flags is set |
| Logksi.Logksi.GetMaxFinalHashes | src/tool_box/logksi.c:215-236 | the result is the number of non-empty subtree roots minus one, below the tree height |
| Logksi.Logksi.GetNofLines | src/tool_box/logksi.c:238-244 | the result is the block's record hashes plus the file's total |
| Logksi.Logksi.SetErrorLevel | src/tool_box/logksi.c:246-250 | the invalid level and levels >= the count are rejected with `InvalidArgument`; otherwise the stored level rises to `lvl` if lower, never falls, and nothing else changes |
| Logksi.Logksi.GetErrorLevel | src/tool_box/logksi.c:252-255 | returns the stored level |
| TlvStream.ApplyEffect | src/tool_box/blocks_info_impl.h:136-137 | the processors' effect adds (record hashes minus meta-records) to the block's count of log records, and leaves the first line alone |
| TlvStream.ApplyEffectKeepsCounters | src/tool_box/blocks_info_impl.h:136-137 | an effect that adds no more meta-records than hashes keeps meta-records <= record hashes |
| TlvStream.RunAppend | src/tool_box/rsyslog.c:175-365 | a driver loop over a concatenation is the loop over the first part, continued over the second only if the first reached its end |
| TlvStream.CleanEndStopsReading | src/tool_box/rsyslog.c:355-362 | a failed read that consumed nothing ends the loop as if the file ended there |
| TlvStream.TruncationAborts | src/tool_box/rsyslog.c:355-358 | a failed read that consumed bytes ends the loop with `InvalidInputFormat` |
| TlvStream.RunReachingEnd | src/tool_box/rsyslog.c:175-363 | a loop that reaches the end of its reads finishes normally |
| TlvStream.CleanEnd | src/tool_box/rsyslog.c:355-362 | the index of the first failed read: all reads before it are TLVs |
| TlvStream.SmartFile.Read | src/tool_box/rsyslog.c:178 | returns the next read result and advances by one |
| TlvStream.SmartFile.Rewind | src/tool_box/rsyslog.c:833 | the file is back at its first TLV |
| Rsyslog.FirstFailure | src/tool_box/rsyslog.c:88-111 | the first block TLV whose processing fails, before the first failed read |
| Rsyslog.ProcessRunIsFirstFailure | src/tool_box/rsyslog.c:82-113 | the extend/extract loop stops at the first failing block TLV with its verdict; otherwise at a truncated read with `InvalidInputFormat`; otherwise it finishes |
| Rsyslog.ExtendOkIff | src/tool_box/rsyslog.c:49-127 | extending succeeds iff the magic is valid, the file is not an excerpt, no block TLV fails, the data is not truncated and finalisation succeeds |
| Rsyslog.ProcessAll | src/tool_box/rsyslog.c:82-113 | the loop method computes the specified loop result |
| Rsyslog.Extend | src/tool_box/rsyslog.c:49-127 | the driver returns `ExtendResult` |
| Rsyslog.Extract | src/tool_box/rsyslog.c:442-534 | the driver returns `ExtractResult` |
| Rsyslog.ExtractWalksLikeExtend | src/tool_box/rsyslog.c:442-534 | once its positions are set up, extraction gives the same result as extending; otherwise it gives the position error |
| Rsyslog.CountStepCounts | src/tool_box/rsyslog.c:793-830 | when all signatures parse, counting gives the number of 0x901 TLVs and of 0x904 TLVs with a 0x02 element before the first failed read; a stop is `InvalidInputFormat` |
| Rsyslog.CountBlocks | src/tool_box/rsyslog.c:773-839 | stream input is left unread and uncounted, its position untouched; otherwise the counts are those of `CountBlocksResult` and the file is rewound |
| Rsyslog.SignRemembers | src/tool_box/rsyslog.c:704-713 | the remembered error is OK or `SigningFailure`, and once set it stays set |
| Rsyslog.SigningFailureIsReturned | src/tool_box/rsyslog.c:704-761 | a block whose signing failed makes the run return `SigningFailure` whatever follows |
| Rsyslog.OtherFailureStops | src/tool_box/rsyslog.c:692-716 | any other failure stops signing with that result when no signing failure came before |
| Rsyslog.AsWrittenSignNeverCounts | src/tool_box/rsyslog.c:673-678 | with the progress condition as written, signing gives exactly the outcome of signing without progress, and blocks are never counted |
| Rsyslog.CorrectedSignCounts | src/tool_box/rsyslog.c:673-687 | with the corrected condition, rewindable input with progress requested shows its header and no-sig counts |
| Rsyslog.SignAll | src/tool_box/rsyslog.c:689-732 | the signing loop computes the specified run |
| Rsyslog.Sign | src/tool_box/rsyslog.c:638-768 | the driver returns `SignResult` with the progress condition as written, so by `AsWrittenSignNeverCounts` it never counts blocks |
| Rsyslog.IntegratePairsSignatures | src/tool_box/rsyslog.c:561-621 | an integration that finishes consumes exactly one signature per 0x904 TLV in the blocks file, each a 0x904 that processes |
| Rsyslog.UnpairedSignatureRejected | src/tool_box/rsyslog.c:585-599 | a block signature whose partner is missing, truncated or of another tag fails with `InvalidInputFormat` |
| Rsyslog.Integrate | src/tool_box/rsyslog.c:536-636 | the driver returns `IntegrateResult` |
| RsyslogVerify.LinesToSkip | src/tool_box/rsyslog.c:870 | the lines to skip plus the records checked make up the declared count, and are 0 when more were checked |
| RsyslogVerify.LinesToSkipAgreesWithoutWrap | src/tool_box/rsyslog.c:870 | the written `size_t` computation agrees with `LinesToSkip` whenever it does not wrap |
| RsyslogVerify.LinesToSkipWraps | src/tool_box/rsyslog.c:870 | a block declaring 2 records with 3 checked asks for 2^64-1 lines as written and 0 corrected |
| RsyslogVerify.SkipStepLines | src/tool_box/rsyslog.c:870-879 | while skipping, lines are skipped only at the block header; there, when the declared count covers the checked records within `size_t`, the lines skipped and the records checked make up the declared count |
| RsyslogVerify.SkipStepFrame | src/tool_box/rsyslog.c:861-889 | while skipping, only 0x901 ends the skip; the deferred error, the continue flag and the block number are untouched; an unfolded block is folded into the file total |
| RsyslogVerify.QuietErrorOnlyRises | src/tool_box/rsyslog.c:195-208 | over any run, the deferred error stays or becomes `VerificationFailure`, and never changes without continue-on-failure |
| RsyslogVerify.ContinuedFailureFailsRun | src/tool_box/rsyslog.c:195-208 | once a failed block was skipped, the run returns `VerificationFailure` whatever follows |
| RsyslogVerify.NoContinueReturnsFailure | src/tool_box/rsyslog.c:416-422 | without continue-on-failure, a stopped run returns the failure that stopped it |
| RsyslogVerify.SkippingIgnoresTlvs | src/tool_box/rsyslog.c:882-889 | skipping over non-header TLVs never stops the run (except on truncation) and keeps file counters and error state; sigNo grows by the signatures declaring a record count |
| RsyslogVerify.FirstLinkChecked | src/tool_box/rsyslog.c:224-269 | the first header with a link to the previous file stops the run with `VerificationFailure` exactly when the link differs from the previous leaf |
| RsyslogVerify.FoldMinIsMinimum | src/tool_box/rsyslog.c:288 | folding the earliest record time takes the smaller non-zero time |
| RsyslogVerify.FoldMaxIsMaximum | src/tool_box/rsyslog.c:289 | folding the latest record time takes the larger |
| RsyslogVerify.FoldMinsIsSmallestNonZero | src/tool_box/rsyslog.c:279-289 | over all blocks, the file's earliest time is one of the times seen, and no non-zero time is smaller |
| RsyslogVerify.SkipCurrentBlock | src/tool_box/rsyslog.c:841-899 | does nothing unless skipping; otherwise performs `SkipStep`, which reports the `size_t` count as written (`LinesToSkipAsWritten`, wrap included) |
| RsyslogVerify.Process | src/tool_box/rsyslog.c:186-193 | the context after the processors is `Processed` |
| RsyslogVerify.LogSigTlv | src/tool_box/rsyslog.c:183-274 | a log-signature TLV does `LogSigStep`: the header starts a block, a continued failure is deferred, the first header's link is checked |
| RsyslogVerify.ExcerptTlv | src/tool_box/rsyslog.c:276-349 | an excerpt TLV does `ExcerptStep`: a block signature folds the block into the file counters, a record chain is checked with its record time |
| RsyslogVerify.VerifyTlv | src/tool_box/rsyslog.c:175-353 | one TLV does `VerifyStep`: the skip machine first, then dispatch on the version |
| RsyslogVerify.StartVerify | src/tool_box/rsyslog.c:150-161 | sets the task, a fresh tree, the continue flag, the previous signing time and the version |
| RsyslogVerify.FinishVerify | src/tool_box/rsyslog.c:365-414 | after a clean end: the excerpt's last block is counted, finalisation and the signing-time check decide, and the deferred error overrides |
| RsyslogVerify.VerifyLoop | src/tool_box/rsyslog.c:175-363 | the loop computes the specified run |
| RsyslogVerify.LoopAndFinish | src/tool_box/rsyslog.c:175-414 | from the set-up context, the loop and what follows it compute `VerifyRun`: a stop goes to cleanup with its result, a clean end to finalisation |
| RsyslogVerify.Verify | src/tool_box/rsyslog.c:129-440 | the driver returns `VerifyResult`, including the signing time the next call starts from, and leaves the context cleared |
| RecordChain.NewRecord | src/tool_box/rsyslog.c:1001-1020 | a new record is well formed at level 1, for the requested position and the current offset |
| RecordChain.OpenRecordSpec | src/tool_box/rsyslog.c:989-1023 | a record is opened exactly when positions are pending and position minus total equals the block's record hashes; it gets the mask link (left for a meta-record) and the cursor moves on; open records are kept |
| RecordChain.RequestedLeafWithoutWrap | src/tool_box/rsyslog.c:989-990 | without wrap-around, the requested leaf is the one at position minus total in the block |
| RecordChain.AddLink | src/tool_box/blocks_info_impl.h:63 | a link is refused when the chain already holds MAX_TREE_HEIGHT entries; otherwise it is appended and the level rises past it |
| RecordChain.AddLinkKeepsValid | src/tool_box/blocks_info_impl.h:50-64 | appending keeps the level equal to the links plus their corrections |
| RecordChain.ExtendKeepsRecords | src/tool_box/rsyslog.c:1062-1097 | a merge keeps every record, its position, offset and hash; each chain keeps its links and gains at most one; records stay well formed |
| RecordChain.ExtendLinks | src/tool_box/rsyslog.c:1077-1090 | after a merge at `level` that succeeds, a record gains a link exactly when `level + 1` equals its level (or reaches it while closing): RIGHT_LINK with the tree's hash when bit `level` of offset-1 is set, LEFT_LINK with the left root otherwise, correction `level + 1 - recordLevel`; every other record is unchanged |
| RecordChain.ExtendOverflowIff | src/tool_box/rsyslog.c:1077-1094 | the merge fails with `IndexOverflow` exactly when a qualifying record's chain is already full, and succeeds otherwise |
| RecordChain.NewRecordSpellsIndex | src/tool_box/rsyslog.c:1015-1019 | a new record's path trivially spells its index |
| RecordChain.ExtendSpellsIndex | src/tool_box/rsyslog.c:1077-1090 | outside closing, link k of every path lies on the right exactly when bit k-1 of the record's zero-based index is set |
| RecordChain.NewRecordChain | src/tool_box/rsyslog.c:970-1036 | the context after the callback is `NewRecordChainSpec`, with the current log line copied into the record |
| RecordChain.ExtractRecordChain | src/tool_box/rsyslog.c:1039-1108 | the loop over open records extends them in place as `ExtractRecordChainSpec` says, so by `ExtendLinks` each qualifying record gains the sibling and correction of its path, and by `ExtendOverflowIff` it fails exactly when such a chain is full |

## Left out

- Argument checks against NULL pointers are not modelled. Dafny references are never null.
- Allocation and reference-counting failures are not modelled. These are `realloc`, `KSI_DataHash_ref`, `MERKLE_TREE_new`, `EXTRACT_INFO_getNewRecord` and `KSI_strdup`.
- RsyslogVerify.Verify: a malformed `--client-id` pattern makes `REGEXP_new` fail and verification stop before the first TLV is read; client-id matching is not modelled, so neither is this failure.
- The TLV read buffer and the error tracker that `LOGKSI_initialize` clears (`ftlv`, `ftlv_raw`, `ftlv_len`, `err`) have no counterpart in `Logksi.Context`: each read result is delivered whole, and error messages are not modelled.
- `EXTRACT_INFO_isLastPosPending`, `EXTRACT_INFO_getNextPosition` and `EXTRACT_INFO_moveToNext` are not part of this model. The model assumes they are a cursor over the list of requested positions: pending while the cursor is inside the list, the position under the cursor, and a step forward.
- `EXTRACT_INFO_getPositionsInBlock` and `EXTRACT_INFO_getRecord` are not part of this model. The model assumes they give the number of records opened in the current block and the record at an index among them.
- `EXTRACT_INFO_resetBlockInfo` is not part of this model. The model assumes it empties the list of records opened in the block and keeps the requested positions and the cursor.
- `SMART_FILE_readLine` is not part of this model. `Logksi.ReadChunk` assumes it reads up to the room it is given, stops at the end of the line, and reports "buffer too small" exactly when it filled the room and the line goes on.
- The Merkle tree implementation is not part of this model. Failures of `MERKLE_TREE_getSubTreeRoot`, `MERKLE_TREE_getPrevLeaf`, `MERKLE_TREE_getPrevMask` and `MERKLE_TREE_get` are not modelled. Their values (the previous leaf, the mask, the hash at a level, the last leaf, the subtree roots) are parameters or carried with each read.
- The processors (`process_*`, `finalize_log_signature`, `process_magic_number`) are not part of this model. Their results are inputs: a verdict and an effect per TLV, a final verdict, and the magic result.
- `RECORD_INFO_*` is not part of this model. The model assumes that appending a link raises the record's level by the link's correction plus one, and that a full chain is refused with `IndexOverflow`.
- Cryptography, KSI signatures and TLV decoding are not modelled: hashes are compared only for equality.
- Printing, progress output, error-tracker messages and client-id matching against a regular expression are not modelled.
- Skipping log lines (`SMART_FILE_gets`) is modelled only as the count of lines to skip.
- `theFirstInputHashInFile` is not modelled. It only flows into finalisation, which is outside the model.
- The static `lastSignatureTime` of the verification driver is an explicit input and output of `RsyslogVerify.Verify`, not hidden state.
- `TlvStream.SmartFile.Rewind` returns to the first TLV after the magic number. Where the file layer puts the position is not part of this model.
- Logksi.Logksi.ReadLine: an unreadable source fails at its first read. Reader errors after some chunks were read are not modelled.
- The sign driver's marking of the output file as inconsistent, and the extend and extract drivers' output handling, are not modelled.
- `src/tool_box/integrate.c` and the duplicate declarations in `rsyslog.h` are not part of this model.
- `LINE_BUFFER_LIMIT` is a constructor parameter of `Logksi.Logksi` (any value >= 2), since its value is not in the modelled sources. The values of the verification-result levels are modelled only through `VerResInvalid` (0) and `VerResCount` (4).

## Findings

| source | as written | input that shows it | evidently intended | confidence | as-written member | corrected member |
|---|---|---|---|---|---|---|
| src/tool_box/rsyslog.c:673-678 | progress (and block counting) is enabled only when the input IS a stream, but `count_blocks` does nothing for streams, and the comment says stdin cannot be estimated | any run with `-d --show-progress`: on a file, no progress; on stdin, counts stay 0 | enable progress when the input is NOT a stream | high, not executed | Rsyslog.AsWrittenSignNeverCounts | Rsyslog.CorrectedSignCounts |
| src/tool_box/rsyslog.c:870 | lines to skip = recordCount - (nofRecordHashes - nofMetaRecords) in `size_t`, which wraps when more records were checked than the block declares | recordCount 2, nofRecordHashes 3, nofMetaRecords 0 gives 2^64-1 lines to skip, so the rest of the log is consumed | skip nothing in that case | medium, not executed | RsyslogVerify.LinesToSkipWraps | RsyslogVerify.LinesToSkip |
