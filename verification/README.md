# node-flow collector: model and proofs

This project models the durable ingestion path of the Go runtime of node-flow, and the telemetry codec in front of it,
and proves what the collector promises about them. `dafny verify dfyconfig.toml` checks everything.

**Write-ahead log** (`Wal*.dfy`). Requests are grouped, framed, closed by a commit marker and synced; segments rotate;
acknowledgements, retries and quarantines go to a checkpoint file per segment whose space is reserved in advance; spent
segments are removed. The class `Wal.WAL` has the fields of the source and its loops. A ghost `log` says what the files
mean and a ghost `queue` (record ID to stored record and attempt count) what the log is for. `WalFormat`, `WalScan` and
`WalRecovery` are the byte layout, the parser and crash recovery; `WalOps` to `WalQueue` say what each operation does to
memory, disk and queue; `WalBudget` is the disk budget; `WalRuns` is the theorem about whole runs with crashes. `WalAccept`
says, without the parser, which files and directories recovery accepts, and `WalReplies` why an append is answered as it is.

**Per-envelope store** (`StoreFormat.dfy`, `LegacyStore.dfy`). The older implementation of the storage contract, one file
per record with the attempt count in its name, proved against the same abstract queue.

**Topology engine and checkpoint** (`Spans` to `TopologySink`). Spans are counted once each into nodes, edges and
runtime paths; late parents withdraw provisional paths; old traces are trimmed. `Spans`, `Forest` and `Chains` say
which dependencies and paths a trace stands for, `Retention` which traces stay, `Reshares` what replacing the shares
of a trace does to the paths, `NodeNames` which span describes a node. `EngineCore.Core` says that every counter is
the exact sum over everything counted so far, and `Confluence` that arrival order does not matter. `Identity` is the
naming of nodes, edges and paths, `Normalization` what becomes of values that are not in normal form, `Snapshot` the
exported document against its validator, `Checkpoint` and `StateStore` the saved state, `TopologySink` the sink that
groups, ingests and checkpoints a batch; `Resumed` says that a restored engine goes on like the saved one.

**Delivery pipeline** (`Pipeline*.dfy`). Admission, loader, dispatcher and workers as a state machine with one atomic step
for each critical section or channel operation; the theorems hold for every interleaving. `PipelineVerdict` says when a
batch is given up and when it is tried again.

**The whole collector** (`World.dfy`, `WorldSteps.dfy`, `EndToEnd.dfy`). Log, pipeline, live engine and checkpoint file
together, with crashes at any byte and restarts: effectively once, nothing lost, the budget.

**Telemetry codec** (`Wire.dfy`, `Protobuf.dfy`, `ProtobufInput.dfy`, `ProtobufCodec.dfy`). The Protocol Buffers encoding of
envelopes, with a writer that appends and a reader that advances, fields of other protocol versions in between, and inputs
that no encoder wrote.

## Modelling conditions

- Bytes are `int` below 256; 64-bit fields carry the bound `FitsU64` where they are written and 32-bit fields `FitsU32`.
  Counters such as the next record ID are assumed not to pass 2^64.
- The CRC-32 of IEEE 802.3 is an arbitrary function to 32-bit numbers. JSON is an arbitrary codec, of records and of
  checkpoint states alike, that may refuse a value and whose decoding undoes its encoding wherever it encodes. UTF-8 is an
  arbitrary codec with the same law. The theorems hold for all of them, and there are such codecs
  (`EndToEnd.SiteFor`).
- A crash cuts one append after any number of bytes, or a sequence of renames or removals after any of them, and recovery
  between any two of its writes. Rename is atomic and synced bytes stay. The configuration is the same across restarts.
- In claims about the log, payloads are at most `SegmentBytes`; what becomes of a larger one is `WalScan.GroupReadIff`.
- Times of admission are positive; payloads of the per-envelope store are not empty and below 4 GiB.
- One call of Ack, MarkRetry or Quarantine names each record once.
- The clock, I/O outcomes, the worker hash, the order in which a map or an object lists its entries, batching triggers
  and the choice of the next step are parameters or nondeterministic.
- Durations are reals. Lower-casing and white space of non-ASCII letters are parameters fixed on ASCII; in `Normalization`
  lower-casing is idempotent and keeps white space.
- The deduplication keys of edges and the keys of edges and paths are pairs, where the source joins texts; that the joined
  texts tell edges apart is `Identity.EdgeIDsInjective`, and exactly when they tell paths apart `Identity.PathTextsAgree`;
  where they do not, the source merges two paths that the model keeps apart.
- In claims about the sums of paths "no path evicted" is a condition, because a share may later be taken from a path that
  was evicted and created again; what holds in any case is in `Engine.Engine.Aggregate`.

## Where the code does less than one might expect

- With `MaxBytes` below 56 a fresh log is over its budget at once: `OpenWAL` checks only that it is positive
  (`WalRuns.FirstStart`).
- A retry at the attempt limit makes the reserve fall 24 bytes below its formula (`WalBudget.RetryReleasesOneEntry`). The
  pipeline never writes one (`EndToEnd.RetriesReleaseTheirEntries`).
- A checkpoint whose CRC-32 happens to be zero cannot be opened again: zero is taken for a missing checksum
  (`StateStore.SavedOpens`).
- Path IDs are hashes of a text that can be the same for two paths: entry `get:x` with node `service:a`, and entry `get`
  with node `x:service:a` of framework `x` (`Identity.PathTextsCollide`); exactly when is `Snapshot.PathsApart`.
- A node whose kind normalizes to nothing gets an ID that is not in normal form (`Identity.NodeIDNormal`); the runtime has
  no such kind.
- `aggregateRuntimePaths` returns early when a trace has no roots. A trace that loses its last root to a parent cycle
  therefore keeps the shares it had, and its paths depend on the order of arrival (`StaleShares.StaleShare`). Shares are
  right after aggregation if and only if the trace has a root or had no shares (`Engine.Engine.Aggregate`).
- A record whose encoding is larger than `SegmentBytes` is committed and acknowledged to its submitter, but recovery takes
  its frame for a torn one and cuts it off with everything behind it (`WalScan.GroupReadIff`).
- A checkpoint write that fails within an entry is not cut off again while the log runs on. The next entry is then out of
  place, and the directory is refused when it is next opened, unless the mixture of the two happens to decode
  (`WalRecovery.ShortWrite`).
- The per-envelope store has already renamed the files before the one at which `MarkRetry` refuses a count above 99,999;
  the log refuses such a call as a whole (`LegacyStore.Store.MarkRetry`, `Wal.WAL.WriteRecordStates`).
- An attribute called `__proto__` does not survive the telemetry codec: the decoder assigns it to a plain object
  (`Protobuf.ProtoKeyLost`).
- The documentation promises delivery at least once. Effectively once holds for the counters while a trace is retained:
  a span that is delivered again after its trace was trimmed is counted again.

## Model

| member | source | states |
|---|---|---|
| `WalScan.TruncationIsStable` | runtime/go/internal/spool/wal_recovery.go:191-276 | Whatever bytes a segment file holds, cutting it where recovery cuts it (after the last complete commit marker) and parsing it again accepts the same groups and finds no tail: recovery is idempotent on arbitrary input, not only on files the writer made. See also runtime/go/internal/spool/wal_recovery.go:278-305. |
| `WalScan.ScanGroup` | runtime/go/internal/spool/wal_recovery.go:196-262 | The parser undoes the printer: whole printed groups take the parser from the first byte of a group to the state with that group committed, with every frame's record, offset and size. |
| `WalScan.ScanTornGroup` | runtime/go/internal/spool/wal_recovery.go:198-209 | A proper prefix of a printed group, cut at any byte, is an uncommitted tail and never corruption. |
| `WalScan.GroupReadIff` | runtime/go/internal/spool/wal_recovery.go:205-209 | A group that is wholly in the file, commit marker included, is read as committed if and only if each payload is within SegmentBytes; otherwise the parse ends before it, so that recovery cuts off a committed group; the writer does not check this. See also runtime/go/internal/spool/wal.go:350-426. |
| `WalFormat.SegmentHeaderRoundTrip` | runtime/go/internal/spool/wal_format.go:68-94 | A printed segment header is accepted for its own segment ID and refused as a mismatch for every other. |
| `WalFormat.FrameHeaderRoundTrip` | runtime/go/internal/spool/wal_format.go:127-155 | Kind, sequence, payload size and checksum of a printed frame header are read back exactly. |
| `WalFormat.CommitRoundTrip` | runtime/go/internal/spool/wal_format.go:106-125 | All five fields of a commit marker are read back exactly. |
| `WalFormat.EntryRoundTrip` | runtime/go/internal/spool/wal_format.go:202-232 | A printed checkpoint entry is read back with kind, reason, ID and attempts. |
| `WalFormat.StateHeaderRoundTrip` | runtime/go/internal/spool/wal_format.go:175-200 | A printed checkpoint header is accepted for its own segment ID and no other. |
| `WalFormat.EncodeSegmentHeader` | runtime/go/internal/spool/wal_format.go:68-77 | The buffer filled field by field is the specified header. |
| `WalFormat.EncodeFrame` | runtime/go/internal/spool/wal_format.go:127-137 | The buffer filled field by field is the specified frame, header checksum included. |
| `WalFormat.EncodeCommitFrame` | runtime/go/internal/spool/wal_format.go:106-114 | The commit marker is framed under its last ID. |
| `WalFormat.EncodeEntry` | runtime/go/internal/spool/wal_format.go:202-212 | The buffer filled field by field is the specified checkpoint entry. |
| `WalAccept.FrameHeaderIff` | runtime/go/internal/spool/wal_format.go:139-155 | Bytes are accepted as a frame header if and only if a writer could have printed them (the reserved bytes aside): magic, version, kind, sizes and the checksum over all of it. |
| `WalAccept.EntryIff` | runtime/go/internal/spool/wal_format.go:214-232 | Bytes are accepted as a checkpoint entry if and only if a writer could have printed them, checksum included. |
| `WalAccept.ScanIff` | runtime/go/internal/spool/wal_recovery.go:191-276 | The parser accepts exactly the files that begin with a header of their segment, go on with whole groups of data frames, each closed by the marker of just these frames, and end with frames that no marker closes and less than one frame more (or a frame whose payload exceeds SegmentBytes and whatever follows it), all record IDs being different and new; what it takes for committed are those groups. It is stated without the parser. |
| `WalAccept.CheckpointIff` | runtime/go/internal/spool/wal_recovery.go:307-351 | A checkpoint file is accepted if and only if it begins with the header of its segment and every whole entry behind it is one that a writer could have printed; the latest entry of a record counts and an incomplete last one is cut off. |
| `WalAccept.RecoverIff` | runtime/go/internal/spool/wal_recovery.go:85-105 | A directory is recovered if and only if the files of all its segments are of that form, no record is in two of them and no segment but the last has an uncommitted tail; then exactly these tails and incomplete entries are cut off and no other file is touched. See also runtime/go/internal/spool/wal_recovery.go:175-305. |
| `WalRecovery.TornRecovered` | runtime/go/internal/spool/wal_recovery.go:85-105 | A directory that a crash cut at any byte of the group or checkpoint entries being written is accepted by the recovery loop; the index is that of the log that was committed, and the repaired files are exactly what that log prints. (The branch for an empty directory, the reserve and the sorted IDs are stated by Wal.WAL.Recover.) See also runtime/go/internal/spool/wal_recovery.go:175-305. |
| `WalRecovery.RecoverTwice` | runtime/go/internal/spool/wal_recovery.go:85-105 | Recovery run again on what it left accepts that too, computes the same index and changes no byte: for every directory that it accepts, whatever bytes the files hold. See also runtime/go/internal/spool/wal_recovery.go:278-351. |
| `WalRecovery.InterruptedCrashed` | runtime/go/internal/spool/wal_recovery.go:85-105 | Recovery may itself be cut short after any of its writes (a checkpoint created or cut, a tail cut, in any order): what is left is again a directory of the same log with the same torn group, and the next recovery computes the same index. See also runtime/go/internal/spool/wal_recovery.go:278-351. |
| `WalRecovery.InterruptedAgain` | runtime/go/internal/spool/wal_recovery.go:85-105 | However often recovery is cut short, the directory stays one that the first of these recoveries could have left. See also runtime/go/internal/spool/wal_recovery.go:278-351. |
| `WalRecovery.ShortWrite` | runtime/go/internal/spool/wal_state.go:69-77 | A checkpoint write that stops after part of an entry, in a log that goes on: at the next opening the slot after the last whole entry is read as a mixture of the two entries, and the directory is refused unless that mixture decodes as an entry; if no byte was written, the next entry is read as it is. See also runtime/go/internal/spool/wal_state.go:157-169, runtime/go/internal/spool/wal_recovery.go:307-351. |
| `WalExact.RecoveredExactly` | runtime/go/internal/spool/wal_recovery.go:236-256 | The recovered index has every committed record without a final checkpoint entry, at its last recorded attempt count, in its own segment, and nothing else; it is the only index with that property, and each entry of it reads back as a record that was committed. See also runtime/go/internal/spool/wal_recovery.go:353-381. |
| `WalContents.UndeliveredUnique` | runtime/go/internal/spool/wal_recovery.go:242-254 | "Committed, neither acknowledged nor quarantined, at its latest attempt count" determines the index. |
| `WalContents.ReadBack` | runtime/go/internal/spool/wal_recovery.go:353-381 | Reading where the index points yields a record committed under that ID. |
| `WalOpen.ReadCheckpoint` | runtime/go/internal/spool/wal_recovery.go:307-351 | The loop over a checkpoint file accepts exactly the files whose complete entries decode, keeps the latest entry of each record, creates a missing file and cuts a partial entry. |
| `WalOpen.ParseSegment` | runtime/go/internal/spool/wal_recovery.go:180-276 | The parsing loop with its local variables computes the parse that the round trips are about. |
| `WalRuns.RunSafe` | runtime/go/internal/spool/wal_recovery.go:22-138 | Over every run of commits, checkpoint entries, rotations, segment removals and ID allocations, each completing or cut by a crash after any number of bytes or file operations and followed by recovery, which may itself be cut short any number of times, memory, disk bytes and the abstract queue agree at every point. See also runtime/go/internal/spool/wal.go:350-426, runtime/go/internal/spool/wal_state.go:17-140. |
| `WalRuns.CrashSafe` | runtime/go/internal/spool/wal_recovery.go:22-138 | One crash: whatever was being written and wherever it was cut, and wherever recovery itself was cut, the directory reopens, and the queue is the one before the operation or, if all its bytes were written, the one after. |
| `WalRuns.ReadsQueue` | runtime/go/internal/spool/wal_recovery.go:353-381 | In a safe state the active records are those of the queue, and each reads back as stored with its attempt count. See also runtime/go/internal/spool/wal.go:187-212. |
| `WalExact.QueueDetermined` | runtime/go/internal/spool/wal_recovery.go:353-381 | The queue is a function of memory and disk: two safe states that agree on these stand for the same queue. |
| `WalQueue.CarriedOnce` | runtime/go/internal/spool/wal_recovery.go:353-381 | A queue is determined by the index and the files that carry it. |
| `WalRuns.FirstStart` | runtime/go/internal/spool/wal_recovery.go:73-83 | A first start is safe; it is within its budget if and only if MaxBytes leaves room for the two headers (56 bytes), which OpenWAL does not check. See also runtime/go/internal/spool/wal.go:113-151. |
| `WalRuns.RunBudgeted` | runtime/go/internal/spool/wal.go:368-383 | In every run whose operations pass their guards, crashes included, the bytes that memory counts as used and the reserve are together within MaxBytes, but for the bytes of a spent segment just before the current one, which commitGroup and rotation credit and the compaction that follows removes. See also runtime/go/internal/spool/wal_state.go:93-155, runtime/go/internal/spool/wal_recovery.go:122-128. |
| `WalRuns.CompactedFits` | runtime/go/internal/spool/wal_recovery.go:522-561 | Once spent segments are removed, bytes in use and the reserve together are within MaxBytes. See also runtime/go/internal/spool/wal.go:370-383. |
| `WalBudget.RetryReleasesOneEntry` | runtime/go/internal/spool/wal_state.go:104-107 | Taking 24 bytes from the reserve for a retry is what the formula gives if and only if the retry leaves at least one attempt; at the limit the field and the formula part. See also runtime/go/internal/spool/wal_state.go:142-155. |
| `WalBudget.ReserveUnion` | runtime/go/internal/spool/wal_recovery.go:122-128 | The reserve of disjoint sets of records adds up, so that the loop over the map may visit them in any order; that the loop computes the sum is stated by Wal.WAL.SumReserve. |
| `WalBudget.CommitBudgeted` | runtime/go/internal/spool/wal.go:368-383 | A group that passes the projected-size test, with its credit for a spent segment, leaves used bytes and reserve within MaxBytes and that credit. |
| `WalBudget.EntryBudgeted` | runtime/go/internal/spool/wal_state.go:93-119 | A checkpoint entry never needs more than was reserved for its record, as long as retries stay below the limit. |
| `WalBudget.RotateBudgeted` | runtime/go/internal/spool/wal_recovery.go:383-451 | A rotation that passes its test keeps used bytes and reserve within MaxBytes and the bytes of the segment it closes, if that one is spent. |
| `WalBudget.DropBudgeted` | runtime/go/internal/spool/wal_recovery.go:522-561 | Removing a spent segment takes its bytes from both sides, wherever the segment stands. |
| `Wal.WAL.Recover` | runtime/go/internal/spool/wal_recovery.go:22-138 | Recovery refuses exactly the directories that the recovery loop refuses; otherwise all fields are those of the recovered index, the reserve equals its formula and the search index is sorted; an empty directory gets its first segment. |
| `Wal.WAL.RecoverAll` | runtime/go/internal/spool/wal_recovery.go:85-105 | The loop over segments in ID order, ending at the first damaged one. |
| `Wal.WAL.SumReserve` | runtime/go/internal/spool/wal_recovery.go:122-128 | The loop over the active map computes 24 bytes for each attempt left, at least one per record. |
| `Wal.WAL.Load` | runtime/go/internal/spool/wal.go:113-151 | Opening an empty directory, or one that some failure left, always succeeds and gives back exactly its log and its queue, with the reserve equal to its formula. See also runtime/go/internal/spool/wal_recovery.go:22-138. |
| `Wal.WAL.Rotate` | runtime/go/internal/spool/wal_recovery.go:383-451 | The new current segment is empty and the old one closed; a failure after any number of renames leaves a directory from which the same queue is recovered. See also runtime/go/internal/spool/wal_recovery.go:491-508. |
| `Wal.WAL.CompactSegments` | runtime/go/internal/spool/wal_recovery.go:522-561 | Afterwards no segment but the current one is spent; the queue, the current segment and the live bytes are unchanged. |
| `Wal.WAL.CommitGroup` | runtime/go/internal/spool/wal.go:350-426 | Full if and only if the projection with credit for a spent current segment exceeds MaxBytes, and then nothing changes; a group that fits the current segment is appended to it; on success the queue gains exactly the group and the budget holds; on a short write or failed sync the log faults and its directory recovers to the old queue or to the old queue with the group. |
| `Wal.WAL.Write` | runtime/go/internal/spool/wal.go:391-425 | The group is appended and synced, or the log faults; on success index, IDs, counters and reserve are those of the committed group. |
| `Wal.WAL.ProcessAppendRequests` | runtime/go/internal/spool/wal.go:307-348 | Every request gets exactly one reply, with its own record; successful IDs increase in file order; the queue gains exactly the successes (and, if the log faulted in this call, possibly the group in flight). Unencodable is answered only to a request whose record has no encoding, Failed only if the log faulted, and Full only if bytes in use, reserve, and the frames, marker, reserve and headers of all requests together exceed MaxBytes; if they do not and no I/O fails, every request that has an encoding is stored. A log that had faulted before refuses every request and stores nothing; if every frame plus 56 bytes fits SegmentBytes, all segments stay within SegmentBytes + 32. See also runtime/go/internal/spool/wal.go:255-262, runtime/go/internal/spool/wal.go:364-366. |
| `Wal.WAL.WriteRecordStates` | runtime/go/internal/spool/wal_state.go:17-140 | Ack, MarkRetry and Quarantine change exactly the named records of the queue; a retry beyond 99,999 attempts is refused before anything is written; below the attempt limit the reserve keeps its formula and the budget holds. |
| `Wal.WAL.CompactRecordIndex` | runtime/go/internal/spool/wal_state.go:170-181 | From 1,024 IDs on, and only if more than half of them are no longer active, the search index is reduced to exactly the active IDs; otherwise it is kept. |
| `WalCalls.Search` | runtime/go/internal/spool/wal.go:193 | The binary search finds the boundary between IDs up to the cursor and IDs above it. |
| `Wal.WAL.NextAfter` | runtime/go/internal/spool/wal.go:187-212 | Returns the delivery with the least ID above the cursor, as stored and with its attempts, or says that there is none. |
| `StoreFormat.FileRoundTrip` | runtime/go/internal/spool/spool.go:428-442 | A record file reads back under its own ID and under no other. See also runtime/go/internal/spool/spool.go:526-573. |
| `StoreFormat.OtherLengthRefused` | runtime/go/internal/spool/spool.go:545-556 | A record file that is cut short anywhere, or continued, is never taken for a record. |
| `StoreFormat.NameRoundTrip` | runtime/go/internal/spool/spool.go:270-274 | A file name gives back ID and attempts if and only if the attempts are at most 99,999, the count at which MarkRetry stops. See also runtime/go/internal/spool/spool.go:508-524. |
| `StoreFormat.BumpedAbove` | runtime/go/internal/spool/spool.go:500-506 | The next ID ends up above the ID in every valid file name. |
| `LegacyStore.Store.Append` | runtime/go/internal/spool/spool.go:146-202 | On success the queue gains exactly the new record and the bytes in use stay within MaxBytes; full if and only if they would not; every other failure leaves index and files alone, except a failed directory sync, after which the record is stored although an error is returned. |
| `LegacyStore.Store.NextAfter` | runtime/go/internal/spool/spool.go:204-236 | Same contract as the write-ahead log: the least delivery above the cursor; a damaged file on the way is set aside, reported, and was never part of the queue. |
| `LegacyStore.Store.Acknowledge` | runtime/go/internal/spool/spool.go:238-260 | The queue loses exactly the records handled, all of them unless a removal fails. |
| `LegacyStore.Store.MarkRetry` | runtime/go/internal/spool/spool.go:262-292 | Exactly the records before the one that fails have one more attempt; unlike the log, the store has already changed them when it refuses a count above 99,999. |
| `LegacyStore.Store.Quarantine` | runtime/go/internal/spool/spool.go:294-308 | The queue loses exactly the records handled; their files move. See also runtime/go/internal/spool/spool.go:444-469. |
| `LegacyStore.Store.CompactIndex` | runtime/go/internal/spool/spool.go:481-492 | From 1,024 IDs on, and only if more than half of them are no longer active, the search index is reduced to exactly the active IDs; otherwise it is kept. |
| `LegacyStore.Store.Recover` | runtime/go/internal/spool/spool.go:334-426 | From any directory the store comes up valid with readable records only, and with the queue that the directory held if it held one; IDs in the quarantine directory are not given out again. |
| `LegacyStore.Restart` | runtime/go/internal/spool/spool.go:334-426 | After any call, completed or interrupted, and with any temporary files left behind, a new store over the same directory has the same queue. |
| `Protobuf.RoundTrip` | protocol/src/protobuf.ts:30-274 | Whatever fields with unknown numbers, groups included, are inserted between the fields of any message at any level, the decoder returns the normal form of the envelope that was encoded, or the version error exactly when the sender has another version. |
| `Protobuf.RoundTripIff` | protocol/src/protobuf.ts:30-274 | Decoding gives back the very envelope if and only if it has the supported version, optional values are absent or non-empty, no attribute key is empty or "__proto__", and byte counts fit 64 bits. |
| `Protobuf.ProtoKeyLost` | protocol/src/protobuf.ts:176-180 | The concrete case: a span whose only attribute has the key "__proto__" comes back without attributes. |
| `ProtobufInput.PiecesDecoded` | protocol/src/protobuf.ts:41-71 | For any fields of the envelope in any number and order, with foreign fields in between: the last version given counts and is refused unless it is supported; payloads of both sorts, or none, are refused; otherwise the envelope has the last payload. |
| `ProtobufInput.PrefixRefused` | protocol/src/protobuf.ts:41-71 | No proper prefix of an encoded envelope is accepted. |
| `ProtobufInput.NoSuchType` | protocol/src/protobuf.ts:58-59 | A field of unknown number whose wire type does not exist, or that ends a group which was not begun, makes the message malformed wherever it stands. |
| `Wire.ForeignIgnored` | protocol/src/protobuf.ts:58-59 | Unknown fields, nested groups included, leave a decoder's state unchanged. See also protocol/src/protobuf.ts:131-132, protocol/src/protobuf.ts:181-182. |
| `Wire.Uint64RoundTrip` | protocol/src/protobuf.ts:105-107 | Every 64-bit number survives the base-128 encoding. See also protocol/src/protobuf.ts:251-259. |
| `ProtobufCodec.EncodeTelemetryEnvelope` | protocol/src/protobuf.ts:30-39 | The encoder writes exactly the specified bytes of the envelope. |
| `ProtobufCodec.EncodeSpan` | protocol/src/protobuf.ts:80-100 | The appending loop over the attributes writes exactly the specified bytes of a span. |
| `ProtobufCodec.DecodeTelemetryEnvelope` | protocol/src/protobuf.ts:41-71 | The reading loop computes the specified decoding: malformed input, the version check and the check for exactly one payload. |
| `ProtobufCodec.DecodeSpan` | protocol/src/protobuf.ts:138-196 | The loop over the nine span fields computes the specified decoding and leaves the reader where the specification does. |
| `ProtobufCodec.DecodeRuntimeMetrics` | protocol/src/protobuf.ts:230-274 | The loop over the eight metric fields computes the specified decoding. |
| `Spans.FindNearest` | runtime/go/internal/topology/engine.go:432-446 | For every chain of different spans of the trace, each the parent of the one before, with a kind that has nodes at its end and at no earlier place, the search from its first span returns the node of its last; it returns nothing if and only if there is no such chain. |
| `Spans.SourceIff` | runtime/go/internal/topology/engine.go:187-219 | A span depends on a node exactly if such a chain leads from its parent to a span of that node, the span has a node too, and the two differ. See also runtime/go/internal/topology/engine.go:432-446. |
| `Spans.NearestStays` | runtime/go/internal/topology/engine.go:432-446 | An ancestor that has been found stays the nearest one when more spans arrive. |
| `Forest.ShownIff` | runtime/go/internal/topology/engine.go:605-667 | For arbitrary parent pointers, a span is shown if and only if its ancestors come to an end: exactly the spans on or below a parent cycle are left out. |
| `Forest.RootIffShown` | runtime/go/internal/topology/engine.go:605-667 | A trace has a root if and only if it shows a span, that is, if the parents of some span come to an end. See also runtime/go/internal/topology/engine.go:482. |
| `Forest.FindTraceParent` | runtime/go/internal/topology/engine.go:652-667 | The span below which a span is shown is the one at the end of the chain of parents with a kind that traces show at its end and at no earlier place; there is none if and only if there is no such chain. |
| `Forest.LineIsUnique` | runtime/go/internal/topology/engine.go:605-667 | No span is shown twice. |
| `Forest.LineIsShort` | runtime/go/internal/topology/engine.go:605-667 | Lines of descent repeat no span, so the recursion over them terminates. |
| `Forest.CollectIs` | runtime/go/internal/topology/engine.go:676-689 | The node chains collected below a root are those of the lines from the root to a leaf: all of them and nothing else; what the chain of a line is says Chains.PathsAre. |
| `TracePaths.BuildTrace` | runtime/go/internal/topology/engine.go:605-650 | The loops that hang spans below their nearest parents build the specified forest: the roots, and the children of every item, are listed once each, by start time, and in order of arrival where start times are equal. |
| `TracePaths.CollectPaths` | runtime/go/internal/topology/engine.go:484-505 | The loops over roots and chains find exactly the chains of lines from entry roots to leaves, each with the name of the last root that has it, and list each chain once, in the order in which it is first met. |
| `TracePaths.FirstSeenInOrder` | runtime/go/internal/topology/engine.go:490-502 | In that list a chain that stands earlier is met before any occurrence of a later one. |
| `TracePaths.SortStable` | runtime/go/internal/topology/engine.go:669-674 | Sorting by start time leaves spans that start together in the order in which they arrived. |
| `TracePaths.DesiredFew` | runtime/go/internal/topology/engine.go:480-521 | A trace contributes at most as many paths as it shows spans, because a leaf has only one line of descent. See also runtime/go/internal/topology/engine.go:676-689. |
| `TracePaths.DesiredUnique` | runtime/go/internal/topology/engine.go:480-521 | If roots start at different times, the paths of a trace do not depend on the order in which its spans arrived. See also runtime/go/internal/topology/engine.go:669-674. |
| `Chains.PathsAre` | runtime/go/internal/topology/engine.go:480-521 | The paths of a trace, stated without the code that collects them: one for every sequence of nodes that arises from a line from an entry root to a leaf by passing over spans without a node and keeping one entry for each run of the same node, named after the last such root by start time; its share is the extent of the whole trace, and failed if any span failed. See also runtime/go/internal/topology/engine.go:669-689. |
| `Chains.CollapseIsUnique` | runtime/go/internal/topology/engine.go:676-689 | The nodes along a line give one such sequence only. |
| `Engine.Engine.Ingest` | runtime/go/internal/topology/engine.go:144-230 | Every first arrival of a span ID the engine has not seen is counted once, nothing else is; all counters remain the exact sums over the spans counted so far. The number of traces is the smaller of maxRecentTraces and the number of traces before or among the new spans; a trace stays if fewer than maxRecentTraces others got a span after it did for the last time, and goes otherwise, and those that stay have all their spans. A node keeps its description, and a new one is described by the first span that calls it. There are at most maxRuntimePaths paths; if no trace ever went, no path is evicted unless there are more spans than that; traces without a root keep the shares they had. |
| `Engine.Engine.constructor` | runtime/go/internal/topology/engine.go:100-131 | Missing limits take their defaults; the new engine has counted nothing. |
| `Engine.Engine.LinkTrace` | runtime/go/internal/topology/engine.go:187-219 | Afterwards a span of the trace has been counted on an edge if and only if it depends on another node, that is, if a chain of parents as in Spans.FindNearest leads to it; spans of other traces are not touched, and every edge is the exact sum of the dependencies counted. |
| `Engine.Engine.Aggregate` | runtime/go/internal/topology/engine.go:480-559 | Afterwards the shares of the trace in paths are those its spans call for if and only if the trace has a root or had no shares; without a root nothing changes. Provisional shares are withdrawn without any clamp firing, and all path counters stay exact sums of shares until a path is evicted. Evictions or not: a share that no longer applies is taken back from its path, a path the trace has nothing to do with is as it was, a path it has a share of has one more call unless the share is unchanged, and no path is missing unless the paths are full. |
| `Engine.Engine.TakeShare` | runtime/go/internal/topology/engine.go:539-557 | One share taken: the path has one more call and is the one updated last; all others stay, except that a new path at the limit replaces one, and that has the fewest calls and of those was updated longest ago. See also runtime/go/internal/topology/engine.go:561-572. |
| `Engine.Engine.Withdraw` | runtime/go/internal/topology/engine.go:523-537 | The loop takes back exactly the shares that no longer apply, each from its own path, which goes with its last call; every other path is as it was. |
| `StaleShares.StaleShare` | runtime/go/internal/topology/engine.go:480-484 | Two spans of a trace that name each other as parents, for every choice of such spans: taken in one after the other they leave a share of the first in the paths, taken in together they leave none, although both engines retain the same spans. See also runtime/go/internal/topology/engine.go:144-230. |
| `EngineRoom.RoomFor` | runtime/go/internal/topology/engine.go:480-559 | The paths that the other traces have shares of, together with those that a trace is to get, are at most as many as the retained spans. |
| `Engine.Engine.RemoveLeastUsefulPath` | runtime/go/internal/topology/engine.go:561-572 | The path that goes has the fewest calls, and of those was updated longest ago. |
| `Engine.Engine.TrimTraces` | runtime/go/internal/topology/engine.go:574-590 | Exactly as many traces stay as the limit allows, all of them if there are no more; a trace stays if fewer than the limit were touched later; what the others had been counted for stays counted, and their span IDs leave both dedup sets. |
| `EngineState.RemoveTracks` | runtime/go/internal/topology/engine.go:461-478 | Removing a share that was added gives back the sum without it; the clamps at zero do not fire and the latency window stays a part of the samples. |
| `EngineState.WindowIs` | runtime/go/internal/topology/engine.go:448-459 | After any calls the latency window holds the durations of the last of them, as many as it may, in order. |
| `EngineSteps.PathsShrink` | runtime/go/internal/topology/engine.go:523-537 | Withdrawing a share a trace has: its path exists, and the other shares keep their sum. |
| `Confluence.ArrivalOrder` | runtime/go/internal/topology/engine.go:144-230 | Two engines that start alike and are fed the same spans in any order, batching and repetition have the same nodes and edges with the same calls, errors and totals as long as no trace is trimmed, and the same paths if moreover no path is evicted and every trace that shows spans has a root, with roots that start at different times. No trace is trimmed while the traces, old and new, are at most maxRecentTraces; and if none ever was, no path is evicted while the spans are at most maxRuntimePaths. See also runtime/go/internal/topology/engine.go:480-559. |
| `Confluence.SameTopology` | runtime/go/internal/topology/engine.go:144-230 | The retained spans, together with what trimmed traces left behind, determine nodes, edges and their numbers. |
| `EndToEnd.RedeliveryCountsNothing` | runtime/go/internal/topology/engine.go:159-162 | Spans whose IDs the engine has seen count nothing when they are sent again. |
| `Identity.NormalizeIdempotent` | runtime/go/internal/topology/identity.go:13-24 | Normalizing twice is normalizing once. |
| `Identity.NormalIffKept` | runtime/go/internal/topology/identity.go:13-24 | The values that normalization leaves alone are exactly those whose parts are lower-case words joined by single colons, without dashes at their ends. |
| `Identity.NormalizeSemanticIdentity` | runtime/go/internal/topology/identity.go:13-24 | The loop over the parts computes the normal form; what that makes of a value that is not normal say the five rows that follow. |
| `Normalization.RunBecomesDash` | runtime/go/internal/topology/identity.go:11-24 | Between a text that ends with an allowed character and one that begins with one, dashes aside, any non-empty run of characters that are neither allowed nor colons becomes one dash, and the two texts are normalized on their own. |
| `Normalization.DashesStay` | runtime/go/internal/topology/identity.go:11-24 | Dashes on either side of such a run stay, and a run of dashes alone stays as it is. |
| `Normalization.ColonJoins` | runtime/go/internal/topology/identity.go:13-24 | The normal form of two values joined by a colon is that of each, joined by a colon if neither is empty. |
| `Normalization.JunkAround` | runtime/go/internal/topology/identity.go:13-24 | Characters at either end of a value that are neither allowed nor colons, and dashes, change nothing. |
| `Normalization.CaseIgnored` | runtime/go/internal/topology/identity.go:13-24 | Lower-casing a value first changes nothing. |
| `Identity.StableNodeID` | runtime/go/internal/topology/identity.go:26-40 | The reassignments compute the specified node ID, which is never empty and is in normal form if and only if the kind does not normalize to nothing; the four forms it can take, and when, are spelled out by Identity.NodeIDIs. |
| `Identity.NodeIDNormal` | runtime/go/internal/topology/identity.go:26-40 | A node ID is never empty, and is in normal form if and only if its kind does not normalize to nothing; the runtime's own kinds never do (Identity.NodesNormal). |
| `Identity.NodesNormal` | runtime/go/internal/topology/identity.go:26-40 | Every node ID that the engine gives out is normal and not empty. See also runtime/go/internal/topology/engine.go:407-430. |
| `Identity.EdgeIDsInjective` | runtime/go/internal/topology/identity.go:42-44 | Edge IDs of normal node IDs determine both ends. |
| `Identity.ChainsInjective` | runtime/go/internal/topology/identity.go:46-48 | The ">"-joined text of a chain of normal node IDs determines the chain. |
| `Identity.PathTextsAgree` | runtime/go/internal/topology/identity.go:46-48 | The text from which a path ID is hashed is the same for two paths if and only if entrypoint and first node agree when joined by a colon and the other nodes agree. |
| `Identity.PathsOfEntryInjective` | runtime/go/internal/topology/identity.go:46-48 | For one entrypoint the text determines the path. |
| `Identity.PathTextsCollide` | runtime/go/internal/topology/identity.go:26-48 | Two concrete entry spans, one with a framework, lead to different paths with the same text: path IDs can collide even under a perfect hash. |
| `Snapshot.PathsApart` | runtime/go/internal/topology/identity.go:46-48 | With a perfect hash, the paths that occur in an engine have different IDs if and only if no two of them run together in that way. See also runtime/go/internal/topology/engine.go:499-521. |
| `Snapshot.RuntimeProper` | runtime/go/internal/topology/identity.go:26-48 | The runtime's node and edge IDs have the properties that snapshots and checkpoints rely on. |
| `Snapshot.Incoming` | runtime/go/internal/topology/engine.go:178-184 | In every state, calls, errors and latency along the edges into a node are at most the node's own. See also runtime/go/internal/topology/engine.go:187-219. |
| `Snapshot.Validate` | reference/topology/src/snapshot.ts:123-188 | The validator's loops with their growing ID sets accept exactly the well-formed documents: unique non-empty IDs, no dangling references, no negative numbers. See also reference/topology/src/snapshot.ts:254-308. |
| `Snapshot.Take` | runtime/go/internal/topology/engine.go:254-309 | The snapshot of every reachable state is well formed, and shows each node, edge and path once with its numbers. See also reference/topology/src/snapshot.ts:123-188. |
| `Snapshot.PercentileIs` | runtime/go/internal/topology/identity.go:66-77 | A percentile is, rounded, the smallest sample of the window that at least the given share of the samples does not exceed. |
| `TracePaths.RoundIs` | runtime/go/internal/topology/identity.go:62-64 | Rounding gives the nearest hundredth, and the upper one of two. |
| `Checkpoint.Persist` | runtime/go/internal/topology/state.go:187-251 | The saved state describes the engine's contents completely. |
| `Checkpoint.Restore` | runtime/go/internal/topology/state.go:253-319 | The loops accept exactly the intact states and rebuild the specified contents. |
| `Checkpoint.StateRoundTrip` | runtime/go/internal/topology/state.go:187-319 | Restoring a saved state gives equal contents (nodes, edges, paths, samples, traces with their span order and shares, dedup sets, clock and revision), and is accepted if and only if no span or trace ID is blank. |
| `Resumed.Resume` | runtime/go/internal/topology/state.go:187-319 | An engine restored from a checkpoint and the one that was saved and never stopped, fed the same further batches, agree on nodes and edges and their numbers as long as neither trims, and on paths as long as neither evicts and roots are as in Confluence.ArrivalOrder. See also runtime/go/internal/topology/engine.go:144-230. |
| `StateStore.Save` | runtime/go/internal/topology/state.go:129-185 | A state that JSON cannot encode is refused and the file is left alone; after any other failure the checkpoint file is the old one, or the new one if only the directory could not be synced. |
| `StateStore.CodecFor` | runtime/go/internal/topology/state.go:129-141 | Codecs with the assumed law exist: for any list of states there is one that encodes all of them. |
| `StateStore.Open` | runtime/go/internal/topology/state.go:90-127 | Opens exactly the files that decode, have the supported version and a matching non-zero checksum, and hold an intact state. |
| `StateStore.SavedOpens` | runtime/go/internal/topology/state.go:90-185 | A checkpoint that was saved opens again, with equal contents, if and only if its checksum is not zero and no retained ID is blank. |
| `Sink.GroupSpans` | runtime/go/internal/sink/topology.go:39-54 | Spans are grouped by service name and Node version, in the order of the batch. |
| `Sink.GroupKeysApart` | runtime/go/internal/sink/topology.go:43 | Two batches are in one group if and only if name and version agree, as long as no name holds the separating character. |
| `Sink.NewestMetrics` | runtime/go/internal/sink/topology.go:55-60 | Of each service the metrics with the latest timestamp stay, the last of equals. |
| `Sink.SortedKeys` | runtime/go/internal/sink/http.go:195-202 | The keys in ascending order, each once. |
| `Sink.BeforeIff` | runtime/go/internal/sink/http.go:195-202 | Ascending means by the first character in which two keys differ, a beginning coming before what it begins. |
| `TopologySink.Topology.ConsumeBatch` | runtime/go/internal/sink/topology.go:34-108 | On success everything of the batch is in the engine and in the checkpoint file, each span envelope gets the revision of its group, and exactly the names of the batch's applications have been added; on failure nothing is lost from either, and there was a reason: the context was cancelled, a write failed, or the engine cannot be encoded. |
| `TopologySink.Topology.ConsumeGroup` | runtime/go/internal/sink/topology.go:63-88 | After a successful group the file holds the live engine, which has counted every span of the group. |
| `TopologySink.Topology.Checkpoint` | runtime/go/internal/sink/topology.go:110-120 | The file holds the engine as it is, or what it held before; it fails only if a write fails or the state cannot be encoded. |
| `TopologySink.Topology.Reopen` | runtime/go/internal/topology/state.go:90-127 | Opening the checkpoint gives an engine with exactly the contents that the file holds. |
| `PipelineOwners.SingleOwner` | runtime/go/internal/pipeline/pipeline.go:63-71 | Over every interleaving a record is in at most one of loader, queue, pending batch, channel and worker, and the records in these places are exactly those in flight. See also runtime/go/internal/pipeline/pipeline.go:271-330, runtime/go/internal/pipeline/pipeline.go:353-489, runtime/go/internal/pipeline/pipeline.go:574-588. |
| `PipelineOwners.NoDeliveryAfterFinish` | runtime/go/internal/pipeline/pipeline.go:429-489 | No delivery of a record starts once it has been acknowledged or quarantined. |
| `PipelineWaiters.AtMostOneAnswer` | runtime/go/internal/pipeline/pipeline.go:165-190 | Over every interleaving no submitter is sent more than one result. See also runtime/go/internal/pipeline/pipeline.go:628-639. |
| `PipelineWaiters.WaiterBeforeLoad` | runtime/go/internal/pipeline/pipeline.go:165-173 | A submitted record is loaded with its waiter: registration always comes before the load. See also runtime/go/internal/pipeline/pipeline.go:276-306. |
| `PipelineFate.DeliveriesBounded` | runtime/go/internal/pipeline/pipeline.go:438-487 | Without cancellation or a failed retry write, a record is handed to the sink at most max(1, MaxAttempts - attempts) times; that a batch is not given up earlier is PipelineVerdict.VerdictIs. See also runtime/go/internal/pipeline/pipeline.go:536-543. |
| `PipelineVerdict.VerdictIs` | runtime/go/internal/pipeline/pipeline.go:438-487 | In a calm run, a batch whose delivery failed is quarantined if and only if that failure was permanent or the batch holds a record whose deliveries in this run number exactly max(1, MaxAttempts - attempts); otherwise its retry is written. See also runtime/go/internal/pipeline/pipeline.go:536-543. |
| `PipelineVerdict.QuarantineHasReason` | runtime/go/internal/pipeline/pipeline.go:438-487 | Every quarantined record was in a batch whose last failure was permanent or that held a record with no delivery left. See also runtime/go/internal/pipeline/pipeline.go:536-543. |
| `PipelineFate.DoneMeansFinished` | runtime/go/internal/pipeline/pipeline.go:206-216 | When the pipeline is done without cancellation, nothing is active or in flight, and every admitted record has been acknowledged or quarantined. See also runtime/go/internal/pipeline/pipeline.go:319-325, runtime/go/internal/pipeline/pipeline.go:438-487. |
| `PipelineFate.RetryBelowLimit` | runtime/go/internal/pipeline/pipeline.go:467-477 | A retry is only noted for records that have an attempt left after it; that it is noted whenever all have one is PipelineVerdict.VerdictIs. See also runtime/go/internal/pipeline/pipeline.go:536-543. |
| `PipelineOrder.FlushItems` | runtime/go/internal/pipeline/pipeline.go:365-398 | The grouping loops split the pending items into one batch per service, keeping their order, and send each to the worker of its service. |
| `PipelineOrder.ServiceOrder` | runtime/go/internal/pipeline/pipeline.go:274-315 | Without cancellation or a failed retry write, the records of one service first reach the sink in the order of their IDs. See also runtime/go/internal/pipeline/pipeline.go:365-398, runtime/go/internal/pipeline/pipeline.go:438-487, runtime/go/internal/pipeline/pipeline.go:609-617. |
| `WorldSteps.EventJoined` | runtime/go/internal/sink/topology.go:63-82 | Every event of the whole collector, including a crash at any byte and a restart, keeps log, pipeline and topology in agreement. See also runtime/go/internal/topology/state.go:129-185, runtime/go/internal/pipeline/pipeline.go:440-453, runtime/go/internal/spool/wal_state.go:17-140. |
| `EndToEnd.EffectivelyOnce` | runtime/go/internal/sink/topology.go:63-82 | At every point of every run with crashes, sink failures and replays, every span of an acknowledged record is counted in the durable checkpoint, and the checkpoint counts no span twice while its trace is retained. See also runtime/go/internal/topology/state.go:16-18, runtime/go/internal/topology/state.go:129-185, runtime/go/internal/topology/engine.go:159-162, runtime/go/internal/pipeline/pipeline.go:440-453. |
| `EndToEnd.NothingLost` | runtime/go/internal/pipeline/pipeline.go:151-204 | What was stored is queued, acknowledged or quarantined, and only spans of stored records are counted. See also runtime/go/internal/pipeline/pipeline.go:429-534. |
| `EndToEnd.BudgetHolds` | runtime/go/internal/spool/wal.go:368-383 | At every point of every run of the whole collector the bytes that the log counts as used and the reserve are within MaxBytes, but for a spent segment that a rotation has just closed: that retries stay below the log's limit is proved from the pipeline's guard, not assumed. See also runtime/go/internal/spool/wal_state.go:93-155, runtime/go/internal/pipeline/pipeline.go:536-543. |
| `EndToEnd.RetriesReleaseTheirEntries` | runtime/go/internal/spool/wal_state.go:104-107 | Every retry the pipeline writes releases exactly its own entry from the reserve: the clamp never fires. See also runtime/go/internal/spool/wal_state.go:142-147, runtime/go/internal/pipeline/pipeline.go:467-486. |
| `EndToEnd.CountedOnce` | runtime/go/internal/topology/engine.go:159-162 | In a retained state, the counted spans of retained traces have different IDs. See also runtime/go/internal/topology/engine.go:584-588. |
| `EndToEnd.SpanInNode` | runtime/go/internal/topology/engine.go:162-184 | A counted span is one of the calls of its node, whose numbers are the sums over everything counted. |
| `EndToEnd.SpanInEdge` | runtime/go/internal/topology/engine.go:187-219 | A retained span from whose parent a chain of parents as in Spans.FindNearest leads to another node is one of the calls of the edge between the two. |
| `EndToEnd.FirstWorld` | runtime/go/internal/spool/wal.go:113-151 | The states from which runs begin exist: a collector started on an empty directory whose budget has room for the headers is one. See also runtime/go/internal/topology/state.go:90-127. |
| `EndToEnd.SiteFor` | runtime/go/internal/spool/wal.go:113-151 | For any records and any checkpoint states that a run may write there are lawful codecs that encode all of them, and a collector with these codecs from which runs begin: the theorems about runs are about runs that exist. See also runtime/go/internal/topology/state.go:90-141. |
| `EndToEnd.Deliver` | runtime/go/internal/pipeline/pipeline.go:438-443 | What the sink's own code does with a worker's batch is the event of the composed model. See also runtime/go/internal/sink/topology.go:34-108. |
| `EndToEnd.Restart` | runtime/go/internal/topology/state.go:90-127 | What a restart of the sink's own code does is what the composed model says; it succeeds if and only if there is no checkpoint file yet or its checksum is not zero. |

## Left out

- HTTP server, WebSocket hub, proxy, HTTP sink, Prometheus text, configuration, launcher, instrumentation, dashboard: I/O, user interface or foreign libraries.
- The file system beyond byte contents: permissions, directory sync failures of the log, non-prefix torn writes, and, in the log, temporary files and the refusal of directories that hold files of the per-envelope store.
- Errors when closing or removing files during rotation and compaction.
- Orphan checkpoint files left between the two removals of a segment: they are ignored on recovery and not part of the accounted bytes.
- Uniqueness of record IDs across restarts of the log: IDs are unique among those on disk and within one run.
- A data group whose frames come within 28 bytes of 4 GiB: the length field of its commit marker would wrap, so groups are assumed to fit 32 bits.
- Error detection by CRC-32, hash quality, the FNV hash and its base-36 text, floating-point error, timestamps, backoff and jitter, metrics, logging.
- The activity list and the recent traces of a live snapshot as documents.
- Entrypoints of paths are kept in normal form; the raw span name that a snapshot shows is not modelled.
- Memory-only operation of the pipeline, a sink without a checkpointer, the receiving side of a waiter, and the size and timer triggers of batches, which are nondeterministic.
- The TypeScript engine, snapshot comparison, redaction and request validation; validation appears only as a precondition (non-negative durations).
- The internals of the Protocol Buffers library: varints are those of section "Base 128 Varints" of the encoding specification, at most ten bytes; a double is its eight bytes. `Number(...)` of a count that the sender held as a number is exact.
- The worker's own copy of a record's attempt count: the model reads the stored count, which the copy equals while the worker holds the record, since only its holder changes it (`PipelineOwners.SingleOwner`) and `retryDurableBatch` copies it back.
- The reason text in the names of quarantined files, and the corruption counters of the per-envelope store's recovery.
- Wal.WAL.WriteRecordStates: assumes that the writes succeed, because a checkpoint write that fails part-way without a crash breaks the layout of the file; what recovery then reads is WalRecovery.ShortWrite, and a write cut by a crash is an event of WalRuns.
- Snapshot.Validate: leaves out the header, application and metadata fields, because their checks are one comparison each.
- Snapshot.Take: says nothing of the order of the entries, which are sorted by ID, and of the application header, because contents do not depend on them.
- Checkpoint.Persist: says nothing of the order of the entries, which are sorted by ID, and of the activity list, because restoring does not depend on that order and the list is no part of the counters.
- Checkpoint.Restore: does not restore the activity list, because the model has none.
- Resumed.Resume: assumes that no trace is trimmed after the restart, because the proof compares what is retained and not the choices made on the way.
- WalRecovery.TornRecovered: says nothing of the empty directory, the reserve and the sorted IDs, because it is about the loop over segments; Wal.WAL.Recover states these for the whole of `recover`.
- WalBudget.ReserveUnion: is the additivity that makes the sum well defined, because the loop that computes it is Wal.WAL.SumReserve.
- PipelineFate.DeliveriesBounded: assumes that no write of a retry failed and nothing was cancelled, because a record whose retry was not stored is loaded again with its old count.
- PipelineOrder.ServiceOrder: has the same condition, because such a record reaches the sink again after later ones.
- Confluence.ArrivalOrder: assumes different start times of the roots of a trace for its claim about paths, because equal ones are kept in arrival order; and once a trace was trimmed the bound on evictions is not stated, because its paths stay.
- EndToEnd.Restart: assumes that the paths of the checkpoint have different IDs, because the runtime keeps paths under these IDs and would hold one entry for two paths that share one.
