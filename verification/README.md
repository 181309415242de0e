# ESP Insights: a verified model of the diagnostics pipeline

ESP Insights collects logs, metrics and variables on a device, keeps them in memory that survives a soft
reset, encodes them as CBOR and sends them to a cloud service, releasing them when they were acknowledged.
This project models that pipeline in Dafny and proves what it keeps and what it does not.

- **Record store** (`Bytes`, `RingMemory`, `RingRuns`, `RtcRing`, `Framing`, `RecordWrites`, `RecordRuns`,
  `RecordScenarios`, `RtcStore`, `StoreSteps`). Two rings in retained memory. `RtcRing.Ring` and `RtcStore.Store`
  change arrays and fields in place and journal every single store; `RingMemory` says what a reset after any of
  those stores finds.
  `RingRuns` compares whole runs with a byte queue, `RecordRuns` with a list of records; `RecordScenarios` shows
  where the latter comparison ends, and `StoreSteps` that the steps compared are calls on the store.
- **Boot attribution** (`BootEpochs`, `MessageBoots`). The table of ten headers, over runs of boots, writes to both
  rings and releases, and what that means for the messages sent.
- **Messages** (`Cbor`, `CborEncoder`, `Consumption`, `LogEncoder`, `PointEncoder`, `DiagMessage`,
  `MessageFrame`, `CborReader`, `RecordReader`, `MessageReader`). The loops over cut read windows, what
  they let go of, and the document they build. The encoder is an object with the token stream emitted so far and, as
  ghost state, the items of every open container. The readers
  say, by the names of the keys and the layout of the records, what is found in the finished message.
- **Log arguments** (`Tlv`, `FormatScanner`, `Conversions`, `LogArguments`). The printf-format scanner and its decoder,
  and what arrives for each conversion of C.
- **Send protocol** (`SendProtocol`, `SendRuns`, `AnswerWindows`, `SendScenarios`, `RoundProgress`, `PointsFate`,
  `CoreDump`). The session object, one method per section that runs without interruption, and every interleaving
  of those sections with log writes, answers, failures, timeouts, discards, re-enabling, crashes and other soft
  resets.
- **Smaller parts**: `ReportPeriod` (adaptive period), `MetricsRegistry`, `MetaGroups` and `MetadataReader` (registry,
  its grouped encoding and what is read from it), `CborDump` (the debug printer with its explicit stack).

## Configuration modelled

The newer metadata format (a tag in every data point), points of 56 bytes or 80 with a string value, log
records of 120 bytes with 64 argument bytes and a task name of 16, a read buffer of 1024 bytes, a 32-bit
little-endian target whose `long double` has 8 bytes. Both settings of the overwrite option are covered.

## What the code does that its comments or its callers might not expect

- The comment at rtc_store.c:95 relies on sizes below UINT16_MAX. The ring is a queue exactly up to 32768
  bytes. At 32768 the 16-bit sum overflows in one state, full with `read_offset == size`, where nothing can be
  written. `RtcStore.Store` therefore takes rings up to 32768 bytes; the configuration allows 512 to 7168.
- After a cold boot the slot numbering starts at 6: the 8-bit index is set to -1, that is 255, and 256 modulo
  10 is 6.
- The critical read-and-release asks to release the size passed in. When less is queued the release is
  refused and the bytes returned are returned again next time.
- A metric or variable of a data type the switch does not know is sent as a map with a key and no value, which
  makes the whole message malformed.
- `%%` consumes an argument; string lengths are taken modulo 256; `%O` and `%U` store 4 bytes under an 8-byte
  type; characters are sent as simple values, so a negative `%hhd` arrives as its unsigned byte; the least
  32-bit integer arrives as a different number; `%*d` drops the width and leaves the value to the next conversion.
- A non-critical record longer than the read window of 1024 bytes stays at the head of its ring for good, and
  nothing behind it is sent.
- The doubling of the report period is not guarded against overflow: with a maximum of 2^31 seconds or more the
  period can become 0 and stay there. The configuration sets no upper limit.
- Any boot message that arrives erases the core dump, also one sent without the dump's summary because there was
  no memory for it or it could not be read.
- Metric tags are grouped by address: equal texts at two addresses give a duplicate key.
- The non-critical window is read in one section and released in another. A write that evicts, or a discard, in
  between makes the release take records that were never encoded; if records differ in size it cuts one in two, and
  the next eviction reads the middle of a record as its header and leaves fields that fail every check
  (`RecordScenarios`). Without overwriting only a discard can do that. `RecordRuns` says exactly which releases are
  right; its comparison with a list of records covers the runs up to the first that is not. The read-and-release
  calls of the store have the same two sections, and the non-critical one releases bytes, not whole records.
- At-least-once delivery of critical data needs three hypotheses, `Calm` in `SendRuns`: the transport answers
  data messages either all synchronously or none so; no success event for the registered id is handled while a
  newer window is read but not registered; and queued data are not discarded. Each is needed: `SendScenarios` has
  a losing run for each. The transport's contract (`Enabled`) is that ids are not reused within a boot and each
  message is answered at most once. Without the hypotheses, `AnswerWindows` says exactly which releases, after an
  answer or after a synchronous success, remove bytes of their own message only.
- Data points are released when they are encoded. Those of a round arrive only if its one message does: refused,
  failed and unanswered messages lose them (`PointsFate`).
- Any failure event ends the round under way. If it is that of another message and comes before the data message is
  registered, the next tick starts a second round while the first message is unanswered
  (`RoundProgress.InterruptedRoundOverlaps`). An answer to a boot message that comes before its id is stored leaves
  the boot message out until a timeout, a restart or an enabling.
- A round under way when the session is disabled counts as under way after it is enabled again, but the new timer
  is not running. If the answer came meanwhile, no round starts until the connection is found lost at a tick or
  the device restarts (`RoundProgress`).

## Model

| member | source | states |
|---|---|---|
| `RingRuns.RingIsQueueExactly` | components/esp_diag_data_store/src/rtc_store/rtc_store.c:182-248 | In every run from empty (writes, writes torn by a reset, releases, discards, boots) the ring holds exactly what a bounded byte queue holds, if and only if its size is at most 32768; beyond that a concrete run differs. |
| `RingRuns.SumFitsExactly` | components/esp_diag_data_store/src/rtc_store/rtc_store.c:95-102 | The 16-bit sum `filled + read_offset` equals the integer sum in every reachable state if and only if `2 * size <= 65535`; the stated assumption (size below UINT16_MAX) is not enough. |
| `RingRuns.OverflowBreaks` | components/esp_diag_data_store/src/rtc_store/rtc_store.c:229-232 | For every size above 32768, a four-step run in which the last byte written overwrites the oldest queued one. |
| `RingRuns.RunRefines` | components/esp_diag_data_store/src/rtc_store/rtc_store.c:182-413 | The same refinement from any valid retained state, `read_offset == size` included. |
| `RingRuns.ReadThenReleaseExactly` | components/esp_diag_data_store/src/rtc_store/rtc_store.c:420-427 | With a write between the two sections of the critical read-and-release, bytes get lost exactly when fewer than the requested were there and the write makes up for them. |
| `StoreSteps.PerformCritical` | components/esp_diag_data_store/src/rtc_store/rtc_store.c:255-413 | Each step of a run of the critical ring (write, release, discard, boot) is what the call on the store does to retained memory. |
| `RingMemory.AppendPosExact` | components/esp_diag_data_store/src/rtc_store/rtc_store.c:229-232 | The truncated write position is the intended one exactly when the sum of the two fields has no carry out of 16 bits. |
| `RingMemory.TornAppendIsInvisible` | components/esp_diag_data_store/src/rtc_store/rtc_store.c:220-248 | Whichever of the byte stores of a record write have been made, in whatever order and wrapped or not, queue and both fields are what they were. |
| `RingMemory.CommittedInAnyOrder` | components/esp_diag_data_store/src/rtc_store/rtc_store.c:203-248 | Once all byte stores have been made, in whatever order, the commit store appends the whole record. |
| `RingMemory.CommittedAppend` | components/esp_diag_data_store/src/rtc_store/rtc_store.c:203-217 | The one commit store appends the whole record to the queue. |
| `RingMemory.PiecewiseAppend` | components/esp_diag_data_store/src/rtc_store/rtc_store.c:285-287 | Index byte, header and payload written at offsets 0, 1 and 1 + header make the same stores as one append of the whole record. |
| `RingMemory.ReleaseIsAtomic` | components/esp_diag_data_store/src/rtc_store/rtc_store.c:182-201 | One store moves both fields and removes exactly the first `len` bytes, also when the offset ends on `size`. |
| `RtcRing.Ring.Init` | components/esp_diag_data_store/src/rtc_store/rtc_store.c:478-512 | A valid ring is kept unchanged by a warm boot, emptied by a cold one or when the integrity check fails. |
| `RtcRing.Ring.ReadComplete` | components/esp_diag_data_store/src/rtc_store/rtc_store.c:182-201 | Queue loses its first `len` bytes in one store, and the wrap counter with the offset counts the bytes released. |
| `RtcRing.Ring.WriteAtOffset` | components/esp_diag_data_store/src/rtc_store/rtc_store.c:220-248 | The one or two copies make exactly the byte stores of an append at that offset; nothing committed changes. |
| `RtcRing.Ring.WriteRecord` | components/esp_diag_data_store/src/rtc_store/rtc_store.c:284-287 | The queue gains index, header and data, and the stores made are the byte stores followed by one commit. |
| `RtcRing.Ring.Peek` | components/esp_diag_data_store/src/rtc_store/rtc_store.c:364-382 | Returns the prefix of the queue of the requested length, or all of it, across the wrap point. |
| `RtcRing.Ring.Release` | components/esp_diag_data_store/src/rtc_store/rtc_store.c:399-413 | Drops the requested prefix, or nothing at all when fewer bytes are queued. |
| `RtcRing.Ring.Discard` | components/esp_diag_data_store/src/rtc_store/rtc_store.c:590-603 | Empties the queue and leaves the buffer bytes. |
| `Framing.ParseFlatten` | components/esp_diag_data_store/src/rtc_store/rtc_store.c:348-352 | Index, four-byte length and payload written one record after another parse back to the same records, whatever follows. |
| `Framing.WindowRecords` | components/esp_insights/src/esp_insights_cbor_encoder.c:600-650 | A window cut anywhere, inside a header or a payload, yields exactly the whole records in it. |
| `Framing.EvictionIsMinimal` | components/esp_diag_data_store/src/rtc_store/rtc_store.c:328-347 | The number of oldest records evicted is enough to make room, and no smaller number is. |
| `RecordWrites.DropsReleaseWholeRecords` | components/esp_diag_data_store/src/rtc_store/rtc_store.c:328-347 | After each turn of the eviction loop the ring holds the remaining whole records. |
| `RecordWrites.OverwriteIsAtomic` | components/esp_diag_data_store/src/rtc_store/rtc_store.c:328-352 | A reset after any number of the stores of an overwriting write leaves whole records: the old ones less those evicted so far, and the new one only after the last store. |
| `RecordWrites.TornOverwriteIsAtomic` | components/esp_diag_data_store/src/rtc_store/rtc_store.c:328-352 | The same when the copies have stored any of their bytes in any order. |
| `RtcStore.EvictOldest` | components/esp_diag_data_store/src/rtc_store/rtc_store.c:330-346 | Reads the header of the oldest record, across the wrap point if need be, and releases exactly that record. |
| `RtcStore.EvictUntilFits` | components/esp_diag_data_store/src/rtc_store/rtc_store.c:328-347 | The overwrite loop ends, with enough room, after the minimal number of turns. |
| `RtcStore.OverwriteRecord` | components/esp_diag_data_store/src/rtc_store/rtc_store.c:328-352 | The records afterwards are a suffix of the old ones followed by the new one. |
| `RecordRuns.RingIsRecordList` | components/esp_diag_data_store/src/rtc_store/rtc_store.c:300-362 | In every run in which each release is clean (no record has left since the read, or nothing was consumed, or the store refuses), writes torn by a reset included, the non-critical ring is whole records, those of a plain list. |
| `RecordRuns.WholeRecordsWithoutOverwriting` | components/esp_diag_data_store/src/rtc_store/rtc_store.c:300-413 | Without overwriting, the same for every run whose discards do not fall between a read and its release. |
| `RecordRuns.UndisturbedIsClean` | components/esp_diag_data_store/src/rtc_store/rtc_store.c:364-413 | Runs in which nothing else takes records out between a read and its release are clean, with overwriting too. |
| `RecordRuns.ReleaseExactOverRun` | components/esp_insights/src/esp_insights.c:529-533 | After any clean run a window is read, and any writes and discards follow before its release: the release removes only encoded bytes exactly when none of them evicted or discarded a record, or nothing was consumed, or the store refuses; if none did, it removes all of them. |
| `RecordRuns.ReleaseIsExactWhen` | components/esp_diag_data_store/src/rtc_store/rtc_store.c:399-413 | The same for one release, in terms of the state. |
| `RecordScenarios.ReleaseBetweenSectionsBreaks` | components/esp_insights/src/esp_insights.c:529-533 | Two runs, with an eviction and with a discard between read and release, after which the ring is not whole records and evicting its oldest leaves invalid fields. |
| `RecordRuns.StepRefines` | components/esp_diag_data_store/src/rtc_store/rtc_store.c:300-413 | Each section (write, torn write, read, clean release, discard, boot) on retained memory is the step on the record list. |
| `StoreSteps.PerformNonCritical` | components/esp_diag_data_store/src/rtc_store/rtc_store.c:300-413 | Each step of a run of the non-critical ring is what the call on the store does to retained memory, and a read returns the window. |
| `RecordRuns.SendsDrainExactly` | components/esp_insights/src/esp_insights.c:529-533 | Repeated undisturbed sends empty the ring, in at most one a record, exactly when every record fits the read window; one that does not fit is never passed. |
| `RtcStore.Store.WriteCritical` | components/esp_diag_data_store/src/rtc_store/rtc_store.c:255-296 | Every error in its order; on success queue plus index and data, on any error nothing changes; when the two events are posted. |
| `RtcStore.Store.WriteNonCritical` | components/esp_diag_data_store/src/rtc_store/rtc_store.c:300-362 | Every error in its order; with overwriting, a suffix of the old records and the new one; without, append or refusal; exactly when the low-memory event is posted. |
| `RtcStore.Store.ReadCritical` | components/esp_diag_data_store/src/rtc_store/rtc_store.c:384-397 | The queue's prefix, without changing it; nothing for a zero size or before initialisation. |
| `RtcStore.Store.ReleaseCritical` | components/esp_diag_data_store/src/rtc_store/rtc_store.c:399-413 | Exactly the requested prefix goes, or an error and no change. |
| `RtcStore.Store.ReadAndReleaseCritical` | components/esp_diag_data_store/src/rtc_store/rtc_store.c:420-427 | Undisturbed: asks to release the requested size, so what it returned stays queued exactly when fewer bytes were there. |
| `RtcStore.Store.ReadAndReleaseNonCritical` | components/esp_diag_data_store/src/rtc_store/rtc_store.c:434-441 | Undisturbed: what is returned followed by what stays is what was queued. |
| `RtcStore.Store.Init` | components/esp_diag_data_store/src/rtc_store/rtc_store.c:619-662 | Second call refused without effect; otherwise both rings recovered and the table moved to the next slot. |
| `RtcStore.Store.MetaByIndex` | components/esp_diag_data_store/src/rtc_store/rtc_store.c:514-522 | The slot's header, or none from index ten on. |
| `RtcStore.Store.DiscardData` | components/esp_diag_data_store/src/rtc_store/rtc_store.c:590-603 | Both queues empty, or an error and no change before initialisation. |
| `RtcStore.Store.Deinit` | components/esp_diag_data_store/src/rtc_store/rtc_store.c:461-466 | Until the next initialisation every operation is refused; rings and table stay. |
| `BootEpochs.AttributionIsExact` | components/esp_diag_data_store/src/rtc_store/rtc_store.c:573-585 | In every run of boots, writes, releases and discards, a queued record resolves to the header of the boot that wrote it if fewer than ten boots followed; with distinct headers, only then. |
| `BootEpochs.ResolvesToLatestOfSlot` | components/esp_diag_data_store/src/rtc_store/rtc_store.c:514-527 | What a record of any age resolves to: the header of the latest boot that used its slot. |
| `BootEpochs.HeadIsOfOneBoot` | components/esp_insights/src/esp_insights_cbor_encoder.c:462-470 | Records at the head of a ring with the same index are of one boot, and their slot holds that boot's header, while the oldest is younger than ten boots. |
| `MessageBoots.MessageIsOfOneBootEach` | components/esp_insights/src/esp_insights_encoder.c:163-203 | In every run of a device and for all cuts of both windows, the data sent is the consumed logs of one boot under that boot's header and the consumed points of one boot under theirs. |
| `MessageBoots.MessageNamesItsBoots` | components/esp_insights/src/esp_insights_cbor_encoder.c:216-284 | In every run of a device a reader of the message finds the current boot's hash, generation and boot count, with the consumed logs those of the boot that wrote them, and with the consumed points those of theirs. |
| `BootEpochs.RunIsConsistent` | components/esp_diag_data_store/src/rtc_store/rtc_store.c:649-658 | In every run the ten slots hold the headers of the last ten boots and queued records carry their own boot's slot, oldest boot first. |
| `Consumption.RunIsLongest` | components/esp_insights/src/esp_insights_cbor_encoder.c:461-481 | The consumed records are the longest prefix of whole records of one boot inside the window. |
| `Consumption.RunMakesProgress` | components/esp_insights/src/esp_insights_cbor_encoder.c:606-655 | A window that holds the whole first record is never left unconsumed. |
| `Consumption.ReleaseKeepsFraming` | components/esp_insights/src/esp_insights_cbor_encoder.c:606-655 | Releasing the consumed bytes of a framed queue, from a window of any length, leaves a framed queue: the rest of its records. |
| `LogEncoder.EncodeMsgArgs` | components/esp_insights/src/esp_insights_cbor_encoder.c:286-427 | The 8-bit cursor never wraps and ends on the argument length; the array emitted is the rendering of the items the bytes parse to. |
| `LogEncoder.EncodeLogElement` | components/esp_insights/src/esp_insights_cbor_encoder.c:429-452 | One map per record with its fixed fields, arguments and, unless empty, task name. |
| `LogEncoder.EncodeLogList` | components/esp_insights/src/esp_insights_cbor_encoder.c:454-483 | One list of exactly the records of this severity among the consumed ones, in order; the count returned does not depend on the severity. |
| `LogEncoder.EncodeDiagLogs` | components/esp_insights/src/esp_insights_cbor_encoder.c:488-505 | All three passes consume the same whole records, and that is what is returned. |
| `LogEncoder.SeveritiesPartition` | components/esp_insights/src/esp_insights_cbor_encoder.c:493-502 | Every consumed record is in exactly one of the three lists, and nothing else is. |
| `PointEncoder.EncodeDataPoints` | components/esp_insights/src/esp_insights_cbor_encoder.c:590-657 | One list of exactly the consumed points of this type, in order; consumption is the same for both types; a window of at most four bytes emits nothing. |
| `PointEncoder.EncodePoint` | components/esp_insights/src/esp_insights_cbor_encoder.c:537-588 | One map per point, its value by data type. |
| `PointEncoder.EncodeStrPoint` | components/esp_insights/src/esp_insights_cbor_encoder.c:509-535 | The same for the larger record with a string value. |
| `PointEncoder.PassesPartition` | components/esp_insights/src/esp_insights_cbor_encoder.c:661-672 | The two passes together send every sendable consumed point exactly once. |
| `PointEncoder.PointItemsWellFormed` | components/esp_insights/src/esp_insights_cbor_encoder.c:556-584 | The two lists are well-formed exactly when every sendable point has a data type the switch knows; an unknown one gives a key without a value. |
| `DiagMessage.BytesToHex` | components/esp_insights/src/esp_insights_cbor_encoder.c:207-214 | Two lower-case hex digits per byte, high half first. |
| `DiagMessage.EncodeHeaderEntry` | components/esp_insights/src/esp_insights_cbor_encoder.c:253-284 | A boot header entry: what it maps to, then hash, generation and boot count. |
| `DiagMessage.EncodeCriticalData` | components/esp_insights/src/esp_insights_encoder.c:163-177 | Traces, and the header of the boot of the first record when something was consumed and its index has a slot. |
| `DiagMessage.EncodeNonCriticalData` | components/esp_insights/src/esp_insights_encoder.c:179-203 | Both point lists and their boot's header under the same condition; the larger of two equal counts is returned. |
| `DiagMessage.EncodeDataBegin` | components/esp_insights/src/esp_insights_encoder.c:80-88 | Opens the outer pair, the diagnostics map with version, time and current header, and its data map. |
| `DiagMessage.EncodeDataEnd` | components/esp_insights/src/esp_insights_encoder.c:205-211 | Closes all three; what was emitted is one complete item. |
| `MessageFrame.FrameMessage` | components/esp_insights/src/esp_insights_encoder.c:211-217 | Type byte and 16-bit length in front of the document, whose bytes stay; the length returned, in 16-bit arithmetic. |
| `MessageFrame.FrameSurvivesExactly` | components/esp_insights/src/esp_insights_encoder.c:211-217 | A receiver that goes by the length field gets the document back exactly when document and frame are shorter than 2^16 bytes. |
| `DiagMessage.EncodeMessage` | components/esp_insights/src/esp_insights.c:522-534 | For all contents of both rings and all cuts of both windows, the bytes to release are those of the encoded records, and the stream parses back to the intended tree exactly when every consumed point has a known data type. |
| `DiagMessage.MessageWellFormed` | components/esp_insights/src/esp_insights_cbor_encoder.c:78-98 | The document is well-formed (section 3.2.2 of RFC 8949) exactly under that condition. |
| `DiagMessage.MessageKeysUnique` | components/esp_insights/src/esp_insights_cbor_encoder.c:488-505 | No duplicate key (section 5.6 of RFC 8949) in the data map nor in the map around it. |
| `MessageReader.MessageReadsBack` | components/esp_insights/src/esp_insights_cbor_encoder.c:50-98 | For all contents of both rings and all cuts of both windows: behind "errors", "warnings" and "events" the consumed logs of severity 1, 2 and 4, behind "metrics" and "params" the consumed points of kind 0 and 1, each in queue order, and behind "meta_c" and "meta_nc" the header of the first record's slot, exactly when something was consumed and there is such a slot. |
| `MessageReader.HeaderEntryReadsBack` | components/esp_insights/src/esp_insights_cbor_encoder.c:216-284 | Behind "sha256", "gen_id" and "boot_cnt" of an emitted header: hash, generation and boot count; behind "maps_to" its lists. |
| `MessageReader.UnhexHex` | components/esp_insights/src/esp_insights_cbor_encoder.c:207-214 | Reading the digits, high one first, gives the bytes back. |
| `RecordReader.LogReadsBack` | components/esp_insights/src/esp_insights_cbor_encoder.c:429-452 | Behind each key of a log's map, the field at its place in the structure; a task name exactly when it is not empty. |
| `RecordReader.LogsReadBack` | components/esp_insights/src/esp_insights_cbor_encoder.c:454-483 | One such map for each record of the severity, in queue order. |
| `RecordReader.PointReadsBack` | components/esp_insights/src/esp_insights_cbor_encoder.c:509-588 | Behind each key of a point's map, path, tag, key, time, and the value by its data type; of the signed values only the least is another number. |
| `RecordReader.PointsReadBack` | components/esp_insights/src/esp_insights_cbor_encoder.c:590-657 | One such map for each point of the kind that has the size of its data type, in queue order. |
| `Cbor.ParseSerialize` | components/esp_insights/src/esp_insights_cbor_encoder.c:50-98 | Emitting a tree and parsing the stream gives the tree back if every map has an even number of items, and fails otherwise. |
| `CborEncoder.Encoder.Close` | components/esp_insights/src/esp_insights_cbor_encoder.c:90-98 | Closing a container turns what was emitted since its opening into one item of its parent. |
| `FormatScanner.AppendArg` | components/esp_diagnostics/src/esp_diagnostics_log_hook.c:46-59 | Type, length and value are appended behind what is there, or refused without a change when they do not fit. |
| `FormatScanner.ScanModifiers` | components/esp_diagnostics/src/esp_diagnostics_log_hook.c:96-144 | Every further modifier character replaces modifier and size. |
| `FormatScanner.ScanConversion` | components/esp_diagnostics/src/esp_diagnostics_log_hook.c:81-144 | From the percent sign the scan ends on the specifier, with the modifier that was written, for all flags, widths and precisions. |
| `FormatScanner.StoreArgument` | components/esp_diagnostics/src/esp_diagnostics_log_hook.c:145-279 | Which argument each conversion takes, and the item it stores or fails to store. |
| `FormatScanner.GetTlv` | components/esp_diagnostics/src/esp_diagnostics_log_hook.c:61-285 | For every format of literals and conversions and every matching argument list the scan ends and the buffer parses to the items of the arguments in order, up to the first that does not fit. |
| `FormatScanner.FittingIsLongest` | components/esp_diagnostics/src/esp_diagnostics_log_hook.c:46-59 | The items stored are the longest prefix whose bytes fit the buffer. |
| `Conversions.IntegerArrives` | components/esp_diagnostics/src/esp_diagnostics_log_hook.c:145-212 | For every integer conversion of C (`hh` 8 bits, `h` 16, none, `l`, `t` and `z` 32, `ll` and `j` 64; signed for `d`, `i`, `D`, unsigned for `o`, `u`, `x`, `X`, `p`, `O`, `U`; `c` 8), any flags, width and precision, and every value of that type: the number the reader gets is that value, if and only if it is neither a negative `%hhd` nor the least 32-bit integer. |
| `Conversions.FormatsOfC` | components/esp_diagnostics/src/esp_diagnostics_log_hook.c:81-144 | Every conversion that C allows is a format of the scanner, as it is written. |
| `Conversions.LiteralsOfC` | components/esp_diagnostics/src/esp_diagnostics_log_hook.c:72-80 | Every character but the percent sign and the terminator is a literal of the scanner. |
| `Conversions.RealArrives` | components/esp_diagnostics/src/esp_diagnostics_log_hook.c:213-247 | Floating-point arguments with no modifier, `l` or `L` arrive bit by bit. |
| `Conversions.TextArrives` | components/esp_diagnostics/src/esp_diagnostics_log_hook.c:264-272 | Strings arrive, cut to their length modulo 256; no string as an empty one. |
| `Conversions.NothingTaken` | components/esp_diagnostics/src/esp_diagnostics_log_hook.c:254-258 | `L` with an integer conversion, and other modifiers with a floating-point one, take no argument. |
| `Conversions.OthersDropOne` | components/esp_diagnostics/src/esp_diagnostics_log_hook.c:273-278 | Every other specifier takes one argument and stores nothing. |
| `FormatScanner.IntegerSurvives` | components/esp_diagnostics/src/esp_diagnostics_log_hook.c:145-212 | The same for the stored item, in terms of the scanner's own action for modifier and specifier. |
| `FormatScanner.NegativeCharIsLost` | components/esp_insights/src/esp_insights_cbor_encoder.c:303-307 | `%hhd` with -1 is emitted as the simple value 255. |
| `FormatScanner.LeastIntIsLost` | components/esp_insights/src/esp_insights_cbor_encoder.c:318-327 | `%d` with -2147483648 is emitted as a number below every 64-bit integer. |
| `FormatScanner.StarLeavesItsValue` | components/esp_diagnostics/src/esp_diagnostics_log_hook.c:81-95 | A star for width or precision is taken for an unknown specifier: it drops the width, and the value it was meant for is left to the next conversion. |
| `FormatScanner.PercentTakesAnArgument` | components/esp_diagnostics/src/esp_diagnostics_log_hook.c:275-278 | `%%` drops an argument, the one the next conversion was meant to have. |
| `FormatScanner.StringSurvives` | components/esp_diagnostics/src/esp_diagnostics_log_hook.c:264-272 | The text sent is the text passed exactly when it is shorter than 256 bytes. |
| `FormatScanner.OnlyLeastIntIsLost` | components/esp_insights/src/esp_insights_cbor_encoder.c:308-377 | Negating in the value's own type or in `int`, and widening to 64 bits, keeps every signed value except the least 32-bit integer. |
| `Tlv.ParseEncode` | components/esp_diagnostics/src/esp_diagnostics_log_hook.c:46-59 | The bytes of a list of well-typed items parse back to that list. |
| `LogArguments.ScanThenEncode` | components/esp_insights/src/esp_insights_cbor_encoder.c:286-427 | What the decoder emits for a scanned call is exactly the items of its conversions that fit the record, in order. |
| `SendRuns.AtLeastOnce` | components/esp_insights/src/esp_insights.c:500-569 | In every run from power-on under the three hypotheses, accepted bytes are released bytes followed by queued bytes, and every released byte was carried, at its place, by a message that arrived. |
| `SendRuns.RunKeeps` | components/esp_insights/src/esp_insights.c:263-345 | The invariants behind it hold after every step, from any state that has them: ids, conservation, and that the next answer releases the head of the queue. |
| `SendRuns.RunConserves` | components/esp_insights/src/esp_insights.c:263-345 | With no hypothesis at all, accepted bytes are released bytes followed by queued bytes, and every data message carried bytes at their place, after every run. |
| `SendRuns.AnswerIsExactWhen` | components/esp_insights/src/esp_insights.c:293-299 | One answer, without hypotheses: it releases only bytes of its own message exactly when that message starts at the head, has nothing to release, or is refused. |
| `AnswerWindows.AnswerExactOverRun` | components/esp_insights/src/esp_insights.c:522-569 | Over every run from power-on, from the read of a window to its answer: the answer releases only bytes of that window exactly when no step in between removed any, the window took none, or the store refuses. |
| `AnswerWindows.FinishExactOverRun` | components/esp_insights/src/esp_insights.c:522-559 | The same for the release after a synchronous success. |
| `SendRuns.Perform` | components/esp_insights/src/esp_insights.c:500-593 | Each step of a run is one method of the session object. |
| `SendScenarios.LateAnswerLosesBytes` | components/esp_insights/src/esp_insights.c:524-554 | An answer to a timed-out message between the peek and the registration makes a later release drop bytes no message carried; ids are fresh and answered once. |
| `SendScenarios.MixedModesLoseBytes` | components/esp_insights/src/esp_insights.c:549-559 | So does mixing synchronous success with an outstanding asynchronous answer. |
| `SendScenarios.DiscardLosesBytes` | components/esp_insights/src/esp_insights.c:293-299 | So does a discard while an answer is outstanding: the answer releases a record logged afterwards. |
| `RoundProgress.MarkExactly` | components/esp_insights/src/esp_insights.c:287-345 | The mark of a round under way after any step: set by a tick that starts one; cleared exactly by the answer to the registered data message, any failure, the timeout, a tick without connection, a restart, or the end of the round itself. |
| `RoundProgress.StartsExactly` | components/esp_insights/src/esp_insights.c:578-592 | A round starts exactly at a tick with connection and no round under way. |
| `RoundProgress.NoSecondRound` | components/esp_insights/src/esp_insights.c:578-592 | From a registration on, in every run, no step of another round happens before something interrupts this one: no other message is sent meanwhile. |
| `RoundProgress.RegistrationWaits` | components/esp_insights/src/esp_insights.c:549-557 | A registration leaves the round waiting exactly if nothing interrupted it while its message was on the way. |
| `RoundProgress.InterruptedRoundOverlaps` | components/esp_insights/src/esp_insights.c:330-345 | After the failure of another message during the send, the next tick starts a second round while the data message is unanswered. |
| `RoundProgress.DataSentExactly` | components/esp_insights/src/esp_insights.c:299-307 | The flag for the report period is set exactly by an answer to the data or the metadata message and by a synchronous success. |
| `RoundProgress.TimerExactly` | components/esp_insights/src/esp_insights.c:263-345 | The timeout is armed exactly from a registration to its answer, a failure, the timeout, a restart or an enabling. |
| `RoundProgress.MetaPendingExactly` | components/esp_insights/src/esp_insights.c:301-307 | The metadata message waits exactly from its registration to its answer or a restart; failures do not end the wait. |
| `RoundProgress.SettledMeansArrived` | components/esp_insights/src/esp_insights.c:309-317 | In every run the boot message counts as settled only after it arrived in this boot. |
| `RoundProgress.DueExactly` | components/esp_insights/src/esp_insights.c:263-269 | A boot message that is out or settled becomes due exactly by its failure or the timeout while it is out, a restart or an enabling. |
| `RoundProgress.BootSentOnlyWhenDue` | components/esp_insights/src/esp_insights.c:611-618 | In no run is a boot message sent again before something has made it due. |
| `RoundProgress.StepBootWaits` | components/esp_insights/src/esp_insights.c:387-402 | A boot message that counts as out can still be answered, after each step exactly if its answer did not come before its id was stored. |
| `RoundProgress.BootMessageWaits` | components/esp_insights/src/esp_insights.c:387-402 | The same over every run without such early answers. |
| `RoundProgress.BlockedMeansTimed` | components/esp_insights/src/esp_insights.c:263-276 | In every run from power-on without a re-enabling in the middle of a round: whenever no round can start, the timeout is armed, and after it one can. |
| `RoundProgress.StepArmed` | components/esp_insights/src/esp_insights.c:578-592 | Each step keeps that, except a re-enabling exactly when a message is under way. |
| `RoundProgress.ReenableInRoundSticks` | components/esp_insights/src/esp_insights.c:783-829 | Disabling and enabling while a message is under way, its answers coming meanwhile, leaves a round under way with no timer and no answer to come. |
| `RoundProgress.StuckStaysStuck` | components/esp_insights/src/esp_insights.c:585-588 | From then on no round starts until a restart, a tick without connection, or a callback that had expired before. |
| `PointsFate.PointsArriveExactly` | components/esp_insights/src/esp_insights.c:529-568 | Over every run from power-on: data points encoded in a round arrive exactly when its message is sent with synchronous success, or under an id that gets a success event before the next reset. |
| `PointsFate.ResetLosesPoints` | components/esp_insights/src/esp_insights.c:529-549 | Data points encoded in a round that a reset interrupts before the send never arrive. |
| `SendScenarios.RoundReleases` | components/esp_insights/src/esp_insights.c:524-568 | An undisturbed round sends the oldest whole records of one boot that fit the read buffer, and releases exactly those. |
| `SendScenarios.RoundsDrain` | components/esp_insights/src/esp_insights.c:524-568 | Such rounds empty the queue after at most one round a record. |
| `SendProtocol.ConsumedIsRun` | components/esp_insights/src/esp_insights_cbor_encoder.c:454-483 | The bytes the protocol takes for consumed are those the log encoder reports. |
| `SendProtocol.Session.PeriodicHandler` | components/esp_insights/src/esp_insights.c:578-592 | A round starts only when active and none is in progress. |
| `SendProtocol.Session.SendDataEncode` | components/esp_insights/src/esp_insights.c:522-541 | The message takes the consumed prefix of the queue, or the round ends when nothing was consumed. |
| `SendProtocol.Session.SendDataReturned` | components/esp_insights/src/esp_insights.c:549-568 | Registration under a positive id, release at once on zero, neither on failure; the values are the task's locals. |
| `SendProtocol.Session.OnSendSuccess` | components/esp_insights/src/esp_insights.c:287-328 | The id is matched with data, metadata and boot message in that order; the data id is not cleared. |
| `SendProtocol.Session.OnSendFailed` | components/esp_insights/src/esp_insights.c:330-345 | Any failure ends the round; only the boot message's own resets its id. |
| `SendProtocol.Session.OnTimeout` | components/esp_insights/src/esp_insights.c:263-276 | Ends the round and makes an unanswered boot message due again. |
| `SendProtocol.Session.DisableAndEnable` | components/esp_insights/src/esp_insights.c:783-829 | The timer is new and the boot message due; data message id, its length and the mark of a round under way stay. |
| `SendProtocol.Session.SendBootReturned` | components/esp_insights/src/esp_insights.c:390-402 | The id is stored as returned; synchronous success erases the core dump. |
| `CoreDump.CoreDumpSafeFromPowerOn` | components/esp_insights/src/esp_insights.c:309-317 | In every run, crashes included: when the core dump is gone, a boot message of a boot since the crash that wrote it has arrived. |
| `CoreDump.ErasedDumpWasReportedSince` | components/esp_insights/src/esp_insights.c:376-403 | After any run a crash writes a core dump; if it is gone later, without another crash, a boot message has arrived that had not arrived before the crash. |
| `CoreDump.ErasesExactly` | components/esp_insights/src/esp_insights.c:309-317 | A step erases the core dump exactly when it is the answer to the boot message that is out, or the registration of its synchronous success. |
| `CoreDump.EraseNeedsArrival` | components/esp_insights/src/esp_insights.c:309-317 | And then that message was the current boot's own. |
| `CoreDump.SupersededNeverErases` | components/esp_insights/src/esp_insights.c:336-338 | An id that is not the boot message id, nor about to be, never erases the core dump before the next boot, however late its answer. |
| `CoreDump.GivenUpNeverErases` | components/esp_insights/src/esp_insights.c:263-269 | From the timeout or failure of a boot message on, an answer to it never erases the core dump before the next boot. |
| `CoreDump.SettledStaysSettled` | components/esp_insights/src/esp_insights.c:611-618 | Once settled, the boot message is not sent again before the next boot or enabling. |
| `ReportPeriod.PeriodicEntry.OnTimer` | components/esp_insights/src/esp_insights.c:170-199 | One callback: flag read and cleared, period doubled or halved and clamped, and the product by 1000, all in 32 bits; it stays in range exactly when a doubling does not wrap below the minimum. |
| `ReportPeriod.BusyIntervals` | components/esp_insights/src/esp_insights.c:184-189 | After any history, up to `n` sending intervals each give the minimum of the maximum and the period times a power of two, if and only if no doubling overflows. |
| `ReportPeriod.IdleIntervals` | components/esp_insights/src/esp_insights.c:190-196 | After any history, `n` idle intervals give the maximum of the minimum and the period over two to the `n`, rounded down, if and only if there is one or the period was not below the minimum. |
| `ReportPeriod.PeriodStaysInRange` | components/esp_insights/src/esp_insights.c:170-199 | Through any run the period stays between minimum and maximum if and only if no doubling of the run wraps below the minimum. |
| `ReportPeriod.DoublingFitsExactly` | components/esp_insights/src/esp_insights.c:184-189 | No doubling overflows in any run if and only if twice the configured maximum fits 32 bits. |
| `ReportPeriod.RangeKeptWithoutOverflow` | components/esp_insights/src/esp_insights.c:240-246 | Then the period is in its range in every run. |
| `ReportPeriod.OverflowLeavesRange` | components/esp_insights/src/esp_insights.c:184-189 | From 2^30 with maximum 2^31, two sending intervals leave a period of 0, and it stays 0 while data are sent. |
| `ReportPeriod.OverflowMayStayInRange` | components/esp_insights/src/esp_insights.c:184-189 | Between 6 and 0xB0000000 doublings overflow and yet no run leaves the range. |
| `ReportPeriod.PeriodFitsExactly` | components/esp_insights/src/esp_insights.c:197-198 | Neither doubling nor the product by 1000 overflows 32 bits in any run, if and only if the maximum is at most 4294967. |
| `MetricsRegistry.Registry.Find` | components/esp_diagnostics/src/esp_diagnostics_metrics.c:31-45 | The linear search finds the map's entry, or says that there is none. |
| `MetricsRegistry.Registry.Register` | components/esp_diagnostics/src/esp_diagnostics_metrics.c:70-97 | Every error in its order; on success the map gains the entry. |
| `MetricsRegistry.Registry.AddUnit` | components/esp_diagnostics/src/esp_diagnostics_metrics.c:102-132 | Only the unit of the one entry changes. |
| `MetricsRegistry.Registry.Unregister` | components/esp_diagnostics/src/esp_diagnostics_metrics.c:134-165 | The map loses exactly that key although the last entry moves; no hole is left. |
| `MetricsRegistry.Registry.UnregisterAll` | components/esp_diagnostics/src/esp_diagnostics_metrics.c:167-175 | The map becomes empty, or an error and no change. |
| `MetricsRegistry.SwapRemoveIsMapRemove` | components/esp_diagnostics/src/esp_diagnostics_metrics.c:158-163 | Moving the last entry into the hole is removing one key from the map. |
| `MetaGroups.EncodeMetaMetrics` | components/esp_insights/src/esp_insights_cbor_encoder.c:785-830 | The nested loops emit one group per tag address, in order of first occurrence, keys in registry order. |
| `MetaGroups.GroupsPartition` | components/esp_insights/src/esp_insights_cbor_encoder.c:785-830 | Every registered metric is in exactly one group, and nothing else is. |
| `MetaGroups.EmittedExactlyOnce` | components/esp_insights/src/esp_insights_cbor_encoder.c:785-830 | The entries of all emitted groups together are those of every registered metric, each exactly once. |
| `MetaGroups.GroupAt` | components/esp_insights/src/esp_insights_cbor_encoder.c:796-829 | Each emitted group stands under the text of its tag and holds exactly the metrics with that tag address, in registry order. |
| `MetaGroups.GroupKeysDistinct` | components/esp_insights/src/esp_insights_cbor_encoder.c:812-826 | Given what the registry keeps, no key occurs twice within a group. |
| `MetadataReader.MetadataReadsBack` | components/esp_insights/src/esp_insights_cbor_encoder.c:766-838 | Behind "M" and "d", one group for each tag address; behind "d" of each, exactly the metrics with that tag in registry order, each with what was registered for it. |
| `MetadataReader.MetricReadsBack` | components/esp_insights/src/esp_insights_cbor_encoder.c:730-764 | Behind "m" of a metric's entry: label, path, data type, and a unit exactly if there is one. |
| `MetadataReader.GroupsInOrder` | components/esp_insights/src/esp_insights_cbor_encoder.c:790-805 | The groups stand in the order in which their tags first occur in the registry. |
| `MetaGroups.GroupKeysUniqueIff` | components/esp_insights/src/esp_insights_cbor_encoder.c:785-830 | The group map has no duplicate key exactly when equal tag texts share one address. |
| `MetaGroups.EncodeMetric` | components/esp_insights/src/esp_insights_cbor_encoder.c:730-764 | One entry per metric, with its unit only when it has one. |
| `CborDump.DumpCbor` | components/esp_insights/src/esp_insights_cbor_decoder.c:78-260 | For every sequence of trees the explicit-stack loop ends and prints what the recursive printer prints, and a reader of the output, who expects separators, indentation, colons before the values of maps and closing marks in their places, gets the trees back. |
| `CborDump.ReadRenderFrom` | components/esp_insights/src/esp_insights_cbor_decoder.c:94-103 | The reader gets the children of any container back from what is printed for them, from any position on. |

## Left out

- Transports, NVS, CRC, partition and chip calls: the network and foreign libraries; a send is its result
  (-1, 0 or a positive id), the header of an initialisation is a parameter.
- FreeRTOS timers, locks, work queue and event loop: each section between lock and unlock is one step; the
  scheduler is the choice of the next step. Lock timeouts appear only where the code branches on them.
- Failed allocations and failed lock or timer creation during initialisation.
- TinyCBOR below the level of data items: byte encodings, buffer-full errors (whose return codes the code
  ignores), the ban on simple values 24 to 31.
- Metadata sending beyond its id: the CRC that decides whether it is due, configuration and command-response
  messages, and a separate section between the send and the storing of its id.
- Boot-time message contents, core dump summary, device information: platform reads written out in order.
- The variables registry and its metadata: the same code as the metrics registry under other names.
- The older metadata format and the logging mode that stores formatted text.
- Heap and Wi-Fi metrics, command parsing, debug output other than the CBOR dump.
- What floating-point bits mean, and the conversion of a wider `long double`.
- The two rings as one contiguous piece of memory: each is its own array.
- RtcRing.Ring.Peek: returns the bytes as a sequence and does not write a caller's buffer.
- LogEncoder.EncodeLogList: is stated for records as the log hook writes them, with one of the three severities
  and complete arguments (`LogOk`); bytes that no writer of the repository produces are not covered.
- PointEncoder.EncodeDataPoints: is stated for payloads of at least the four type bytes (`PointsOk`), which
  every writer of data points produces.
- DiagMessage.EncodeDataEnd: ends at the complete item; how many bytes that is is a parameter of
  `MessageFrame.FrameMessage`.
- FormatScanner.GetTlv: a format ending in a lone percent sign is not one of `PieceOk`; arguments that do not match
  their conversion have no meaning in C. A star is a specifier of its own, as it is for the scanner.
- FormatScanner.StoreReal: carries the eight bytes of the value as they are.
- SendProtocol.Session: keeps the critical queue as a byte sequence; that the ring in memory is one is
  `RingRuns.RingIsQueueExactly`. Disabling and enabling is one step between rounds; the time in which the store is
  down, releases are refused and logs are not written is not followed. Data points are counted when encoded.
- RecordRuns.RingIsRecordList: follows runs up to the first release that is not clean; what the code does to a ring
  that is not whole records is shown for one eviction only.
- ReportPeriod.PeriodStaysInRange: gives the condition step by step; which pairs of minimum and maximum above
  2^31 never meet a doubling that wraps below the minimum is not said in a formula of the two.
- CoreDump.CoreDumpSafeFromPowerOn: says that a boot message arrived, not that the summary of the dump was in it.
- CborDump.DumpCbor: prints tokens of output, not characters, and does not model errors of the CBOR parser.
