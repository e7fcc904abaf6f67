# Atmoq verification model

Atmoq relays an atproto firehose over MoQ. This project models its hard parts in Dafny and proves what
they promise, on every input and every run:

- a disk store of append-only segment files that survives being killed at any byte of a write;
- a publisher whose restart protocol never puts two contents on one group sequence;
- an ingest/pump pair that relays each upstream event once although the connection keeps reconnecting, and
  leaves no gap across restarts;
- a DRISL (canonical CBOR) validator in Rust, Go and TypeScript, and the frame splitter built on it;
- a Go subscription that drains group streams while they are accepted, closed and failed concurrently;
- a router of per-account tracks with generation-guarded watchers;
- the wire framing, the CAR reader and the idle timer around them.

Code that changes state step by step is a class or a loop with the same fields and branches, proved equal
to a specification function of the old state (`GroupStore.Store`, `Publisher.FramePublisher`,
`Relay.CursorPump`, `Subscription.ClientSubscription`, `Router.DidRouter`, `StreamFraming.Reader`,
`Car.Cursor`, `IdleTimer.Connection`, the validators in `Drisl` and `DrislSiblings`). Concurrency and
crashes are step machines over those functions, and the theorems are about all their runs.

## Modules

- `Bytes`: bytes, widths, byte order, lexicographic comparison.
- `DrislValue`, `Drisl`, `DrislExact`, `DrislSiblings`: values and their encoder; a decoder and the Rust
  validator proved equal to it; exactness, canonicity, prefix-freedom; the Go and TypeScript validators.
- `Utf8`, `DrislErrors`: well-formed text; what each refusal says about the bytes.
- `Frame`: header and payload of one frame, the fields the relay reads.
- `StoreFormat`, `GroupStore`, `StoreRefinement`, `StoreRecovery`, `StoreGc`, `StoreRuns`: the record
  formats, the store as written, the log of segments it represents and the map that log stands for,
  reopening, collection, whole runs.
- `Publisher`, `RelayRuns`: the restart and rotation protocol; the same protocol over the real store.
- `Relay`: upstream, ingest, channel and pump, and restarts from the cursor file.
- `Subscription`, `StreamFraming`: the Go client.
- `Router`, `Car`, `IdleTimer`: per-account tracks, CAR archives, one upstream connection.

Every lemma carries `{:induction false}`: no proof leans on automatic induction, and each induction is
the call written in the lemma's body.

## Where the code does not do what it is described to do

- A process that starts with no cursor can skip events: a reconnect before the pump has handled the first
  event resumes at the live edge while older events still wait in the channel. `Relay.GapFreeExact` proves
  the relay gap-free over every run if and only if the initial cursor is not -1, and
  `Relay.GapFreeAcrossRestarts` the same for any number of restarts from the cursor file. From -1 a run is
  still gap-free when no second subscription is made without a cursor (`Relay.LiveStartUnbroken`).
- A process that dies inside `reload_window` leaves a reloaded group short on its track, so one sequence can
  carry a whole group and a strict prefix of it (`Publisher.CrashInReloadCutsShort`). `Publisher.NeverReused`
  proves that this is all: two contents of a sequence are equal, or one is a prefix of the other, and they
  are equal if and only if both runs got equally far in reloading it; `Publisher.ShortExact` ties being
  short to a crash event inside that reload.
- The scan gives a file without a whole record the first sequence 0. A collection that later removes the
  file before it then keeps that file's index entries (`StoreRuns.StaleEntryAfterTornRotation`).
  `StoreGc.GcExact` and `StoreGc.GcRefines` give the exact condition, a check on the segment table before
  the call. No surviving group is ever lost by it (`StoreGc.SurvivorsRead`).
- A reopen after a collection can lose the high water when the active segment has no group
  (`StoreRuns.HighWaterLost`); it recovers it if and only if there was none or one of the segments the
  collection leaves has bytes in the table (`StoreGc.GcReopenExact`). The sidecar keeps the publisher safe
  from this.
- The record header's body length is 32 bits wide: the scan steps over a record if and only if its body is
  under 4 GiB (`StoreFormat.ExtentExact`).
- The idle timer is created a little after `last_rx` is first read. Over every run the armed deadline is
  within 45 s of the last receipt if and only if that receipt is not before the timer's creation
  (`IdleTimer.ArmedWithinExact`), and `IdleTimer.ArmedLateAtStart` is the failing start.
- A group accepted for a Go subscription whose `Subscribe` then fails stays at the head of its queue
  whatever happens next (`Subscription.FailedSubscribeStrands`). Once a subscription is over, nothing is
  left queued if and only if its goroutine ran or nothing was accepted (`Subscription.OverLeavesNothing`).

## Model

| member | source | states |
|---|---|---|
| GroupStore.Store.Open | rust/crates/atmoq/src/store.rs:98-113 | opening scans a sorted listing of the directory, cutting torn tails, and nothing else decides memory or files |
| GroupStore.Store.ScanSegment | rust/crates/atmoq/src/store.rs:295-361 | one file: its whole records are indexed, the rest is cut off, and a table entry is added |
| GroupStore.Store.ScanRecords | rust/crates/atmoq/src/store.rs:301-340 | the scan loop counts exactly the records `ScanFile` finds and stops at their end |
| GroupStore.RecordExtent | rust/crates/atmoq/src/store.rs:305-327 | the loop's exits: clean end or torn header, torn body, or the record's extent in either format |
| GroupStore.Store.EnsureWriterOpen | rust/crates/atmoq/src/store.rs:244-277 | rotates on no segment, a full one or a v1 one, else reopens the last; files and table change together |
| GroupStore.Store.Append | rust/crates/atmoq/src/store.rs:141-177 | the record is added to the active file, and table, index and high water say where; the store stays fit for use when a rotation does not meet its own file names |
| GroupStore.Store.WriteRecord | rust/crates/atmoq/src/store.rs:157-175 | the write and the memory update after it |
| GroupStore.EncodeRecord | rust/crates/atmoq/src/store.rs:146-155 | the bytes of one v2 record |
| GroupStore.Store.Read | rust/crates/atmoq/src/store.rs:71-78 | index lookup, then the record at that place, with missing file, torn record and wrong sequence as errors |
| GroupStore.ReadExact | rust/crates/atmoq/src/store.rs:71-78 | frames are returned if and only if a record of that very sequence lies where the index says; "not stored" if and only if the index does not list it |
| GroupStore.Store.RemoveOldest | rust/crates/atmoq/src/store.rs:228-239 | one file deleted, entries in its sequence range dropped, every other entry renumbered |
| GroupStore.Store.Gc | rust/crates/atmoq/src/store.rs:216-242 | the whole loop, with its running total and the number removed |
| GroupStore.ListSegments | rust/crates/atmoq/src/store.rs:283-293 | every segment file once, sorted by stem |
| StoreFormat.ReadRecord | rust/crates/atmoq/src/store.rs:394-417 | the frame loop computes the record at an offset, or none when it runs past the end |
| StoreFormat.WalkV1Body | rust/crates/atmoq/src/store.rs:370-391 | the v1 frame walk computes the body's length, or none when torn |
| StoreFormat.RecordRoundTrip | rust/crates/atmoq/src/store.rs:146-155 | reading inverts the append encoding, in both formats, whatever follows |
| StoreFormat.RecordExact | rust/crates/atmoq/src/store.rs:394-417 | a record is read if and only if its sequence, time, frame count and frames lie at the offset |
| StoreFormat.ExtentRoundTrip | rust/crates/atmoq/src/store.rs:304-327 | the scan steps from the start of a record to its end |
| StoreFormat.ExtentExact | rust/crates/atmoq/src/store.rs:314-320 | it does so if and only if the body is under 4 GiB |
| StoreFormat.TornExtent | rust/crates/atmoq/src/store.rs:305-326 | no strict prefix of a record is taken for a record |
| StoreFormat.ScanRecovers | rust/crates/atmoq/src/store.rs:304-353 | whole records and a strict prefix of one more: the scan finds exactly the records and their total length |
| StoreRefinement.StemOrder | rust/crates/atmoq/src/store.rs:256-293 | twenty-digit names compare as the u64 numbers do |
| StoreRefinement.ReadRefines | rust/crates/atmoq/src/store.rs:180-199 | a read returns the map's frames for a stored sequence, and "not stored" for any other when the index has no stale entry |
| StoreRefinement.AppendRefines | rust/crates/atmoq/src/store.rs:141-177 | after an append memory and files hold the log with the record added, and represent it exactly if they did before |
| StoreRefinement.AppendContents | rust/crates/atmoq/src/store.rs:141-177 | to the map it adds one group and moves the high water |
| StoreRefinement.AppendNameFree | rust/crates/atmoq/src/store.rs:251-269 | ascending sequences never rotate onto the name of an existing file |
| StoreRecovery.ListingOrder | rust/crates/atmoq/src/store.rs:283-293 | any sorted listing of the directory is the order in which the segments were created |
| StoreRecovery.ScanOneRecovers | rust/crates/atmoq/src/store.rs:295-361 | scanning a torn file adds exactly its records' index entries and cuts it to their length |
| StoreRecovery.OpenRefines | rust/crates/atmoq/src/store.rs:282-363 | reopening after any crash represents the log of whole records, with its exact high water |
| StoreRecovery.OpenCrashHolds | rust/crates/atmoq/src/store.rs:341-353 | dying during the scan leaves a directory the next open recovers the same from |
| StoreRuns.RunReads | rust/crates/atmoq/src/store.rs:141-199 | over any run of opens, appends and crashes at any byte: exactly the frames of each completed append, nothing else |
| StoreRuns.RunReadsLog | rust/crates/atmoq/src/store.rs:180-242 | over any run, whatever its collections meet and deaths inside them included: every group of the log reads back in full, and nothing else is found unless a collection since the open left its entry |
| StoreRuns.StepContents | rust/crates/atmoq/src/store.rs:141-242 | what each step does to the map: appends add, collections and deaths inside them cut at the head file left |
| StoreRuns.RunFills | rust/crates/atmoq/src/store.rs:244-269 | over any run a file is left for a new one only once it has the rotation size, and outgrows that by less than its last record |
| StoreRuns.AppendCrashHolds | rust/crates/atmoq/src/store.rs:157-162 | a crash any number of bytes into a record leaves whole records and a torn tail, or the whole record |
| StoreRuns.CrashReopen | rust/crates/atmoq/src/store.rs:341-361 | reopening gives the index, byte counts and contents of the state before the crash, minus the torn record, or of the state after the append when the record is whole; the high water is the same if and only if there was none or a segment has bytes |
| StoreRuns.StaleEntryAfterTornRotation | rust/crates/atmoq/src/store.rs:228-233 | any group that fills a file, a rotation torn before its first byte, one more append and a collection of the first file leave an index entry for that file |
| StoreRuns.HighWaterLost | rust/crates/atmoq/src/store.rs:338-356 | the same start and a collection: the next open finds no high water |
| StoreRuns.SomeGroupFills | rust/crates/atmoq/src/store.rs:36-37 | at the 64 MiB rotation size such a group exists: sixty-four frames of one MiB |
| StoreGc.RemovedIsLeast | rust/crates/atmoq/src/store.rs:221-227 | every segment removed had expired or stood, with those after it, above a budget that is set; the head left has not expired and the rest is within the budget, or it is the active one |
| StoreGc.TotalIsDisk | rust/crates/atmoq/src/store.rs:218 | the table's byte counts add up to the length of the segment files end to end |
| StoreGc.GcFitsBudget | rust/crates/atmoq/src/store.rs:213-242 | after a collection the files fit the budget and the oldest is unexpired, unless only the active one is left; nothing else was removed, and a store for which that held is untouched |
| StoreGc.GcSegments | rust/crates/atmoq/src/store.rs:216-242 | the loop removes exactly those, its running total being the real sum at every turn |
| StoreGc.GcIndex | rust/crates/atmoq/src/store.rs:232-238 | the index after any collection: which entries are left and where each points |
| StoreGc.GcExact | rust/crates/atmoq/src/store.rs:228-238 | it is the survivors' index if and only if the segments the range filter misses were empty |
| StoreGc.GcFiles | rust/crates/atmoq/src/store.rs:231-234 | the files left are those of the surviving segments |
| StoreGc.GcIsTurns | rust/crates/atmoq/src/store.rs:221-240 | the collection is that many turns of its loop |
| StoreGc.TurnsFiles | rust/crates/atmoq/src/store.rs:231-234 | wherever the loop stops, or the process dies in it, the files are those of a later part of the log |
| StoreGc.TurnsCover | rust/crates/atmoq/src/store.rs:232-238 | no turn loses the entry of a surviving group, whatever first sequences the table has |
| StoreGc.GcServes | rust/crates/atmoq/src/store.rs:216-242 | after any collection memory and files hold the surviving log and every group of it is found; the map is cut at the new head |
| StoreGc.SurvivorsRead | rust/crates/atmoq/src/store.rs:180-242 | after any collection every surviving group reads back in full |
| StoreGc.GcRefines | rust/crates/atmoq/src/store.rs:216-242 | memory and files represent the surviving log if and only if the same condition holds; the map keeps the groups from the new head on |
| StoreGc.GcReopenExact | rust/crates/atmoq/src/store.rs:216-242 | a reopen after any collection gives back the high water if and only if there was none or a segment the collection leaves has bytes in the table |
| StoreGc.ReopenHighExact | rust/crates/atmoq/src/store.rs:338-356 | the same without a collection: the maximum of the files is the high water in memory if and only if there was none or some segment has bytes |
| StoreGc.GcReopen | rust/crates/atmoq/src/store.rs:216-242 | so it does when the active segment has bytes |
| StoreGc.HighIsGreatest | rust/crates/atmoq/src/store.rs:115-118 | the recovered high water is the greatest sequence of the map |
| Publisher.NeverReused | rust/crates/atmoq/src/main.rs:795-878 | over any run of starts, reloads, rotations, failed appends, finishes and crashes between any two statements, contents of one sequence are equal or one is a prefix of the other, equal if and only if both runs got equally far in reloading it; likewise against the store; and every sequence used is at most the next start's high water |
| Publisher.WholeGroupsEqual | rust/crates/atmoq/src/main.rs:846-878 | in a history without a crash in their reloads of a sequence, two runs have the same frames on it, and those are the ones stored |
| Publisher.ShortExact | rust/crates/atmoq/src/main.rs:805-814 | over whole histories a run is short of a group if and only if some crash event killed it inside its reload of that group, or it is there now |
| Publisher.CrashInReloadCutsShort | rust/crates/atmoq/src/main.rs:807-811 | a run that dies after reloading one of two frames leaves the sequence with both and one |
| Publisher.ReloadComplete | rust/crates/atmoq/src/main.rs:805-814 | an uninterrupted reload puts every group of the window on the track in full and changes nothing else |
| Publisher.FirstGroupFresh | rust/crates/atmoq/src/main.rs:769-780 | a run's first group is above every sequence ever used or ever stored |
| Publisher.FirstGroupExact | rust/crates/atmoq/src/main.rs:846-878 | it is one past the larger of sidecar and store, two past the store when there is no sidecar, and 0 on an empty start |
| Publisher.AppendsAscend | rust/crates/atmoq/src/main.rs:929-945 | every store append is above all sequences ever stored |
| Publisher.StepSafe | rust/crates/atmoq/src/main.rs:846-1050 | every statement keeps the sequencing invariant |
| Publisher.StepConserved | rust/crates/atmoq/src/main.rs:912-975 | every statement keeps the conservation invariant |
| Publisher.Conservation | rust/crates/atmoq/src/main.rs:922-973 | groups in order and then the buffer are all frames written, rotated groups having exactly the group size; a rotated group is in the store, whole, if and only if it was neither refused nor collected; with none refused, stored groups and buffer are all frames but the oldest ones, collected |
| Publisher.CleanFinish | rust/crates/atmoq/src/main.rs:1020-1050 | a clean finish leaves every frame in the store that was not refused or collected, the last group included |
| Publisher.CrashLoss | rust/crates/atmoq/src/main.rs:1028-1035 | a crash loses at most the buffer, the frames of the single highest sequence used; collected and refused groups apart, the rest is stored |
| Publisher.FramePublisher.Start | rust/crates/atmoq/src/main.rs:825-888 | reload, seed and first group are the three start steps |
| Publisher.FramePublisher.StartRun | rust/crates/atmoq/src/main.rs:825-839 | a new process has fresh memory and an empty track |
| Publisher.FramePublisher.ReloadWindow | rust/crates/atmoq/src/main.rs:795-819 | the loop over the window is the reload's steps run to their end |
| Publisher.FramePublisher.ReloadGroup | rust/crates/atmoq/src/main.rs:806-813 | one turn of it: create, write every frame, finish |
| Publisher.FramePublisher.CreateReloaded | rust/crates/atmoq/src/main.rs:807 | the group is created under its own sequence |
| Publisher.FramePublisher.WriteReloaded | rust/crates/atmoq/src/main.rs:808-810 | one stored frame is written to it |
| Publisher.FramePublisher.FinishReloaded | rust/crates/atmoq/src/main.rs:811-812 | the group is finished and the loop moves on |
| Publisher.FramePublisher.MakeFirstGroup | rust/crates/atmoq/src/main.rs:855-878 | the first group is one past the larger of sidecar and store, or two past a store without sidecar |
| Publisher.FramePublisher.PersistGroupSeq | rust/crates/atmoq/src/main.rs:758-763 | the sidecar takes the new group's sequence |
| Publisher.FramePublisher.Write | rust/crates/atmoq/src/main.rs:912-975 | a write is publish, and at the group size rotate, save and persist in that order |
| Publisher.FramePublisher.WriteFrame | rust/crates/atmoq/src/main.rs:923-929 | the frame goes to the group and the buffer and is counted |
| Publisher.FramePublisher.RotateGroup | rust/crates/atmoq/src/main.rs:930-933 | the next group is opened before the old one is stored |
| Publisher.FramePublisher.SaveGroup | rust/crates/atmoq/src/main.rs:940-964 | the finished group is stored or refused, and the buffer is cleared either way |
| Publisher.FramePublisher.Finish | rust/crates/atmoq/src/main.rs:1020-1050 | the in-progress group is flushed unless empty |
| RelayRuns.StepKeeps | rust/crates/atmoq/src/main.rs:836-971 | publisher and real store stay coupled through every step, including reloads, appends torn at any byte and deaths inside a collection; from the open on the store's `max_seq` is the map's greatest sequence |
| RelayRuns.HighIsMaxKey | rust/crates/atmoq/src/main.rs:855-865 | the `max_seq` an open recovers is the greatest sequence the publisher's store has |
| RelayRuns.FirstGroupFromStore | rust/crates/atmoq/src/main.rs:855-878 | the first group, seeded from the recovered `max_seq`, is above every sequence ever used or stored on disk |
| RelayRuns.DiskReadsWhatWasPublished | rust/crates/atmoq/src/main.rs:800-806 | after any history every stored group reads back from disk in full, and is what each run that published that sequence put on it, up to where that run died reloading it |
| RelayRuns.DiskHoldsTheRun | rust/crates/atmoq/src/main.rs:912-975 | at any moment of a run the groups it rotated, but those refused or collected, read back from disk as published; with none refused, disk and buffer together are all its frames but the oldest ones, collected |
| RelayRuns.AppendsAlwaysAscend | rust/crates/atmoq/src/main.rs:940-945 | each append is above every earlier one, complete or torn, which is all the store asks |
| Relay.GapFreeExact | rust/crates/atmoq/src/main.rs:1333-1375 | what is relayed is an unbroken, duplicate-free segment of the upstream log over every run, if and only if the initial cursor is not the sentinel -1 |
| Relay.GapFreeAcrossRestarts | rust/crates/atmoq/src/main.rs:1300-1330 | over any number of restarts from the cursor file, the events relayed are exactly those above the first cursor up to the highest reached, if and only if that first cursor is not -1 |
| Relay.RestartBehind | rust/crates/atmoq/src/main.rs:1541-1550 | a restart begins at or before where the process before it ended, and not before where that one began |
| Relay.LiveStartUnbroken | rust/crates/atmoq/src/main.rs:1341-1344 | from -1 the relay is an unbroken segment as long as no second subscription is made without a cursor |
| Relay.RelayedExactly | rust/crates/atmoq/src/main.rs:1458-1524 | from a real cursor, it is exactly the segment from right above that cursor to the shared one |
| Relay.StepKeeps | rust/crates/atmoq/src/main.rs:1333-1375 | emits, cursor loads, connects, sends, disconnects and pump turns keep everything in flight contiguous |
| Relay.PassedAscends | rust/crates/atmoq/src/main.rs:1497-1518 | whatever arrives, relayed sequences strictly ascend above the initial cursor and end at the final one |
| Relay.PassedExact | rust/crates/atmoq/src/main.rs:1477-1524 | the output is the received messages at exactly the positions of informational frames and of events above the cursor and every event before them; no error frame, every informational frame as often as it came |
| Relay.SaveThenRestart | rust/crates/atmoq/src/main.rs:1302-1330 | a save followed by a restart resumes exactly at the highest event seen, whatever file and flag there are; before any event a save changes nothing |
| Relay.ReplayPassesNothing | rust/crates/atmoq/src/main.rs:1497-1515 | a replay of frames already handled changes nothing |
| Relay.PumpStepPasses | rust/crates/atmoq/src/main.rs:1458-1524 | a pump step of the protocol is one turn of the loop |
| Relay.CursorPump.Pump | rust/crates/atmoq/src/main.rs:1458-1524 | the loop hands over exactly the fresh events and the informational frames, and leaves the cursor at the highest |
| Relay.CursorPump.constructor | rust/crates/atmoq/src/main.rs:1302-1330 | the initial cursor of `GapFreeAcrossRestarts`: file before flag, -1 with neither |
| Relay.CursorPump.PersistCursor | rust/crates/atmoq/src/main.rs:1541-1550 | the file becomes the one the next process of a history may find: the shared cursor, or as it was while no event has been seen |
| Drisl.ReadArg | rust/crates/atmoq/src/drisl.rs:83-117 | the accumulation loop reads the argument, its end, and each way it can be refused |
| Drisl.ValidateItem | rust/crates/atmoq/src/drisl.rs:119-256 | recursion and array loop answer as the decoder does: same end, same violation at the same offset |
| Drisl.ValidateString | rust/crates/atmoq/src/drisl.rs:135-152 | the string arm, with truncation and UTF-8 errors |
| Drisl.ValidateMap | rust/crates/atmoq/src/drisl.rs:163-193 | the map loop with its previous key |
| Drisl.ValidateEntry | rust/crates/atmoq/src/drisl.rs:168-191 | one turn of it: key, order check, value |
| Drisl.ValidateTag | rust/crates/atmoq/src/drisl.rs:195-214 | the CID arm |
| Drisl.ValidateSimple | rust/crates/atmoq/src/drisl.rs:216-253 | the simple values and 64-bit floats |
| DrislExact.Validate | rust/crates/atmoq/src/drisl.rs:65-67 | accepted with an end exactly when the bytes up to it canonically encode some value of depth at most 128 |
| DrislExact.ValidateExact | rust/crates/atmoq/src/drisl.rs:70-79 | accepted exactly when the whole input canonically encodes some value; trailing bytes are reported where the item ends; otherwise the refusal is the item's |
| DrislExact.Exactness | rust/crates/atmoq/src/drisl.rs:119-256 | that equivalence, for all inputs and offsets |
| DrislExact.Sound | rust/crates/atmoq/src/drisl.rs:119-256 | what is accepted is the canonical encoding of the value decoded |
| DrislExact.Complete | rust/crates/atmoq/src/drisl.rs:119-256 | every canonical encoding is accepted, whatever surrounds it |
| DrislExact.Canonicity | rust/crates/atmoq/src/drisl.rs:96-116 | two accepted items denote the same data if and only if they are the same bytes |
| DrislExact.PrefixFree | rust/crates/atmoq/src/drisl.rs:128-256 | no accepted item is a proper prefix of another |
| DrislExact.SuffixIrrelevant | rust/crates/atmoq/src/drisl.rs:65-67 | what follows an item never changes how it is read |
| DrislErrors.HeadRefused | rust/crates/atmoq/src/drisl.rs:83-117 | indefinite, reserved, truncated and non-minimal heads, each in terms of the bytes; non-minimal means a shorter head carries the same argument |
| DrislErrors.StringRefused | rust/crates/atmoq/src/drisl.rs:135-152 | a string is refused for missing bytes, or as text that encodes no sequence of Unicode scalars |
| DrislErrors.TagRefused | rust/crates/atmoq/src/drisl.rs:195-214 | which tags are refused where: number, content, CID prefix |
| DrislErrors.KeyRefused | rust/crates/atmoq/src/drisl.rs:175-190 | a duplicate is the same key again, unsorted an earlier one in length-first order |
| DrislErrors.SimpleExact | rust/crates/atmoq/src/drisl.rs:216-253 | what each byte of major type 7 stands for or is refused as |
| DrislErrors.NonFiniteExact | rust/crates/atmoq/src/drisl.rs:220-231 | NaN and infinity by exponent and fraction of the number the eight bytes spell |
| Utf8.ValidExactly | rust/crates/atmoq/src/drisl.rs:144-150 | text is well-formed if and only if it is the encoding of a sequence of Unicode scalar values |
| DrislValue.EncodedKeyOrder | rust/crates/atmoq/src/drisl.rs:14-16 | bytewise order of encoded keys is length-first order of the keys, across all head widths |
| DrislValue.SortedCons | rust/crates/atmoq/src/drisl.rs:163-193 | checking each key against the one before gives globally sorted, unique keys |
| DrislValue.DenoteInjective | rust/crates/atmoq/src/drisl.rs:14-16 | with sorted keys, a datum has one value and so one encoding |
| DrislSiblings.GoString | go/drisl.go:141-151 | 64-bit index arithmetic never wraps into a wrong verdict |
| DrislSiblings.TsString | ts/src/drisl.ts:149-165 | double arithmetic on lengths up to 2^64-1 gives the same verdict |
| DrislSiblings.QuantumExact | ts/src/drisl.ts:149-165 | the spacing of doubles leaves a 53-bit significand and no less |
| DrislSiblings.NumberNearest | ts/src/drisl.ts:149-165 | `Number` of a length is the nearest double, ties to even |
| DrislSiblings.CompareEncoded | ts/src/drisl.ts:113-128 | the sign of the hand-written comparison is the bytewise order |
| DrislSiblings.SiblingItem | go/drisl.go:117-261 | the Go and TypeScript recursion answers as the decoder does |
| DrislSiblings.SiblingArray | ts/src/drisl.ts:167-175 | the array arm |
| DrislSiblings.SiblingMap | ts/src/drisl.ts:176-214 | the map loop with previous-key offsets and the -1 sentinel |
| DrislSiblings.SiblingEntry | go/drisl.go:173-196 | one turn of it |
| DrislSiblings.SiblingTag | go/drisl.go:200-223 | the CID arm |
| DrislSiblings.SiblingValidate | go/drisl.go:61-63 | all three validators accept the same inputs with the same end offset: exactly the canonical encodings |
| Frame.DecodeExact | rust/crates/atmoq/src/frame.rs:33-51 | a frame is accepted if and only if it is one canonical item followed by exactly one more |
| Frame.SplitUnique | rust/crates/atmoq/src/frame.rs:33-45 | the boundary and both objects are unique |
| Frame.ParseExact | rust/crates/atmoq/src/frame.rs:53-71 | which frames parse, what each field is in terms of the denoted maps, and the bytes kept as they came |
| Frame.RefusalExact | rust/crates/atmoq/src/frame.rs:33-45 | why a frame is refused: no canonical header, one item only, no canonical payload, bytes left |
| Frame.HeaderRefusal | rust/crates/atmoq/src/frame.rs:53-66 | why two items do not parse: no integer `op`, or `op` 1 without a text `t` |
| Frame.NumbersExact | rust/crates/atmoq/src/frame.rs:56-70 | `op` and `seq` are signed 64-bit: the denoted integers where they fit, else congruent to them modulo 2^64 |
| Bytes.Wrap64Exact | rust/crates/atmoq/src/frame.rs:60-69 | narrowing gives the one number in the signed range that differs by a multiple of 2^64 |
| Frame.FieldUnique | rust/crates/atmoq/src/frame.rs:74-79 | a key has at most one entry, so scan order does not matter |
| Frame.FieldDenotes | rust/crates/atmoq/src/frame.rs:74-79 | `field` is lookup in the denoted map |
| Frame.EventDidExact | rust/crates/atmoq/src/router.rs:201-205 | the account is the text under `repo`, which shadows `did` even when it is not text |
| Subscription.StepKeeps | go/client.go:462-512 | every interleaved step keeps wakeup, accounting and delivery invariants |
| Subscription.NoLostWakeup | go/client.go:462-504 | parked beside a non-empty queue implies a token, or an enqueuer about to send one |
| Subscription.ReadsInOrder | go/client.go:479-512 | what the reader has read is a prefix of the accepted groups' frames in accept order |
| Subscription.QuietMeansComplete | go/client.go:483-512 | an open, quiet subscription has delivered every frame of every accepted group |
| Subscription.ExitLeavesNothing | go/client.go:495-511 | once `run` has exited nothing is queued, every stream is accounted for in order, and at most the last taken is cut short |
| Subscription.OversizeNeverSkipped | go/client.go:526-532 | a subscription that has finished with a group ending in an oversized frame is closed, and takes no group after it |
| Subscription.GroupEndExact | go/client.go:515-543 | an oversized frame fails an open subscription with its group number, for good; a clean end or a read error fails nothing |
| Subscription.OversizeFailsExact | go/client.go:526-532 | when nothing else closes it, a subscription is closed if and only if a group it finished was oversized, and the recorded failure names that group |
| Subscription.NoSpinning | go/client.go:494-501 | a token without a group wakes the goroutine once: it parks again and stays parked |
| Subscription.ClosedForGood | go/client.go:546-572 | closure and the first failure are final, and later streams are refused |
| Subscription.RunnerNeverStuck | go/client.go:483-512 | the goroutine waits only for the reader, the lock holder, a pending wakeup or an empty queue |
| Subscription.HeadIsTaken | go/client.go:483-512 | while open, each of its steps takes the queue's head or comes strictly closer |
| Subscription.OverLeavesNothing | go/client.go:214-225 | once a subscription is over, nothing is queued if and only if its goroutine ran or nothing was accepted |
| Subscription.FailedSubscribeStrands | go/client.go:214-225 | a stream accepted for a subscribe that then fails stays at the queue's head under every continuation |
| Subscription.AbandonedKeeps | go/client.go:216-221 | an abandoned subscription never gives up a queued stream |
| Subscription.ClientSubscription.Enqueue | go/client.go:462-477 | one uninterrupted enqueue is the offer, append and kick steps, or a refusal |
| Subscription.ClientSubscription.TakeGroup | go/client.go:484-492 | the locked pop |
| Subscription.ClientSubscription.Deliver | go/client.go:558-565 | the select between buffer and closure |
| Subscription.ClientSubscription.Wait | go/client.go:494-501 | the select between a token and closure |
| Subscription.ClientSubscription.EndGroup | go/client.go:515-543 | the returns of `readGroup` that are not a failed delivery: an oversized frame fails the subscription, the others do not |
| Subscription.ClientSubscription.CheckEnded | go/client.go:505-510 | the check after each group |
| Subscription.ClientSubscription.ReadFrame | go/client.go:430-445 | the three arms of the select: a buffered frame, the failure only once none is left, or the caller's context |
| Subscription.ClientSubscription.DrainQueue | go/client.go:546-554 | everything queued is cancelled |
| Subscription.ClientSubscription.Fail | go/client.go:567-572 | only the first failure is recorded |
| StreamFraming.UvarintRoundTrip | go/varint.go:13-70 | every value up to 2^62-1 reads back, in any surroundings |
| StreamFraming.UvarintTruncated | go/varint.go:49-65 | a value cut short is an error, and a clean end only before its first byte |
| StreamFraming.UvarintShortest | go/varint.go:13-28 | the written form is the shortest a reader takes for the value, and no read exceeds 62 bits |
| StreamFraming.Truncated | go/client.go:515-543 | length-prefixed frames cut at any byte: exactly the complete ones are delivered, with a clean end if and only if the cut is between frames |
| StreamFraming.OversizeStops | go/client.go:526-532 | a length above the cap ends the group after the frames before it |
| StreamFraming.ReceivedOversize | go/client.go:515-543 | a group with an oversized frame reaches the subscription as the frames before it and the ending that `Subscription.GroupEndExact` fails it for |
| StreamFraming.ReceivedWhole | go/client.go:515-543 | a group that arrives whole reaches the subscription as it was published |
| StreamFraming.HeaderExact | go/client.go:334-372 | a group header cut anywhere routes nothing; a complete one routes the stream, frames starting right after it |
| StreamFraming.HeaderRefused | go/client.go:342-353 | a stream of another kind, or with a header above 4096 bytes, is cancelled whatever follows |
| StreamFraming.Reader.ReadHeader | go/client.go:334-372 | the reads of a group header, each of which can cancel the stream |
| StreamFraming.Reader.ReadFull | go/varint.go:49-65 | all bytes asked for, or which kind of end |
| StreamFraming.Reader.ReadUvarint | go/varint.go:49-70 | the accumulation loop |
| StreamFraming.Reader.ReadSized | go/client.go:614-631 | exactly the bytes asked for; the buffer never exceeds the bytes received by more than one 64 KiB chunk |
| StreamFraming.Reader.ReadGroup | go/client.go:515-543 | the delivery loop, with an early stop when the subscription closes |
| Router.MapSafe | rust/crates/atmoq/src/router.rs:83-161 | the map stays within the cap, every entry is watched by its own generation, and openings minus closings are live plus superseded entries |
| Router.RequestServed | rust/crates/atmoq/src/router.rs:91-135 | a name that starts with "did:", is 7 to 256 bytes long and whose group opens gets an entry of the next generation with an empty group if and only if the map is below the cap; at the cap it counts one refusal and one generation; any other request changes nothing |
| Router.LeavesOnlyByItsOwn | rust/crates/atmoq/src/router.rs:139-159 | an entry leaves only through its own watcher or a newer request for the same DID |
| Router.TrackIsProjection | rust/crates/atmoq/src/router.rs:170-197 | a live track carries exactly its account's frames since it exists, in aggregate order, cut into groups of the group size |
| Router.RouteExact | rust/crates/atmoq/src/router.rs:170-197 | a routed frame changes a track only when it is the account's and the write succeeds; then the track carries it, and finishes its group when full and a new one opens |
| Router.HealthyTrack | rust/crates/atmoq/src/router.rs:170-197 | while the transport takes everything a live track carries exactly its account's frames, in groups of exactly the group size |
| Router.TrackWithinAggregate | rust/crates/atmoq/src/main.rs:1519-1524 | and so a subsequence of what the aggregate has published |
| Router.StepKeeps | rust/crates/atmoq/src/router.rs:83-197 | every interleaved step keeps the map, track and pump invariants |
| Router.DidRouter.HandleRequest | rust/crates/atmoq/src/router.rs:86-135 | gate, generation, cap and insertion |
| Router.DidRouter.SpawnWatcher | rust/crates/atmoq/src/router.rs:135-151 | the opening is counted and its watcher starts |
| Router.DidRouter.TrackUnused | rust/crates/atmoq/src/router.rs:151-160 | the guarded removal |
| Router.DidRouter.Route | rust/crates/atmoq/src/router.rs:170-197 | emptiness check, lookup, write, and rotation when full |
| Car.LebRoundTrip | rust/crates/atmoq/src/car.rs:57-74 | every u64 reads back from its LEB128 encoding |
| Car.VarintTruncated | rust/crates/atmoq/src/car.rs:61-63 | an encoding cut short is refused |
| Car.VarintLocal | rust/crates/atmoq/src/car.rs:57-74 | a read depends on no byte past its end, and no proper prefix reads as a value |
| Car.VarintOverflow | rust/crates/atmoq/src/car.rs:69-72 | ten bytes that all announce another are refused, and no value takes more |
| Car.VarintValue | rust/crates/atmoq/src/car.rs:57-74 | a value read is the number its 7-bit groups spell, modulo 2^64 |
| Car.CidExtends | rust/crates/atmoq/src/car.rs:40-55 | a CID ends where it says, whatever follows |
| Car.CidCut | rust/crates/atmoq/src/car.rs:40-55 | no proper prefix of a CID is one |
| Car.CidRoundTrip | rust/crates/atmoq/src/car.rs:40-55 | an entry splits into the CID and the block it was made of |
| Car.CidVersion | rust/crates/atmoq/src/car.rs:42-45 | a CID of any version but 1 is refused |
| Car.CidDigest | rust/crates/atmoq/src/car.rs:46-54 | a digest longer than the rest of the entry is refused |
| Car.BlocksTruncated | rust/crates/atmoq/src/car.rs:12-36 | an archive cut inside its header is refused, cut anywhere later it yields exactly its complete entries |
| Car.LastWins | rust/crates/atmoq/src/car.rs:33-34 | one key for every readable CID and no other, the last duplicate winning |
| Car.WholeEntriesExact | rust/crates/atmoq/src/car.rs:20-31 | which entries are complete within a length |
| Car.Cursor.Varint | rust/crates/atmoq/src/car.rs:57-74 | the shifting loop, including dropped high bits and the overflow error |
| Car.Cursor.ReadCid | rust/crates/atmoq/src/car.rs:40-55 | version, codec, hash and digest, each of which can fail |
| Car.ReadBlocks | rust/crates/atmoq/src/car.rs:12-36 | the archive loop |
| IdleTimer.BailsExactly | rust/crates/atmoq/src/ingest.rs:72-78 | the loop bails exactly on the turns where nothing is readable and the deadline has passed |
| IdleTimer.ArmedWithinExact | rust/crates/atmoq/src/ingest.rs:62-76 | the armed deadline is within 45 s of the last receipt if and only if that receipt is not before the timer's creation |
| IdleTimer.ArmedLateAtStart | rust/crates/atmoq/src/ingest.rs:62-63 | a timer created one millisecond late starts armed that much too late |
| IdleTimer.StepRefines | rust/crates/atmoq/src/ingest.rs:60-87 | each turn is the eager loop's, or an invisible re-arm that cannot repeat before another message |
| IdleTimer.LazyRefinesEager | rust/crates/atmoq/src/ingest.rs:60-119 | whole runs: same clock, same frames forwarded, same ending as resetting on every message |
| IdleTimer.ForwardsExactly | rust/crates/atmoq/src/ingest.rs:88-110 | over any run the frames forwarded are the parsed values of the well-formed binary messages read while open with the receiver alive, in order, and the malformed ones are counted |
| IdleTimer.EndsExactly | rust/crates/atmoq/src/ingest.rs:66-116 | which turns end the loop and how: close or end, read error, receiver gone, silence, a ping not taken within 15 s or failing; no other does |
| IdleTimer.StampedWhenHandled | rust/crates/atmoq/src/ingest.rs:118-119 | the stamp is the time a message was done with, and nothing else moves it |
| IdleTimer.BackpressureIsNotSilence | rust/crates/atmoq/src/ingest.rs:118-119 | however long handling a message takes, silence is not declared within 45 s of being done with it |
| IdleTimer.RearmsAtMostMessages | rust/crates/atmoq/src/ingest.rs:73-76 | no more re-arms than messages |
| IdleTimer.SilenceEndsAtDeadline | rust/crates/atmoq/src/ingest.rs:72-78 | a silent upstream is dropped at the deadline itself |
| IdleTimer.Connection.RelayFrames | rust/crates/atmoq/src/ingest.rs:50-121 | the select loop |
| IdleTimer.Connection.Receive | rust/crates/atmoq/src/ingest.rs:88-119 | each kind of message, and the stamp after handling it |

## Left out

- I/O that fails while the process lives: an append either completes, or the process dies in it, or (in `Publisher` and `RelayRuns`) it leaves the store untouched. Short writes that the process survives, fsync, power loss and failed deletes are not modelled; sidecar writes succeed.
- StoreRuns.RunReads: for runs without collections, where the expected map is a function of the events alone; with them `StoreRuns.RunReadsLog` and `StoreRuns.StepContents` say which groups are left.
- StoreRuns.RunReadsLog: does not say what reading a stale index entry returns: it is an error, or whatever record another file happens to hold at that offset.
- RelayRuns.DiskReadsWhatWasPublished: records whose lengths fit their 32-bit fields.
- Publisher.NeverReused: sequences are unbounded, so the overflow of `prev + 1` at the last u64 is outside the model; `append_group` is taken to return the largest sequence on the track plus one, as moq-net is not part of this model.
- Publisher.FramePublisher.ReloadWindow: which groups are in the window is a parameter, any ascending list of stored sequences; a failed store read ends the start, which is the crash step. `groups_since`, `oldest_seq` and `StoreSource` only read the index.
- Relay.GapFreeExact: the upstream log holds the events that parse, with ascending non-negative sequences, and upstream replays from a cursor as at-sync section 4.3 asks; a cursor below -1 is sent as it is, and taken to mean from the oldest event.
- Relay.GapFreeAcrossRestarts: speaks of events handed to the publisher (`Publisher.CrashLoss` says which of their frames a crash can lose); every process gets the same flag, and a cursor file that cannot be parsed counts as none.
- Publisher.Conservation: a collection is a cut at a sequence no higher than the group in progress; `RelayRuns.StepKeeps` proves that this is what the store's collections do.
- Subscription.QuietMeansComplete: a stream's frames are those the network will deliver before it ends; flow control and stalls inside a read are not modelled.
- Subscription.ClientSubscription.ReadFrame: starts where an arm of its select is ready; the wait before that is not modelled.
- StreamFraming.Reader.ReadSized: speaks of the buffer's length; the capacity Go's `append` rounds up to is not modelled.
- Router.TrackIsProjection: the transport's answers to frame writes and group rotations are inputs; when a track's unused signal fires is not modelled.
- DrislSiblings.SiblingItem: buffers shorter than 2^48 bytes in Go and 2^53 in TypeScript, more than either can hold.
- Drisl.ValidateString: the standard library's UTF-8 and float tests are modelled as section 4 of RFC 3629 and as bit patterns (`Utf8.ValidExactly`, `DrislErrors.NonFiniteExact` say what these mean); its code is not.
- Frame.ParseExact: the decoder here stands for ciborium on items already validated.
- The subscribe message's string and option fields, and the control stream's messages: only failures they lead to appear, as steps of `Subscription`.
- The draft-07 dialect, the TypeScript client's transport, varint and CAR files, metrics, logging, command line, web pages and network set-up: they would only add easy members.
