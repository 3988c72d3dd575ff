# Space Sync: a verified model

Space Sync moves files over UDP links that lose, duplicate and reorder datagrams. A sender announces a file with
METADATA, streams its chunks as DATA, and (with feedback) answers the STATUS frames in which the receiver asks for missing
ranges. The receiver writes chunks into a part file, tracks them as integer ranges, journals its progress, and publishes
the file only after a hash check. This project models that machinery in Dafny 4.11 and proves what it is for.
`dafny verify dfyconfig.toml` checks everything.

The files, from the bottom up:

- `Ranges.dfy`, `ChunkTracker.dfy`: range lists and the tracker class, read as sets of chunk indexes.
- `Bytes.dfy`, `Frames.dfy`, `WireForms.dfy`: the wire codec, decoders as cursor loops, encoders and decoders as inverses,
  and the exact octets that every decoder accepts.
- `Repair.dfy`: what is asked for, the STATUS frame that carries it, and how fast asking converges.
- `Pacing.dfy`: when a periodic repair request may be sent.
- `PreMetadata.dfy`, `PreMetadataBuffer.dfy`: the buffer for DATA that comes before METADATA, as values and as mutable
  records with eviction loops and the alias the source keeps across them; `Eviction.dfy`: which records and chunks it keeps.
- `ReceiverModel.dfy`, `Shapes.dfy`: the receiver as a function of its state, one function per region the source runs
  under its lock, and which fields each of them can change.
- `Safety.dfy`, `Invariant.dfy`, `InvariantSteps.dfy`: the receiver's invariant and why every step keeps it.
- `System.dfy`: senders, network and receiver together. The network is the set of all datagrams ever sent, and a delivery
  takes any of them at any time, so runs cover loss, duplication and reordering; crashes and restarts are events.
- `Journal.dfy`, `Announcements.dfy`, `Finalization.dfy`, `Upkeep.dfy`: what the receiver's operations achieve: the saved
  state that a crash cannot take, the answers to METADATA, the files that a finalization leaves, the stale check.
- `Theorems.dfy`, `ObjectRuns.dfy`: the results about whole runs, and about one transfer object within them.
- `Runs.dfy`, `Answers.dfy`, `Orphans.dfy`: runs put together, and what they bring about: wrong answers to METADATA for a
  file that is there, and transfers that outlive their finalization.
- `Delivery.dfy`, `RepairDelivery.dfy`: runs of `_accept_data` on one transfer, late against early METADATA, and the chunks
  of a request on their way back.
- `Asking.dfy`, `RepairRounds.dfy`, `RepairRuns.dfy`: when the receiver asks for chunks at all, the repair rounds that begin
  with its asking, and the same rounds as events of the system, up to the published file.
- `LiveTransfer.dfy`, `LiveReceiver.dfy`: the receiver as objects with dictionaries, part-file buffers and a journal.
  Every method is proved to do on the object's view what `ReceiverModel` says, and `Turns` ties a whole
  `_prepare_transfer` or `_accept_data` call to the steps of `System`.
- `Sender.dfy`: the loops of `send_file`, and the bridge from their verdicts to the sender's state machine in `System`.
- `OpenLoop.dfy`, `Revisit.dfy`: the open-loop order with persisted counts, and the revisit queue.

## Assumptions

They are the fields of `Safety.World` and the predicates `Honest` and `HonestChunk`:

- A source file does not change while it is sent, and equal signatures (size, chunk size, sha256, name) mean equal bytes.
- The network does not forge or alter datagrams, and carries those up to some size. A longer one is lost, and one longer
  than a read is cut by it (`CutIsNothing`).
- A transfer id is never reused for another signature. Part files are named after ids and survive a resume under a new
  id, so reuse could make two transfers share a part file.
- The clock is monotone (only the pacing results and `CounterDriftsInRun` need it).
- SHA-256 is an uninterpreted function, names are opaque nonempty octet strings (character strings in the schedule), and
  the mapping of names to destination paths is a parameter.

## Where the code does less than it seems to promise

- `encode_ranges` writes empty and inverted pairs that `decode_ranges` refuses. `RangesRoundTrip` gives the exact
  condition and `EmptyRangeDoesNotReturn` an example.
- `decode_file_info_response` takes a path of up to 65535 octets, of which `encode_file_info_response` refuses those beyond
  4096; nothing else that decodes cannot be encoded again (`DecodedReencodesIff`).
- With `max_repair_chunks_per_request` at 0 or less a request can need more than 2048 ranges, and then no STATUS frame
  can carry it (`UnlimitedRequestCanFail`). With a budget in 1..2048 this cannot happen, in the boosted branch neither.
- `--chunk-size` is unbounded, and the manifest carries any 32-bit chunk size, but `encode_data_chunk` refuses a payload
  of more than 65535 octets, and a DATA frame is 32 octets longer than its payload while the receiver reads at most 65535
  octets of a datagram and drops what does not decode. For a chunk size beyond 65535 and a larger file the pass and every
  repair end with the encoder's error (`FileEncodesIff`, `SendOpenLoop`, `LargeChunkIsRefused`); for one of 65504 to 65535
  no full chunk ever arrives (`LargeChunkNeverArrives`, `LongFrameIsCut`), and sooner where the network carries less. Such
  a frame is longer than a UDP socket takes; the error it raises at the sender is not part of this model.
- Repair does not begin by itself. The only requests are the timer's, which needs `highest_chunk_seen + 1` to reach
  `periodic_repair_min_seen_chunks` (receiver.py:784-807; 32 by default, types.py:102, and at least 1 from the command
  line, cli.py:1003), and the state advertised after METADATA, which needs some chunk to be there (receiver.py:491-531).
  When all DATA of a file is lost, nothing of it is ever asked for (`NoRequestBeforeData`, `FreshRepairIff`), and the timer
  never asks for a file with fewer chunks than the minimum (`ShortFileIsNotAskedFor`).
- The boost for a leading hole asks for the hole alone, so with a hole shorter than the budget it asks for less than no
  boost would (`BoostShrinksIff`); it does so with the boost switched off, too.
- A file of the right size and mtime is answered COMPLETE without hashing. `WrongAnswerIff` says when that is wrong,
  `EndToEnd` leaves out ids answered this way for a file with another hash, and `ShortcutDefeatsAgreement` shows that it
  has to.
- The cache of hashes cannot be the reason for a wrong answer in a reachable state (`CacheIsTrue`), except between the two
  halves of a finalization, after the file was replaced and before its hash is recorded (`CacheIsStaleInWindow`).
- A METADATA with the same signature and a new id that overtakes a finalization moves the object, and the removal then
  uses the old id: the object stays registered. `RemovedIff` is the exact condition and `OrphansArise` the run. From then
  on, until a restart or a clear request, DATA for that signature is swallowed and nothing of it is finalized again (`OrphanStays`,
  `OrphanSwallows`, `OrphanBlocks`): if its hash was wrong, the file cannot be sent, and a sender is only told
  INCOMPLETE with nothing missing (`OrphanIsAdvertised`).
- The running counter of the pre-metadata buffer drifts when a record is evicted to make room for its own chunk, and the
  lost room never comes back (`CounterDriftsIff`, `CounterCanDrift`, `SlackIsLostForGood`). The bound on true bytes holds
  all the same.
- An open-loop `send_file` without initial data reports completed although it sent no chunk (`SendOpenLoop`).
- The transport draft asks a receiver to discard DATA of an unknown transfer
  (docs/draft-space-sync-transport-00.md:156). The code buffers it, and so does the model.
- An item that is passed over because it cannot be opened keeps its count, and its distance to the others grows without
  bound (`SkippingIsUnfair`).
- After a stop request the round loop of an open-loop sync goes on: each remaining `send_file` returns aborted at once, and
  its item is counted all the same (cli.py:1978-1985). The counts stay fair, but they count items dealt with, not sent
  (`SendRound`, `NobodyStarves`).

## Model

| member | source | states |
|---|---|---|
| Theorems.Reassembly | src/ssync/space_sync/receiver.py:617-674 | in every reachable state of every run (loss, duplication, reordering, resume under a new id, crashes), a transfer that is not finalized has its part file at full length, every chunk a tracker holds is in the part file with the source's bytes, and a full tracker means part file = source |
| Theorems.EndToEnd | src/ssync/space_sync/sender.py:336-340 | a `send_file` with feedback that returns completed for a file with chunks implies that the receiver had, at some earlier state, a final file with the manifest's hash at its destination, unless the size-and-time shortcut answered for a file with another hash |
| Answers.ShortcutDefeatsAgreement | src/ssync/space_sync/receiver.py:568-573 | the exception is real: from every reachable state with a wrong file of the right size and mtime, cached or not, the run goes on so that the sender reports completed and no state, before or after, has a file with the manifest's hash |
| Answers.WrongAnswerIff | src/ssync/space_sync/receiver.py:547-588 | for a file with another hash, cached or not, COMPLETE is answered if and only if the size agrees and either the cache entry is (size, mtime, manifest hash) or the mtime agrees |
| Answers.CacheIsTrue | src/ssync/space_sync/receiver.py:547-588 | in every reachable state, unless a finalization has published at that path and not yet recorded it, a cache match means the file has the manifest's hash, so that a wrong COMPLETE is given if and only if size and mtime agree |
| Answers.CacheIsStaleInWindow | src/ssync/space_sync/receiver.py:1047-1108 | that exception is real too: a run from the start in which COMPLETE is answered by the cache for a file whose bytes are another file's, between the two halves of a finalization |
| Theorems.JournalIsBacked | src/ssync/space_sync/receiver.py:1396-1447 | in every reachable state, each chunk a journal record lists is in that record's part file with the source's bytes: a crash there restores nothing false |
| InvariantSteps.RestartOk | src/ssync/space_sync/receiver.py:1449-1562 | restarting from the journal after a crash at any step keeps the whole receiver invariant, reassembly included |
| InvariantSteps.SaveRestoreIdentical | src/ssync/space_sync/receiver.py:1491-1562 | save then restore with no step between gives back exactly the transfers that were not finalized, each with the identical chunk set and range list |
| Journal.JournalIsCurrent | src/ssync/space_sync/receiver.py:1396-1447 | in every reachable state a journal that is not marked as out of date has a record under exactly the ids of the transfers that are not finalized, each with that transfer's manifest, part file, highest chunk and set of chunks |
| Journal.DueFlushSaves | src/ssync/space_sync/receiver.py:1435-1447 | the flush timer saves a marked journal exactly when its interval is off or has passed: then it is up to date and no longer marked, the time is noted, and nothing else changes |
| Journal.FlushedSurvivesCrash | src/ssync/space_sync/receiver.py:253-262 | in any run, a due flush followed by a crash brings back every transfer that was not finalized and no other, with its manifest, part file, highest chunk and set of chunks |
| Journal.CrashBringsBack | src/ssync/space_sync/receiver.py:1449-1472 | a crash in any reachable state brings back a transfer for every record and no other, as the record says, keeps all files and forgets the rest |
| Journal.RestoredIff | src/ssync/space_sync/receiver.py:1491-1562 | from any journal, whoever wrote it: a record is restored if and only if its destination is accepted and its part file is there at the size of the file, with the chunks of the record that are chunks of the file |
| Theorems.IndexIsInverse | src/ssync/space_sync/receiver.py:533-545 | in every reachable state the signature index is the exact inverse of the transfers, each key is its manifest's id, and distinct transfers have distinct part files |
| Theorems.PublishedIsVerified | src/ssync/space_sync/receiver.py:1047-1088 | a final file appears or changes only as the part file of a finalized transfer whose hash is the manifest's and whose bytes are the source's |
| Theorems.PartGoesAfterJournal | src/ssync/space_sync/receiver.py:1007-1023 | a part file disappears only as a finalized transfer's and only after the journal on disk has stopped naming it |
| Theorems.FinalizedIsFrozen | src/ssync/space_sync/receiver.py:617-640 | once finalized, a transfer's tracker is full and no step changes the bytes of its part file |
| Theorems.QueuedOnce | src/ssync/space_sync/receiver.py:1007-1023 | in every reachable state the finalization queue holds full, finalized transfers, each once, its part file in place, none being worked on |
| Upkeep.StaleCheckIs | src/ssync/space_sync/receiver.py:959-997 | a transfer without a sign of life for the time allowed is queued when full; otherwise it is kept with everything received, its time begins anew and an open request no longer holds up the next; any other transfer is left alone |
| Upkeep.BeaconPostpones | src/ssync/space_sync/receiver.py:293-312 | for the time allowed after a beacon the stale check leaves the transfer alone |
| Upkeep.DataPostpones | src/ssync/space_sync/receiver.py:645-660 | and so it does after a chunk has been accepted |
| Upkeep.BeaconIs | src/ssync/space_sync/receiver.py:293-312 | a beacon is a sign of life of a transfer that is not finalized, and changes nothing else but the mark of the journal |
| Upkeep.OthersAreIgnored | src/ssync/space_sync/receiver.py:264-312 | a STATUS, and a datagram that does not decode, change nothing at the receiver |
| ObjectRuns.QueuedAfterJournal | src/ssync/space_sync/receiver.py:1007-1023 | in every run, the event that queues a part file finds its transfer unflagged and leaves it flagged and full, the part file equal to the source, and no record of the journal on disk naming it |
| Theorems.RemovedIff | src/ssync/space_sync/receiver.py:1089-1108 | finalization removes the object if and only if no METADATA has moved it to another id since the hash was started |
| Finalization.FinalizesInRun | src/ssync/space_sync/receiver.py:1025-1133 | from any reachable state with a transfer next to be finalized, the two events of its finalization: if the source has the manifest's hash, the final file is the part file's bytes, which are the source, with the time METADATA tells or the file system's, and the part file is gone unless part files are kept; if not, the part file is gone and no final file changes; the transfer is out, the others are as before, the journal is up to date, the cache has the new entry or none, and COMPLETE or HASH_MISMATCH is on the network |
| Finalization.BeginIs | src/ssync/space_sync/receiver.py:1025-1088 | the same for the first half alone, in any state that keeps the invariant, with the verdict it leaves |
| Finalization.EndIs | src/ssync/space_sync/receiver.py:1089-1133 | the second half: which transfers stay and how, the cache entry, the journal saved, the status sent |
| Finalization.IncompleteIs | src/ssync/space_sync/receiver.py:1044-1046 | a job that still misses something touches no file; its verdict is INCOMPLETE with what is missing |
| Finalization.PublishedIsThere | src/ssync/space_sync/receiver.py:314-346 | METADATA of the size and hash of a file that has just been published is answered COMPLETE, by the cache, and registers nothing |
| Finalization.VerdictIsHeard | src/ssync/space_sync/sender.py:808-842 | a sender that waits learns the verdict: its call ends, with success if and only if the source has the manifest's hash |
| Announcements.AnsweredIff | src/ssync/space_sync/receiver.py:547-588 | METADATA for an accepted destination: COMPLETE is sent if and only if feedback is on and the file there has the size and either the cache knows the hash for its size and time, or its time is the one METADATA tells, or METADATA tells none and its hash agrees; otherwise registration follows; a file found by hash enters the cache, one that is gone leaves it |
| Announcements.DeliveredIsAnswered | src/ssync/space_sync/receiver.py:314-346 | the same as an event of the system |
| Announcements.NotAnswered | src/ssync/space_sync/receiver.py:314-326 | a query for a file, and METADATA for a destination that is not accepted, change nothing here |
| Announcements.RegisteredInRun | src/ssync/space_sync/receiver.py:347-445 | in every run, METADATA that is registered either repeats a known id and changes nothing, or moves the object of its signature with all that it has received to the new id, or begins an object with nothing received, keeping a part file that is there; a known transfer is advertised, and a new one is finalized when empty, or has its early chunks replayed by increasing index and is advertised then |
| Announcements.AdvertisedIs | src/ssync/space_sync/receiver.py:491-531 | what is advertised: nothing without feedback, before any chunk or within the quiet time; else COMPLETE when done and full, or INCOMPLETE with the first missing indexes, as many as the limit allows |
| Orphans.OrphansArise | src/ssync/space_sync/receiver.py:347-388 | the failing side in any run: with a transfer next to be finalized and a METADATA of its signature under a new id on the network, the run goes on so that the object stays registered under the new id, finalized, done if its hash was right, and pending no more |
| Orphans.OrphanFromTheStart | src/ssync/space_sync/receiver.py:1025-1133 | the same as one run from the start, for every file of one chunk sent under two ids |
| Orphans.OrphanStays | src/ssync/space_sync/receiver.py:362-388 | such an object stays, the same but for its id, through every event sequence without a crash |
| Orphans.OrphanSwallows | src/ssync/space_sync/receiver.py:617-640 | meanwhile every DATA for its signature changes nothing, and nothing of its signature is queued or under way |
| Orphans.OrphanIsResumed | src/ssync/space_sync/receiver.py:347-388 | METADATA of its signature under any id moves it and creates, replays, queues and writes nothing |
| Orphans.OrphanBlocks | src/ssync/space_sync/receiver.py:1007-1023 | in no run without a crash does a finalization of its signature begin again |
| Orphans.OrphanIsAdvertised | src/ssync/space_sync/receiver.py:491-531 | a sender is told COMPLETE if the object's finalization published it, else INCOMPLETE with nothing missing |
| System.RunOk | src/ssync/space_sync/receiver.py:264-445 | the invariant of senders, network and receiver holds after every sequence of events |
| System.StepOk | src/ssync/space_sync/receiver.py:264-445 | every single event keeps that invariant |
| Delivery.LateEqualsEarly | src/ssync/space_sync/receiver.py:389-445 | over any sequence of buffer operations at any times, of this and other transfers, pops and expiry included, in which none of the transfer's early chunks was lost: chunks first and METADATA later gives the same tracker, part file and finalization flag as METADATA first and the chunks at times of their own |
| Delivery.SameKeysSameResult | src/ssync/space_sync/receiver.py:617-674 | two lists of honest chunks with the same numbers, in any order and with any repetitions, lead to the same tracker, part file and flag |
| Delivery.ReplayIsCalls | src/ssync/space_sync/receiver.py:427-440 | the main thread's replay, chunk by chunk with the finalization it triggers in between, does what the calls one after the other do |
| Delivery.OtherData | src/ssync/space_sync/receiver.py:617-640 | DATA of a finalized transfer, beyond the number of chunks or beyond the end of the file changes nothing; of an unknown transfer it only reaches the buffer |
| RepairRounds.TimerTurn | src/ssync/space_sync/receiver.py:784-807 | a tick of the repair timer asks for chunks if and only if feedback is on, the period is above 0, the highest chunk seen plus one reaches the minimum, no request is in flight or too recent, and something is missing; it changes nothing but the pacing fields |
| RepairRounds.AnnouncementTurn | src/ssync/space_sync/receiver.py:491-531 | a METADATA of a registered transfer asks for chunks if and only if the file at the destination does not answer it, feedback is on, some chunk has been received and some is missing, and the last data is not within the quiet time; it changes nothing but the cache |
| RepairRounds.RepairRoundIsRound | src/ssync/space_sync/receiver.py:906-957 | one repair round (the turn that may ask, its STATUS frame as it was sent, servicing, a DATA frame for every chunk, acceptance) is `Repair.Round` if and only if nothing is missing, or the turn asks, its frame with the ranges it really names arrives, and so does every chunk it names; in any case it adds exactly the chunks of a request that gets through whose frame arrives whole, up to one that the encoder refuses |
| RepairRounds.RepairFinishes | src/ssync/space_sync/sender.py:1114-1153 | from as many rounds on as chunks were missing, each far enough from the last to be due, the tracker is full if and only if nothing was missing, or the receiver may ask at all (timer: feedback, a period, the minimum of chunks seen; METADATA: feedback, some chunk received, no answer by the file at the destination), every missing chunk fits a DATA frame that arrives, and every request on the way arrives; then the part file is the source and the transfer is queued for finalization |
| RepairRounds.FreshRepairIff | src/ssync/space_sync/receiver.py:784-807 | from nothing received, repair finishes a file if and only if it is empty, or the timer asks with a minimum of no chunks seen (which the command line never sets), a request of one range arrives, and the chunk size or the whole file, with 32 octets of framing, fits the largest datagram that arrives whole; METADATA never begins it |
| RepairRounds.ShortFileIsNotAskedFor | src/ssync/space_sync/receiver.py:784-807 | the failing inputs of the timer: of a file with fewer chunks than the minimum of chunks seen no number of its rounds brings any, whichever are missing |
| RepairRounds.LargeChunkNeverArrives | src/ssync/space_sync/frames.py:201-205 | the failing inputs of the frame: for larger chunks of a larger file the first chunk is refused by the encoder beyond 65535 octets, lost below that, and no number of rounds brings it |
| RepairDelivery.LongFrameIsCut | src/ssync/space_sync/receiver.py:239-248 | a payload of 65504 to 65535 octets is encoded into a frame that the read cuts, and what is read does not decode |
| System.CutIsNothing | src/ssync/space_sync/receiver.py:239-248 | a message whose frame is longer than one read changes nothing where it is read, at the receiver and at a sender |
| RepairRounds.RepairPublishes | src/ssync/space_sync/receiver.py:1025-1133 | under the condition of `RepairFinishes`, the finalization of the transfer is the next, publishes the source byte for byte at its destination and answers COMPLETE |
| RepairRounds.RestoredFullPublishes | src/ssync/space_sync/receiver.py:959-997 | a transfer that was restored full, which no repair round concerns, is queued by the stale check and published in the same way |
| RepairRuns.RoundsRun | src/ssync/space_sync/sender.py:1114-1153 | any number of repair rounds is a run of the system, event by event: the timer or the METADATA on the network, the sender reading the request, and for every chunk that comes its sending, its delivery and the main thread's turn |
| RepairRuns.RepairCompletes | src/ssync/space_sync/sender.py:334-340 | from any reachable state with the sender at work and the receiver at rest, if the condition of `RepairFinishes` holds for the chunks still missing, the run goes on to a state with the source at its destination, byte for byte, and `send_file` returned with success |
| Asking.NoRequestBeforeData | src/ssync/space_sync/receiver.py:784-807 | in every run with a minimum of at least one chunk seen, no STATUS that names chunks of a file is ever on the network before a transfer of that file holds a chunk: when all DATA of a file was lost, repair never begins, by the timer or by METADATA |
| Asking.HighestIsLastHeld | src/ssync/space_sync/receiver.py:645-655 | in every reachable state, after restarts too, the highest chunk seen is the largest index held, and -1 exactly when none is |
| Repair.RepairConverges | src/ssync/space_sync/receiver.py:906-957 | k lossless rounds leave at most missing - k chunks: at most |missing| rounds complete the file |
| Repair.RepairRoundsExact | src/ssync/space_sync/ranges.py:59-77 | when no round meets a leading hole, k rounds leave exactly missing - k * budget, so the file is complete after k rounds if and only if k * budget >= missing |
| Repair.RoundEffect | src/ssync/space_sync/sender.py:1114-1153 | a round removes exactly the requested indexes from the missing set: at least one while anything is missing, the budget or all that is left when no leading hole dominates, else the part of the hole that the boosted budget covers |
| Repair.RequestIsPrefix | src/ssync/space_sync/receiver.py:944-957 | a limited request is canonical, has at most the base budget of ranges and names exactly the first so many missing indexes: of everything missing, or in the boosted branch of the leading hole |
| Repair.StatusSendable | src/ssync/space_sync/frames.py:222-283 | a canonical list below 2^32 goes out in a STATUS frame if and only if it has at most 2048 ranges, and then decodes to the identical message |
| Repair.UnlimitedRequestCanFail | src/ssync/space_sync/receiver.py:912-914 | with the budget switched off there is a missing list that no STATUS frame can carry |
| Repair.BoostShrinksIff | src/ssync/space_sync/receiver.py:906-957 | a request names at most the base budget times the multiplier, and the boost makes it name fewer chunks than the plain limit if and only if the leading hole is heavy and shorter than what the plain limit covers |
| Repair.RequestIsSized | src/ssync/space_sync/receiver.py:906-957 | how many chunks a request names, in numbers: of a heavy leading hole as many as the boosted limit, of anything else as many as the plain limit, and they are the first missing ones |
| Pacing.RequestsArePaced | src/ssync/space_sync/receiver.py:677-807 | two consecutive periodic requests are a period apart or separated by at least as many new chunks as the first named |
| Pacing.RequestsAreBounded | src/ssync/space_sync/receiver.py:784-807 | a run of length D with r chunks received sends at most 1 + D / period + r requests |
| Pacing.NextRequestIff | src/ssync/space_sync/receiver.py:725-807 | after a request the next goes out if and only if as many chunks have come as it named, or a period has passed and either three quarters of them have come or the in-flight time is over |
| Pacing.FirstRequestIff | src/ssync/space_sync/receiver.py:784-807 | a transfer with no request in flight asks if and only if feedback and a period are set, enough has been seen, something is missing, and a period has passed since the last request |
| Pacing.StaleMayAsk | src/ssync/space_sync/receiver.py:959-985 | so does one that was found stale, whatever request was open |
| ObjectRuns.PacedInEveryRun | src/ssync/space_sync/receiver.py:809-820 | the same for the object of any transfer in any run of the whole system, from its creation or restore to its removal or a crash, with total_chunks as the bound on r |
| ObjectRuns.RequestsAreTraced | src/ssync/space_sync/receiver.py:784-807 | the trace those bounds speak of counts exactly the STATUS frames the timer sends for the object |
| ObjectRuns.QueuedAtMostOnce | src/ssync/space_sync/receiver.py:1007-1023 | a transfer object that has been queued for finalization is never queued again in any run in which it stays registered |
| PreMetadata.MemoryBound | src/ssync/space_sync/receiver.py:1135-1228 | after any sequence of buffer, pop and expire operations, true bytes <= counter, true bytes <= the configured limit, each record is within its own limit, and there are at most max(1, configured) records |
| PreMetadata.CounterDriftsIff | src/ssync/space_sync/receiver.py:1135-1183 | the counter stays exact unless the chunk fits the transfer's limit, total plus new bytes less the records older than its own still exceeds the limit, and another record is left after them; then it is too high by exactly the new bytes |
| PreMetadata.CounterDriftsInRun | src/ssync/space_sync/receiver.py:1135-1228 | the same over whole runs with a clock that does not go back, read off the state before each operation; no other operation changes the excess |
| PreMetadata.CounterCanDrift | src/ssync/space_sync/receiver.py:1158-1172 | it happens: three chunks of 4, 5 and 4 octets with a limit of 10 leave the counter at 9 and 5 octets held |
| PreMetadata.SlackIsLostForGood | src/ssync/space_sync/receiver.py:1135-1228 | that excess never shrinks again, and later buffers hold at most the limit less the excess |
| Eviction.BufferedAs | src/ssync/space_sync/receiver.py:1135-1183 | record by record, what a chunk of an unknown transfer does: which records expire or are evicted, oldest first and no more than needed, whether the chunk is held, and that all else is untouched |
| Eviction.ChunkIsHeldIff | src/ssync/space_sync/receiver.py:1160-1183 | a new chunk of a transfer with a record is held if and only if it fits that record's limit and what is older than the record makes room for what it adds |
| Eviction.FirstChunkIsHeldIff | src/ssync/space_sync/receiver.py:1146-1183 | with a clock that does not go back, the first chunk of a transfer is held if and only if buffering is on and its payload fits a record and, with the excess of the counter, the limit |
| Eviction.OutlastsIff | src/ssync/space_sync/receiver.py:1168-1176 | making room for bytes evicts exactly the records for which those older than they do not make enough, but never the last one for itself |
| Eviction.ExpiryIs | src/ssync/space_sync/receiver.py:1212-1228 | expiry drops exactly the records that have reached the time to live |
| Eviction.YoungestStay | src/ssync/space_sync/receiver.py:1152-1158 | making room for a record leaves exactly the youngest, one fewer than the limit |
| Announcements.RunBuffered | src/ssync/space_sync/receiver.py:1135-1228 | the invariant of the buffer, and with it `MemoryBound`, in every run of the system |
| PreMetadataBuffer.PreMetadataBuffer.BufferChunk | src/ssync/space_sync/receiver.py:1135-1183 | on mutable records, with the alias of the record under write that an eviction may drop: refuse, evict, write and count as the value-level buffer whose bound is proved |
| PreMetadataBuffer.PreMetadataBuffer.MakeRoom | src/ssync/space_sync/receiver.py:1160-1172 | the eviction loop: it ends with room, or refuses when only the record itself is left, and keeps the alias |
| PreMetadataBuffer.PreMetadataBuffer.EnsureRecord | src/ssync/space_sync/receiver.py:1146-1156 | a new record is made only after expired ones and, at the limit, oldest ones are evicted |
| PreMetadataBuffer.PreMetadataBuffer.EvictExpiredRecords | src/ssync/space_sync/receiver.py:1212-1228 | drops exactly the records whose last update is at least the time to live ago |
| PreMetadataBuffer.PreMetadataBuffer.EvictOldestRecord | src/ssync/space_sync/receiver.py:1199-1210 | drops the first record with the smallest last update and gives back its charge |
| PreMetadataBuffer.PreMetadataBuffer.PopBuffer | src/ssync/space_sync/receiver.py:1185-1197 | hands out the record's chunks by index and removes the record and its charge |
| Tracker.ChunkTracker.Add | src/ssync/space_sync/ranges.py:105-146 | set insertion clamped to [0, total): true if and only if the index was in range and new; the list stays sorted, maximal, in bounds and the count stays the set's size |
| Tracker.ChunkTracker.FindInsertAt | src/ssync/space_sync/ranges.py:148-158 | binary search: the position splits the ranges into those starting before the index and the rest |
| Tracker.ChunkTracker.IsComplete | src/ssync/space_sync/ranges.py:160-161 | true if and only if all of [0, total) is held |
| Tracker.ChunkTracker.MissingRangesBetween | src/ssync/space_sync/ranges.py:179-196 | the canonical list of exactly the indexes of [start, end) that are not held |
| Tracker.ChunkTracker.MissingRangesUpto | src/ssync/space_sync/ranges.py:172-174 | the canonical list of exactly [0, min(n, total)) minus the received set |
| Tracker.ChunkTracker.MissingRanges | src/ssync/space_sync/ranges.py:169-170 | the normal form of [0, total) minus the received set |
| Tracker.ChunkTracker.MissingIndexes | src/ssync/space_sync/ranges.py:166-167 | exactly the indexes not held, increasing |
| Tracker.ChunkTracker.FromReceivedRanges | src/ssync/space_sync/ranges.py:198-208 | for any integer pairs, negative, inverted or overlapping: a valid tracker of the union clamped to [0, total) |
| Tracker.FromReceivedMeaning | src/ssync/space_sync/ranges.py:198-208 | the stored list is canonical, denotes the clamped union, and the stored count is its size |
| Tracker.AddedIsSpliced | src/ssync/space_sync/ranges.py:120-146 | joining an index with the neighbours it touches gives the normal form of the larger set |
| Ranges.CanonicalUnique | src/ssync/space_sync/ranges.py:11-22 | two canonical lists that denote the same set are equal |
| Ranges.MergeRanges | src/ssync/space_sync/ranges.py:11-22 | sorting and merging any list of pairs |
| Ranges.MergedMeaning | src/ssync/space_sync/ranges.py:11-22 | the merged list is separated and denotes the same set as the input; from nonempty ranges it is canonical |
| Ranges.ExpandRanges | src/ssync/space_sync/ranges.py:43-47 | the list of all indexes, range by range |
| Ranges.ExpandMeaning | src/ssync/space_sync/ranges.py:43-47 | it holds exactly the denoted set; for a canonical list it is increasing and as long as the set is large |
| Ranges.LimitRangesToChunkBudget | src/ssync/space_sync/ranges.py:59-77 | whole ranges while they fit, then the part that fits |
| Ranges.LimitedMeaning | src/ssync/space_sync/ranges.py:59-77 | a limited canonical list is canonical and expands to exactly the first `budget` indexes |
| Frames.FrameRoundTrip | src/ssync/space_sync/frames.py:62-93 | decoding an encoded frame returns its type, flags and payload |
| Frames.FrameIsWhole | src/ssync/space_sync/frames.py:74-93 | no proper prefix and no extension of a decodable datagram decodes |
| Frames.EncodeTlvs | src/ssync/space_sync/frames.py:96-105 | the encoding loop and its error cases |
| Frames.DecodeTlvs | src/ssync/space_sync/frames.py:108-120 | the cursor loop: truncated elements are refused, a repeated key overwrites |
| Frames.DictRoundTrip | src/ssync/space_sync/frames.py:96-120 | a dictionary that encodes decodes to itself and fits the length field |
| Frames.DecodedTlvsEncode | src/ssync/space_sync/frames.py:108-120 | whatever octets a dictionary was decoded from, repeated keys included, it encodes in no more octets |
| Frames.DecodeManifest | src/ssync/space_sync/frames.py:152-190 | the cursor-stepping decoder and each of its refusals |
| Frames.ManifestRoundTrip | src/ssync/space_sync/frames.py:123-190 | a manifest that encodes decodes to itself |
| Frames.AcceptedManifestReencodes | src/ssync/space_sync/frames.py:123-190 | every manifest the decoder accepts re-encodes without error and decodes to the same manifest |
| Frames.ChunkRoundTrip | src/ssync/space_sync/frames.py:201-219 | DATA round trip |
| Frames.EncodeRanges | src/ssync/space_sync/ranges.py:80-84 | merged pairs, refused when one does not fit 32 bits |
| Frames.DecodeRanges | src/ssync/space_sync/ranges.py:87-96 | pairs read, empty and inverted ones refused, the rest merged |
| Frames.RangesRoundTrip | src/ssync/space_sync/ranges.py:80-96 | an encoded list decodes to its merged form if and only if merging left no empty or inverted pair; otherwise the decoder refuses it |
| Frames.EmptyRangeDoesNotReturn | src/ssync/space_sync/ranges.py:80-96 | the list with the one pair (5, 5) encodes, and its encoding is refused |
| Frames.DecodeStatus | src/ssync/space_sync/frames.py:248-283 | the two kinds of status and each refusal |
| Frames.StatusRoundTrip | src/ssync/space_sync/frames.py:222-283 | a TRANSFER status returns up to merging, if and only if its ranges do; a FILE_INFO_RESPONSE always returns, an empty query token as none |
| Frames.FileInfoRoundTrip | src/ssync/space_sync/frames.py:309-355 | file-info round trip |
| Frames.BeaconRoundTrip | src/ssync/space_sync/frames.py:286-306 | beacon round trip, and the short form without an age |
| Frames.MessageRoundTrip | src/ssync/space_sync/frames.py:62-355 | every message that encodes arrives as it was sent |
| WireForms.FrameFormIff | src/ssync/space_sync/frames.py:62-93 | a datagram parses if and only if it is magic, version, type, flags, a spare octet, the length and the payload, and it gives those |
| WireForms.ManifestFormIff | src/ssync/space_sync/frames.py:123-190 | a METADATA payload decodes if and only if it is the fixed fields, the name with its length and metadata with its length, within their limits, and the number of chunks is the least that covers the file |
| WireForms.TlvsFormIff | src/ssync/space_sync/frames.py:96-120 | metadata decodes if and only if it is a list of key, length and value, to the dictionary in which the last of a key wins |
| WireForms.ChunkFormIff | src/ssync/space_sync/frames.py:201-219 | a DATA payload decodes if and only if it is id, index, length and that many octets |
| WireForms.RangesFormIff | src/ssync/space_sync/ranges.py:80-96 | a range list decodes if and only if it is pairs of 32-bit numbers, none empty or inverted, to their merged list |
| WireForms.TransferFormIff | src/ssync/space_sync/frames.py:248-267 | a TRANSFER status decodes if and only if it is the fixed part and at most 2048 such pairs, as many as it says |
| WireForms.ResponseFormIff | src/ssync/space_sync/frames.py:248-283 | a FILE_INFO_RESPONSE decodes if and only if it is the fixed part, a token with its length and a file info |
| WireForms.InfoFormIff | src/ssync/space_sync/frames.py:335-355 | a file info decodes if and only if it is two flags, size, time, hash field and a nonempty path with its length |
| WireForms.BeaconFormIff | src/ssync/space_sync/frames.py:286-306 | a beacon decodes if and only if it is role and id, with the age or without |
| WireForms.BigEndian | src/ssync/space_sync/frames.py:24-32 | numbers are written with the most significant octet first |
| WireForms.Codes | src/ssync/space_sync/types.py:21-43 | the codes of frame types, transfer states and beacon roles |
| WireForms.DecodedReencodesIff | src/ssync/space_sync/frames.py:62-355 | whatever decodes can be encoded again and decodes to the same message, if and only if it is not a file info with a path of more than 4096 octets, which the decoder takes and the encoder refuses |
| Sender.SendOpenLoop | src/ssync/space_sync/sender.py:452-633 | ended as it should, with initial data: completed if and only if every index was transmitted by the initial pass or the tail resend, which is if and only if every chunk the pass drops is among the last tail chunks; everything sent is the file's chunk of that index; without initial data it reports completed for nothing sent; undisturbed, it ends so if and only if its METADATA (before the pass, and where it falls due within) and every chunk it sends can be encoded, and with the encoder's error otherwise |
| Sender.SendMetadataRepeats | src/ssync/space_sync/sender.py:452-463 | the METADATA frames before the stream: all of them, or up to a stop or a blocked send, or the encoder's error before the first |
| Sender.InitialPass | src/ssync/space_sync/sender.py:499-625 | sends exactly the chunks below the point it reached that are not dropped, in order, reports exactly the dropped ones, and stops exactly at the first stop request, refused chunk, blocked send or refused periodic METADATA |
| Sender.PassEndsAt | src/ssync/space_sync/sender.py:499-625 | a pass goes on over each chunk before which no stop is asked for and that is dropped, or encoded and sent, with METADATA encoded if due, and ends at the first other one: aborted by a stop or a blocked send, else with the encoder's error |
| Sender.FileEncodesIff | src/ssync/space_sync/frames.py:201-205 | every chunk of a file can be encoded if and only if the chunk size or the whole file is at most 65535 octets and the chunks can be numbered in 32 bits |
| Sender.FullPassIff | src/ssync/space_sync/sender.py:488-625 | so a pass that drops nothing gets through the encoder under the same condition |
| Sender.LargeChunkIsRefused | src/ssync/space_sync/frames.py:201-205 | the failing input: every full chunk of more than 65535 octets |
| Sender.SendTailRedundancy | src/ssync/space_sync/sender.py:1076-1112 | resends the last min(tail chunks, total) chunks in order, none when the number is not positive, and all of them unless one is refused or its send is blocked |
| Sender.Verdict | src/ssync/space_sync/sender.py:640-665 | the drops left after the tail are none if and only if every index went out |
| Sender.DropsIff | src/ssync/space_sync/sender.py:588-596 | the pass drops every n-th chunk, counted from 1, and those for which the coin says so, and no others |
| Sender.ChunksAreTheFile | src/ssync/space_sync/sender.py:1070-1074 | the chunks in order, put together, are the file |
| Sender.SendRequestedRepairs | src/ssync/space_sync/sender.py:1114-1153 | every requested chunk that exists, in order, and nothing else, with the file's bytes, up to the first that the encoder refuses; an error if and only if there is one |
| Sender.DrainRepairRequests | src/ssync/space_sync/sender.py:1155-1222 | stays within its round and chunk bounds, ends exactly at the first datagram that says COMPLETE or fails or at a bound, is complete if and only if the last one says COMPLETE, and raises if and only if it is a malformed STATUS or asks for a chunk that is refused |
| Sender.DrainedCounts | src/ssync/space_sync/sender.py:1155-1222 | a drain counts one round for every datagram that asks for chunks and answers it with the chunks that its budget still covers |
| Sender.WaitForReceiver | src/ssync/space_sync/sender.py:764-880 | its verdict is that of the sender's state machine on the arrivals of the turns it took; it takes turns exactly up to the first verdict, error, stop, exhausted budget, last idle time or used-up rounds; what it services |
| Sender.ServeTurn | src/ssync/space_sync/sender.py:808-880 | one turn of the wait: a verdict or an error ends it, a request is serviced unless it repeats the last one within the suppression time |
| Sender.RepetitionsAreSpaced | src/ssync/space_sync/sender.py:845-855 | the same ranges are not serviced twice in a row within the suppression time |
| Sender.ServicedIff | src/ssync/space_sync/sender.py:838-872 | a turn of the wait services what arrives if and only if it asks for something and is not the request serviced last again within the suppression time; then every chunk that it asks for goes out |
| Sender.IdlesAre | src/ssync/space_sync/sender.py:786-812 | the idle times counted are the idle turns since the last status of the transfer |
| System.OnlyVerdictsMove | src/ssync/space_sync/sender.py:808-842 | only COMPLETE or HASH_MISMATCH of its own transfer moves a sender, and only while its call goes on |
| Sender.ReceivePump | src/ssync/space_sync/sender.py:303-357 | the pump ends exactly at the first COMPLETE, HASH_MISMATCH or malformed STATUS and reports COMPLETE if and only if the state machine has the signal |
| Sender.SendWithFeedback | src/ssync/space_sync/sender.py:452-905 | ended as it should: completed if and only if the state machine that `EndToEnd` speaks of ends in completed on the datagrams the three loops took, which is everything up to where each loop ends; an error only for METADATA or a chunk that cannot be encoded or a malformed STATUS, and always for the first two where they are sent |
| Sender.VerdictHasReason | src/ssync/space_sync/sender.py:336-340 | such a verdict for a nonempty file means that a COMPLETE status of this transfer was among them |
| Sender.FeedbackVerdictAgrees | src/ssync/space_sync/sender.py:634-905 | when `send_file` with feedback reports a nonempty file completed on datagrams that a run put on the network, some state of that run had a final file with the manifest's hash at its destination, unless the size-and-time shortcut answered for a file with another hash |
| Sender.HeardIsRun | src/ssync/space_sync/sender.py:303-357 | hearing a list of datagrams that are on the network is a run of the system |
| LiveReceiver.SpaceSyncReceiver.HandleDatagram | src/ssync/space_sync/receiver.py:264-312 | a datagram and all the turns of the main thread it causes, on the object with its dictionaries, part files and journal |
| LiveReceiver.SpaceSyncReceiver.HandleBeaconFrame | src/ssync/space_sync/receiver.py:293-312 | a beacon moves the activity time of a transfer that is not finalized and marks the journal dirty; nothing else changes |
| LiveReceiver.SpaceSyncReceiver.PrepareTransfer | src/ssync/space_sync/receiver.py:314-445 | answer at once, or register and then replay or finalize: the turns of the model, and what they send |
| LiveReceiver.SpaceSyncReceiver.RegisterLocked | src/ssync/space_sync/receiver.py:347-426 | repeat, collide, resume or create, with the index an exact inverse before it |
| LiveReceiver.SpaceSyncReceiver.Resume | src/ssync/space_sync/receiver.py:362-388 | the object moves to its new id, index and table together, and keeps part file and tracker |
| LiveReceiver.SpaceSyncReceiver.Create | src/ssync/space_sync/receiver.py:389-420 | a new object, a part file unless it is there, and the early chunks handed out |
| LiveReceiver.SpaceSyncReceiver.ReplayBuffered | src/ssync/space_sync/receiver.py:427-436 | the replay loop is the sequence of calls of `Delivery` |
| LiveReceiver.SpaceSyncReceiver.Accept | src/ssync/space_sync/receiver.py:617-674 | the part buffer, tracker, timers and flag after a chunk, or the pre-metadata buffer, or nothing; finalization asked for exactly when full |
| LiveReceiver.SpaceSyncReceiver.AcceptInto | src/ssync/space_sync/receiver.py:637-668 | write in place, then tracker, highest index and timers, dirty exactly if the chunk was new |
| LiveReceiver.SpaceSyncReceiver.IsMatchingCompletedFile | src/ssync/space_sync/receiver.py:547-588 | by cached hash, else by size and mtime, else by hash, and what happens to the cache |
| LiveReceiver.SpaceSyncReceiver.FindTransferByManifest | src/ssync/space_sync/receiver.py:533-545 | the registered id of the signature; a stale entry is dropped |
| LiveReceiver.SpaceSyncReceiver.RemoveTransfer | src/ssync/space_sync/receiver.py:1481-1489 | the object leaves the table; its index entry goes only if it points to that id |
| LiveReceiver.SpaceSyncReceiver.QueueForFinalization | src/ssync/space_sync/receiver.py:1007-1023 | flag, journal flush, queue, in this order, once per object |
| LiveReceiver.SpaceSyncReceiver.HashAndPublish | src/ssync/space_sync/receiver.py:1025-1088 | by the part file's hash: publish and move, or delete; the verdict of each case |
| LiveReceiver.SpaceSyncReceiver.RecordVerdict | src/ssync/space_sync/receiver.py:1089-1133 | done flag on the object wherever it is registered, cache, removal under the id read before, journal, final status |
| LiveReceiver.SpaceSyncReceiver.FinalizeTransfer | src/ssync/space_sync/receiver.py:1025-1133 | both halves in a row |
| LiveReceiver.SpaceSyncReceiver.FlushJournal | src/ssync/space_sync/receiver.py:1396-1447 | nothing unless dirty and due; else a record for exactly the transfers not finalized |
| LiveReceiver.SpaceSyncReceiver.LoadJournal | src/ssync/space_sync/receiver.py:1449-1472 | a fresh receiver on the directory becomes what the model's restart is, with an exact index |
| LiveReceiver.SpaceSyncReceiver.RestoreTransfer | src/ssync/space_sync/receiver.py:1491-1562 | restored exactly when the destination is safe and the part file is there at its full size; tracker clamped |
| LiveReceiver.SpaceSyncReceiver.TickRepair | src/ssync/space_sync/receiver.py:809-820 | the periodic request of one transfer, its fields and the frame it sends |
| LiveReceiver.SpaceSyncReceiver.MaybeFinalizeStale | src/ssync/space_sync/receiver.py:959-997 | a stale incomplete transfer is kept and its pacing reset, a stale complete one is queued |
| LiveReceiver.SpaceSyncReceiver.Maintain | src/ssync/space_sync/receiver.py:253-262 | expiry of early chunks and the timed journal flush |
| LiveTransfer.LiveTransfer.CanSendRepairRequest | src/ssync/space_sync/receiver.py:725-782 | the answer and the fields each of its branches leaves |
| LiveTransfer.LiveTransfer.MaybeSendPeriodicRepairRequest | src/ssync/space_sync/receiver.py:784-807 | the fields and the frame as the paced decision says |
| LiveTransfer.LiveTransfer.MaybeAdvertiseReceiverState | src/ssync/space_sync/receiver.py:491-531 | when the receiver's state is advertised and with which limited ranges |
| LiveTransfer.PartFiles.Write | src/ssync/space_sync/receiver.py:637-644 | the write changes exactly the bytes of the chunk, in that part file only |
| LiveTransfer.TransferTable.JournalRecords | src/ssync/space_sync/receiver.py:1396-1431 | the loop collects a record for exactly the transfers that are not finalized |
| OpenLoop.OrderMeaning | src/ssync/space_sync/cli.py:1383-1403 | the order is a permutation of the items sorted by count and then name |
| OpenLoop.OrderIsUnique | src/ssync/space_sync/cli.py:1383-1403 | with distinct names there is only one such permutation |
| OpenLoop.NewItemsFirst | src/ssync/space_sync/cli.py:1383-1403 | what has never been counted goes out before everything that has, and of two counted items the one counted less |
| OpenLoop.OpenLoopState.SendRound | src/ssync/space_sync/cli.py:1867-1985 | a round cut short anywhere leaves counts and state file equal, with one more for each item whose `send_file` has returned, completed or not |
| OpenLoop.OpenLoopIsFair | src/ssync/space_sync/cli.py:1978-1985 | over any number of rounds cut short anywhere, max - min of the counts stays <= max(initial spread, 1) |
| OpenLoop.NobodyStarves | src/ssync/space_sync/cli.py:1978-1985 | after any number of counted items every item's count is within max(initial spread, 1) of the average |
| OpenLoop.SkippingIsUnfair | src/ssync/space_sync/cli.py:1939-1946 | over whole rounds an item gains one count per round if and only if it is not skipped, so skipping breaks fairness exactly for the skipped |
| Revisit.RevisitsAreConserved | src/ssync/space_sync/cli.py:1715-1837 | in every state of every run of enqueue, take, give-back and conclude steps: keys queued and in service are distinct and are the active keys, queued entries have passes left, accepted = completed + retired + left |
| Revisit.PassesAreCounted | src/ssync/space_sync/cli.py:1766-1836 | in every state of every run the passes an entry has used are the attempts with progress at it since it was accepted |
| Revisit.RetiredExactly | src/ssync/space_sync/cli.py:1766-1836 | an attempt at an entry with a good id retires it if and only if it makes progress and brings those attempts to the number of passes, completes it if and only if it completes, and otherwise queues it again at the end; an id of the wrong size is retired at once |
| Revisit.OnlyAttemptsEnd | src/ssync/space_sync/cli.py:1715-1837 | nothing but an attempt ends an entry |
| Revisit.PassesAreBounded | src/ssync/space_sync/cli.py:1827-1836 | an accepted entry sees at most as many attempts with progress as there are passes, fewer while it is active |
| Revisit.ProgressEmptiesQueue | src/ssync/space_sync/cli.py:1743-1837 | when every attempt completes or makes progress, passes times entries attempts empty the queue |
| Revisit.NewEntryWaits | src/ssync/space_sync/cli.py:1723-1737 | a new entry is taken after everything queued before it, or next if it has priority |
| Revisit.KnownKeyStays | src/ssync/space_sync/cli.py:1723-1726 | an entry of a key that is active changes nothing |
| Revisit.RevisitSchedule.EnqueueRevisit | src/ssync/space_sync/cli.py:1715-1741 | an entry is accepted if and only if its key is not active, at the front or at the end |
| Revisit.RevisitSchedule.ConcludeEntry | src/ssync/space_sync/cli.py:1771-1836 | completed, retired, requeued as it was, or requeued with a pass used, and the counters of each |
| Revisit.RevisitSchedule.RunRevisitAttempts | src/ssync/space_sync/cli.py:1743-1837 | at most the given number of attempts, fewer only when the queue is empty or a stop is asked for; completed + retired + left = entries at the start |
| Revisit.RevisitSchedule.FinalDrain | src/ssync/space_sync/cli.py:2010-2019 | passes over the queue, each as many attempts as there are entries, until the queue is empty or a pass settles nothing, and not before; from n entries at most n(n+1)/2 `send_file` calls |
| Revisit.RevisitSchedule.Finish | src/ssync/space_sync/cli.py:2019-2024 | what is left counts as failed and accepted = completed + retired + left |

## Left out

- Sockets, addresses, reply ports, the bounded send queue, sleeps, logging, monitor events, the clear request and the
  command line: input and output. A send that fails is a datagram that is never delivered; that the system refuses a
  datagram longer than it can send, with an error that ends the call, is not modelled.
- Threads: each region under the receiver's lock is one atomic step, and steps interleave freely. A finalization is two
  steps with its file operations in the first.
- Sender.SendWithFeedback: the data sent by the repair worker beside the stream is not part of its result, only what the
  receive pump hears; beacons are left out, and so is the rate limit.
- Sender.InitialPass: when periodic METADATA falls due, by time or by count, is a decision given per chunk; only whether
  it can be encoded matters to the pass. The same holds for Sender.SendOpenLoop and Sender.SendWithFeedback.
- Sender.WaitForReceiver: deadlines, budgets, idle times and stop requests are decisions given per turn.
- Automatic feedback discovery: feedback is either on or off for a call.
- In `System` a sender that meets a frame it cannot encode, or a malformed STATUS, sends nothing and goes on; the errors
  it ends with in the source are in the loops of `Sender.dfy`. Such a run only does more than the source does.
- The receiver's own beacons and the peer ages beacons report: they only go out, and mark the journal dirty.
- File-info queries beyond their codec: the receiver's answer needs the local file system.
- `highest_chunk_seen` is kept, restored and used; `last_chunk_seen` and `backfill_chunks` only feed the monitor.
- The final STATUS goes out once; the source repeats it `status_repeat` times, which adds no new datagram unless that is 0.
- The completed-hash cache is not trimmed to its maximum size; trimming only causes more hashing.
- The journal is a map of records by id, not a JSON text with a list, so loading visits records in any order.
- LiveReceiver.SpaceSyncReceiver.LoadJournal: it asks for a journal the receiver wrote itself (each record under its own
  id, distinct signatures, chunk counts that fit the sizes), which `JournalIsBacked`'s invariant shows of every journal a
  run leaves behind; a journal edited by hand is not modelled.
- With part files kept on completion the final file is a copy here; the source makes a hard link when it can.
- Power loss: the journal can reach the disk before the mapped file does. Crash soundness here is about a process that
  dies, not about a machine that loses power.
- A part file that is missing or shorter than the write makes the write do nothing, and a missing part file ends the
  finalization; in the source both raise. `Reassembly` (part files of transfers still written are there, at full length)
  and `QueuedOnce` (so are the queued ones) show that neither happens in a run.
- LiveReceiver.SpaceSyncReceiver.RegisterLocked: it asks that the signature index be the exact inverse of the transfers,
  which `IndexIsInverse` shows in every reachable state.
- LiveReceiver.SpaceSyncReceiver.PrepareTransfer: the same holds for it and for `HandleDatagram`, which call it.
- LiveReceiver.SpaceSyncReceiver.FinalizeTransfer: it asks that the queued object be registered and alone on its part
  file, which `QueuedOnce` and `IndexIsInverse` show in every reachable state.
- Pacing.RequestsArePaced: the early-release ratio is the integer test 4 * received >= 3 * requested instead of a
  floating-point division; the two agree for counts below 2^32.
- The revisit worker's turn while the primary transfer's entry is the only one never ends in the source; the model has
  its give-back step and no claim about that loop.
- Revisit.RevisitSchedule.EnqueueRevisit: the source file of an entry is not kept; it is only handed to `send_file`.
- OpenLoop.OpenLoopState.SendRound: one destination; reading and writing the JSON text of the state file is left out.
- Skip-unchanged queries, checksum prefetch, dry runs, path collection and exit codes of `cli.py`: easy or input/output.
