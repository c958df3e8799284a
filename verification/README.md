# Verified model of a market-data collector

This project models the parts of the collector on which the trustworthiness of its data rests, and proves what they
guarantee. `dafny verify dfyconfig.toml` checks everything. Source paths and lines in the table refer to the
repository this project sits beside.

## What is modelled

**Books and replay verdicts** (`Books`, `DepthReplay`, `StreamReplay`, `TradesReplay`). A scorer reads a run's clean
rows, rebuilds the order book and counts defects; the run is `replayable` when the counters stay at zero. The loops are
written out with mutable sides and counters and proved equal to a fold. About the fold the project proves what the
verdict *means*: a condition on the rows without any counter, equivalent to the verdict, and, against an abstract venue
history `id -> book`, that the local book is the venue's book after every applied row. The three proof classes are
overlapping `[U, u]` windows over a REST snapshot, dense ids with re-snapshots in mid-run, and linked chains; a
depth-bounded venue is covered by a theorem on trimming. Checksums are an uninterpreted function of the ten best levels.

**The Binance collector** (`BinanceSegment`, `BinanceFeed`). Bootstrap buffering, snapshot refetch, alignment and
reconnects; the rows a segment writes are scored by `DepthReplay`, and the verdict is characterised exactly. What a
reconnect costs and what of a feed is kept is said in the ids received.

**The live gate** (`QualityGate`), composed with the trade scorer.

**The canary budget** (`CanaryLedger`, `CanaryProtocol`, `CanarySafety`, `CanaryBudget`, `CanaryPacing`,
`CanaryBounds`, `CanaryCharges`, `CanaryStops`, `CanaryDeadline`, `CanaryClocks`, `CanaryGrants`, `Pipeline`,
`PipelinePacing`). Each `BEGIN
IMMEDIATE` block is a function from the rows it finds to the rows it leaves, with a refusal that rolls back, a durable
stop that commits and raises, and a commit that is lost. Workers act in any order, die anywhere and may close late.
Theorems are about every sequence of events. `CanaryGrants` and `Pipeline` are the objects whose fields change in
place, proved to make exactly the protocol's steps.

**The cold move** (`ColdMove`, `ColdMover`, `OffloadPass`, `Promotion`, `Promoter`, `Lifecycle`). A machine whose steps
are single file operations, so that a crash, a late write or the next pass can come between any two, also inside a
recursive delete. `Mover` performs the move on fields that change file by file, and each of its operations is one step
of the machine. Promotion writes rows through a batching sink whose failing flush may leave any part of its rows behind.

**The ops scheduler** (`Scheduler`, `SchedulerFairness`, `SchedulerProgress`, `OpsRunner`) and **the evidence lease** (`EvidenceLease`,
`LeaseClocks`).

## Where the code does not meet the plain statement

Each of these has a failing input or a family of them, and a lemma saying exactly when the statement holds.

- A reconnect whose resubscribe buffer is non-empty but entirely stale is accepted, and a stale next frame is then
  streamed unaligned: the venue lost nothing, the run is scored as reordered (`StaleBufferSpoilsTheRun`,
  `CollectedIsReplayableIff`).
- The gate looks at `sequence` only; the scorer falls back to `trade_id` (`FallbackIdIsTheOnlyHole`).
- `admit_frame` adds a chunk to its own reservation before its transaction commits, so after a lost commit a close
  measures its overshoot against a figure its row does not have. The room kept free at every admission absorbs this:
  with frames of at most the 4 MiB margin and at most the 1 MiB overhead beside them, the ledger bound of `STANDARDS.md`
  lines 1853-1860 holds over every run with any number of lost commits (`PoolIsNeverOverbooked`). Both bounds are exact:
  past either of them one lost commit hides a byte (`SafeTailIff`, `SafeFrameIff`, `LostCommitHidesAByte`), so a frame
  beyond the margin is not, as the comment at `canary.py` lines 56-60 has it, always recorded.
- A source that outgrows a cold directory already in place can never be moved again: `cold_target_mismatch` for good,
  although no byte is lost. It takes a crash between the rename and the re-verify or during the removal that follows, or
  a crash anywhere after the rename and a write before the next pass (`CrashAfterRenameWedges`, `CrashWedgesIff`,
  `IdleWriteWedgesIff`, `StepWedgesIff`, `PassCompletesIff`).
- The lease samples its clock before it has the lock. On honest clocks a trial is stopped for its clock exactly when a
  claim's sample went stale while it waited (`StaleSampleStopsTheTrial`, `HonestRunIsStoppedIff`); a check whose sample
  went stale is refused, without a stop (`HonestCheckpointRefusedIff`). The canary samples under the lock and cannot be
  stopped this way.
- A stop of the lease overwrites an earlier reason (`StopReasonIsReplaced`, `ReasonKeptIff`).
- Without a sequence or a checksum a replayable verdict does not vouch for the book, and losing any event but the first
  goes unseen (`VerdictIsSoundIff`, `LossIsUnseenIff`).

## Model

| member | source | states |
|---|---|---|
| Books.BookSide.ApplyLevels | src/crypto_collector/replay.py:2100-2105 | applying a message in order leaves the side equal to the fold `Applied`: the last size quoted for a price wins, zero removes it |
| Books.AppliedAt | src/crypto_collector/replay.py:2100-2105 | after a message the size at any price is the last one quoted for it, or what it was: independent of map order and idempotent for absolute sizes |
| Books.QuotedIsLast | src/crypto_collector/replay.py:2100-2105 | by indices: what a message states for a price is its last entry for it, and nothing exactly when it has none |
| Books.BookFromSnapshot | src/crypto_collector/replay.py:2120-2125 | the loop over a snapshot's levels gives the side those levels list |
| Books.SnapshotAt | src/crypto_collector/replay.py:2120-2125 | by indices: a price of the seeded side has the size of its last positive entry; with no positive entry it is not there |
| Books.SeededIffListed | src/crypto_collector/replay.py:2120-2125 | a side without zero sizes is the seeded one exactly when the levels give every price the size it has there |
| Books.BookSide.Trim | src/crypto_collector/replay.py:2108-2117 | the sorted-delete loop keeps exactly the `depth` best prices with their sizes (and leaves the side alone for a depth below one) |
| Books.TopHasN | src/crypto_collector/replay.py:2108-2117 | the best-n selection has exactly min(n, size) prices |
| Books.TopIsBest | src/crypto_collector/replay.py:2108-2117 | what is kept is better than what is dropped: bids keep the highest prices, asks the lowest, sizes unchanged |
| Books.TopOfSuperset | src/crypto_collector/replay.py:2108-2117 | dropping prices outside the best n never changes which prices are the best n |
| Books.TrimTracksTop | src/crypto_collector/replay.py:525-538 | a depth-bounded venue sends only changes in its best n levels, deletions and no evictions: apply-then-trim keeps the local side equal to the venue's best n, for bids and asks |
| Books.TopIsIdempotent | src/crypto_collector/replay.py:533-538 | trimming a trimmed side changes nothing |
| DepthReplay.ReplayDepthRun | src/crypto_collector/replay.py:145-288 | the scorer's loop over rows computes the fold and returns the verdict; counters, cursor and both sides included |
| DepthReplay.ReplayableIffContiguous | src/crypto_collector/replay.py:189-218 | the verdict without counters, both ways: replayable exactly when there are rows and each row after the superseded lead-in overlaps or abuts its predecessor and reaches further |
| DepthReplay.CursorAgrees | src/crypto_collector/replay.py:194-218 | the scorer's cursor after a clean prefix is the last window's end, and unset while the snapshot still supersedes everything |
| DepthReplay.EveryIdCovered | src/crypto_collector/replay.py:189-218 | in a replayable run every id from the snapshot's to the last is inside some applied row's window |
| DepthReplay.KnownPricesAreExact | src/crypto_collector/replay.py:220-225 | even with a partial or missing snapshot, every price known to the run shows the venue's size after a replayable run: overlapping windows do no harm, no update is lost |
| DepthReplay.ReplayedBookIsTheVenues | src/crypto_collector/replay.py:176-230 | from a snapshot whose levels list the venue at the id it names, and faithful rows, each side equals the venue's book at the id reached after every row of a replayable run |
| DepthReplay.UncoveredIdHidesAnUpdate | src/crypto_collector/replay.py:193-216 | converse: if an id is covered by no row, the same rows also fit another proper venue whose book differs from that id on, so the verdict may not demand less |
| StreamReplay.ReplayDepthStreamRun | src/crypto_collector/replay.py:444-610 | the scorer's loop in all configurations (dense, chain, unlinked; checksummed or not; bounded depth or not) computes the fold and the verdict |
| StreamReplay.StreamReplayableIff | src/crypto_collector/replay.py:588-610 | the verdict without counters, both ways: opens on a snapshot, exchange times ascend, each delta succeeds the event before it in the configured mode, each checksum matches |
| StreamReplay.LinksAgree | src/crypto_collector/replay.py:457-501 | the id counters stay at zero exactly when each delta is the successor of its predecessor, snapshots restarting the count |
| StreamReplay.TimesAgree | src/crypto_collector/replay.py:509-516 | the time counter stays at zero exactly when all exchange times present ascend, gaps in presence allowed |
| StreamReplay.ChecksumsAgree | src/crypto_collector/replay.py:545-556 | the checksum counters stay clean exactly when every prefix's ten best levels have the event's checksum |
| StreamReplay.DenseBlocksAreConsecutive | src/crypto_collector/replay.py:466-477 | a replayable dense run splits into snapshot-anchored blocks in which the j-th event has the anchor's id plus its distance |
| StreamReplay.ChainIsLinked | src/crypto_collector/replay.py:483-501 | in a replayable chained run each delta names its predecessor's id and does not fall behind it |
| StreamReplay.IdsAreTold | src/crypto_collector/replay.py:457-501 | the first and last id reported are those of the first and last event carrying one, clean run or not |
| StreamReplay.CountersTell | src/crypto_collector/replay.py:518-556 | snapshots, updates, crossed books, checked and missing checksums are counted as named |
| StreamReplay.FaithfulEventsTrackVenue | src/crypto_collector/replay.py:518-538 | events that carry the venue from each id to the next keep the local side equal to the venue's (trimmed) side across any number of re-snapshots |
| StreamReplay.ViewIsBest | src/crypto_collector/replay.py:533-538 | what a depth-bounded book has to show of the venue: its highest bids and lowest asks, as many as the depth, with the venue's sizes |
| StreamReplay.SequencedBookIsTheVenues | src/crypto_collector/replay.py:457-538 | dense and chain mode: in a replayable run of faithful events the book equals the venue's (or its best `bookDepth` levels) after every event |
| StreamReplay.ChecksummedTopIsTheVenues | src/crypto_collector/replay.py:545-556 | a replayable checksummed run shows the venue's ten best levels per side after every event that carries the venue's checksum, in every configuration, unless two tops share a checksum |
| StreamReplay.VerdictIsSoundIff | src/crypto_collector/replay.py:588-610 | without checksums a replayable verdict vouches for the book, for every venue and every feed of truthful events, exactly when the configuration has a dense or a linked sequence |
| StreamReplay.LossIsUnseenIff | src/crypto_collector/replay.py:466-501 | removing one event of a replayable run without checksums leaves it replayable exactly when the next event is a snapshot or there is none, or there are no ids, or the lost event stood at its predecessor's id; the first event can go only before a snapshot |
| BinanceSegment.AlignBuffered | src/crypto_collector/cli.py:6136-6142 | the filter loop keeps, in order, the buffered messages that end past what was seen |
| BinanceSegment.CaptureSnapshotAndBuffer | src/crypto_collector/cli.py:5911-5989 | nothing received is lost to a refetch; the result is the whole buffer aligned to the snapshot returned; leaving early means its first message meets the snapshot; fetches stay within the limit; the loop is the fold over passes |
| BinanceFeed.AheadBufferIsAnchored | src/crypto_collector/cli.py:5962-5977 | a buffer that has run ahead of its snapshot asks for a newer one, goes on reading while it is fetched, and anchors on it as soon as it comes if the buffer by then meets it |
| BinanceFeed.PassInIds | src/crypto_collector/cli.py:5887-5908 | in ids: a pass anchors exactly when the first message ending past the snapshot starts at or before the next id, and asks for a newer snapshot exactly when it starts beyond it, none is on its way and the limit allows |
| BinanceSegment.DepthSegment.ProcessBatch | src/crypto_collector/cli.py:1804-1830 | the batch loop writes accepted and quarantined rows, advances the last seen id monotonically and stops on count or deadline |
| BinanceSegment.DepthSegment.Reconnect | src/crypto_collector/cli.py:1946-1969 | a reconnect aligns its buffer to the last seen id, or ends the segment with one recorded break and no row |
| BinanceFeed.BreakIff | src/crypto_collector/cli.py:6077-6092 | in ids: a reconnect is recorded as a break, and ends the segment as it stood, exactly when its first buffered message ending past the cursor starts beyond the cursor's next id |
| BinanceSegment.DepthSegment.Collect | src/crypto_collector/cli.py:1832-1969 | the segment over pending messages, frames and any number of reconnects is the fold the scorer theorems are about |
| BinanceFeed.UnbrokenFeedIsWritten | src/crypto_collector/cli.py:1832-1969 | over an unbroken feed whose reconnects all reach back to the cursor no break is recorded, and without a stop every message of the first connection and every later one that is new has its row in the clean file |
| BinanceFeed.BatchSorts | src/crypto_collector/cli.py:6145-6174 | every processed message is written once, clean or quarantined; a row that only bad messages say is never clean, one that only good messages say never quarantined |
| BinanceSegment.CollectedIsReplayableIff | src/crypto_collector/cli.py:1782-1830 | the scorer finds a segment's rows replayable exactly when the first message met the snapshot and every reconnect resumed at the cursor; the synthesized snapshot row is always skipped and the collector's last seen id is the scorer's cursor |
| BinanceSegment.AnchoredSegmentIsReplayable | src/crypto_collector/cli.py:5887-5908 | a bridged bootstrap and reconnect buffers that still hold something new are enough, over any number of reconnects |
| BinanceSegment.StaleBufferSpoilsTheRun | src/crypto_collector/cli.py:6077-6092 | a non-empty but entirely stale reconnect buffer passes the alignment check and the run is scored as reordered although no update was lost |
| BinanceSegment.CollectedBookIsTheVenues | src/crypto_collector/cli.py:1858-1969 | collector and scorer together: the book replayed from a replayable segment is the venue's at the last id the collector saw |
| TradesReplay.ReplayTradesRun | src/crypto_collector/replay.py:989-1105 | the scorer's loop computes the fold over ids, prices, sizes and skew, and the verdict |
| TradesReplay.IdsAreConserved | src/crypto_collector/replay.py:1048-1062 | with no absent and no falling id: events - duplicates + missing = last - first + 1, and nothing is missing exactly when no gap was counted |
| TradesReplay.TradesReplayableIff | src/crypto_collector/replay.py:1097-1105 | the verdict without counters, both ways: ids present and staying or advancing by one, prices and sizes finite and positive, skew in bounds |
| TradesReplay.ReplayableIdsFormAnInterval | src/crypto_collector/replay.py:1038-1062 | an id occurs in a replayable run exactly when it lies between the first and the last |
| QualityGate.Gate.Validate | src/crypto_collector/quality.py:40-107 | the verdict, the stream's new cursor, every other stream's unchanged cursor and the reject histogram after one event |
| QualityGate.AcceptedIff | src/crypto_collector/quality.py:40-107 | an event passes exactly when it parsed, its side, price, size and delay are in bounds for its channel, its type is known, and it is neither an old replay nor behind the cursor |
| QualityGate.TokensTell | src/crypto_collector/quality.py:47-100 | each reject token is given exactly for its own fault |
| QualityGate.CountedAt | src/crypto_collector/quality.py:102-105 | the reject histogram gains one for every time a token was given |
| QualityGate.CursorIsHighest | src/crypto_collector/quality.py:81-97 | the cursor is the highest sequence since the first live one, counting events refused for other faults |
| QualityGate.Gate.CheckSequence | src/crypto_collector/quality.py:69-97 | a tagged print passes only above an existing cursor, a live one only at or above it; the cursor moves only up |
| QualityGate.RunGate | src/crypto_collector/quality.py:40-107 | over one stream the object's clean file is the fold `CleanRows` |
| QualityGate.GateFeedsScorer | src/crypto_collector/quality.py:50-97 | of a trades stream's accepted rows the scorer counts no invalid price or size; no skew when the gate's delay bounds are within the scorer's; no falling id when the gate is monotonic and every print has a sequence or no integer trade id |
| QualityGate.SkewIsCounted | src/crypto_collector/quality.py:64-67 | the scorer's skew count over the clean file is the number of accepted events, early or late, beyond its own bound |
| QualityGate.FallbackIdIsTheOnlyHole | src/crypto_collector/replay.py:1039-1047 | an otherwise valid print keeps every gated run monotonic for the scorer exactly when it has a sequence or no integer trade id |
| QualityGate.GateIsAboutIds | src/crypto_collector/quality.py:81-97 | for otherwise valid prints the clean ids depend only on ids, tags and the cursor |
| QualityGate.ReconnectIsSeamlessIff | src/crypto_collector/quality.py:69-97 | live a..b, re-delivered c..d tagged, live from d+1 to e: the clean ids are a..e, each once, exactly when c <= b+1 and b <= d |
| QualityGate.SeamlessReconnectScoresClean | src/crypto_collector/replay.py:1048-1062 | such a reconnect leaves a clean file in which the scorer counts no gap, fall, duplicate or absent id |
| CanaryLedger.ReconciledAt | src/crypto_collector/canary.py:490-506 | reconciling closes exactly the open rows of provably gone workers, charges each what its run holds and records what that exceeds its reservation by, changes no other row and never raises committed minus overshoot |
| CanaryGrants.ReconcileOpenGrants | src/crypto_collector/canary.py:490-506 | the row loop computes the reconciled rows and whether an open row of a live or unknown worker blocks the lane |
| CanaryCharges.ClosedRowsAreCharged | src/crypto_collector/canary.py:500-504 | over every run a row is closed exactly when some event measured it, and has consumed exactly what that event measured |
| CanaryCharges.MeasuredBytesFitThePool | src/crypto_collector/canary.py:464-471 | the bound on the pool in bytes: what was measured for each closed row plus what is reserved for each open one is at most pool + recorded overshoots, over every paced run |
| CanaryStops.ClaimStopsIff | src/crypto_collector/canary.py:563-600 | a claim stops a running attempt exactly when its lane is the prepared one and the clock columns are corrupt, a clock jumped or the time is over, or, with a minute left and the lane free, its budget is gone for good |
| CanaryStops.BudgetStopIff | src/crypto_collector/canary.py:584-593 | a claim is refused for good exactly when the grants are used up or no way the open ones may close makes room; otherwise only for now |
| CanaryStops.SettleSucceedsIff | src/crypto_collector/canary.py:907-932 | settling succeeds exactly on an attempt that is not finalized, has been stopped or run out of wall time, and has no open grant whose worker may be alive; otherwise nothing changes |
| CanaryStops.SettledMeansOver | src/crypto_collector/canary.py:916-937 | over every run nothing is settled or finalized before somebody stopped the attempt or its time was over |
| CanaryGrants.CanaryGrant.Claim | src/crypto_collector/canary.py:550-606 | the method, with its durable stops, refusals and lost commits, makes exactly the protocol's claim step on the shared rows and its own fields; a lost commit leaves the id of the row that was rolled back |
| CanaryGrants.CanaryGrant.AdmitFrame | src/crypto_collector/canary.py:653-719 | the method makes exactly the protocol's admission step: clock, expiry, checkpoint, chunk, headroom and every way to stop |
| CanaryGrants.CanaryGrant.Transact | src/crypto_collector/canary.py:681-713 | the admission's transaction; when its commit is lost the rows stay but the fields already changed |
| CanaryGrants.CanaryGrant.Consumed | src/crypto_collector/canary.py:721-729 | bytes are added; a stop reason comes back exactly when the total passes the reservation, and the first reason stays |
| CanaryGrants.CanaryGrant.Close | src/crypto_collector/canary.py:733-793 | a close writes its row at most once and records the overshoot against what the worker believes it reserved |
| CanarySafety.EveryRunIsSafe | src/crypto_collector/canary.py:550-606 | over every run: at most one open grant a lane, at most `max_grants` grants, each running worker's own row open, settled means stopped and all closed |
| CanarySafety.ClaimKeeps | src/crypto_collector/canary.py:565-606 | a claim step keeps that invariant, with abandoned rows of the lane closed before the new one is inserted |
| CanarySafety.AdmitReservesWithinPool | src/crypto_collector/canary.py:691-706 | a chunk is at least one frame margin and leaves the committed total within the pool; a refusal reserves nothing |
| CanarySafety.SettleKeeps | src/crypto_collector/canary.py:916-937 | a finalize that is not refused leaves the attempt stopped with every grant closed |
| CanarySafety.EveryRunFollows | src/crypto_collector/canary.py:344-348 | from any point of any run on: a stop keeps its first reason and no grant is inserted after it, a closed grant never changes, no row disappears |
| CanarySafety.FinalizedIsForever | src/crypto_collector/canary.py:907-965 | finalized implies stopped and all closed, and no later event, late close or repeated stop changes a row or the reason |
| CanaryDeadline.EveryGrantSharesTheDeadline | src/crypto_collector/canary.py:592-604 | over every run each claimed worker's deadline is the first grant's reading plus the attempt's length, on both clocks; no later claim moves it |
| CanaryDeadline.NoFrameAfterTheDeadline | src/crypto_collector/canary.py:653-719 | over every run a frame is let in only before the deadline counted from the first grant, on both clocks, and where the database was asked again after it answered and only if nobody had stopped the attempt |
| CanaryDeadline.ClaimLeavesAMinute | src/crypto_collector/canary.py:563-604 | over every run a claim that succeeds is on an attempt nobody stopped and leaves its worker a minute before the shared deadline, or is the one that sets it |
| CanaryPacing.PoolIsNeverOverbooked | src/crypto_collector/canary.py:464-471 | over every interleaving of claims, admissions, closes, deaths, stops and settlements, with any number of lost commits: if frames are charged after the admission that let them in, none is larger than the margin, and a closing stream run holds at most the segment overhead beside its frames, then committed <= pool + recorded overshoots |
| CanaryPacing.AdmissionLeavesRoom | src/crypto_collector/canary.py:668-713 | after an admission, lost commit included, the row itself covers the frames so far and the overhead, and a further margin when the frame was let in |
| CanaryBounds.SafeTailIff | src/crypto_collector/canary.py:52-64 | for any frame bound from one byte to the margin: the ledger bound holds on every paced run of every attempt exactly when frame and tail together fit margin plus overhead |
| CanaryBounds.SafeFrameIff | src/crypto_collector/canary.py:52-64 | with tails of the segment overhead the ledger bound holds on every paced run exactly when no frame passes the margin |
| CanaryBounds.LostCommitHidesAByte | src/crypto_collector/canary.py:704-713 | for every pair of bounds past that room, a paced run in which every charge follows its admission and one commit is lost ends a byte above the pool with no overshoot recorded |
| CanaryBudget.OnlyLostChunksAreHidden | src/crypto_collector/canary.py:681-713 | with no bound at all on what is written or measured, what goes unrecorded above the pool is at most the bytes of the chunks whose commits were lost |
| CanaryBudget.ReservationsFitThePool | src/crypto_collector/canary.py:586-600 | a new row or a grown reservation leaves the committed total within the pool, in every reachable state |
| CanaryBudget.CloseHidesBytesIff | src/crypto_collector/canary.py:733-745 | one close leaves bytes unrecorded exactly when the worker believes it holds more than its row and the run outgrew the row by more than the overshoot noticed while writing |
| CanaryClocks.HonestClocksNeverStop | src/crypto_collector/canary.py:555-576 | workers sharing one nondecreasing clock pair that drifts at most one percent, sampling under the lock: no run stops for its clock, and the clock columns are never found corrupt |
| CanaryClocks.RunIsTimely | src/crypto_collector/canary.py:659-689 | the inductive form: columns and every worker's last sample are readings no later than the next one taken |
| Pipeline.CollectorPipeline.Run | src/crypto_collector/pipeline.py:107-263 | the frame loop over any script of frames, faults and interleaved rows, with its finally block, computes the segment's final state |
| Pipeline.CollectorPipeline.Turn | src/crypto_collector/pipeline.py:133-195 | one turn: admit, write until a write raises, charge what the sinks wrote, leave on overshoot or deadline, flush a due metrics row |
| Pipeline.CollectorPipeline.WriteFrame | src/crypto_collector/pipeline.py:142-163 | a frame's raw line, clean and quarantined rows land in order up to the write that raises |
| Pipeline.ChargesTelescope | src/crypto_collector/pipeline.py:165-169 | in every run the bytes accounted to the grant are the bytes charged so far |
| Pipeline.AccountedIsWritten | src/crypto_collector/pipeline.py:165-267 | on every way out of a budgeted lane (end, refusal, overshoot, deadline, an exception in the stream or in any write) the bytes accounted to the grant are exactly the bytes the sinks wrote |
| Pipeline.AdmittedFrameHasMargin | src/crypto_collector/canary.py:668-704 | an admission that is not refused leaves at least one frame margin of the reservation unused |
| Pipeline.ReservationHoldsUntilABigFrame | src/crypto_collector/pipeline.py:133-169 | the loop leaves with an overshoot only when one frame was charged more than the margin; the excess is at most that charge less the margin; otherwise the reservation was never passed |
| Pipeline.NothingAfterExit | src/crypto_collector/pipeline.py:135-175 | after a refusal, an overshoot, the deadline or an exception no later frame is admitted, written or charged |
| PipelinePacing.PipelinesNeverOverbook | src/crypto_collector/pipeline.py:133-267 | end to end: stream lanes that run the pipeline, with every frame's charge (its rows and the metrics row before it) within the margin and the last charge plus the files beside the sinks within the overhead, keep committed <= pool + recorded overshoots over every interleaving with any number of lost commits |
| PipelinePacing.DrivenIsPaced | src/crypto_collector/pipeline.py:133-169 | the admissions, charges and closes of such lanes are a paced run, whatever the other lanes do in between |
| PipelinePacing.TurnIsFrameStep | src/crypto_collector/pipeline.py:133-195 | the driver's admission and charge, with nothing in between, are exactly one turn of the pipeline |
| ColdMove.NoByteIsLost | src/crypto_collector/offload.py:422-553 | over any crashes, retries, file orders, short copies and late appends: every recorded file is whole in the hot tree or in the final cold directory, an index row exists before anything is missing from the source, each row describes the cold copy in place |
| ColdMove.WriteDuringDeleteIsLost | src/crypto_collector/offload.py:504-524 | the one assumption of that theorem is needed: bytes appended to any source file after the last look are gone once the delete reaches the file |
| ColdMove.ReportsAreTrue | src/crypto_collector/offload.py:422-553 | over every run a report holds until the next pass: a moved run is whole in the cold directory, a mismatch is real, and a refused copy or an outgrown one leaves the source whole, no cold copy and no index row |
| ColdMove.WorkLeavesLess | src/crypto_collector/offload.py:422-553 | every operation leaves fewer to do, also on the way to a refusal and whatever was written meanwhile |
| ColdMove.StepKeepsInv | src/crypto_collector/offload.py:433-545 | every single file operation keeps the invariant of its phase |
| ColdMove.SameManifestIffMatches | src/crypto_collector/offload.py:556-564 | for append-only files, equal sizes by path are enough: the manifests agree exactly when the copy covers the source, and then the trees are equal |
| ColdMove.PassCompletesIff | src/crypto_collector/offload.py:433-545 | one uninterrupted pass from whatever a crash left completes (source gone, cold copy whole, row present) exactly when the run is resumable; otherwise it reports the mismatch and changes nothing |
| ColdMove.QuietMoveRecovers | src/crypto_collector/offload.py:437-486 | after any crashes and retries over a quiet source the next uninterrupted pass ends the move: partial copy, renamed but unindexed, indexed, half-deleted or empty skeleton |
| ColdMove.QuietRunsStayResumable | src/crypto_collector/offload.py:437-486 | over a quiet source no crash can leave a mismatch |
| ColdMove.CrashWedgesIff | src/crypto_collector/offload.py:502-524 | a crash leaves a run no pass can finish exactly when it hits a rename whose source has grown, or the removal of the cold copy that follows |
| ColdMove.IdleWriteWedgesIff | src/crypto_collector/offload.py:437-464 | a write between passes leaves a run no pass can finish exactly when it was so already, or a cold directory is in place and the write changes or adds a file |
| ColdMove.StepWedgesIff | src/crypto_collector/offload.py:437-524 | every way there: a run that a crash now would leave resumable stops being so exactly by a write while a cold directory is in place, or by the rename of a copy the source has outgrown |
| ColdMove.WedgedForever | src/crypto_collector/offload.py:444-464 | such a run stays hot through every later pass, crash and write |
| ColdMove.CrashAfterRenameWedges | src/crypto_collector/offload.py:502-524 | a concrete run: copy, rename, one appended byte, crash; no continuation ever completes the move |
| ColdMover.Mover.MoveRunDir | src/crypto_collector/offload.py:422-553 | the move on fields that change file by file: every state it can be left in is one the machine reaches; left alone it completes exactly when the run was resumable; whatever is written meanwhile it answers if it has gaps enough, and goes unanswered only when they ran out; a mismatch changes nothing, and a failed or outgrown copy is taken back with the source whole, no row added and the run resumable |
| ColdMover.Mover.Resume | src/crypto_collector/offload.py:437-486 | a cold directory in place leads to an index row and the delete only if every remaining source file matches it; otherwise nothing changes |
| ColdMover.Mover.IndexAndDelete | src/crypto_collector/offload.py:527-545 | the index row is appended before the first source file is removed, and nothing of the cold copy changes |
| ColdMover.Mover.CopyBeside | src/crypto_collector/offload.py:488-500 | stale half-copies are removed first, the tree is copied beside the target and verified against the first manifest |
| ColdMover.Mover.Passes | src/crypto_collector/offload.py:422-553 | after any number of interrupted passes every recorded file is held |
| OffloadPass.OffloadLane | src/crypto_collector/offload.py:312-380 | the runs moved are, in scan order, the first `limit` of those accounted for; the others are deferred, the unaccounted ones reported stuck, and aged strays accounted for while that budget lasts; a dry run touches nothing; on an indexed lane the pass's quarantines and the moves it begins are, in order, a run of `Lifecycle` in which every event is enabled |
| OffloadPass.ReadyAre | src/crypto_collector/offload.py:312-352 | a run is ready exactly when it is old enough and, on an indexed lane, accounted for; nothing is stuck exactly when all that are old enough are |
| OffloadPass.Accounts.QuarantineAgedRun | src/crypto_collector/quarantine.py:210-239 | diagnostics land before the index row; dying in between leaves no row |
| Promotion.PromotedOnceIff | src/crypto_collector/promotion.py:163-207 | an indexed run has every clean row in the curated dataset, and each exactly once exactly when no failed attempt had landed any row |
| Promotion.CopiesAreLandings | src/crypto_collector/promotion.py:163-207 | a curated row appears once for every attempt that made it durable |
| Promoter.ParquetSink.Flush | src/crypto_collector/storage.py:470-515 | a flush persists the whole buffer and empties it, or raises, keeps the buffer, and may have persisted any part of it |
| Promoter.Promoter.WriteRows | src/crypto_collector/promotion.py:163-177 | rows durable after an attempt are whole batches plus what a failing flush kept; a failure before the first batch fills leaves nothing |
| Promoter.Promoter.PromoteRun | src/crypto_collector/promotion.py:163-229 | a run is indexed only after all its rows are durable; a failure discards the buffer; a failure before the first flush changes nothing durable |
| Promoter.Promoter.Pass | src/crypto_collector/promotion.py:87-231 | a pass attempts and indexes only recent runs scored replayable that have events, are not quarantined and not indexed yet; none is indexed twice; durable rows equal what attempts landed; every such run that meets no fault is indexed, whatever happened to the others |
| Lifecycle.MissingMeansAccounted | src/crypto_collector/offload.py:291-345 | in every reachable state a run missing a hot file has an offload row, a verified cold copy of all that is missing, and a promotion row with every clean row curated or a quarantine row with its diagnostics written |
| Scheduler.EveryRunIsSafe | src/crypto_collector/ops.py:778-883 | with unique names, over every run: the active names are those of the flights, no two flights share one, collectors in flight stay within the concurrency, at most one maintenance flight, finished plus in flight within `max_runs` |
| Scheduler.EveryDispatchIsFinalizedOnce | src/crypto_collector/ops.py:896-928 | however the loop ended, also by an exception between two operations of a turn, the drain finalizes every dispatch, each exactly once, and leaves nothing active |
| Scheduler.TickKeeps | src/crypto_collector/ops.py:778-883 | one turn of the loop keeps that invariant, including a turn cut short by an error |
| Scheduler.FailureEndsDispatching | src/crypto_collector/ops.py:782-812 | when errors stop the run, a turn that reaps a failed collector or maintenance job ends the loop and dispatches nothing more |
| Scheduler.OldestDueIsDue | src/crypto_collector/ops.py:106-117 | the pick is due, idle, and lexicographically least by deadline and config order; none is picked only when none is due |
| SchedulerProgress.MaintenanceTurn | src/crypto_collector/ops.py:860-883 | a turn dispatches exactly one maintenance job, the oldest idle due one, exactly when the loop goes on, the slot is free after reaping, the run limit leaves one more after the collectors and some idle one is due |
| SchedulerProgress.CollectorTurn | src/crypto_collector/ops.py:837-858 | a turn starts, in config order, as many idle due collectors as the concurrency and the run limit leave room for |
| SchedulerProgress.FinishedJobsComeBack | src/crypto_collector/ops.py:782-812 | every flight finished by a turn is finalized in it unless an error stops the run; its job is idle again and due one interval after it finished |
| Scheduler.SharedNameFliesTwice | src/crypto_collector/ops.py:143-158 | any two collectors that share a name and are due in a turn with room for both are both put in flight, under a single active entry |
| SchedulerFairness.BoundedOvertaking | src/crypto_collector/ops.py:860-883 | once an idle maintenance job is due, fewer maintenance dispatches than there are maintenance jobs happen before its own, none of them twice, whatever the durations |
| SchedulerProgress.WaitingJobIsDispatched | src/crypto_collector/ops.py:860-883 | an idle due maintenance job is dispatched within as many turns with an open slot as there are maintenance jobs |
| SchedulerFairness.TickOvertakesOnce | src/crypto_collector/ops.py:106-117 | in one turn the waiting job is dispatched or is overtaken by a job that has not overtaken it before |
| OpsRunner.LoadOpsConfig | src/crypto_collector/ops.py:143-163 | a configuration is accepted exactly when the enabled jobs share no name and no effective worker name, no string in their arguments has a control character and their canary arguments are in bounds; it then gives the enabled jobs in order, and duplicate names are the error reported first |
| OpsRunner.EnabledOfConcat | src/crypto_collector/ops.py:143-146 | jobs are read in order, each on its own, and the enabled are kept |
| OpsRunner.WorkerNameIs | src/crypto_collector/ops.py:184-192 | only worker lanes have a worker name: their argument, or their job type without one |
| OpsRunner.HasControlIff | src/crypto_collector/ops.py:213-252 | arguments are refused exactly when some string inside them, however deep, has a control character |
| OpsRunner.SelectOldestDueJob | src/crypto_collector/ops.py:106-117 | the scan computes the oldest due job, first of equals |
| OpsRunner.Runner.Turn | src/crypto_collector/ops.py:762-895 | reap, stop on error, dispatch collectors, dispatch maintenance: exactly one step of the machine |
| OpsRunner.Runner.Run | src/crypto_collector/ops.py:727-928 | turns until a limit or an error, then the drain, end in the machine's drained state |
| OpsRunner.Runner.FinalizeRun | src/crypto_collector/ops.py:960-972 | the job leaves the active set, the run count grows and the next run is the finish time plus the interval |
| EvidenceLease.AtMostTwoRunsEverWrite | src/crypto_collector/evidence_lease.py:111-164 | over every interleaving, lost commit and busy writer: at most two claims with slots 1..n, distinct run ids and n full reservations, and at most two runs ever get the writer |
| EvidenceLease.EveryRunFollows | src/crypto_collector/evidence_lease.py:88-91 | slots are never refunded, a stop is never lifted, and nothing is claimed or checkpointed after it |
| EvidenceLease.WritersShareOneHour | src/crypto_collector/evidence_lease.py:156-159 | in every reachable state a writer's time ends an hour after the first claim, whichever slot it holds |
| EvidenceLease.ClaimSucceedsIff | src/crypto_collector/evidence_lease.py:111-164 | in a reachable trial a claim gets a slot and the writer exactly when one is left, the run has none, the clock agrees and the hour is not over |
| EvidenceLease.CorruptionIsNeverFound | src/crypto_collector/evidence_lease.py:126-146 | in a reachable trial the structural corruption check never fires, and the clock check fires exactly when the sample jumps against the last checkpoint |
| LeaseClocks.HonestRunIsStoppedIff | src/crypto_collector/evidence_lease.py:111-142 | on honest clocks, over every run: the trial is at some time stopped for its clock exactly when some claim got the lock with a sample reading earlier than the columns it met; a writer's own checks never stop it for the clock |
| LeaseClocks.SamplesUnderTheLockNeverStop | src/crypto_collector/evidence_lease.py:111-142 | if every claim's sample is no older than the one in the columns it meets, honest clocks never stop the trial |
| LeaseClocks.HonestCheckpointRefusedIff | src/crypto_collector/evidence_lease.py:217-226 | on honest clocks a writer's checkpoint on a trial nobody stopped is refused exactly when another process committed a later reading in between, and that leaves no stop |
| LeaseClocks.HonestCheckPassesIff | src/crypto_collector/evidence_lease.py:217-235 | on honest clocks a writer's check passes exactly when the hour is not over and, if a checkpoint is due, it commits on a trial nobody stopped and with no later reading in the columns, the hour still not over afterwards |
| LeaseClocks.StaleSampleStopsTheTrial | src/crypto_collector/evidence_lease.py:111-142 | on any honest clocks: a second claim that samples before a checkpoint and gets the lock after it stops the trial for good |
| LeaseClocks.ReasonKeptIff | src/crypto_collector/evidence_lease.py:88-91 | over every run: the reason of a stop is still there at the end exactly when no writer's clock check has failed and committed its stop since, or the last that did names the same reason |
| LeaseClocks.StopReasonIsReplaced | src/crypto_collector/evidence_lease.py:171-184 | a run from a prepared trial, on any honest clocks, in which a stop for the clock is later replaced by the expiry of the writer that was there all along |
| EvidenceLease.Lease.Claim | src/crypto_collector/evidence_lease.py:111-164 | the method makes exactly the claim step on trial and fields; a committed slot is spent even if the writer is busy |
| EvidenceLease.Lease.Check | src/crypto_collector/evidence_lease.py:217-235 | the method makes exactly the check step: own clock, expiry, checkpoint, and the clock again after it |

## Left out

- Prices are whole ticks and sizes whole lots; float parsing, NaN prices and the float-to-token text under a checksum are not modelled.
- Reading and decoding of JSON rows, summaries, findings lists and top-of-book listings: the theorems are about decoded rows and the verdict.
- BinanceSegment.DepthSegment.Collect: does not model backoff, retry limits, handshake failures or a raising socket; a connection is what it delivered. A snapshot refetch that raises and a frame limit that is not positive are left out too.
- QualityGate.RunGate: one stream at a time, because the cursor is kept per stream.
- SQLite itself, its journal and locks: a transaction is atomic, and commits, rolls back, commits and raises, or is lost; a lost commit is assumed to have changed nothing.
- Process liveness is an oracle that says gone only of the dead; pids, identities, images and termination are not modelled. Receipts, directory measuring and preflight are left out; a close is given the bytes it measured.
- CanaryGrants.CanaryGrant.AdmitFrame: is called only when no claim was refused after its insert, as every caller does. Retries after lock contention appear as further claims; `bind_run` is left out.
- CanaryClocks.HonestClocksNeverStop: about one pair of clocks for all workers of one host; an operator's own stop text is taken not to be a clock reason.
- Pipeline.CollectorPipeline.Run: always has a budget, and so no session evidence (`_bind_canary_grant` refuses it); Parquet rows, reference evidence and a write that lands part of a line before raising are not modelled. A stream that closes with an error counts like any exception; an interrupt inside the finally block is left out.
- ColdMove.NoByteIsLost: assumes files only grow, a removed name is not written again, and nothing is written between the last look at the source and the end of that delete; a manifest is taken in one step. Directories other than the run's own are not modelled.
- ColdMover.Mover.RemoveCold: the source ignores errors of this one delete; here an error ends the pass like a crash.
- Two movers or two promoters at work on the same run at once; the runner lock and its breaking, which does not establish exclusion under arbitrary interleaving.
- OffloadPass.OffloadLane: lane configuration, ages and scan order arrive as given; the report's other counters are left out.
- Promoter.Promoter.Pass: the listing of recent run directories and the age filter arrive as given.
- Scheduler.EveryDispatchIsFinalizedOnce: does not model a job whose result raises past `Exception` (an interrupt or exit inside a worker thread), an interrupt between taking a future out and finalizing it, or a pool that refuses a job after its active entry is set.
- CanaryPacing.PoolIsNeverOverbooked: that a frame's rows fit the margin and a segment's last files the overhead is the source's own assumption (`canary.py` lines 56-64); it is a hypothesis here, and `CanaryBounds` says what it is worth.
- SchedulerFairness.BoundedOvertaking: for maintenance jobs with positive intervals; collectors are dispatched in config order and have no such bound.
- OpsRunner.LoadOpsConfig: a job's name, type, interval and worker name arrive as their text or number; the order in which later errors are reported, and their messages, are not promised.
- Heartbeats, health reports, cleanup listings and manifests; threads of the runner appear only as which futures are done at a turn.
- `verify_clock` of the lease, which is the clock check without a checkpoint, and the operating system's byte lock, taken to be held by one process at a time.
- Other scorers, lanes and normalizers, reference downloads and session evidence: wide, and of single-branch facts.
