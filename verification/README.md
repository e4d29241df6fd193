# Verified model of a voice web-search runtime

The repository is a voice assistant: a server holds one authoritative session, a browser shows a projection
of it, retained work runs beside the conversation, and evaluation scripts decide whether a model configuration
ships. This project models the parts whose correctness spans several steps or several containers, in Dafny
4.11, and proves what they promise. `dafny verify dfyconfig.toml` checks everything.

| subject | files | main results |
|---|---|---|
| snapshot/incremental delivery | `Observers`, `Delivery`, `DeliveryFilter`, `DeliveryBarrier`, `TornWrite`, `Watermarks` | a connection is shown everything it is entitled to and nothing else; no run shows the browser a gap, a duplicate or a reordering; the two counters never cross; an aborted barrier leaves no trace, with the exact exception; a torn snapshot write loses an exactly known prefix, and never loses anything exactly when the counters agree |
| work-status ledger | `WorkStatus`, `WorkLedger`, `LedgerRuns`, `LedgerEmission`, `LedgerChildren`, `LedgerView`, `LedgerRetention`, `LedgerObject` | which reports are announced, exactly; per-key histories are gapless and end at their first terminal event; the seven containers stay consistent; eviction, pruning and retention do exactly what they may; retained records are what clients were last told |
| speech delivery | `Speech` | ranks never fall, a terminal outcome lands and stays |
| evaluation verdict | `Voting`, `Verdict`, `VerdictTheorems`, `VerdictWitnesses`, `Matrix`, `MatrixKept`, `MatrixLabels` | what the raw repeats must show for a pass, exactly; when clean repeats pass, exactly; neither field majorities nor clean majorities alone are enough; the matrices cover every wire cell once, and when they build, exactly |
| configuration | `ConfigLayers`, `ConfigFamilies` | which effort, which spelling and which half pair survive, for any number of layers |
| telemetry | `Telemetry`, `TelemetryTurn`, `TelemetryOutcome`, `TelemetryOrphans`, `TelemetryObject` | every turn reports exactly once, which children do not, exactly, and the counts add up |
| smaller cores | `ReleaseGraph`, `HandshakeGate`, `Transcript` | an exact graph search, single-use tokens, an exact truncating join |

Where the source updates an object in place there is a class whose methods are proved equal to a function on the
object's value; what the source promises is then proved of those functions over whole runs. Sequences of
operations are arbitrary: every theorem about a run quantifies over all of them.

Automatic induction is switched off on every lemma: in Dafny 4.11 the hypothesis it adds for a sequence parameter is
not guarded by the element type and can contradict facts about other sequences. Every induction here is written out.

Assumptions of the delivery model: emit tasks run in the order they were scheduled, the writer is first in first
out, at most one barrier is open on a connection (the lock at `server/app.py:661-664`), epochs of successive
connections increase, and a snapshot write either queues its frame or fails without queuing it. The last one is
needed: `TornWrite.TornWriteTheorem` states exactly what is lost without it. The acknowledgement may come at
any time, so no theorem depends on what it proves about the queue.

## Where the code departs from what is said of it

- **Lockstep of the ledger.** The comment at `server/session_state.py:452-455` says that nothing is inserted on the
  reject path. A report that passes the transition check but fails record validation (a reason without a failure,
  or an empty turn) raises after the key's empty child map was created. `LedgerRuns.LockstepBroken` gives the
  input, `LedgerRuns.LockstepExactly` the exact condition. The rest of the invariant survives such a report.
- **Joined outcome.** `server/contracts.py:355-357` says cancelled wins over result ready. The code (and
  `shared/protocol.md:133`) report cancelled only when every child is; `WorkStatus.AggregateMeaning` follows the code.
- **Paused and resumed.** The rank table puts paused above resumed, so an utterance recorded as paused can never be
  recorded as resumed (`Speech.PausedNeverResumes`).
- **Distinct labels.** Unique candidate labels do not make pair labels unique, because a label may contain the
  separator: `MatrixLabels.UniqueNamesCanCollide` is a registry on which neither the full matrix nor the default sweep
  can be built. `MatrixLabels.FullMatrixExactly` and `MatrixLabels.SweepExactly` say when each can, for every registry,
  wire-identical candidates included. The enforcement disagreement is unreachable, as the source says.
- **Reused work item.** A child that reuses the id of a child still open can end without a record
  (`TelemetryTurn.ReuseOrphans`); `TelemetryOrphans.OrphanTheorem` says which children do, from the run alone.
- **Torn write.** If the snapshot frame is queued and the writer then fails or is cancelled, the abort does not
  reseed, and the browser silently misses the next `watermark - projected` visible events, those emitted after the
  failure included (`TornWrite.TornWriteTheorem`). No continuation loses anything if and only if the two counters
  agreed (`TornWrite.TornWriteExactly`); from every attachment they can be made to differ (`TornWrite.TornWriteReachable`).
- **Teardown under a barrier.** Detaching while a barrier is open drops the buffered events, so such a barrier is not
  transparent when a visible one was buffered (`DeliveryBarrier.AbortTheorem`).
- **Clean majority.** A strict majority of clean repeats does not make a pass, since only judged turns vote on the
  verdict (`VerdictWitnesses.CleanMajorityIsNotEnough`).

## Model

| member | source | states |
|---|---|---|
| Delivery.DeliveryTheorem | server/observers.py:141-266 | in every run from attachment the browser sees no new gap; what it applied since its snapshot is a prefix of the visible events emitted after that watermark, in order and once each; with nothing in flight it is all of them and its counter equals the observer's |
| Delivery.CounterTheorem | server/observers.py:141-194 | in every reachable state projected sequence plus buffered events is at most the session sequence, no scheduled or applied number exceeds it, building a snapshot is never refused and no step lowers the publisher watermark |
| Delivery.InvariantKept | server/app.py:499-639 | every step of observer, barrier, publisher, writer and browser keeps the full protocol invariant |
| Delivery.CountersKept | server/rtvi_messages.py:166-209 | every step keeps the two-counter invariant, and neither session sequence nor publisher watermark goes back |
| Delivery.RunInvariant | server/observers.py:332-389 | the protocol invariant holds in every state reachable from attachment |
| Delivery.SnapshotInserted | server/app.py:594-621 | a snapshot written ahead of tasks scheduled before the pause is installed by the browser, and those late tasks then change nothing |
| Delivery.ExtendInFlight | web/src/state.js:527-555 | events scheduled right after the frontier are applied in full by a synced browser and ignored by one still waiting for its snapshot |
| Delivery.ContiguousAllApplied | web/src/state.js:534-555 | a synced browser applies a contiguous batch in full, staying faithful after every message |
| Delivery.StaleChangesNothing | web/src/state.js:527-533 | messages at or below the browser's counter, or before its first snapshot, change nothing |
| DeliveryFilter.FilterTheorem | server/observers.py:133-139 | in every run only events of the connection's epoch, of the wire vocabulary, and work status only where negotiated, are scheduled, queued or applied; with nothing in flight a synced browser holds every such event logged after its snapshot |
| DeliveryFilter.DeliverMeaning | server/observers.py:161-188 | an event the connection is not entitled to takes no number and schedules nothing; one it is entitled to takes the next number |
| DeliveryFilter.NothingBeforeReady | server/rtvi_messages.py:177-192 | in every run no barrier opens and no snapshot is queued or installed before the client declared itself ready |
| DeliveryFilter.UnservedRequest | server/app.py:564-584 | a request refused for want of readiness or of a valid snapshot opens no barrier, queues nothing and leaves the observer listening as it was |
| DeliveryFilter.NothingOnceRetired | server/app.py:506-508 | once the host no longer accepts the epoch no event is queued to it again |
| DeliveryFilter.RetiredForGood | server/app.py:506-508 | a retirement is final |
| DeliveryFilter.WatermarkCovers | server/rtvi_messages.py:166-202 | in every run the publisher's watermark is at or above every number on the wire |
| DeliveryFilter.ReducerTheorem | web/src/state.js:527-555 | whatever messages arrive, lost, repeated or reordered, the browser applies consecutive numbers from its snapshot on and nothing else |
| DeliveryFilter.GapStops | web/src/state.js:534-548 | a skipped number is counted and asks for a snapshot, and until one comes nothing is applied |
| DeliveryFilter.SnapshotMeaning | web/src/state.js:516-525 | a snapshot is refused exactly when older by number or epoch, and otherwise starts the browser afresh at its watermark |
| DeliveryBarrier.AbortTheorem | server/observers.py:391-400 | opening a barrier, any run beside it, teardown included, and aborting ends in the state of that run without a barrier, apart from the sequence the publisher stamped, if and only if no teardown found a visible event buffered |
| DeliveryBarrier.AbortCommutes | server/observers.py:242-266 | every action beside an open barrier commutes with aborting it, a teardown that takes visible events excepted |
| DeliveryBarrier.AbortCommutesWithDetach | server/observers.py:214-225 | a teardown commutes with aborting exactly when it takes no visible event; otherwise fewer events were numbered |
| DeliveryBarrier.RequestSynchronises | server/app.py:549-639 | from every reachable state of a served connection, an undisturbed request that is drained leaves the browser synced at the session sequence with nothing in flight |
| DeliveryBarrier.RequestRuns | server/app.py:549-639 | the whole effect of one undisturbed snapshot request on server and wire |
| TornWrite.TornWriteTheorem | server/observers.py:380-387 | over every run after the torn write up to the next request, once nothing is in flight the browser holds the visible events after the watermark less exactly the first watermark-minus-projected of them, with no gap seen |
| TornWrite.TornWriteExactly | server/observers.py:380-387 | no continuation ever loses an event if and only if the projected sequence equalled the watermark when the writer failed |
| TornWrite.TornWriteReachable | server/observers.py:146-153 | from every attachment a hidden event and a request reach a state with the counters apart and nothing due, from which the next visible event is lost |
| TornWrite.LateBatchLosesHead | server/observers.py:146-153 | a batch numbered below the browser's counter loses exactly its head, silently |
| Observers.AbortIsTransparent | server/observers.py:227-266 | pause, any events and an aborted resume equal the same events without a pause |
| Observers.InstallRenumbers | server/observers.py:242-266 | an install numbers exactly the visible buffered events above the watermark, contiguously from it |
| Observers.DeliverAllNumbers | server/observers.py:161-188 | delivering a batch numbers its visible events contiguously, and without an emitter burns no number |
| Observers.ReplayedTail | server/observers.py:258-264 | of a buffer an install replays exactly the tail above its watermark |
| Observers.RuntimeObserver.Seed | server/observers.py:141-159 | sets the projected sequence and nothing else |
| Observers.RuntimeObserver.DeliverEvent | server/observers.py:161-188 | refines the delivery function: emitter check before projection, then one task; what the filter admits is `DeliveryFilter.DeliverMeaning` |
| Observers.RuntimeObserver.Listen | server/observers.py:190-194 | buffers while paused, delivers otherwise, ignores when detached |
| Observers.RuntimeObserver.Subscribe | server/observers.py:196-212 | attaches and installs the emitter, leaving pause and buffer alone |
| Observers.RuntimeObserver.Detach | server/observers.py:214-225 | drops listener, emitter, pause and buffer |
| Observers.RuntimeObserver.PauseDelivery | server/observers.py:227-240 | pauses and attaches |
| Observers.RuntimeObserver.ReplayBuffer | server/observers.py:258-264 | the index loop delivers exactly the buffered events above the watermark, all of them on an abort |
| Observers.RuntimeObserver.ResumeDelivery | server/observers.py:242-266 | reseeds when given a watermark, replays, then empties the buffer and unpauses |
| Observers.SnapshotBarrier.SubscribePaused | server/observers.py:328-330 | opens the barrier and pauses |
| Observers.SnapshotBarrier.Cancel | server/observers.py:391-400 | aborts an open barrier and does nothing to a settled one |
| Observers.SnapshotBarrier.InstallBaseline | server/observers.py:332-389 | succeeds exactly when flush, acknowledgement and write all do, with the reseed and replay; any failure replays, without a watermark change, exactly the events that arrived up to the suspension that failed; every settled install leaves the observer unpaused with an empty buffer; without an open barrier it refuses and changes nothing |
| Observers.SnapshotBarrier.Suspend | server/observers.py:380-387 | the three suspensions in turn up to the first failure, every event meanwhile heard in order |
| Watermarks.Bounded | server/contracts.py:249-250 | the table never exceeds its cap and holds one entry per session |
| Watermarks.MonotoneSessionNeverRefused | server/contracts.py:239-251 | a session whose snapshot sequences never fall is never refused, whatever else is validated, reset or evicted |
| Watermarks.WatermarkRetained | server/contracts.py:239-251 | a lower sequence is refused, whatever further snapshots of its own the session validates, until it is reset or a full table of other sessions has been named |
| Watermarks.ResetForgets | server/contracts.py:235-237 | after a reset the session is accepted at any sequence, and every other session is judged as before |
| Watermarks.WatermarkTable.ValidateSnapshot | server/contracts.py:239-251 | accepts exactly the sequences not below the entry, moves the entry to the end and trims to the cap; a refusal changes nothing |
| Watermarks.WatermarkTable.ResetMonotonicity | server/contracts.py:235-237 | removes the session's entry |
| WorkStatus.AggregateMeaning | server/session_state.py:630-646 | routing exactly when some child is, else searching, else background; a parent is terminal exactly when every child is; failed exactly when some failed, cancelled exactly when all were, else result ready; the aggregate is always some child's state |
| WorkStatus.TransitionMeaning | server/contracts.py:305-336 | no work starts cancelled, every live state can fail or be cancelled, nothing leaves a terminal state or repeats its own, and the way to a result leads forward only |
| WorkLedger.KeyMeaning | server/session_state.py:444-444 | reports share a key exactly when they agree on epoch, turn and parent, an absent or empty parent standing for the item itself |
| WorkStatus.ReasonMeaning | server/session_state.py:638-643 | the reported reason is that of the first failed child that has one, and none exactly when none has |
| WorkStatus.UpsertFinds | server/session_state.py:462-475 | a report replaces its own child and no other |
| WorkLedger.EvictionTheorem | server/session_state.py:603-628 | eviction ends within the cap or with nothing evictable; it leaves a ledger within the cap alone and never goes below it; it drops only terminal or restored records, never the key just written; each victim's clock started no later than any surviving candidate's; survivors are untouched |
| WorkLedger.OldestIsFirst | server/session_state.py:620-627 | of candidates with equal clocks the one inserted first goes |
| WorkLedger.VictimIsOldest | server/session_state.py:603-628 | a victim's stamp is no later than that of any surviving candidate |
| WorkLedger.PruningTheorem | server/session_state.py:648-672 | a prune keeps a record if and only if it has no clock or its clock started less than the TTL ago; exactly terminal and restored records have a clock |
| WorkLedger.StampMeaning | server/session_state.py:588-601 | a terminal record's clock is its terminal time, a live restored one's its retention clock, and a live authoritative record has none |
| LedgerRuns.HistoryTheorem | server/session_state.py:478-586 | for every key over any interleaving of reports, prunes and evictions, emitted numbers rise by one from the starting counter to the final one, nothing follows a terminal event, a key is closed exactly when it started so or its last event was terminal, a closed key emits nothing, a restored key never emits a terminal state |
| LedgerEmission.EmitsExactly | server/session_state.py:478-564 | a legal, well-formed report emits if and only if its key is not closed, the aggregate differs from the record, and it would not end a restored key |
| LedgerEmission.AnnouncementTheorem | server/session_state.py:424-564 | over any run a key that did not start in the ledger and received a legal, well-formed report has been announced and its counter has moved |
| LedgerEmission.FirstReport | server/session_state.py:540-564 | the first report of an empty ledger is announced as number 1 in its own state |
| LedgerEmission.ReportRecorded | server/session_state.py:467-475 | a legal, well-formed report of a retained key leaves its child as reported and every sibling alone |
| LedgerEmission.RejectedReport | server/session_state.py:456-475 | an illegal report changes nothing, and exactly the legal malformed ones raise |
| LedgerRuns.LedgerTheorem | server/session_state.py:194-250 | the ledger invariant over every run from an empty or restored ledger with well-formed reports: children and parents in lockstep, counters equal to record sequences, tombstoned keys recordless, clocks exactly for live restored keys, live authoritative parents equal to their aggregate |
| LedgerRuns.RetentionTheorem | server/session_state.py:588-601 | one TTL after the last operation a prune leaves neither a terminal nor a restored record and drops no other |
| LedgerRetention.HoldingTheorem | server/session_state.py:648-672 | over any operations within one TTL that together name no more keys than the cap, no record is lost whose clock had not started before |
| LedgerRetention.TerminalRetained | server/session_state.py:551-563 | until one TTL after its terminal event a key's record is retained unchanged while the cap is kept |
| LedgerRetention.ClockTheorem | server/session_state.py:553-561 | a started clock runs on unchanged while the record is retained, so a prune drops it exactly from one TTL after, however often it was updated |
| LedgerRetention.RestoredMeaning | server/session_state.py:701-733 | a restored ledger holds exactly the snapshot's keys, each as its last status said, every clock started at the restore |
| LedgerRuns.EmittedMeaning | server/session_state.py:514-564 | an event carries its key's next number and the aggregate of every known child; it is terminal only if all are and the key is authoritative, and the key was not closed |
| LedgerRuns.ReportEffects | server/session_state.py:478-564 | closed keys stay closed, only an event moves a counter, a terminal event closes its key |
| LedgerRuns.ReportValid | server/session_state.py:424-476 | every report, one that raises included, keeps the ledger valid |
| LedgerRuns.LockstepExactly | server/session_state.py:452-475 | lockstep survives a report if and only if the report does not raise on a key without a child map |
| LedgerRuns.LockstepBroken | server/session_state.py:462-475 | two concrete reports, a reason without a failure and an empty turn, that raise and leave a child map without a record |
| LedgerRuns.RestoredValid | server/session_state.py:701-733 | a restored ledger is valid, in lockstep, without tombstones, and marks exactly its keys as restored |
| LedgerChildren.ChildTheorem | server/contracts.py:305-336 | while its key is retained a known child is never lost and never moves back; a terminal one never changes |
| LedgerView.ViewTheorem | server/session_state.py:536-564 | over any run a retained record is exactly the last event of its key, or the record the run started with |
| LedgerObject.WorkStatusLedger.FromWire | server/session_state.py:701-733 | restores the value of the snapshot's statuses, the last one of a key winning |
| LedgerObject.WorkStatusLedger.ForgetKey | server/session_state.py:566-586 | drops record, children and clock, keeps counter and restored mark, leaves a tombstone exactly for a terminal record |
| LedgerObject.WorkStatusLedger.OldestKey | server/session_state.py:619-627 | the first evictable key with the smallest stamp |
| LedgerObject.WorkStatusLedger.EvictOverflow | server/session_state.py:603-628 | refines the eviction function |
| LedgerObject.WorkStatusLedger.PruneExpired | server/session_state.py:648-672 | refines the pruning function, whose bounds are `WorkLedger.PruningTheorem` |
| LedgerObject.WorkStatusLedger.ReaggregateParent | server/session_state.py:478-564 | refines reaggregation, branch by branch; when it emits is `LedgerEmission.EmitsExactly` |
| LedgerObject.WorkStatusLedger.WriteRecord | server/session_state.py:540-564 | the next number, the aggregate and its clock replace the record, and the event announces them |
| LedgerObject.WorkStatusLedger.SetChildStatus | server/session_state.py:424-476 | refines one report: rejected, raised, quiet or emitted, which one being `LedgerEmission.EmitsExactly` and `LedgerEmission.RejectedReport` |
| Speech.ProgressTheorem | server/session_state.py:358-401 | over any run an utterance's accepted progress never falls in rank and nothing follows a terminal outcome |
| Speech.TerminalTheorem | server/session_state.py:358-401 | a terminal report that is not fenced off always lands on an open utterance, and stays its outcome |
| Speech.PausedNeverResumes | server/session_state.py:98-110 | a paused utterance is never recorded as resumed or started again |
| Speech.RecordMeaning | server/session_state.py:369-401 | an admitted report that opens its utterance, or carries an open one on without falling in rank, is recorded and in force; any other changes nothing |
| Speech.FenceMeaning | server/session_state.py:369-373 | fenced off exactly when a connection is active, the report is of another or no epoch, and no stale reconnect is allowed |
| Speech.RankMeaning | server/session_state.py:92-110 | the order of the ranks, and every terminal outcome above every open state |
| Speech.SpeechLog.SpeechProgress | server/session_state.py:358-401 | records exactly the accepted reports and returns the progress in force |
| Voting.VoteTheorem | scripts/eval_model_comparison.py:1200-1236 | with a complete priority list the vote is an observed value, and it is the clean one exactly on a strict majority |
| Voting.VoteTiebreak | scripts/eval_model_comparison.py:1226-1236 | a vote that is not clean names the worst mode, or the worst value seen when the clean one led without a majority |
| Voting.VoteOrderFree | scripts/eval_model_comparison.py:1200-1236 | the vote depends on the multiset of values only |
| Voting.MajorityBoolMeaning | scripts/eval_model_comparison.py:1239-1254 | a boolean vote passes exactly when recorded passes outnumber recorded failures, and fails on a tie |
| Voting.AverageMeaning | scripts/eval_model_comparison.py:1257-1259 | a mean exists exactly when some value is present, and times their number it is their sum |
| Voting.AverageOrderFree | scripts/eval_model_comparison.py:1257-1259 | a mean depends on the multiset of values only |
| Voting.AverageExceeds | scripts/eval_model_comparison.py:1262-1287 | a mean exceeds a limit exactly when the sum exceeds the limit times the number of values |
| Verdict.CellFailureReasons | scripts/eval_model_comparison.py:2407-2473 | the reasons of a cell, none exactly when status, turns, judges, assertions and enforced budget are all clean |
| Verdict.TurnFailureReasons | scripts/eval_model_comparison.py:2431-2472 | exactly the reasons that apply to the turn: that it did not complete, or each check a completed one failed; none exactly when it is clean |
| Verdict.CountClean | scripts/eval_model_comparison.py:2537-2538 | the number of repeats without any reason |
| Verdict.ComputePassFail | scripts/eval_model_comparison.py:2476-2544 | the run passes exactly when every cell is clean and a strict majority of its raw repeats was |
| Verdict.PassesMeansNoReason | scripts/eval_model_comparison.py:2476-2544 | no reason is reported exactly when every cell passes |
| VerdictTheorems.VerdictTheorem | scripts/eval_model_comparison.py:2476-2544 | the verdict over the summaries of any raw repeats has no reason exactly when, in every cell, a strict majority completed, every padded column is clean field by field, and a strict majority of raw repeats was clean end to end |
| VerdictTheorems.CellVerdict | scripts/eval_model_comparison.py:1442-1549 | a cell summarised from any raw repeats, of equal length or not, passes exactly when the raw repeats show it |
| VerdictTheorems.AllCleanExactly | scripts/eval_model_comparison.py:1442-1549 | repeats that all ran clean pass exactly when there is one or every turn some repeat reached was reached by a strict majority |
| VerdictTheorems.AllCleanPasses | scripts/eval_model_comparison.py:1442-1549 | equal-length repeats of one pair that all ran clean always summarise to a cell that passes |
| VerdictTheorems.SummaryCleanByField | scripts/eval_model_comparison.py:1290-1439 | a summarised turn is clean exactly when each field carries its own majority and, where a budget is enforced, the completed repeats' latencies do not add up to more than that many times the budget |
| VerdictTheorems.MeanKeepsBudget | scripts/eval_model_comparison.py:1262-1287 | if no repeat broke an enforced budget, the means do not either |
| VerdictTheorems.SummaryMeans | scripts/eval_model_comparison.py:1373-1374 | every published latency is the mean of the completed repeats' |
| VerdictTheorems.SummaryPublishes | scripts/eval_model_comparison.py:1393-1439 | the summary's query is the first that is not empty, its budget is enforced when any repeat's was, and exceeded exactly when the completed repeats' latencies add up to more than that many times the budget |
| VerdictTheorems.FirstQueryMeaning | scripts/eval_model_comparison.py:1401-1409 | the first non-empty query, and empty only when all are |
| VerdictTheorems.CellPublishes | scripts/eval_model_comparison.py:1442-1549 | the summary keeps its labels and raw repeats and reaches as far as the longest one; one repeat is its own summary; none, or nested repeats, are refused |
| VerdictTheorems.LongestMeaning | scripts/eval_model_comparison.py:1505-1505 | the columns reach exactly as far as the longest repeat |
| VerdictWitnesses.FieldMajoritiesAreNotEnough | scripts/eval_model_comparison.py:2476-2544 | three repeats failing different turns: a clean summary, no clean repeat, no pass |
| VerdictWitnesses.CleanMajorityIsNotEnough | scripts/eval_model_comparison.py:1290-1439 | two clean unjudged repeats and one judged no: two of three clean end to end, no pass |
| VerdictWitnesses.JudgesDecide | scripts/eval_model_comparison.py:1290-1439 | with everything else clean the judges' strict majority decides the turn |
| FirstOfEach.KeepFirst | scripts/eval_model_comparison.py:308-334 | the scan agrees exactly when equal keys carry equal flags, and then keeps the first element of each key |
| FirstOfEach.KeptMeaning | scripts/eval_model_comparison.py:308-334 | what is kept has distinct keys, covers every key and comes from the input |
| FirstOfEach.KeptIsFirst | scripts/eval_model_comparison.py:308-334 | each element kept is the first of its key |
| Matrix.DedupePairs | scripts/eval_model_comparison.py:308-353 | reports disagreement exactly when wire-equal pairs disagree, else the first pair of each wire cell, or a label collision exactly when kept labels collide |
| Matrix.MatrixTheorem | scripts/eval_model_comparison.py:356-424 | the kept pairs have distinct wire cells, cover every wire cell and hold exactly one budget-enforced pair, the one on the baseline's wire cell |
| Matrix.WireMeaning | scripts/eval_common.py:376-392 | model and set effort are sent as they are; an unset effort stays unset except that a gpt-5 router sends minimal |
| Matrix.BuiltAgree | scripts/eval_model_comparison.py:246-292 | enforcement is a function of the wire cell, so the disagreement error is unreachable |
| Matrix.MatrixPairsBuilt | scripts/eval_model_comparison.py:410-424 | the full matrix holds every router-worker combination and nothing else |
| Matrix.DefaultSweepPairs | scripts/eval_model_comparison.py:356-407 | never a disagreement; a collision exactly when kept labels collide, else one pair per wire cell of the sweep, none missing, exactly one enforced |
| Matrix.FullMatrixPairs | scripts/eval_model_comparison.py:410-424 | never a disagreement; a collision exactly when kept labels collide, else one pair per wire cell, every router-worker combination covered, exactly one enforced |
| MatrixKept.FullMatrixKept | scripts/eval_model_comparison.py:410-424 | deduplicating the full matrix leaves the full matrix of the first router and the first worker of each wire request, in order |
| MatrixKept.SweepKept | scripts/eval_model_comparison.py:356-407 | deduplicating the sweep leaves the sweep over the same candidates, in order |
| MatrixLabels.BuildersSucceed | scripts/eval_model_comparison.py:336-353 | with unique, unambiguous names neither builder can fail |
| MatrixLabels.FullMatrixExactly | scripts/eval_model_comparison.py:336-353 | for every registry the full matrix builds if and only if the candidates that survive deduplication have names of their own and no combination of them is ambiguous |
| MatrixLabels.SweepExactly | scripts/eval_model_comparison.py:336-353 | for every registry the sweep builds if and only if the survivors have names of their own and no router beside the baseline worker reads like the baseline router beside another worker |
| MatrixLabels.LabelsEqual | scripts/eval_model_comparison.py:242-243 | two labels are equal exactly when the names agree or one name swallows the separator |
| MatrixLabels.UniqueNamesCanCollide | scripts/eval_model_comparison.py:336-353 | a registry with unique names and requests on which neither matrix can be built |
| ConfigLayers.EffortTheorem | server/config.py:614-771 | for any number of layers an effort survives exactly when some layer set it and no layer above the last one that did changed the effective model; and then it is that layer's value |
| ConfigLayers.ProvenanceMeaning | server/config.py:644-707 | recorded provenance is the number of the layer that last set the effort or last changed the model |
| ConfigLayers.SetMeaning | server/config.py:614-641 | a role setting counts as set when its stripped text is not empty, its number not zero, its flag on |
| ConfigLayers.Loader.ApplyLayer | server/config.py:710-748 | merges one layer, an empty role override being no write, and records its provenance |
| ConfigLayers.Loader.RecordLayer | server/config.py:698-707 | model keys record only a change of the effective model, effort keys always |
| ConfigLayers.Loader.ClearInheritedEffort | server/config.py:751-771 | removes exactly the efforts recorded below the model's layer |
| ConfigLayers.Loader.LoadLayers | server/config.py:1113-1140 | the layers applied in order, then the clearing |
| ConfigFamilies.FamilyLayerTheorem | server/config.py:960-992 | the layer computed for a set key is the one that supplied its merged value; an unset or erased key has none |
| ConfigFamilies.FamilySetMeaning | server/config.py:934-947 | a family key counts as set when it is there and its stripped text is not empty, zero and false included |
| ConfigFamilies.WinnerTheorem | server/config.py:995-1030 | the winner is complete, maximal by layer, first by declaration; none wins exactly when none is complete |
| ConfigFamilies.TopLayerTheorem | server/config.py:995-1030 | when the top layer completes a spelling, the winner is the first it completes and all its values come from that layer |
| ConfigFamilies.HalfPairTheorem | server/config.py:1325-1352 | half a host/port pair is ignored exactly when some complete spelling sits at its layer or above |
| ReleaseGraph.ConditionalNeedsAncestor | scripts/check_release_metadata.py:369-399 | terminates on every graph; returns nothing exactly when every reachable job exists and is unconditional; a returned name is a reachable offender |
| ReleaseGraph.ScanNeeds | scripts/check_release_metadata.py:383-398 | one job's needs scanned: the search invariant kept, or a reachable offender |
| ReleaseGraph.EdgeMeaning | scripts/check_release_metadata.py:387-393 | an edge is a string needs or a string entry of a list needs, of a job that is a mapping |
| ReleaseGraph.ClosedHoldsPath | scripts/check_release_metadata.py:369-399 | a set closed under needs that holds the direct needs holds everything reachable |
| HandshakeGate.GateTheorem | server/handshake_gate.py:59-93 | over any run with fresh names the store stays within its cap, a new token survives its own issue and no token is redeemed twice |
| HandshakeGate.PatchTheorem | server/handshake_gate.py:79-93 | a validation that does not redeem succeeds only after a redemption for the same epoch and within the lifetime |
| HandshakeGate.ValidateExactly | server/handshake_gate.py:79-93 | in every reachable state a validation succeeds exactly when a usable token is stored, and a wrong epoch burns the token |
| HandshakeGate.IssueSurvivors | server/handshake_gate.py:71-76 | an issue leaves every unexpired token and the newcomer, less one of nearest expiry exactly when that is one too many |
| HandshakeGate.ValidateKeeps | server/handshake_gate.py:79-93 | a validation keeps every other unexpired token, and the token itself unless it expired or belongs to another epoch; a repeated redemption takes nothing |
| HandshakeGate.PruneExactly | server/handshake_gate.py:124-132 | a prune keeps exactly the unexpired tokens |
| HandshakeGate.EvictOne | server/handshake_gate.py:74-76 | eviction after one issue drops at most one token and never the newcomer |
| HandshakeGate.Gate.PruneTokens | server/handshake_gate.py:124-132 | keeps exactly the unexpired tokens, in order |
| HandshakeGate.Gate.IssueToken | server/handshake_gate.py:64-77 | prunes, adds, evicts nearest expiry first |
| HandshakeGate.Gate.ValidateToken | server/handshake_gate.py:79-93 | refines validation, branch by branch |
| Transcript.TranscriptTheorem | server/turns.py:100-118 | what accumulates is the untruncated join cut to the limit, one shorter when the cut would end on a separator |
| Transcript.Accumulator.AppendFragment | server/turns.py:100-108 | appends what fits and keeps the character count equal to the join's length |
| Transcript.Accumulator.Hear | server/turns.py:175-178 | a non-empty fragment joins what was heard, an empty one is ignored |
| Transcript.Accumulator.Complete | server/turns.py:110-121 | returns the cut of everything heard since the last clear, empty exactly when nothing was, and clears |
| Transcript.Accumulator.Discard | server/turns.py:189-192 | clears without routing |
| Telemetry.FinalizeChildKeeps | server/perf_metrics.py:787-813 | a child's report keeps the books balanced: one counter, one child, one record |
| TelemetryTurn.FinalizeTurnTheorem | server/perf_metrics.py:821-912 | finalizing an open turn emits one accepted record for every outcome and control combination, its count is the number of reported children, and every child has exactly one record if and only if none was outside the sweep |
| TelemetryTurn.ReportAccepted | server/perf_metrics.py:183-200 | the record of a balanced turn is never rejected |
| TelemetryTurn.RunBalanced | server/perf_metrics.py:757-813 | in every run, reused ids or not, counters, dispatched count and reported children agree and no child reports twice |
| TelemetryTurn.TelemetryTheorem | server/perf_metrics.py:821-912 | without reuse of an open id, each child created before the turn is finalized has exactly one record, the turn has exactly one, accepted, whose child count is the number created |
| TelemetryTurn.RunNoOrphans | server/perf_metrics.py:757-785 | without reuse no child is ever left out of the sweep |
| TelemetryTurn.ReuseOrphans | server/perf_metrics.py:757-800 | a reused id leaves a child that the sweep cannot reach |
| TelemetryOrphans.OrphanTheorem | server/perf_metrics.py:757-842 | in every run, reused ids or not, a child ends without a record exactly when it had not reported and its id was held at its creation or reported by another child since; every other child has exactly one |
| TelemetryOrphans.CreationOf | server/perf_metrics.py:757-785 | every child of an unfinished turn was created by some operation of the run, so the orphan theorem covers it |
| TelemetryOrphans.ReachExactly | server/perf_metrics.py:763-800 | a child is within the sweep's reach exactly when its id was free at its creation and no child of that id reported since |
| TelemetryOutcome.OutcomeTheorem | server/perf_metrics.py:835-906 | an explicit outcome is reported unchanged with its control fields exactly when they fit together, and otherwise as failed without them; each counter is the number of child records of its kind; swept children are recorded cancelled with a cancelled turn and failed otherwise; a derived outcome is mixed exactly when two children differ, the shared one when they agree, failed when there are none, and failed when control fields come with it |
| TelemetryOutcome.ExplicitReport | server/perf_metrics.py:869-906 | what the record says of an explicit outcome, from the arguments alone |
| TelemetryOutcome.ValidatorMeaning | server/perf_metrics.py:183-200 | the validator accepts exactly complete counters that add up and an outcome whose control fields fit it |
| Telemetry.OutcomeTables | server/perf_metrics.py:680-708 | children that all ended one way give the turn that outcome, and every outcome without a counter of its own is a failure |
| TelemetryOrphans.ReportRecorded | server/perf_metrics.py:965-1003 | a child's first report is recorded for good as made, or as failed outside the vocabulary |
| TelemetryOutcome.SweepRecords | server/perf_metrics.py:835-842 | the sweep retracts no record and gives each open child its own |
| TelemetryObject.AppTurnRecorder.CreateChild | server/perf_metrics.py:757-785 | a duplicate of an open id is returned but not registered |
| TelemetryObject.AppTurnRecorder.ReportChild | server/perf_metrics.py:949-1014 | reports once, degrading an unknown outcome to failed, and attributes it to the turn |
| TelemetryObject.AppTurnRecorder.Finalize | server/perf_metrics.py:821-912 | refines finalization: the sweep in order, the outcome, the control fields, one record; what it says is `TelemetryOutcome.OutcomeTheorem` |

## Left out

- Event-loop scheduling: replaced by explicit steps over first-in-first-out tasks and a first-in-first-out wire; listeners that emit re-entrantly and a second owner cancelling a barrier are not modelled.
- The coalesce-and-retry loop around a snapshot attempt (server/app.py:641-691): at most two attempts under a lock; easy on its own.
- The message publisher is part of the value `Delivery.State` rather than a class: its readiness, its watermark and the epoch fence are modelled, its envelopes are not.
- Browser reducer: what an applied incremental does to the page, the reset on a foreign session id and the retention of dropped work statuses.
- The bounded event deque, results, workers, routing and transcript entries of a session; an event is its number, kind, epoch and payload, and a jump of the sequence is an event whose number skips ahead.
- Schema validation, JSON, time stamps and identifiers; the two validations a work-status record can fail are kept.
- Speech progress restored from a snapshot.
- Evaluation: search-timeout and error text fields, manifest checks, live execution, cost prompts and report printing; latencies are reals, so rounding to a tenth of a millisecond is not modelled.
- Vote: the source raises on an empty list; the model requires a non-empty one. A mode missing from the priority list is resolved by set iteration in the source and as the first mode seen in the model; the theorems assume complete lists, which `VerdictTheorems.AllPrioritiesComplete` proves of the three in use.
- VerdictTheorems.AllCleanPasses: asks that each turn records the budget check of its own latencies, as the runner does; repeats of unequal length are covered by `VerdictTheorems.AllCleanExactly`.
- Configuration: credential aliases, endpoint parsing, TOML lists, Python's equality of numbers and booleans, and whitespace outside Latin-1.
- Telemetry: timing fields and the format of a record; child recorders are handles of their turn.
- Transcript: the grace timer, the pending-dispatch limit and the stripping of a fragment's text.
- Connection arbiter, pipeline, speech scheduler, registries, routers, file handling and the remaining scripts.
