# MACP runtime: a verified model of its coordination kernel

The MACP runtime accepts messages into sessions. It writes each accepted message
to an append-only log before it acts on it, and it promises that the log is
enough to rebuild every session. This project models that kernel and what has to
agree with it, and proves that they agree.

| part | files |
|---|---|
| The session, its suspensions and its deadline | `Session.dfy`, `Suspension.dfy`, `SuspensionRuns.dfy`, `Deadline.dfy` |
| The coordination step over an arbitrary mode, and the laws a mode obeys | `Modes.dfy` |
| The handoff mode, the shipped mode that writes envelopes of its own | `Handoff.dfy`, `Timeline.dfy` |
| The log, replay, checkpoints, compaction, recovery, what-if history | `Logs.dfy`, `Replay.dfy`, `Recovery.dfy`, `WhatIf.dfy` |
| The kernel as a state machine, and as the object the runtime mutates | `Kernel.dfy`, `KernelProofs.dfy`, `KernelTheorems.dfy`, `EagerLazy.dfy`, `SessionKernel.dfy` |
| Accepted ordinals, the stream bus and the subscription cursor | `Ordinals.dfy`, `Subscription.dfy`, `SubscriptionCursor.dfy`, `SubscriptionKernel.dfy` |
| Races on one session id, eviction, deletion, the open-session limit | `StartRace.dfy`, `StartOnce.dfy`, `Registry.dfy` |
| Decision receipts | `Receipts.dfy`, `ReceiptIssuer.dfy` |
| WatchSessions, alone and against session starts | `Watch.dfy`, `WatchStarts.dfy` |
| ListSessions, its page tokens and paging by them | `Listing.dfy`, `PageToken.dfy`, `Paging.dfy` |

`dafny verify dfyconfig.toml` checks the whole project.

## How the model is built

**The kernel.** `Kernels.Perform` gives the effect of each operation on one
session. Storage outcomes and clock readings are inputs (`World`), one per place
where the operation touches storage or reads the clock. A step may also end in a
crash after any number of its durable writes, followed by recovery (`Fate`).
`SessionKernels.SessionKernel` performs the same operations statement by
statement on mutable fields and is proved equal to `Perform`.

**Two semantics of a log.** `Replay.Replayed` follows the source: it starts at the
last checkpoint, or at the start. `Replay.Meaning` folds the whole log and ignores
checkpoints. The theorems connect live execution, `Meaning` and `Replayed`.

**Modes** are records of functions. `Modes.Lawful` lists what the `Mode` trait asks
of an implementation, and `Handoff.HandoffLawful` proves it of the handoff mode from
semantics revision 1 on.

**Concurrency** is interleaving. Subscriptions, same-id races, receipts and
WatchSessions are state machines whose events are what happens between two
suspension points; the theorems quantify over every sequence of enabled events.

### Hypotheses

- Mode and policy registries answer the same throughout (one `Context`).
- The acceptance clock never reads zero (`KernelProofs.Ticks`). A zero stamp makes
  replay fall back to the client's timestamp. A zero client timestamp is allowed.
- A synthetic envelope does not change who may speak (`Modes.SettlesQuietly`):
  admission runs before it is committed, replay authorizes after it.
- Where pauses are placed in time, clock readings do not run backwards
  (`Suspension.Forwards`, `Timelines.Clocked`).
- A failed append writes nothing; compaction replaces the log atomically.

### What the code does not do

Each of these is a lemma: a concrete execution, or an exact condition.

- Replay is not exact for a session that expired while suspended through the
  deadline check: the live session loses its suspension mark, the replayed one
  keeps it (`SuspensionRuns.ReplayKeepsMark`). This is the only difference
  (`KernelTheorems.ReplayExactIff`).
- After a resume the time left equals the `banked_ms` on its entry exactly when the
  suspension was stamped no later than the deadline (`Suspension.TimeLeftIsBanked`);
  it can be stamped later (`SuspensionRuns.StampedPastDeadline`).
- A resume that exceeds a cap leaves the deadline where it was
  (`Suspension.ConservedExactly`, `SuspensionRuns.OverCapKeepsDeadline`).
- A subscriber that asks past what was published when it joined the bus can be
  given a wrong ordinal (`Subscriptions.OrdinalsExactIff`,
  `Subscriptions.AskedPastJoin`).
- A subscription whose log read comes after the eviction of its session is answered
  an empty history, not refused (`Ordinals.EvictedReadIsShort`).
- A start that waited on a placeholder can be answered `duplicate` although nothing
  was ever written (`StartRaces.DuplicateOfRolledBack`).
- After a rollback, eviction can remove an open session that took the id since
  (`StartRaces.EvictsOpenSession`), and deletion can leave it a log without a start
  (`StartOnce.DeletionLosesStart`). An id taken again after its eviction gets a
  second start in its log (`StartRaces.ReuseBreaksStart`); one that is not never does
  (`StartOnce.OneStartPerId`).
- Callers can be served different receipts after a step that loses the first one
  while the session is, or comes back, in storage: an eviction whose reload fails
  when storage cannot keep receipts (`Receipts.FailedReloadForksReceipt`), or a
  cancellation that writes the snapshot back after a deletion
  (`Receipts.ResaveForksReceipt`). No other step of a running server does
  (`Receipts.ExposedOnlyBy`); a restart loses a receipt that storage cannot keep.
- WatchSessions shows Created for a session that never started exactly when its
  snapshot took the placeholder of a start that rolled back
  (`WatchedStarts.UncommittedShownIff`, `WatchedStarts.PlaceholderShown`), and shows
  it twice exactly for an id that was announced twice after the subscription and
  was not in the snapshot (`WatchedStarts.ShownTwiceIff`,
  `WatchedStarts.ReusedShownTwice`).
- A page token can be continued from exactly when the last id of its page has 1 to
  765 bytes (`Paging.ContinuesIff`). Ids a start accepts always do
  (`Paging.NeverStuck`); a longer id, recovered from an older log, need not.
- Under semantics revision 0 the handoff mode stamps an offer that carries no
  timestamp differently live and on replay (`Handoff.OfferBlindIff`).

## Model

| member | source | states |
|---|---|---|
| KernelProofs.ReplayRefinesRun | src/runtime.rs:856-2249 | after every run of messages, synthetic accepts, suspends, resumes, cancels, expiries, sweeps, checkpoints, compactions, storage failures and crashes, the in-memory log is the durable log, replaying it gives the live session up to the suspension mark of an expired session, and no accepted entry is lost |
| KernelProofs.PerformSound | src/runtime.rs:1246-2131 | every operation keeps the invariant, and so does every durable state it passes through |
| KernelProofs.CompactionSound | src/runtime.rs:1956-2044 | a compacted log means what the log it replaced meant, and its base accounts for every accepted ordinal |
| KernelProofs.TriggerSurvivesSynthesis | src/runtime.rs:1401-1412 | the envelope that provoked a synthetic is still admissible after it, so replay authorizes what the live path admitted |
| KernelTheorems.EveryRunReplays | src/runtime.rs:905-1147 | the refinement holds from any accepted SessionStart on |
| KernelTheorems.StartReplays | src/replay.rs:318-394 | the recorded start replays to the session that was accepted: deadline base, suspension cap, revision, bound versions and policy all come back |
| KernelTheorems.ReplayExactIff | src/replay.rs:126-199 | after any run, replay equals the live session if and only if no step since the last recovery expired it while suspended |
| KernelTheorems.TerminalAbsorbs | src/runtime.rs:1691-1702 | no completed operation changes a terminal session, its log, its history or what was published |
| KernelTheorems.EagerExpiryAgrees | src/runtime.rs:2076-2131 | the cleanup loop expires an open session exactly when an operation at that instant would, with the same session and entry, and then closes the log |
| KernelTheorems.ActivityTracksAcceptance | src/runtime.rs:1425-1432 | only the sender of an accepted client message is credited with activity, never the participant a synthetic speaks for |
| KernelTheorems.ActivityCountsAcceptances | crates/macp-core/src/session.rs:286-296 | after any run a participant's count is the number of their client messages accepted since the start or the last recovery, and their last-seen time is when the last of them was accepted |
| KernelTheorems.RejectionFrame | src/runtime.rs:1207-1233 | a rejected message leaves its own id out of the log and the dedup set; all it can add is one synthetic entry with at most one checkpoint, or one TtlExpired entry |
| KernelTheorems.AcceptanceRecorded | src/runtime.rs:1412-1483 | an accepted message ends the history once, under an id no earlier entry has |
| KernelTheorems.AcknowledgedSurvives | src/recovery.rs:28-117 | after any further run with crashes and failures an acknowledged message is in the recovered session, and resending it changes nothing |
| KernelTheorems.RetryIsDuplicate | src/runtime.rs:1353-1371 | resending any accepted id is answered as a duplicate and writes nothing |
| KernelTheorems.CrashAddsInFlightOnly | src/runtime.rs:1246-1328 | a crash leaves at most the in-flight trigger and the synthetic it provoked, in that order |
| EagerLazy.SweepThenSendEqualsSend | src/runtime.rs:2192-2249 | sweeping at any time up to a trigger and then processing it gives the same session, history, publications and log as processing it alone, up to checkpoint stamps |
| EagerLazy.DispatchIsSettled | src/runtime.rs:1401-1412 | no message is dispatched while an unrecorded synthetic is due |
| SessionKernels.SessionKernel.constructor | src/runtime.rs:1086-1136 | a session whose start has just become durable |
| SessionKernels.SessionKernel.ProcessMessage | src/runtime.rs:1337-1483 | the method computes the specified outcome and new state |
| SessionKernels.SessionKernel.DispatchMessage | src/runtime.rs:1412-1477 | dispatch, durable append, commit, checkpoint or compaction, publish, in that order |
| SessionKernels.SessionKernel.SynthesizeDueAccept | src/runtime.rs:1246-1328 | at most one due envelope is appended under its own clock, committed without activity credit and published |
| SessionKernels.SessionKernel.MaybeExpireSession | src/runtime.rs:856-891 | the deadline check, its durable entry and the transition |
| SessionKernels.SessionKernel.MaybeCompactLog | src/runtime.rs:1956-2005 | the loop counts every ordinal it discards and the log becomes that one checkpoint |
| SessionKernels.SessionKernel.Cancel | src/runtime.rs:1677-1750 | cancellation, idempotent on terminal sessions |
| SessionKernels.SessionKernel.Suspend | src/runtime.rs:1755-1813 | suspension of an open session |
| SessionKernels.SessionKernel.Resume | src/runtime.rs:1818-1952 | resumption, or expiry when a cap is exceeded |
| SessionKernels.SessionKernel.GetChecked | src/runtime.rs:1516-1527 | a read expires a session that is due and swallows a failed append |
| SessionKernels.CleanupExpiredSessions | src/runtime.rs:2076-2131 | every stale candidate expires, each under its own storage outcome, and no other changes |
| SessionKernels.SweepDueSyntheticAccepts | src/runtime.rs:2192-2249 | the count returned is the number of envelopes that entered accepted history |
| Replay.ReplaySession | src/replay.rs:17-82 | the reverse search and both loops compute `Replayed` |
| Replay.ReplayIsMeaning | src/replay.rs:35-82 | replay from the last checkpoint and from the start give the meaning of the whole log |
| Replay.ThinKeepsMeaning | src/runtime.rs:2009-2071 | removing any subset of the non-compacting checkpoints leaves the replayed session unchanged |
| Replay.BindingsKept | crates/macp-modes/src/replay.rs:269-317 | no replayed event changes what a session bound at its start |
| Recoveries.RecoveredState.RecoverSessions | src/recovery.rs:28-117 | recovery refuses exactly when strict and some session fails; otherwise registry and log store hold every recoverable session with its log, and no other |
| Recoveries.KernelLogsRecover | src/recovery.rs:57-112 | every log a run leaves behind is recoverable, and strict recovery refuses it only when saving fails |
| WhatIf.RecordedHistory | src/replay.rs:412-449 | the loops compute the recorded history |
| WhatIf.HistoryIsReplay | src/replay.rs:412-449 | the history is available exactly when nothing was compacted, and its events after the recorded start are what full replay applies |
| WhatIf.IndicesHaveNoGaps | src/replay.rs:430-441 | indices over accepted entries are 1, 2, 3, ... and exactly the messages have one |
| WhatIf.IndexIsOrdinal | src/server.rs:1241-1270 | each accepted entry after the start is reported under its accepted ordinal minus one |
| Logs.GetIncomingAfterWithHighWater | crates/macp-storage/src/log_store.rs:127-163 | one pass returns every accepted entry above an ordinal with its ordinal and the high-water mark, or refuses below the compaction base |
| Ordinals.SnapshotReadsHistory | src/runtime.rs:725-741 | in every reachable state a read returns exactly the accepted history above the ordinal, and the high-water mark is the number of envelopes ever accepted |
| Ordinals.EvictedReadIsShort | crates/macp-storage/src/log_store.rs:127-135 | a read returns the accepted history above the ordinal if and only if the session's log was not evicted before it; after an eviction it answers no entries and a high-water mark of 0 |
| Ordinals.OrdinalsStable | src/runtime.rs:690-741 | whatever happens between two reads, an ordinal names the same entry in both, or the later read refuses |
| Ordinals.OperationPublishesHistory | src/runtime.rs:712-724 | a completed operation publishes exactly what it accepted, in ordinal order |
| Subscriptions.SubscriberSeesHistoryOnce | src/server.rs:1415-1570 | under every interleaving of acceptance, publication, compaction, join, snapshot and receive, a subscriber has received a gap-free, duplicate-free run of the history right after `after`, each envelope under its ordinal |
| Subscriptions.SubscriberCatchesUp | src/server.rs:1510-1533 | a stream with nothing left to yield has yielded everything published and everything its snapshot held |
| Subscriptions.OrdinalsExactIff | src/server.rs:1415-1438 | every ordinal a subscription will ever deliver is exact if and only if it asked for nothing past what was published at its join, or nothing was accepted between join and snapshot |
| Subscriptions.AskedPastJoin | src/server.rs:1466-1533 | from any state with everything published, a run in which an envelope is accepted after the join, the subscriber asks past it and is given a wrong ordinal |
| Subscriptions.RepeatFiltered | src/server.rs:529-547 | while repeats can arrive, the filter holds exactly the replayed ids not yet repeated |
| SubscriptionKernel.SnapshotIsReadLog | src/runtime.rs:725-741 | reading a session's log is the `ReadLog` event of the subscription theorems |
| SubscriptionKernel.RunIsRun | src/runtime.rs:1412-1477 | every run of kernel operations is a run of the subscription system: acceptances, publications and compactions lead to the same history, base and publications |
| SubscriptionKernel.WithoutSubscriber | src/stream_bus.rs:40-48 | a subscriber changes nothing for the kernel: without it the same kernel events lead to the same history, base and publications |
| SubscriptionKernel.SubscriberSeesKernelHistory | src/server.rs:1415-1570 | whenever a subscriber joins, reads and receives while the kernel runs, even in the middle of an operation, it has received the run's accepted history right after `after`, each envelope once and under its accepted ordinal |
| SubscriptionCursors.SubscriptionCursor.TryNext | src/server.rs:1535-1570 | the loop yields the next replayed or live item, skipping repeats; lag and close end it |
| SubscriptionCursors.SubscriptionCursor.Load | src/server.rs:1466-1484 | a non-empty replay arms the filter, an empty one leaves it |
| SubscriptionCursors.SubscriptionCursor.ShouldSkipReplayed | src/server.rs:529-547 | a replayed id is dropped once; the first miss disarms the filter |
| SubscriptionCursors.TryNextIsReceives | src/server.rs:1535-1570 | a call of `TryNext` is a run of receive events, so the exactly-once theorem is about what it returns |
| SubscriptionCursors.SessionStreamBus.Subscribe | src/stream_bus.rs:28-38 | a receiver joins the session's one channel and is sent nothing older |
| SubscriptionCursors.SessionStreamBus.Publish | src/stream_bus.rs:40-48 | an envelope reaches the session's channel and no other |
| SubscriptionCursors.SessionStreamBus.RemoveIfUnused | src/stream_bus.rs:56-66 | a channel someone still reads is never removed |
| Suspension.DeadlineConserved | crates/macp-core/src/session.rs:298-367 | in every reachable state the deadline is the start deadline plus the completed pauses, and a session over a cap is expired |
| Suspension.DeadlineFromStart | crates/macp-core/src/session.rs:298-367 | the same from an accepted start: the base is the deadline the start bound |
| Suspension.CapsHold | crates/macp-core/src/session.rs:309-367 | a session that is not expired is within its suspension cap and, from revision 2 on, within 1024 pauses |
| Suspension.ConservedExactly | crates/macp-core/src/session.rs:330-367 | a resume keeps deadline equal to start plus pauses exactly when no cap is exceeded or the pause was empty |
| Suspension.TimeLeftIsBanked | src/runtime.rs:1836-1866 | after a resume the time left is what was left at the suspend, and equals `banked_ms` exactly when the suspension was stamped by the deadline |
| SuspensionRuns.ReplayKeepsMark | src/runtime.rs:856-891 | from any accepted open start, a run with a clock that does not run backwards in which a read past the cap expires the suspended session and its log replays to another session |
| SuspensionRuns.StampedPastDeadline | src/runtime.rs:1755-1866 | from any accepted open start, a run with a clock that does not run backwards in which the suspension is stamped past the deadline, and after the resume the time left is -1 while the entry carries 0 |
| SuspensionRuns.OverCapKeepsDeadline | crates/macp-core/src/session.rs:330-367 | from any accepted open start, a run with a clock that does not run backwards in which a resume past the cap banks the pause and keeps the deadline |
| Suspension.PausesOrdered | crates/macp-core/src/session.rs:330-367 | under a clock that does not run backwards, recorded pauses are ordered and disjoint in every reachable state |
| Deadlines.UnsuspendedDeadline | crates/macp-core/src/session.rs:481-512 | the loop is the saturating walk over the pauses since the start |
| Deadlines.WalkIsEarliest | crates/macp-core/src/session.rs:419-512 | the walk ends at the first instant with that much unsuspended time |
| Deadlines.SaturationOnlyAtTheEnd | crates/macp-core/src/session.rs:481-512 | on non-negative clocks only the final addition can saturate |
| Deadlines.ScalarTestIsExact | crates/macp-modes/src/mode/handoff.rs:222-230 | elapsed time minus everything banked since decides exactly like the walk |
| Handoff.HandoffLawful | crates/macp-modes/src/mode/handoff.rs:257-780 | from revision 1 on the handoff mode meets every law the kernel theorems assume of a mode |
| Handoff.OfferBlindIff | crates/macp-modes/src/mode/handoff.rs:487-560 | an offer without a timestamp is answered alike live and on replay if and only if the session's revision is at least 1 |
| Handoff.DueUnseen | crates/macp-modes/src/mode/handoff.rs:15-32 | the id of a due implicit accept is in no session's dedup set, so no earlier message can suppress it |
| Handoff.SyntheticNeverRefused | crates/macp-modes/src/mode/handoff.rs:722-775 | the mode never refuses the envelope it asked for |
| Handoff.HandoffRunsReplay | crates/macp-modes/src/mode/handoff.rs:257-780 | with no law left to assume, every run of a handoff session from its accepted start on leaves a log that replays to the live session |
| Handoff.OneHandoffAtATime | crates/macp-modes/src/mode/handoff.rs:487-617 | over every run all offers but one are declined, from revision 4 on no participant is offered twice, only the target accepts or declines, and context comes only from the offerer |
| Timelines.ImplicitAcceptOnTime | crates/macp-modes/src/mode/handoff.rs:407-470 | in every reachable state an implicit accept is due exactly when the offer has waited its timeout unsuspended; it carries the first such instant, never a future one |
| Timelines.ImplicitAcceptEmitted | src/runtime.rs:1246-1328 | in every reachable state, while storage works, the kernel appends an implicit accept if and only if an offer is outstanding, a timeout is set and the offer has waited it unsuspended |
| Timelines.StartOnTimeline | crates/macp-modes/src/mode/handoff.rs:315-340 | a handoff session starts on the timeline those theorems follow |
| Timelines.LaterPauseKeepsAccept | crates/macp-modes/src/mode/handoff.rs:378-392 | a pause that begins after the accept fell due leaves the recorded envelope unchanged |
| StartOnce.OneStartPerId | src/runtime.rs:962-1147 | for every interleaving of same-id starts, messages, storage failures, eviction and deletion, an id not taken again after a removal has at most one durable start, every log entry is that session's, only the first can be a start, and it is one unless a rollback and a removal came together |
| StartOnce.StartIsAtomic | src/runtime.rs:962-1147 | while the id is not removed, the log is empty or begins with the one start ever appended, a call answered Started appended it, only its session appends after it, and a rolled-back placeholder never does |
| StartOnce.DeletionLosesStart | src/runtime.rs:2269-2300 | an execution with a rollback in which deletion empties the log of an open session and its next entry begins a log without a start |
| StartRaces.OpenDuplicateIsDurable | src/runtime.rs:966-976 | `duplicate` for an open session means a durable start |
| StartRaces.DuplicateOfRolledBack | src/runtime.rs:1046-1084 | an execution in which `duplicate` is answered and nothing was written |
| StartRaces.RemovesEndedSessionsOnly | src/runtime.rs:2258-2365 | although eviction and deletion release the lock before they act on the id, each of their steps (eviction, storage delete, registry removal) hits an ended session only, unless a start of that id rolled back, or the id was taken again after an eviction |
| StartRaces.EvictsOpenSession | src/runtime.rs:2337-2365 | an execution with a rollback in which eviction removes an open session |
| StartRaces.ReuseBreaksStart | src/runtime.rs:2269-2300 | an execution in which an evicted id is started again: two starts in its log, and deletion of the open session enabled |
| Registries.SessionRegistry.Reserve | src/runtime.rs:1006-1044 | an admitted start leaves its sender with at most the allowed number of open sessions, whatever was locked during the count |
| Registries.SessionRegistry.CountOpen | src/runtime.rs:1012-1036 | the loop counts the sender's open sessions and every locked one |
| Registries.NeverUndercounts | src/runtime.rs:1018-1031 | counting locked sessions for everybody can only overcount |
| Receipts.OneReceiptPerSession | src/runtime.rs:1557-1636 | under every interleaving of callers, other writers, snapshot writes, eviction and deletion, all callers are served the same bytes, if no step loses the value with the session in storage |
| Receipts.ExposedOnlyBy | src/runtime.rs:2286-2381 | the steps that do are exactly an eviction whose reload of a stored session fails, a deletion that drops the last copy although the snapshot was written back, and a snapshot written back after no copy was left |
| Receipts.ExposedIff | src/runtime.rs:1683-1697 | a run has lost the value with the session in storage if and only if one of its steps is such a step |
| Receipts.OneReceiptIff | src/runtime.rs:1557-1636 | with a caller still to arrive, every continuation of the calls serves the value already served if and only if it is not lost with the session readable |
| Receipts.EvictionBoundsCache | src/runtime.rs:2366-2381 | no cached copy survives a completed eviction or deletion |
| Receipts.FailedReloadForksReceipt | src/runtime.rs:2370-2381 | an execution with a failed reload in which two callers are served any two values |
| Receipts.ResaveForksReceipt | src/runtime.rs:1683-1697 | an execution without any failure in which a cancellation writes the snapshot back after a deletion and two callers are served any two values |
| ReceiptIssuers.ReceiptIssuer.DecisionReceipt | src/runtime.rs:1557-1636 | an uncontended call answers and leaves what the call of the interleaved model does on its own, touches one session only and never replaces a stored receipt |
| ReceiptIssuers.SoloIsRun | src/runtime.rs:1557-1636 | that call on its own is a run of the interleaved model |
| ReceiptIssuers.ReceiptStorage.StoreIfAbsent | crates/macp-storage/src/storage/mod.rs:83-96 | the first writer wins |
| ReceiptIssuers.ReceiptIssuer.Forget | src/receipts.rs:247-251 | no copy of the session's receipt remains |
| Watching.DrainLifecycleEvents | src/watch_sync.rs:128-151 | everything waiting moves to the buffer in order, or the stream fails; the buffer stays within its limit |
| WatchedStarts.CreatedExactlyOnce | src/server.rs:2302-2419 | over every interleaving of starts, rollbacks, evictions, subscribe, snapshot, drains and live reads, a live stream that caught up has shown Created exactly once for every announced session that was resident at its snapshot or registered after it, if ids are not reused |
| WatchedStarts.ShownIff | src/server.rs:2340-2419 | a stream that caught up has shown Created for an id exactly when its snapshot took a start of it or one was announced after the subscription |
| WatchedStarts.CreatedAtMostOnce | src/server.rs:2392-2409 | no stream shows Created twice for an id that is not reused |
| WatchedStarts.ShownTwiceIff | src/server.rs:2392-2409 | a stream that caught up has shown Created twice for an id exactly when it was announced twice after the subscription and was not in the snapshot |
| WatchedStarts.UncommittedShownIff | src/runtime.rs:1043-1084 | a stream that caught up has shown Created for an id no start of which committed exactly when its snapshot took a placeholder of it that was rolled back |
| WatchedStarts.PlaceholderShown | src/runtime.rs:1046-1084 | an execution in which the placeholder of a failed start is shown as Created |
| WatchedStarts.ReusedShownTwice | src/runtime.rs:1136-1141 | an execution in which an evicted id is started again and Created is shown twice |
| Watching.SyncVisitsSnapshot | src/watch_sync.rs:68-97 | a live stream has visited its whole snapshot |
| Watching.TransitionsPassInOrder | src/server.rs:2365-2419 | every other event passes through in bus order |
| Watching.BufferBounded | src/watch_sync.rs:28-44 | the buffer never exceeds its limit in any execution |
| Listing.SessionIdsAfter | crates/macp-storage/src/registry.rs:362-388 | the bounded heap keeps exactly the smallest ids above the cursor, in order |
| Listing.ListSessions | src/server.rs:2251-2290 | a page is the smallest ids above the cursor that still exist, and its token is the last scanned id exactly when more remain |
| Listing.CursorIncreases | src/server.rs:2262-2271 | cursors strictly increase whatever is inserted or removed |
| Listing.NothingTwice | src/server.rs:2219-2290 | no id is shown twice in a traversal, whatever page size each request asks for, and ids ascend |
| Listing.PresentThroughoutIsShown | src/server.rs:2219-2290 | a session present throughout a finished traversal is shown by exactly one page, whatever page size each request asks for |
| Listing.PageCount | src/server.rs:2251-2271 | a registry that does not change, read with one page size, takes max(1, ceil(n / size)) pages |
| Listing.EffectivePageSize | src/server.rs:2211-2231 | negative sizes are refused; any other yields at least one; a positive request yields at most itself and at most the cap, while the default is not capped |
| Paging.TokensTraverse | src/server.rs:2233-2271 | paging by the tokens of the responses is a traversal by their cursors |
| Paging.ContinuesIff | src/pagination.rs:95-129 | a page's token is accepted back exactly when the last id of the page has 1 to 765 bytes |
| Paging.NeverStuck | crates/macp-core/src/session.rs:752-766 | while the registry holds ids a start accepts, the token of the latest response is empty or accepted |
| Paging.PagingShowsAll | src/server.rs:2219-2290 | a client that pages until the token is empty, with any page sizes, is shown every session present throughout, by exactly one page |
| PageTokens.DecodeInvertsEncode | src/pagination.rs:95-129 | a token decodes to its id exactly when the id is not empty and has at most 765 bytes |
| PageTokens.EncodeInvertsDecode | src/pagination.rs:109-129 | an accepted token is the encoding of what it decodes to |
| PageTokens.FrontTruncationRejected | src/pagination.rs:215-239 | a token that lost its first character never decodes |
| PageTokens.Base64RoundTrips | src/pagination.rs:95-117 | strict unpadded base64url is a bijection between bytes and accepted texts |

## Left out

- Modes other than handoff, policy evaluation and commitment rules: parameters of the model, bound by `Modes.Lawful`.
- Protobuf and JSON codecs: parameters with their round-trip law; session snapshots in checkpoints are kept as values.
- `process_signal`, telemetry, metrics, audit logging and trace anchors: they touch neither history nor state.
- Transports, authentication, rate limits other than the open-session limit, and the ingress policy engine: they gate requests before the kernel.
- Receipt signing and key loading: the built bytes are an arbitrary value.
- `validate_replay_consistency`: a field comparison that only warns.
- The best-effort session snapshot beside the log: nothing that is replayed reads it; receipts and deletion see it as a flag.
- What-if replay under a candidate policy and the mapping of its report to the wire: only the shared history and its indices are modelled.
- Lifecycle events other than Created: WatchSessions takes them as arbitrary bus events.
- WatchedStarts.CreatedExactlyOnce: one stream; sessions reach the registry by a start or by the recovery before the server serves, and a snapshot visit is shown as Created whatever the session's state.
- `SubscriptionCursor::next`: as `TryNext`, with the wait replaced by the interleaved system; a gRPC cursor without a snapshot yields ordinal 0 and is not part of the theorems.
- Handoff.HandoffLawful: revision 0 is modelled by the mode's functions, but the laws do not hold of it (`Handoff.OfferBlindIff`); two outstanding offers, which only a corrupted state can hold, are not ordered by key.
- Timelines.ImplicitAcceptOnTime: on clock readings from 1 to the largest 64-bit integer.
- Receipts.OneReceiptPerSession: one session; the stripe lock is that session's, since sharing a stripe can only order more calls. Any operation that holds the session may write its snapshot back. Restarts are not part of it.
- StartOnce.OneStartPerId: a session object carries only whether it ended and who holds it; what an operation appends is one entry.
- Subscriptions.SubscriberSeesHistoryOnce: envelopes are compared as the log shows them, so a live one may lack the timestamp the log fills in.
