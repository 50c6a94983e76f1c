# Verified model of the resident hub, the Effective Graph and their companions

The repository keeps coding agents' configuration observable: a resident *hub* process shares tool
subprocesses between clients, a *resolver* computes what one host really loads from many physical
sources, an *assurance* pass says how well that is known, and a *drift* report groups what is out of
line. This project models the parts of it with the most state, branching and arithmetic and proves
what they keep.

| file | what it models |
|---|---|
| `Multiplexer.dfy` | one tool subprocess shared by many JSON-RPC clients: pending table, reader loops, cancellation, stop, restart |
| `HubInstance.dfy` | one hub per socket path: kernel lock, pid file, probe, unlink, bind, release, crashes |
| `Slots.dfy`, `Throttle.dfy` | the worker pool: two counting semaphores with their own and their common counters, and the token bucket that sleeps |
| `Watcher.dfy` | the session watcher: debounce with a maximum wait, per profile |
| `Candidates.dfy`, `MergeOperators.dfy`, `MergeLaws.dfy` | resolving one logical group under eight merge operators |
| `DeepMerge.dfy`, `TableMerge.dfy`, `MergeWinners.dfy` | merging structured contents: the order on documents and its joins, the merge under every iteration order, whose value it keeps |
| `SharedTables.dfy`, `TableMemory.dfy` | what a merge leaves of the sources whose tables it adopts, on values and, proved to be the same, on references in memory |
| `Identity.dfy`, `Duplicates.dfy`, `EffectiveGraph.dfy`, `GraphLaws.dfy`, `GraphUniqueness.dfy` | the pipeline from observations to the Effective Graph, and when there is only one |
| `SecondExtraction.dfy` | what is read when the observations are extracted again afterwards |
| `Assurance.dfy` | re-deriving evidence levels under ceilings |
| `Drift.dfy` | grouping drift assertions into cards with samples |
| `Nesting.dfy`, `Repair.dfy`, `Ngram.dfy`, `Vault.dfy`, `ShellQuote.dfy` | the scanners and printers |
| `Versions.dfy` | version ranges and Knowledge Pack resolution |
| `Ordering.dfy`, `Buckets.dfy`, `Text.dfy` | strings, sorting, grouping and splitting |

## How the model is built

Concurrent parts are machines whose steps are the source's critical sections, system calls and
channel operations, taken by any number of actors in any order; theorems are about every run. Beside
each machine stands a class with the source's fields and methods whose contracts say which steps of
the machine they amount to. In `HubInstance` other hubs' steps really do run between the system calls
of `Start` and `Close`. Loops are methods proved equal to a specification function; what the source
promises is then proved about that function. Text and numbers that only explain an outcome to a
reader are dropped.

Clocks, the outcome of system calls, the Unicode tables behind `${name}`, UTF-8 decoding and what an
extractor reads from one observation are parameters. Request numbers wrap at 2^64 as in the source;
statements about many calls are made for fewer than 2^64 of them.

Two things the language leaves open are left open here. A map is iterated in any order: where that can
show, in DEEP_MERGE, the iteration is an explicit list of visits (`TableMerge.Visit`), a decision is
*possible* when some iteration gives it (`MergeOperators.Possible`), and a graph is any graph made of
possible decisions (`EffectiveGraph.IsGraph`). `sort.Slice` breaks ties as it likes
(`Ordering.SortSlice`): methods that use it promise an ordered permutation, and the exact result where
the elements leave no ties, which for candidates means that their references differ.

A merge writes into its sources: where the destination has no table it adopts the source's, and later
sources are merged into that very table. So a decision is an outcome together with the group's
candidates as it leaves them (`MergeOperators.Decision`); conflicts and ambiguous pairs list their candidates
so, whatever the number of sources. `TableMerge.Seen` says on values what a source's table holds in the end;
`TableMemory` runs the same merge on tables in memory that hold references and proves that this is what is
then found there (`TableMemory.Memory.MergeInOrder`).

## Where comments or names promise more than the code gives

- The order of drift rows leaves ties: which card comes out then depends on the sort, and
  `Drift.TiesAreVisible` exhibits two different groupings of one input. Order independence holds when
  tied rows are equal (`Drift.GroupingIgnoresInputOrder`).
- "Unlimited" samples are all rows, but in matrix order exactly when no repeat of a bucket precedes
  the first row of another (`Drift.UnlimitedSamplesAreMatrixOrder`).
- REPLACE and UNION_BY_ID list as ignored one source per content, not every source
  (`MergeLaws.SourcesConserved`). They list every source exactly when all contents differ
  (`MergeLaws.ReplaceListsAllExact`, with a family of inputs in `MergeLaws.ReplaceCanOmit`). Ranks below -1
  never win under REPLACE (`MergeLaws.ReplaceExact`).
- In a deep merge the highest rank is meant to win. A collision inside a subtable ends the merge of that
  source on the spot, and with a complete rank nobody notices: what the iteration has not reached is
  lost (`MergeWinners.HighestRankCanLose`). Of two sources the later one is sure to keep a leaf exactly
  when no subtables collide or the earlier one says the same (`MergeWinners.LaterSourceWinsExact`), and so
  is the last of any number behind steady steps (`SharedTables.LastMergedWinsExact`); without looking at
  the steps, the one that outranks all others setting the leaf keeps it when its subtables collide with
  nobody's (`MergeWinners.HighestRankWins`).
- For the same reason one input can have two Effective Graphs (`GraphUniqueness.TwoGraphsOfOneInput`). A merge
  of two contents has one outcome exactly when it is steady (`MergeLaws.TwoContentsExact`,
  `MergeWinners.Steady`); of any number, the result after every source is the same in all iterations
  exactly when every step is steady (`SharedTables.EveryFoldExact`), and the end result behind steady steps
  exactly when the last one is (`MergeLaws.RankedExact`).
- A deep merge writes into its sources' subtables. A refused one leaves them half rewritten, which half
  being up to the iteration, and the conflict lists them so: without any rank, which is how every caller
  outside the tests computes it, one input can have two graphs as well
  (`GraphUniqueness.TwoConflictsOfOneInput`). There is one graph exactly when every refusal is steady on the
  subtables that the refused source shares with what was merged before it, and the sources of each
  duplicate capability can be told apart (`GraphUniqueness.UnrankedGraphExact`; with ranks,
  `GraphUniqueness.OneGraphExact`).
- The rewriting does not stop at the graph: the candidates' tables are the observations' own, so the second
  extraction in `internal/report/build.go:134` reads what is left of them. It reads what the first one read,
  in every iteration, exactly when no decision writes into a candidate
  (`SecondExtraction.SecondExtractionExact`); for merges of two contents, when the one merged last adds
  nothing below a subtable of the other (`SecondExtraction.SecondExtractionOfTwo`).
- A scope rank that ties is not refused by DEEP_MERGE: the later source in the list wins, so the list
  order cannot show exactly when tied sources do not collide (`MergeWinners.TiedPairExact`).
- Two tools of one server with one fingerprint can be listed either way round in a duplicate capability
  (`Duplicates.ReportUniqueExact`).
- The limiter credits its own sleep again on the next refill. A stretch of length T admits at most
  capacity + rate * (T + time slept) calls, so capacity + rate * T when none but its last call sleeps
  (`Throttle.StretchBound`); in general the bound is capacity + 2 * rate * T, and it is attained
  (`Throttle.AdmissionBound`, `Throttle.BoundIsTight`). `Throttle.PlainBoundExact` has the exact count.
- The active gauge can exceed the number of slots while a release is between its two steps: with all slots
  taken one more hand-over does it exactly when no more callers are short of raising the gauge than of
  lowering it (`Slots.GaugeCanExceedCapacity`), and no number bounds it (`Slots.GaugeHasNoBound`).
- Closing a hub whose start failed removes the socket path all the same. That is harmless exactly while no
  other hub has bound or serves the path (`HubInstance.StrayCloseExact`); otherwise the serving hub is left
  on a socket that no path names (`HubInstance.StrayCloseOrphans`).
- The comment on `InstanceLock.Release` has it remove the lock file; the code leaves it, and must
  (`HubInstance.UnlinkingWouldBreakExclusion`).
- The pid in an "already held" error is read after the lock attempt failed and the file was closed: it
  can name a dead hub, with or without a new holder (`HubInstance.RefusalCanNameADeadHub`,
  `HubInstance.RefusalCanOutliveTheHolder`); `HubInstance.ReportNamesHolder` says exactly when it names the
  holder.
- `JSONAutoRepair` makes text well-nested only when the input had no mismatched closer
  (`Repair.RepairWellNestedIff`); well-nested is not yet valid JSON.

## Model

| member | source | states |
|---|---|---|
| Multiplexer.KeyInjective | internal/hub/supervisor.go:396-400 | ids written for client calls and for the handshake never coincide, and different numbers give different ids |
| Multiplexer.KeysRepeatOnlyByWrapping | internal/hub/supervisor.go:442-446 | a key comes back exactly when the 64-bit counter has gone round |
| Multiplexer.StepKeepsInv | internal/hub/supervisor.go:198-485 | every critical section and channel operation keeps the whole invariant: table, holders, channels, replies, and no call in flight forgotten |
| Multiplexer.RunKeepsInv | internal/hub/supervisor.go:198-485 | the invariant holds after any interleaving of callers, cancellations, stops, restarts and several live readers |
| Multiplexer.ChannelDiscipline | internal/hub/supervisor.go:374-376 | each reply channel gets at most one send or one close; a reader about to send finds its channel open and empty, so it never blocks and never panics |
| Multiplexer.HeldChannelExists | internal/hub/supervisor.go:366-376 | the send of a reader holding a channel is always possible |
| Multiplexer.RepliesAreAuthentic | internal/hub/supervisor.go:366-376 | a call is answered only by a line that was read and whose id is the call's own key |
| Multiplexer.LineAnswersOneCall | internal/hub/supervisor.go:366-376 | no line answers two calls |
| Multiplexer.WaitingIsAccounted | internal/hub/supervisor.go:427-438 | a waiting call is in the table, with a reader, answered or closed in every reachable state |
| Multiplexer.EqualClientIdsStayApart | internal/hub/supervisor.go:555-562 | clients that chose equal ids each get their own id back, on replies from different lines carrying their own keys |
| Multiplexer.TableIsInjective | internal/hub/supervisor.go:449-452 | no channel is registered under two keys |
| Multiplexer.NewKeyIsFree | internal/hub/supervisor.go:449-452 | registering never overwrites another call's entry |
| Multiplexer.ManagedTool.NextNumber | internal/hub/supervisor.go:442-447 | the counter moves on by one and survives stops and restarts |
| Multiplexer.ManagedTool.RegisterCall | internal/hub/supervisor.go:449-452 | the fresh channel enters under a key not in the table |
| Multiplexer.ManagedTool.AbandonCall | internal/hub/supervisor.go:454-478 | a failed write or a done context takes the caller's entry out |
| Multiplexer.ManagedTool.TakeChannel | internal/hub/supervisor.go:366-372 | a line's id is looked up and its channel leaves the table in one section; unknown ids change nothing |
| Multiplexer.ManagedTool.DeliverTo | internal/hub/supervisor.go:374-376 | the response goes into the channel taken, once |
| Multiplexer.ManagedTool.DrainPending | internal/hub/supervisor.go:386-392 | afterwards the table is empty and exactly the channels that were in it have been closed once more |
| Multiplexer.ManagedTool.EndReader | internal/hub/supervisor.go:379-392 | only the current process's reader marks the tool stopped, then everything pending is closed |
| Multiplexer.ManagedTool.Stop | internal/hub/supervisor.go:200-254 | a running or starting tool is reset and drained; any other state is untouched |
| Multiplexer.ManagedTool.AnswerClient | internal/hub/supervisor.go:479-484 | the caller gets the buffered reply with its own id, or the news that the channel was closed |
| HubInstance.SharedLockPath | internal/hub/instancelock.go:15-17 | two socket paths share a lock file exactly when one is the other with `.sock` added |
| HubInstance.StepKeepsInv | internal/hub/instancelock.go:77-148 | every system call, failure branch and crash keeps the lock, socket, path and pid invariants |
| HubInstance.RunKeepsInv | internal/hub/hub.go:180-224 | they hold over every run of any number of hubs |
| HubInstance.MutualExclusion | internal/hub/instancelock.go:77-148 | at most one hub is between taking and releasing the lock |
| HubInstance.ServingOwnsPath | internal/hub/hub.go:215-224 | while a hub serves, the path names its own accepting socket and the pid file names it |
| HubInstance.PidFileNamesHolder | internal/hub/instancelock.go:104-119 | once acquire has returned the file names the holder; after the truncation it is empty |
| HubInstance.OthersCannotDisturb | internal/hub/hub.go:678-706 | no step of another hub changes a serving hub's lock, name, socket or pid file |
| HubInstance.UnlinksHarmNobody | internal/hub/hub.go:208-215 | an unlink hits an accepting socket only if it is the hub's own, or a lock-less daemon's that failed to answer the probe or was hit by the close of a hub that never started |
| HubInstance.StrayCloseExact | internal/hub/hub.go:678-706 | closing a hub that never started keeps every invariant exactly while no hub has bound or serves the path |
| HubInstance.StrayCloseOrphans | internal/hub/hub.go:678-706 | with a serving hub it leaves that hub accepting on a socket the path no longer names |
| HubInstance.ProbeFindsOnlyLegacy | internal/hub/hub.go:202-213 | among hubs that take the lock the probe never finds a live one |
| HubInstance.CrashFreesLock | internal/hub/instancelock.go:46-50 | a holder that dies at any point leaves the lock free |
| HubInstance.ReportNamesHolder | internal/hub/instancelock.go:93-101 | when exactly the pid in a refusal is the holder's |
| HubInstance.RefusalCanNameADeadHub | internal/hub/instancelock.go:140-146 | between the lock and the truncation a refused hub is told the dead predecessor's pid |
| HubInstance.OneRecordedTwoWaiting | internal/hub/instancelock.go:77-119 | a run to the situation the two refusals start from: of any three hubs one has recorded its pid and the others have the file open |
| HubInstance.OneServing | internal/hub/hub.go:180-224 | a run in which a hub gets to serve |
| HubInstance.RefusalCanOutliveTheHolder | internal/hub/instancelock.go:140-146 | the pid can be read when nobody holds the lock any more |
| HubInstance.UnlinkingWouldBreakExclusion | internal/hub/instancelock.go:131-139 | were the lock file's name removed while held, two hubs would hold |
| HubInstance.InstanceLock.Release | internal/hub/instancelock.go:125-148 | closes once, drops the kernel lock, leaves the file's name; at the end of a close and in a start that found a live daemon or could not listen |
| HubInstance.AcquireInstanceLock | internal/hub/instancelock.go:77-120 | success holds the lock with the pid recorded; every failure holds nothing and errors other than "would block" are not reported as held |
| HubInstance.Hub.Start | internal/hub/hub.go:180-224 | under any interference: success leaves the path naming this hub's accepting socket, failure leaves nothing held |
| HubInstance.Hub.Close | internal/hub/hub.go:678-706 | a started hub unlinks, closes, unlinks again and releases last, after which no name, no lock and no accepting socket is left; one that did not start only removes the path |
| Slots.StepKeepsInv | internal/hub/pool.go:167-204 | semaphores, gauges and queues of both lanes each equal a count of callers, no semaphore exceeds its capacity, and the common execution counter is the executions of both |
| Slots.RunKeepsInv | internal/hub/pool.go:167-204 | so in every interleaving of acquires, cancellations and releases of task and batch slots |
| Slots.GaugeDecomposition | internal/hub/pool.go:167-204 | slot holders never exceed the capacity; the gauge is holders plus mid-release minus mid-acquire callers |
| Slots.PoolLimits | internal/hub/pool.go:46-56 | in every run of both lanes together at most 5 callers hold a task slot and at most 50 a batch slot |
| Slots.QuiescentCounters | internal/hub/pool.go:167-204 | when nothing is in flight each gauge is its holders, the queues are empty and the total is all who hold or have released, in either lane |
| Slots.ReleaseNeverBlocks | internal/hub/pool.go:179-182 | receiving the token back never waits |
| Slots.GaugeCanExceedCapacity | internal/hub/pool.go:176-182 | with all slots taken, four steps that hand one over raise the gauge by one; it is then above the capacity exactly when no more callers are short of raising it than of lowering it |
| Slots.GaugeHasNoBound | internal/hub/pool.go:176-182 | for every n a run from the start after which the gauge is n and no slot is taken |
| Slots.AcquirePaths | internal/hub/pool.go:167-184 | what the two ways through an acquire add up to; a cancelled one leaves only its record |
| Slots.WorkerPool.AcquireTaskSlot | internal/hub/pool.go:167-184 | an uninterrupted acquire is exactly the five steps, a cancelled one the three |
| Slots.WorkerPool.AcquireBatchSlot | internal/hub/pool.go:187-204 | the same for a batch slot |
| Slots.WorkerPool.ReleaseTaskSlot | internal/hub/pool.go:179-182 | an uninterrupted release is exactly its two steps |
| Slots.WorkerPool.ReleaseBatchSlot | internal/hub/pool.go:199-202 | the same for a batch slot |
| Throttle.CallKeepsValid | internal/hub/pool.go:206-229 | tokens stay within [0, capacity] and a call short of a token always sleeps: the wait of two seconds or more is unreachable |
| Throttle.RunKeepsValid | internal/hub/pool.go:206-229 | so after every run of serialized calls |
| Throttle.AdmissionsFrom | internal/hub/pool.go:206-229 | the calls of a run are at most the tokens at its start plus twice the credit of its length |
| Throttle.AdmissionBound | internal/hub/pool.go:206-229 | any stretch of length T admits at most capacity + 2 * rate * T calls |
| Throttle.BoundIsTight | internal/hub/pool.go:206-229 | for every m, 50 + 2m calls return within m/50 seconds, so the bound is attained and capacity + rate * T is not one |
| Throttle.TokensConserved | internal/hub/pool.go:206-229 | exactly: starting tokens, time passed and time slept pay for the calls, the tokens left and the credit a full bucket turned away |
| Throttle.PlainBoundExact | internal/hub/pool.go:206-229 | the exact number of calls of a run, and that it is within capacity + rate * T exactly when the credit of the sleeps is covered |
| Throttle.StretchBound | internal/hub/pool.go:206-229 | any stretch of any run admits at most capacity + rate * (T + time slept), and capacity + rate * T when none but its last call sleeps |
| Throttle.Limiter.ThrottleRateLimit | internal/hub/pool.go:206-229 | the method's new fields and sleep are the specification's |
| Watcher.WriteIsCovered | internal/hub/workers.go:468-533 | an observed write is covered by a run no later than the first poll at or after its observation plus the maximum wait |
| Watcher.RunsNeedWrites | internal/hub/workers.go:495-523 | between two runs there is an observed write |
| Watcher.SingleWrite | internal/hub/workers.go:495-523 | one write followed by silence gives one run, from the first poll late enough on, and none before |
| Watcher.RunsAreDue | internal/hub/workers.go:503-513 | a run waits for a debounce of silence or a full maximum wait |
| Watcher.FiringExact | internal/hub/workers.go:468-533 | which profiles a poll fires |
| Watcher.SessionWatcher.InitBaselines | internal/hub/workers.go:433-445 | every configured profile starts idle at its current newest file |
| Watcher.SessionWatcher.PollOnce | internal/hub/workers.go:468-533 | each profile moves by its own poll alone, and the triggered list is the sorted profiles that fire |
| Watcher.PollProfile | internal/hub/workers.go:495-523 | one profile's step |
| Candidates.DistinctByContent | internal/effective/merge.go:43-56 | whatever the map's iteration and the unstable sort do: one candidate per content in order of reference, and only one such list when references differ |
| Candidates.DistinctUnique | internal/effective/merge.go:43-56 | different references leave iteration and sort no choice |
| Candidates.DistinctExact | internal/effective/merge.go:39-56 | one candidate per content, all contents covered, pairwise different |
| Candidates.CandidateRefs | internal/effective/merge.go:58-65 | a sorted permutation of the references |
| Candidates.HighestExact | internal/effective/merge.go:67-78 | no candidate has stronger evidence and some candidate has this much, or the claim is E0 |
| Candidates.HighestPermutation | internal/effective/merge.go:70-78 | the claim does not depend on the order of the candidates |
| Candidates.LookupProgram | internal/effective/precedence.go:24-38 | a program is found exactly when one and only one has the concept's prefix |
| Candidates.WinnerExact | internal/effective/merge.go:263-281 | the loop ends with one winner exactly when one candidate is strictly above all others and not below the floor |
| Candidates.PickWinners | internal/effective/merge.go:263-277 | the loop computes the candidates at the best rank |
| MergeOperators.ResolveGroup | internal/effective/merge.go:85-205 | agreement, gates and operators in the source's order; the outcome, and what is left of the candidates, are what some iteration gives |
| MergeOperators.ResolveByScopeRank | internal/effective/merge.go:258-303 | the loop form of REPLACE and UNION_BY_ID |
| MergeOperators.ResolveDeepMerge | internal/effective/merge.go:321-353 | the loop form of DEEP_MERGE; the content is that of folding by rank for some iteration of every table, and the candidates, a refusal's included, are left as that iteration leaves them |
| MergeOperators.ResolveFirstMatch | internal/effective/merge.go:484-539 | the loop form of FIRST_MATCH |
| MergeOperators.ResolveDenyWins | internal/effective/merge.go:569-618 | the loop form of DENY_WINS |
| MergeOperators.ResolveManagedGuardrail | internal/effective/merge.go:627-664 | the loop form of MANAGED_GUARDRAIL |
| MergeOperators.ResolveConcatWithinGroup | internal/effective/merge.go:455-475 | the loop form of CONCAT_ORDERED inside a group |
| MergeOperators.OrderedRefs | internal/effective/compose.go:15-42 | the composition order, confirmed exactly when a non-empty rank covers every scope |
| MergeLaws.ConcatOrderExact | internal/effective/compose.go:15-42 | the order is known exactly then, and is every source's reference once, by ascending rank and within a rank by reference |
| MergeLaws.ConcatIgnoresOrder | internal/effective/compose.go:15-42 | it does not depend on the order sources were found in when references differ |
| MergeOperators.Applied | internal/effective/merge.go:224-250 | an entry carries the group's identity, its program and exactly the strongest evidence; a refusal hands every candidate on; UNSPECIFIED never resolves |
| MergeLaws.NeverGuesses | internal/effective/merge.go:172-205 | a disagreement is resolved only under the one program of the concept, a defined operator and an EXACT or COMPATIBLE capability |
| MergeLaws.AgreementResolves | internal/effective/merge.go:90-170 | agreeing candidates always give an entry, whatever the knowledge says |
| MergeLaws.ConflictKeepsCandidates | internal/effective/merge.go:666-676 | a conflict hands on every candidate as deciding leaves it; only a refused deep merge leaves one other than it was read, and then only its tables |
| MergeLaws.SourcesConserved | internal/effective/merge.go:85-303 | active and ignored references partition the candidates, and the representatives under REPLACE and UNION_BY_ID |
| MergeLaws.ReplaceListsAllExact | internal/effective/merge.go:258-303 | REPLACE and UNION_BY_ID account for every source exactly when all contents differ |
| MergeLaws.ReplaceCanOmit | internal/effective/merge.go:258-303 | two sources of one content under a third that outranks them: one of the two is listed nowhere |
| MergeLaws.SourcesConservedWithOmitted | internal/effective/merge.go:85-303 | with the repeats that those two omit, every source once, whatever the operator |
| MergeLaws.DenialsHonoured | internal/effective/merge.go:93-151 | where contents agree and under DENY_WINS, denied sources are exactly the ignored ones and never active |
| MergeLaws.ReplaceExact | internal/effective/merge.go:252-303 | decides exactly when a rank for every scope puts one content strictly above the others, at -1 or higher; that one is selected |
| MergeLaws.FirstMatchExact | internal/effective/merge.go:477-539 | decides exactly when every scope is listed and one content comes strictly first; that one is selected |
| MergeLaws.DenyWinsExact | internal/effective/merge.go:562-618 | decides exactly when the survivors agree; nothing is selected exactly when all are denied |
| MergeLaws.GuardrailExact | internal/effective/merge.go:620-664 | decides exactly when managed sources exist and agree, whatever the others say |
| MergeLaws.DeepMergeExact | internal/effective/merge.go:315-353 | decides exactly when all contents are structured and nothing collides or every scope is ranked; without collisions the content is the join |
| MergeLaws.HiddenIterationOneDecision | internal/effective/merge.go:321-353 | where no subtables collide a group has one outcome and its candidates are left one way, whatever the iteration |
| MergeLaws.RankedExact | internal/effective/merge.go:321-378 | ranked contents, any number, steady up to the last step: one outcome, and one way the candidates are left, exactly when the last step is steady too |
| MergeLaws.UnrankedExact | internal/effective/merge.go:321-378 | without a rank for every scope, any number of contents: the same exactly when nothing collides or the refused step is steady on the subtables it shares with what was merged before |
| MergeLaws.TwoUntouchedExact | internal/effective/merge.go:321-378 | two contents, ranked or not: the candidates are left as they were read, in every iteration, exactly when the one merged last adds nothing below a subtable of the other |
| MergeLaws.TwoContentsExact | internal/effective/merge.go:321-378 | two ranked contents have one outcome, and are left one way, exactly when merging the higher into the lower is steady |
| TableMerge.DeepMergeInto | internal/effective/merge.go:405-436 | for the iteration that happened, step by step, early end included; reports a conflict exactly when some leaf differs, and holds the overlay when no subtables collide |
| TableMerge.AfterSettled | internal/effective/merge.go:407-436 | at any point of any iteration: a conflict exactly when a visited key collided, an early end only for a collision in a subtable, the overlay at every visited key otherwise |
| TableMerge.MergeExact | internal/effective/merge.go:405-436 | a full merge reports a conflict exactly when some leaf differs and ends early exactly when subtables collide, in every iteration |
| MergeWinners.LeafWrittenExact | internal/effective/merge.go:405-436 | a leaf of the source is sure to be written exactly when no subtables collide or it is there already |
| MergeWinners.IterationExact | internal/effective/merge.go:405-436 | the result is the same in every iteration exactly when the merge is steady: no subtables collide, or one pair does, everything else adds nothing, and the pair is steady |
| TableMerge.DeepMergeAll | internal/effective/merge.go:362-378 | fails exactly when the rank is incomplete and two sources collide; otherwise folds by ascending rank for the iterations that happened; compatible sources give their least upper bound; refused or not, the sources are left as the merges since have written into them |
| TableMerge.ScopeRankCoversAll | internal/effective/merge.go:389-396 | membership of every scope, not a count |
| DeepMerge.FoldIsJoin | internal/effective/merge.go:362-378 | pairwise compatible sources fold to their least upper bound in whatever order |
| DeepMerge.FoldCompatible | internal/effective/merge.go:398-436 | a collision with what has been merged is a collision with some earlier source |
| DeepMerge.JoinUnique | internal/effective/merge.go:362-378 | permuting sources or iteration cannot change the join |
| DeepMerge.JoinExists | internal/effective/merge.go:362-378 | a common upper bound exists exactly when sources are pairwise compatible |
| MergeWinners.HighestRankWins | internal/effective/merge.go:355-378 | in every iteration a source whose subtables collide with no other source's keeps each leaf for which it outranks all others setting it |
| MergeWinners.HighestRankCanLose | internal/effective/merge.go:419-424 | with a collision in a subtable beside it, the higher-ranked source's leaf is lost in one iteration and kept in another |
| MergeWinners.LaterSourceWinsExact | internal/effective/merge.go:362-378 | of two sources the one merged last is sure to keep its leaf exactly when no subtables collide or the other says the same |
| MergeWinners.TiedLaterWins | internal/effective/merge.go:365-371 | at every leaf where two sources of one rank collide the later in the list is sure to be read, either way round, exactly when no subtables collide |
| MergeWinners.TiedPairExact | internal/effective/merge.go:365-371 | listing two sources of one rank the other way round cannot show exactly when they do not collide |
| MergeWinners.ListOrderNeverShows | internal/effective/merge.go:362-378 | with any number of sources neither list order nor iteration shows when no subtables collide and sources of one rank agree |
| SharedTables.LastUntouched | internal/effective/merge.go:405-436 | the source merged last is as it was read |
| SharedTables.FirstSteadyExact | internal/effective/merge.go:405-436 | merging a second source leaves the first the same in every iteration exactly when no shared subtables collide, or one pair does, every other shared pair adds nothing, and that pair is steady |
| SharedTables.FirstUntouchedExact | internal/effective/merge.go:414-420 | merging a second source leaves the first as it was, in every iteration, exactly when it adds nothing below the first one's subtables |
| SharedTables.AgreeingLeftSame | internal/effective/merge.go:362-378 | sources whose subtables never collide on the way are left the same in every iteration |
| SharedTables.RefusalLeftExact | internal/effective/merge.go:362-378 | any number of sources: a refused merge leaves them all the same in every iteration exactly when the refused step is steady on the subtables it shares |
| SharedTables.RefusalRewritesOne | internal/effective/merge.go:419-424 | of two colliding subtables a refused merge rewrites the one the iteration reaches first and leaves the other |
| SharedTables.RefusalDependsOnIteration | internal/effective/merge.go:419-424 | two sources that collide and whose refusal is not steady |
| SharedTables.EveryFoldExact | internal/effective/merge.go:362-378 | any number of sources: the result after each of them is the same in every iteration exactly when every step is steady |
| SharedTables.LastStepExact | internal/effective/merge.go:362-378 | behind steady steps the end result is the same in every iteration exactly when the last step is steady |
| SharedTables.LastMergedWinsExact | internal/effective/merge.go:362-378 | behind steady steps the source merged last is sure to keep its leaf exactly when its subtables collide with nothing merged before or the leaf is there already |
| TableMemory.MergeContents | internal/effective/merge.go:405-436 | forgetting addresses, the merge of documents that lie in memory is the merge of values |
| TableMemory.LinkedOnMerge | internal/effective/merge.go:412-420 | once merged, each table of a source is merged into the destination's at its key, is the destination's own there, or is nowhere in it |
| TableMemory.LinkedStays | internal/effective/merge.go:405-436 | and stays so, with the contents its history says, while any other source is merged |
| TableMemory.LaterExact | internal/effective/merge.go:362-378 | so after any number of merges every source reads what the model on values says |
| TableMemory.FollowStored | internal/effective/merge.go:405-436 | a merge that writes only into tables of the destination leaves each earlier source stored as following its references says |
| TableMemory.Memory.MergeKey | internal/effective/merge.go:407-431 | one key in memory: an absent one is adopted, two tables are merged in the first one's place, a value that differs is replaced |
| TableMemory.Memory.DeepMergeInto | internal/effective/merge.go:405-436 | the recursive loop in place: the destination holds the merged document for the iteration that happened, and nothing else in memory has changed |
| TableMemory.Memory.MergeInOrder | internal/effective/merge.go:362-378 | afterwards memory holds the fold, refused exactly when the rank is incomplete and two sources collide, and at every source's address what the model on values says |
| Identity.KeySplits | internal/effective/identity.go:27-37 | splitting a key at its first NUL gives back concept and logical id |
| Identity.GroupsPartition | internal/effective/identity.go:23-41 | every candidate is in exactly one group |
| Identity.GroupsExact | internal/effective/identity.go:23-41 | groups are not empty, share their members' identity and differ in it |
| Identity.GroupsIgnoreOrder | internal/effective/identity.go:23-41 | permuting candidates with different references changes no group |
| Identity.AmbiguousExact | internal/effective/identity.go:67-98 | a pair is reported, in reference order, exactly when two server registrations have equal definitions under different ids |
| Identity.AmbiguousOnce | internal/effective/identity.go:67-98 | and only once |
| Identity.DetectAmbiguousIdentities | internal/effective/identity.go:67-98 | the double loop computes the pairs; different references leave the unstable sort no choice |
| Identity.MatchIdentities | internal/effective/identity.go:23-44 | the map and slices built in loops are the groups and pairs when references differ |
| Duplicates.FingerprintAppends | internal/effective/duplicate.go:48-50 | fingerprints are taken character by character |
| Duplicates.SeparatorsAreIgnored | internal/effective/duplicate.go:43-50 | inserting separators anywhere changes no fingerprint |
| Duplicates.FingerprintKeepsPlain | internal/effective/duplicate.go:43-50 | a fingerprint is its own fingerprint |
| Duplicates.DuplicatesExact | internal/effective/duplicate.go:71-109 | a fingerprint is reported exactly when it is not empty and two kinds of source share it |
| Duplicates.ReportsOrdered | internal/effective/duplicate.go:84-107 | reports come once, in increasing order, each listing every source that shares it |
| Duplicates.DetectDuplicateCapabilities | internal/effective/duplicate.go:71-109 | the loops compute the reports, up to the order of sources that tie |
| Duplicates.ReportUniqueExact | internal/effective/duplicate.go:95-107 | there is one report exactly when no two sources of a reported capability tie in kind, owner and reference |
| Duplicates.MCPToolSources | internal/effective/duplicate.go:117-128 | the nested loops list every tool of every registered server |
| EffectiveGraph.ExtractCandidates | internal/effective/extract.go:24-56 | fails exactly when some observation cannot be read; otherwise every candidate in order, and the canonical list when references differ |
| EffectiveGraph.ComposeConcept | internal/effective/compose.go:57-94 | one entry for the concept |
| EffectiveGraph.CompositionOrder | internal/effective/compose.go:57-94 | all its sources are active; an order is stated exactly when every scope is ranked and the capability qualified, and is those sources by rank and reference |
| EffectiveGraph.CompositionIgnoresOrder | internal/effective/compose.go:57-94 | the entry does not depend on the order groups and sources were found in |
| EffectiveGraph.OutcomesDistinct | internal/effective/resolve.go:87-122 | no (concept, id) is decided twice |
| EffectiveGraph.SplitDistinct | internal/effective/resolve.go:114-121 | nor listed both as an entry and as a conflict |
| EffectiveGraph.SortUnique | internal/effective/resolve.go:127-138 | an unstable sort of different identities has one result |
| EffectiveGraph.ComputeEffectiveGraph | internal/effective/resolve.go:68-141 | the errors exactly, and otherwise a graph of the candidates read for the host, and these as deciding leaves them, when references differ |
| GraphLaws.GraphSorted | internal/effective/resolve.go:127-138 | entries and conflicts are strictly increasing and disjoint in identity |
| GraphLaws.EachGroupDecidedOnce | internal/effective/resolve.go:99-122 | outside composed concepts every group has one of its possible outcomes in the graph, as exactly one entry or one conflict; a composed concept has one entry listing all its sources |
| GraphLaws.NothingInvented | internal/effective/resolve.go:99-122 | every conflict and every entry that is no composition is a possible outcome of some group |
| GraphLaws.GraphConservesSources | internal/effective/resolve.go:68-141 | in every graph every source is active, ignored, in a conflict, or a repeat omitted under REPLACE or UNION_BY_ID, exactly once |
| GraphUniqueness.GraphUniqueExact | internal/effective/resolve.go:68-141 | candidates with different references have one graph exactly when every decided group has one outcome, every candidate listed in an ambiguous pair is left one way, and the sources of each duplicate capability are told apart |
| GraphUniqueness.OneGraphExact | internal/effective/resolve.go:68-141 | in terms of what is merged: where ranked merges are steady up to their last step, one graph exactly when ranked merges are steady, refusals are steady, and those sources are told apart |
| GraphUniqueness.UnrankedGraphExact | internal/effective/resolve.go:68-141 | without any rank, as computed by `internal/report/build.go:106` and `internal/runtime/verify.go:345`: one graph exactly when every refusal of a deep merge is steady and those sources are told apart |
| GraphUniqueness.GraphIgnoresObservationOrder | internal/effective/resolve.go:68-141 | permuting the observations changes nothing in the result, nor in how the candidates are left, when references differ, no subtables collide in a deep merge and the sources of each duplicate capability are told apart |
| GraphUniqueness.TwoGraphsOfOneInput | internal/effective/merge.go:419-424 | two registrations, ranked, colliding in a subtable and beside it: two different graphs of one input |
| GraphUniqueness.TwoConflictsOfOneInput | internal/effective/merge.go:355-378 | two registrations, unranked, colliding in two subtables: two different graphs of one input |
| SecondExtraction.SecondReadExact | internal/report/build.go:134 | extracting again finds the same candidates in the same order, each with its table as it was left and the digest of that |
| SecondExtraction.SecondExtractionExact | internal/report/build.go:106-134 | it finds what the first extraction found, in every iteration, exactly when no decision writes into a candidate |
| SecondExtraction.SecondExtractionOfTwo | internal/report/build.go:106-134 | where deep merges have two contents, exactly when the one merged last adds nothing below a subtable of the other |
| Assurance.CeilingFor | internal/assurance/ceiling.go:168-175 | finds the first row; none exactly when no row covers the cell |
| Assurance.VerifyGraphWithCeilings | internal/assurance/verify.go:60-78 | every entry and conflict is re-derived on its own and nothing else in the graph moves |
| Assurance.VerifyIdempotent | internal/assurance/verify.go:17-78 | verifying a verified graph changes nothing |
| Assurance.VerifyMonotone | internal/assurance/verify.go:139-154 | higher ceilings never lower a level or lose a confirmation |
| Assurance.VerifyBounds | internal/assurance/verify.go:43-55 | no level above its cap, E1 when undeclared; confirmations are only lost and need E3; no other field changes |
| Assurance.ConflictBounds | internal/assurance/verify.go:134-154 | a conflict's level is the smaller of what it was and the cap; no other field changes |
| Assurance.VerifyRaises | internal/assurance/verify.go:27-37 | a level rises only to E2 and only after a qualified resolution |
| Assurance.NothingConfirmedToday | internal/assurance/ceiling.go:65-159 | under the committed table no entry about an instruction, skill or server stays confirmed or above E2 |
| Assurance.VerifyGraph | internal/assurance/verify.go:16-18 | so nothing but a claim about the host binary leaves the pass confirmed |
| Drift.GroupWithSampleLimit | internal/drift/group.go:48-98 | the result is a grouping: sorted keys, one card each, ordered rows, counts, guarantee and samples |
| Drift.CardsPartition | internal/drift/group.go:48-98 | keys strictly increase, rows partition the input as a multiset, artifact counts sum to its length |
| Drift.GroupingIgnoresInputOrder | internal/drift/group.go:74-98 | when tied rows are equal, permuting the input changes no card |
| Drift.TiesAreVisible | internal/drift/group.go:100-115 | when two different rows tie, one input has two different groupings |
| Drift.ComputeImpact | internal/drift/group.go:121-132 | counts of distinct projects and hosts, and of rows |
| Drift.ComputeEvidenceCounts | internal/drift/group.go:138-150 | a tally of the rows' evidence levels |
| Drift.RepresentativeGuarantee | internal/drift/group.go:156-171 | the guarantee that every row naming one agrees on; empty exactly when none names one or two differ |
| Drift.RepresentativeUnique | internal/drift/group.go:156-171 | there is only one such answer |
| Drift.SelectSamples | internal/drift/group.go:185-216 | the two passes compute the first rows of each bucket, then the repeats, cut at the limit |
| Drift.SamplesCoverBuckets | internal/drift/group.go:173-216 | exactly min(limit, rows) samples; all buckets when they fit, otherwise exactly the first buckets, each by its earliest row |
| Drift.SampleOrderPermutes | internal/drift/group.go:185-216 | no row is used twice and none is left over when there is no limit |
| Drift.UnlimitedSamplesAreMatrixOrder | internal/drift/group.go:173-184 | unlimited samples read like the matrix exactly when repeats come last |
| Nesting.ScanNodes | internal/hub/watchdog.go:53-97 | well-nested text returns the scanner to where it was, unless it is nested past the bound |
| Nesting.ParseExists | internal/hub/watchdog.go:53-97 | every text with a strict scan is a prefix of well-nested pieces under the scanner's stack |
| Nesting.WellNestedIffStrict | internal/hub/watchdog.go:53-97 | within the bound, a text is well-nested exactly when its scan is strict and ends where it began |
| Nesting.DepthBoundExact | internal/hub/watchdog.go:73-101 | the scan gives up exactly when nesting is deeper than the bound |
| Repair.ScanText | internal/hub/watchdog.go:53-97 | the loop computes the scan |
| Repair.JSONAutoRepair | internal/hub/watchdog.go:36-140 | the method computes the repaired text |
| Repair.RepairRescansClean | internal/hub/watchdog.go:36-140 | the output rescans to an empty stack outside any string and extends the trimmed input minus a dangling backslash |
| Repair.RepairIdempotent | internal/hub/watchdog.go:36-140 | repairing again changes nothing while under the size cap |
| Repair.RepairIsWellNested | internal/hub/watchdog.go:53-140 | a prefix of some well-nested text is repaired to well-nested text, the injected member included |
| Repair.RepairWellNestedIff | internal/hub/watchdog.go:53-140 | within the depth bound the output is well-nested exactly when the input had no mismatched closer |
| Repair.TruncatedObjectIsMarked | internal/hub/watchdog.go:120-132 | a truncated object ends in the injected member, directly inside its root |
| Ngram.BlocksEqual | internal/hub/watchdog.go:163-176 | comparing space-joined blocks is comparing words |
| Ngram.LinedStep | internal/hub/watchdog.go:163-176 | a block equal to the first one lengthens the periodic stretch by a block, one that differs ends it |
| Ngram.DetectNgramLoop | internal/hub/watchdog.go:144-181 | true exactly when the last 2000 words contain a stretch of n * r words with period n |
| Ngram.CheckCallLoop | internal/hub/watchdog.go:191-213 | reports exactly when the last calls up to the threshold are all alike |
| Text.JoinInjective | internal/hub/watchdog.go:163-170 | joining words without spaces is injective |
| Vault.ExpandEnv | internal/hub/vault.go:15-66 | the output is the concatenated meanings of the left-to-right tokens; substituted values are never read again |
| Vault.ExpandAt | internal/hub/vault.go:15-66 | one iteration consumes exactly one token |
| Vault.TokensTile | internal/hub/vault.go:15-66 | the tokens spell the input |
| Vault.DoubledExpandsBack | internal/hub/vault.go:23-28 | doubling every dollar protects any text under every environment |
| Vault.FixedTexts | internal/hub/vault.go:15-66 | a text survives every environment exactly when it survives the empty one, that is, holds no reference |
| Vault.IsValidEnvName | internal/hub/vault.go:69-85 | the loop accepts exactly the valid names |
| ShellQuote.ReadQuote | cmd/omca/env.go:200-212 | by the quoting rules of sections 2.2.1 and 2.2.2 of the POSIX.1-2017 Shell Command Language a quoted string adds exactly the string to the word |
| ShellQuote.QuoteIsOneWord | cmd/omca/env.go:210-212 | so it is read back as that one word |
| ShellQuote.PrintedExportsReadBack | cmd/omca/env.go:192-197 | the five printed assignments are read back as the five variables with their values |
| Versions.CompareIsTotalOrder | internal/knowledge/semver.go:45-53 | comparison is a total order |
| Versions.RangeIsConvex | internal/knowledge/semver.go:107-138 | what lies between two satisfying versions satisfies |
| Versions.SuffixIsIgnored | internal/knowledge/semver.go:25-40 | a pre-release or build suffix never affects satisfaction |
| Versions.ParseVersionRange | internal/knowledge/semver.go:81-101 | the loop parses every term or fails |
| Versions.VersionSatisfiesRange | internal/knowledge/semver.go:107-138 | the loop decides the conjunction |
| Versions.Resolve | internal/knowledge/repository.go:168-204 | the loop collects the matching packs |
| Versions.QualifiedIffUnique | internal/knowledge/repository.go:168-204 | a pack is qualified exactly when it alone matches |
| Versions.ResolveIgnoresPackOrder | internal/knowledge/repository.go:168-204 | the order packs were loaded in does not matter |
| Versions.DisjointNeverAmbiguous | internal/knowledge/repository.go:168-204 | packs with pairwise disjoint ranges never give an ambiguous result |

## Left out

- TableMerge.DeepMergeInto: merges values; the same loop on references is `TableMemory.Memory.DeepMergeInto`. The reported path, which the code also reuses as a prefix after a first conflict, is only part of a reason text.
- TableMemory.Memory.MergeInOrder: the sources share no table when the merge begins, as they do when they have just been decoded; merging the same observations a second time is not modelled.
- MergeLaws.RankedExact: three or more ranked contents are decided up to the first step that is not steady; what such a step leaves different a later source can cover up.
- MergeLaws.HiddenIterationOneDecision: the condition is the simple sufficient one; the exact ones are `RankedExact` and `UnrankedExact`.
- MergeWinners.HighestRankWins: for three or more sources the condition, which needs no fold to check, is sufficient; the exact ones are `LaterSourceWinsExact` and `LastMergedWinsExact`.
- GraphUniqueness.GraphUniqueExact: for candidates whose references differ, as do all the others about graphs, since an unstable sort by reference decides otherwise.
- MergeOperators.ResolveGroup: where two candidates of a group share a reference nothing is promised of the outcome, since an unstable sort by reference then decides; nor of `ResolveByScopeRank`, `ResolveDeepMerge`, `ResolveFirstMatch`, `ResolveDenyWins` and `ResolveManagedGuardrail`, which it calls, and of `Identity.MatchIdentities` and `Identity.DetectAmbiguousIdentities`.
- EffectiveGraph.ExtractCandidates: what one observation yields is a parameter; that its tables are the candidates' own is used in `SecondExtraction`.
- Repair.JSONAutoRepair: text is a sequence of Unicode characters; invalid UTF-8 is not modelled, and full JSON validity, which the hub checks separately, is not claimed.
- Ngram.DetectNgramLoop: the product of block size and threshold does not overflow.
- Vault.ExpandEnv: UTF-8 decoding and the Unicode tables behind `${name}` are parameters; loading environment files and hydrating a whole tool configuration only apply it.
- ShellQuote.PrintedExportsReadBack: the sixth line, which extends PATH, is fixed text.
- Throttle.Limiter.ThrottleRateLimit: time is real-valued; truncation to nanoseconds and rounding of floating point are not modelled.
- Multiplexer.RunKeepsInv: the statements hold while fewer than 2^64 requests have been numbered; at most one live subprocess per tool is not claimed, since an old reader's final drain is not tied to its own process.
- HubInstance.Hub.Start: daemons without the lock may only be alive at the beginning and die; that they unlink the path themselves when they close is not modelled.
- HubInstance.RunKeepsInv: runs in which a hub that never started is closed while another has the path in use are excluded, by the exact condition of `StrayCloseExact`; a second `Close` of one hub, which panics, is not modelled.
- Watcher.SessionWatcher.PollOnce: which files belong to a profile and their modification times are inputs; running the distiller is the count of runs.
- The handshake cache and the interception of `initialize` and `tools/list`, the race between a failed start and a nil standard input, killing process groups.
- Reading observations into candidates (paths, front matter, registration files), schema validation, repository loading, capability and status lookups.
- Reason strings, timestamps, digest computation: digests stand for contents.
- Registering, listing and killing workers; swarm quorum; context cost; audit scores; the command line and the terminal interface.
