# Artemis Switch core logic in Dafny

A model of the stateful parts of the client and proofs about it: the remote-access route manager
with its leases, the queue of decoded frames, the writers of forwarder containers, and two
smaller pieces, the XML folds and the benchmark statistics. `dafny verify dfyconfig.toml` checks
the project.

**Routes.** `RouteTable` holds the manager's bookkeeping and the effect of each critical section
on it. Two models share it. `RouteProtocol` is the concurrent one: a call in flight is a program
counter, taking a lock is a step of its own, and providers answer as they like. `RouteLocks`,
`RouteInvariants`, `RouteSteps`, `RouteOwnership`, `RouteCoverage`, `RouteHistory` and
`RouteAgreement` prove what each step keeps, `RouteTheorems` and `RouteJoiners` what holds in every
run; `RouteGenerations` counts the stops and publications, and `RouteVerdicts`, `RoutePrepare` and
`RouteSelect` say what the results of the calls mean. `RouteWitness` builds runs that show where
the promises end, and `RoutePartings` continues given ones to there. `RouteManager` is the class, one call at a time,
proved against the sections of the table and against a simple counted map; `RouteLease` is the
lease class, with reference counts tied to the live leases.

**Frames.** `FrameStore` is the queue as a value: who owns a frame, what happened to every push,
and what a draw does. `FrameRuns` follows it through runs of the public calls and bounds the pool of
frames; `FrameQueue` is the class, proved against both. `FrameOutcomes` puts draws and pushes in
numbers. `Pacing` has the arithmetic of the frame credit and of the present gate, and `FramePacing`
what the pace amounts to over many draws.

**Forwarder containers.** `Bytes` is the growing buffer with its cursor and little-endian fields.
`Pfs0`, `RomfsHash`, `RomfsLayout`, `Romfs`, `Blocks`, `HashTree` and `Nca` are the writers, down
to the context list that is threaded through the heap; `Pfs0`, `RomfsReader`, `RomfsWalk` and `NcaReader`
also contain readers, which follow nothing but what is written in the image.

**Text and numbers.** `XmlSearch` and `AppList` are the XML handlers over the events of a parser,
with the app list reversed in place; `Benchmark` has percentiles, summaries and the score.
`Numbers` and `Wrappers` are shared by all.

## Model

| member | source | states |
|---|---|---|
| `RouteTheorems.RoutesBelongToActiveProvider` | app/src/remote_access/RemoteAccessManager.cpp:154-181 | in every interleaving every route belongs to the active provider and its current generation, is kept under the key of its target, is not Failed and is referenced; an exclusive provider has one route at most, and without an active provider there are none |
| `RouteTheorems.EntriesOnlyAge` | app/src/remote_access/RemoteAccessManager.cpp:225-282 | between any two states of a run, `setActiveProviderId` included, generations do not decrease, entries keep target and generation, a Failed entry stays Failed and none returns to Activating |
| `RouteTheorems.NoStrandedWaiter` | app/src/remote_access/RemoteAccessManager.cpp:226-230 | in every run, `setActiveProviderId` included, a call on the condition variable waits on an Activating entry whose one creator is in flight and has yet to commit; so no notification is lost |
| `RouteTheorems.NoLockCycle` | app/src/remote_access/RemoteAccessManager.hpp:85-87 | in every run, `setActiveProviderId` included, calls that block each other on locks form a chain of distinct calls, with three blocked ones at most |
| `RouteTheorems.SomeCallCanMove` | app/src/remote_access/RemoteAccessManager.hpp:113-116 | in every run, `setActiveProviderId` included: whenever calls are in flight, some call can go on, spurious wake-ups not counted |
| `RouteVerdicts.CreatorVerdict` | app/src/remote_access/RemoteAccessManager.cpp:265-286 | in every run, at the commit of the call that created an entry: it succeeds exactly if its provider accepted, nobody has failed the entry and no provider was stopped or published since it was created; then its route is in the table, Active, current and of the active provider; otherwise the entry is Failed and out of the table, and what was accepted is about to be undone |
| `RouteVerdicts.ActivatingIsPresent` | app/src/remote_access/RemoteAccessManager.cpp:154-165 | without `setActiveProviderId` an entry that is still Activating is of the present run of its provider, so the first two conditions decide |
| `RouteVerdicts.ActivateVerdict` | app/src/remote_access/RemoteAccessManager.cpp:210-287 | in every run, whatever block a call of `activateRoute` returns from: true exactly if it commits an entry of its own or joins an Active one, of the present run of its provider |
| `RouteVerdicts.OnlyKnownProvidersEnter` | app/src/remote_access/RemoteAccessManager.cpp:212-214 | a call gets as far as the table exactly if its provider is registered and its target has a peer |
| `RouteGenerations.GenerationCounts` | app/src/remote_access/RemoteAccessManager.cpp:85-86 | two states of a run have the same generation exactly if no provider was stopped or published between them; then the same provider is active |
| `RouteGenerations.SameGeneration` | app/src/remote_access/RemoteAccessManager.cpp:231-232 | an entry has the current generation exactly if no provider was stopped or published since it was created |
| `RouteTheorems.StaleActivationIsUndone` | app/src/remote_access/RemoteAccessManager.cpp:260-287 | a finished call whose target the provider accepted has succeeded, or had the provider drop the target before releasing the provider's mutex and failed |
| `RouteTheorems.NoRouteIsLeaked` | app/src/remote_access/RemoteAccessManager.cpp:260-287 | what a provider has accepted and not dropped is an Active route or owed by a call in flight; with no call in flight only the active provider serves targets, and only those of Active routes |
| `RouteTheorems.OverrideKeepsOwnership` | app/src/remote_access/RemoteAccessManager.cpp:82-87 | `setActiveProviderId` leaves a table that belongs to the active provider if and only if there was no route |
| `RouteAgreement.TableAndProviderAgree` | app/src/remote_access/RemoteAccessManager.cpp:210-287 | in every run in which no route is created while another call still waits for the provider to drop that target or to activate it for another entry, and `stopProvider` finds no Active route, every Active route is served at every moment; with no call in flight providers serve exactly the Active routes |
| `RoutePartings.CarelessStepParts` | app/src/remote_access/RemoteAccessManager.cpp:210-287 | the converse: from wherever a step goes against that condition, calls already in flight can go on until an Active route is not served, the two calls concerned being finished; so with no other call in flight table and provider have parted |
| `RoutePartings.CarefulExactly` | app/src/remote_access/RemoteAccessManager.cpp:210-287 | a step from a state in which table and provider agree leads to one in which they agree if and only if it meets that condition |
| `RouteWitness.PartedByDeactivation` | app/src/remote_access/RemoteAccessManager.cpp:357-362 | a run that ends with an Active route the provider does not serve: a deactivation tells the provider after the route was brought back |
| `RouteWitness.PartedByRival` | app/src/remote_access/RemoteAccessManager.cpp:284-285 | the same end without any deactivation: a late activation takes back a target that another call has activated since |
| `RouteWitness.PartedByReplacement` | app/src/remote_access/RemoteAccessManager.cpp:243-262 | the same end through an exclusive replacement that is told to the provider late |
| `RouteWitness.PartedByStopping` | app/src/remote_access/RemoteAccessManager.cpp:98-104 | the same end through `stopProvider`, which leaves the routes in the table |
| `RouteJoiners.ActiveEntryStays` | app/src/remote_access/RemoteAccessManager.cpp:345-357 | an Active entry is in the table if and only if no release has erased it so far |
| `RouteJoiners.JoinerVerdict` | app/src/remote_access/RemoteAccessManager.cpp:225-236 | in every run a joining call succeeds exactly if its entry is Active and no provider was stopped or published since the entry was created; then its provider is the active one and the entry gains one reference; otherwise nothing changes |
| `RouteJoiners.JoinedRoute` | app/src/remote_access/RemoteAccessManager.cpp:225-236 | the route that a call has joined is in the table if and only if no release has erased it since |
| `RouteWitness.JoinerMayBeLate` | app/src/remote_access/RemoteAccessManager.cpp:228-235 | a run in which a joiner is about to succeed while the table is empty |
| `RoutePrepare.PrepareVerdict` | app/src/remote_access/RemoteAccessManager.cpp:303-331 | in every run a finished call of `prepareRouteForStreaming` has found no Active route of a registered provider under its key, asked nobody and returned false; or has found one and asked about its target, and returned true exactly if the provider said yes and no provider was stopped or published from finding the route to the check |
| `RouteSelect.SelectVerdict` | app/src/remote_access/RemoteAccessManager.cpp:106-181 | in every run a finished selection has told the provider that was active to stop, then the chosen one, if it is registered, to start; it succeeded exactly if that one said yes, and has made it the active one in a new generation |
| `RouteSelect.TellVerdict` | app/src/remote_access/RemoteAccessManager.cpp:89-104 | `startProvider` returns what a registered provider says, false for others; `stopProvider` tells it; the table stays as it is |
| `RouteManager.RemoteAccessManager.RegisterProvider` | app/src/remote_access/RemoteAccessManager.cpp:9-14 | a provider under a new id is found from then on; one whose id is taken changes nothing, as lookups find the first; routes stay as they are |
| `RouteManager.RemoteAccessManager.ActivateRoute` | app/src/remote_access/RemoteAccessManager.cpp:210-287 | one at a time: the counted map gains a reference or a route, exclusive ones alone; the provider drops each replaced target once, then is asked, and nobody else is told anything; table and providers keep agreeing |
| `RouteManager.RemoteAccessManager.DeactivateRoute` | app/src/remote_access/RemoteAccessManager.cpp:333-364 | one at a time: one reference less on the route found, and the last one erases the route and has its provider drop it |
| `RouteManager.RemoteAccessManager.FindRoute` | app/src/remote_access/RemoteAccessManager.cpp:289-301 | the exact key, else for an empty address some route to that peer, else nothing |
| `RouteManager.RemoteAccessManager.PrepareRouteForStreaming` | app/src/remote_access/RemoteAccessManager.cpp:303-331 | asks the provider about the route found, and nobody else; the answer is the result, false without a route; table and routes stay as they are |
| `RouteManager.RemoteAccessManager.SelectAndStartProvider` | app/src/remote_access/RemoteAccessManager.cpp:106-147 | the old provider is stopped, the routes are gone, and the chosen one is started and active if it is found, available and starts |
| `RouteManager.RemoteAccessManager.StopActiveProvider` | app/src/remote_access/RemoteAccessManager.cpp:149-181 | no routes, no active provider, a new generation, and the active provider is told to stop |
| `RouteManager.RemoteAccessManager.HasActiveRoute` | app/src/remote_access/RemoteAccessManager.cpp:68-75 | tells whether the counted map has a route |
| `RouteManager.RemoteAccessManager.RetireOthers` | app/src/remote_access/RemoteAccessManager.cpp:243-257 | the loop erases and fails exactly the provider's other routes and lists the Active ones' targets, each once |
| `RouteManager.RemoteAccessManager.ForgetActiveProvider` | app/src/remote_access/RemoteAccessManager.cpp:157-169 | the loop erases and fails exactly the active provider's routes |
| `RouteManager.RemoteAccessManager.CommitRoute` | app/src/remote_access/RemoteAccessManager.cpp:265-282 | the second section as the protocol has it, and when the provider has to drop the target |
| `RouteLease.RemoteRouteLease.Acquire` | app/src/remote_access/RemoteRouteLease.hpp:10-23 | a construction counts one reference for an active lease; reference counts keep matching the live leases exactly unless an exclusive provider replaces a route |
| `RouteLease.RemoteRouteLease.Move` | app/src/remote_access/RemoteRouteLease.hpp:32-40 | the reference moves, the source holds nothing |
| `RouteLease.RemoteRouteLease.Release` | app/src/remote_access/RemoteRouteLease.hpp:77-82 | released by key; while the counts match the leases they go on matching, and the provider drops the route exactly with the last lease on it |
| `RouteLease.RemoteRouteLease.Assign` | app/src/remote_access/RemoteRouteLease.hpp:42-57 | the old reference is released and the other one taken over; assigning a lease to itself changes nothing |
| `RouteLease.RemoteRouteLease.PrepareForStreaming` | app/src/remote_access/RemoteRouteLease.hpp:70-75 | false for a lease that is not active or has no manager, true for one that needs no route; otherwise the provider of the route found for it is asked, and its answer is the result, false without a route; the table stays as it is |
| `RouteLease.StopUnderLeases` | app/src/remote_access/RemoteAccessManager.cpp:154-169 | stopping the provider keeps the counts matching the leases if and only if no lease holds a route |
| `RouteLease.SelectUnderLeases` | app/src/remote_access/RemoteAccessManager.cpp:112-114 | and so does selecting one |
| `RouteLease.StaleRelease` | app/src/remote_access/RemoteRouteLease.hpp:77-82 | for every provider that accepts: a lease from before a reselection releases the route of a lease from after it, which goes on believing to hold it, and the provider drops the target |
| `FrameQueue.AVFrameQueue.Configure` | app/src/streaming/AVFrameHolder.cpp:109-141 | sizes, targets and a fresh pacing state; if the queue held no frames, the pool starts within its bounds |
| `FrameQueue.AVFrameQueue.Push` | app/src/streaming/AVFrameHolder.cpp:147-198 | a frame joins the queue, with the deadline that the low-latency filter predicts; its arrival is noted by the clock of the path, which starts afresh if the queue overflows and is trimmed to the playout window; the push is counted; ownership, conservation and order are kept, what is lent out stays so, and the pool keeps to every bound that allows for the frame being filled |
| `FrameQueue.AVFrameQueue.PushTransferred` | app/src/streaming/AVFrameHolder.cpp:204-207 | the same for a frame handed over, which is no longer out; a frame that was not lent out is counted as foreign in the bounds |
| `FrameQueue.AVFrameQueue.Pop` | app/src/streaming/AVFrameHolder.cpp:213-384 | the draw does exactly what `NextDraw` says, and leaves the pace that `NextPace` says; it keeps ownership, conservation, order and the pool, shows a later push than before exactly when it consumes, and otherwise the same frame again |
| `FrameQueue.AVFrameQueue.PopLowLatency` | app/src/streaming/AVFrameHolder.cpp:227-266 | holds with the queue unchanged, or goes to the newest frame |
| `FrameQueue.AVFrameQueue.DrawLegacy` | app/src/streaming/AVFrameHolder.cpp:272-384 | rebuffer, resynchronise or follow the pace: which frames are consumed and skipped, in terms of the state before |
| `FrameQueue.AVFrameQueue.NextDraws` | app/src/streaming/AVFrameHolder.cpp:213-384 | on either path the next draw keeps the queue sound, and on the low-latency path a frame is consumed within a second of its arrival |
| `FrameQueue.AVFrameQueue.PrepareLatestFrame` | app/src/streaming/LowLatencyFrameSelection.hpp:15-36 | ready exactly if the oldest frame is due or the queue is backlogged; then only the newest frame is left, otherwise nothing changes |
| `FrameQueue.AVFrameQueue.TrimTo` | app/src/streaming/AVFrameHolder.cpp:649-658 | the trimming loop keeps the newest frames and recycles and counts the others |
| `FrameQueue.AVFrameQueue.TickDrawClock` | app/src/streaming/AVFrameHolder.cpp:272-292 | the averaged draw interval, and a stumbling clock restarts the pace |
| `FrameQueue.AVFrameQueue.TryResync` | app/src/streaming/AVFrameHolder.cpp:309-319 | resynchronises exactly when needed or backlogged and not empty, down to the playout window |
| `FrameQueue.AVFrameQueue.FollowPace` | app/src/streaming/AVFrameHolder.cpp:320-345 | how many frames are due without a resynchronisation, and what happens to the frame credit |
| `FrameQueue.AVFrameQueue.CarryOut` | app/src/streaming/AVFrameHolder.cpp:347-383 | consumes the due frames, or holds and restarts the pace on an empty queue |
| `FrameQueue.AVFrameQueue.ConsumeFrames` | app/src/streaming/AVFrameHolder.cpp:363-382 | the last consumed frame takes the screen, the others are recycled and counted as skipped |
| `FrameQueue.AVFrameQueue.RecordArrival` | app/src/streaming/AVFrameHolder.cpp:593-639 | an arrival that ends a window brings the estimate to 65 percent of its distance from the measured rate, and the first one onto it; every other arrival is only counted; the estimate stays between one frame a second and the configured rate |
| `FrameQueue.AVFrameQueue.UpdateLLFilter` | app/src/streaming/AVFrameHolder.cpp:664-720 | the filter starts with the configured interval; then an eighth of each error is made good, a quarter of one above half the prediction, within the limits of interval and velocity, and the jitter goes an eighth of the way to its size; the next arrival is predicted one filtered interval ahead, within a second |
| `FrameQueue.FollowsGetsCloser` | app/src/streaming/AVFrameHolder.cpp:693-710 | within the limits the filtered interval is closer to the measured one, by an eighth at least, than the prediction was |
| `FrameQueue.AVFrameQueue.AcquireWriteFrame` | app/src/streaming/AVFrameHolder.cpp:390-393 | lends the oldest free frame, else a new one, which is out from then on; the bounds grow with the number of frames out |
| `FrameQueue.AVFrameQueue.RecycleWriteFrame` | app/src/streaming/AVFrameHolder.cpp:395-398 | takes an unused frame back, which is no longer out; one that was not lent out is foreign |
| `FrameQueue.AVFrameQueue.Cleanup` | app/src/streaming/AVFrameHolder.cpp:494-532 | frees every stored frame and starts all statistics and clocks afresh; frames that are out stay out, and the bounds stand |
| `FrameRuns.RunsAreSound` | app/src/streaming/AVFrameHolder.cpp:147-207 | in every run of public calls, failures included: each frame is in one place, pushes equal frames shown, dropped and waiting, and frames are shown in the order of their pushes |
| `FrameRuns.CopyModePool` | app/src/streaming/AVFrameHolder.cpp:147-198 | in every run that pushes by copying, with no frame lent out: at most `limit` frames wait and there are at most `limit` + 2 frames in all |
| `FrameRuns.LendingPool` | app/src/streaming/AVFrameHolder.cpp:390-398 | in every run that pushes lent frames, with at most w of them out at a time and no foreign ones: at most `limit` frames wait and there are at most `limit` + 1 + w in all |
| `FrameQueue.CreditIsExact` | app/src/streaming/AVFrameHolder.cpp:340-343 | since its last reset the credit has granted the floor of the rates requested, at every moment of a queue's life |
| `Pacing.CreditDoesNotDrift` | app/src/streaming/AVFrameHolder.cpp:340-343 | over any stretch of draws the frames granted are the floor of the starting credit plus all requested rates, less than a frame away from them |
| `Pacing.OccupancyCorrection` | app/src/streaming/AVFrameHolder.cpp:329-334 | a hundredth of a frame more or less for each queued frame too many or too few, for eight of them at most, and never less than nothing |
| `FramePacing.DeepQueueDrains` | app/src/streaming/AVFrameHolder.cpp:324-345 | over draws that find more than the wanted depth, more frames are due than arrive, by a hundredth for each draw, less one |
| `FramePacing.ShallowQueueFills` | app/src/streaming/AVFrameHolder.cpp:324-345 | over draws that find less, fewer are due, by a hundredth for each draw |
| `FramePacing.MatchingClocks` | app/src/streaming/AVFrameHolder.cpp:324-345 | at matching clocks a hundred draws or more take more frames than there are draws from too deep a queue, and fewer from too shallow a one |
| `FramePacing.WantedDepthKeepsPace` | app/src/streaming/AVFrameHolder.cpp:324-345 | at the wanted depth the frames due are those that arrive, less than one apart |
| `FramePacing.MatchingClocksTakeOne` | app/src/streaming/AVFrameHolder.cpp:336-339 | within two percent each draw takes one frame, and the credit is cleared |
| `FramePacing.BaseRateIsRatio` | app/src/streaming/AVFrameHolder.cpp:324-326 | the base rate times the arrival interval is the draw interval |
| `FramePacing.AverageFollowsInterval` | app/src/streaming/AVFrameHolder.cpp:286-291 | the average moves a sixteenth of the way to the latest interval, and never past it |
| `FrameOutcomes.LegacyDrawsInNumbers` | app/src/streaming/AVFrameHolder.cpp:294-383 | which push a legacy draw shows, how many are left and skipped, and which hold is counted otherwise |
| `FrameOutcomes.LowLatencyDrawsInNumbers` | app/src/streaming/AVFrameHolder.cpp:227-266 | a low-latency draw shows the newest push, at once with more than one frame over the target, else once the oldest deadline is less than the gate away; otherwise it holds |
| `FrameOutcomes.PushesInNumbers` | app/src/streaming/AVFrameHolder.cpp:176-195 | a push into a full queue leaves the newest frames of the playout window; what goes is overflow |
| `FrameOutcomes.FramesAreRecycled` | app/src/streaming/AVFrameHolder.cpp:538-546 | the oldest free frame is used again, and only without one a new frame is made |
| `Pacing.LeadFollowsCosts` | app/src/streaming/PresentDeadline.hpp:19-41 | 3 ms without measurements, else the measured costs and 1 ms, within 1.5 and 8 ms; one and a half times the jitter on top, up to 12 ms |
| `Pacing.LeadGrowsWithCosts` | app/src/streaming/PresentDeadline.hpp:19-41 | higher measured costs never give a shorter lead |
| `Pacing.GateIsLead` | app/src/streaming/AVFrameHolder.cpp:236-240 | the gate is the lead in nanoseconds |
| `Pacing.PresentGateLeadMs` | app/src/streaming/PresentDeadline.hpp:32-41 | the lead lies between the minimal lead and the maximal lead plus the maximal jitter allowance |
| `FrameStore.AfterPushIsSound` | app/src/streaming/AVFrameHolder.cpp:176-195 | ownership, conservation, order and length after a push |
| `FrameStore.LegacyDraws` | app/src/streaming/AVFrameHolder.cpp:294-383 | what every legacy draw keeps |
| `FrameStore.LowLatencyDraws` | app/src/streaming/AVFrameHolder.cpp:227-266 | what every low-latency draw keeps |
| `FrameStore.PushKeepsDue` | app/src/streaming/LowLatencyFrameSelection.hpp:10-12 | a push into a queue that is not full keeps a due frame due; a trimming one exactly if the new oldest frame is due |
| `FrameStore.DueWithinASecond` | app/src/streaming/AVFrameHolder.cpp:706-719 | the gate opens within a second of the oldest frame's arrival |
| `Bytes.BufHelper.Write` | app/src/forwarder_maker.cpp:382-388 | overwrites from the cursor on, grows as far as needed, and advances the cursor |
| `Bytes.WritePadding` | app/src/forwarder_maker.cpp:543-550 | pads to the next multiple, by a whole block when there already |
| `Pfs0.BuildPfs0` | app/src/forwarder_maker.cpp:871-908 | header, file table, padded string table and contents |
| `Pfs0.StartsWithMagic` | app/src/forwarder_maker.cpp:871-908 | the magic bytes in front, and the contents at a multiple of 32 behind the file table |
| `Pfs0.Pfs0RoundTrip` | app/src/forwarder_maker.cpp:871-908 | a reader that follows the headers gets every file back in order; names come back exactly if and only if they hold no zero byte |
| `Blocks.IvfcLoopEnds` | app/src/forwarder_maker.cpp:1003-1011 | the loop of `createIvfcLevel` never ends if and only if the level has 4 GiB or more |
| `Blocks.Pfs0LoopCountsBlocks` | app/src/forwarder_maker.cpp:913-921 | the loop of `buildPfs0HashTable` makes as many turns as there are blocks if and only if every block, rounded up, ends below 4 GiB |
| `Blocks.Pfs0LoopEnds` | app/src/forwarder_maker.cpp:913-921 | for block sizes that divide 2^32 it otherwise never ends |
| `HashTree.BuildPfs0HashTable` | app/src/forwarder_maker.cpp:910-924 | the table of block hashes |
| `HashTree.HashTableHolds` | app/src/forwarder_maker.cpp:915-921 | one hash per block, hash i at byte 32 * i, the last one over the short tail |
| `HashTree.CreateIvfcLevel` | app/src/forwarder_maker.cpp:1000-1015 | the hashes of the blocks of the next level, padded to whole blocks |
| `HashTree.MasterHashPins` | app/src/forwarder_maker.cpp:865-869 | data of equal size under the same master hash of five levels is equal, or the hash has a collision |
| `HashTree.Pfs0MasterHashPins` | app/src/forwarder_maker.cpp:926-930 | the same for the one layer of a PFS0 |
| `RomfsHash.HashTableCount` | app/src/forwarder_maker.cpp:570-586 | at least the count and 3, and from 19 up the smallest number from the count on without a factor among 2, 3, 5, 7, 11, 13, 17 |
| `RomfsHash.RomfsGetHashTableCount` | app/src/forwarder_maker.cpp:570-586 | that number unless the 32-bit counter wraps, which it does exactly for the two largest counts, with 1 as the result |
| `RomfsHash.CalcPathHash` | app/src/forwarder_maker.cpp:560-568 | the rotating hash of a part of a path |
| `RomfsHash.PathHashBits` | app/src/forwarder_maker.cpp:560-568 | bit j of the hash is the exclusive or of one bit of the start value and one of every byte, each as far around as the later rounds rotate it |
| `Romfs.RomfsVisitDir` | app/src/forwarder_maker.cpp:588-626 | the context list and its sizes in the order in which the insertions leave them |
| `Romfs.AssignOffsets` | app/src/forwarder_maker.cpp:659-668 | offsets of contents and entries, aligned and one after the other |
| `Romfs.FillFileTable` | app/src/forwarder_maker.cpp:672-688 | all file entries, each chained in front of its bucket |
| `Romfs.BuildRomfsIntoFile` | app/src/forwarder_maker.cpp:628-739 | the whole image: header, contents, four tables |
| `Romfs.BuildRomfs` | app/src/forwarder_maker.cpp:741-748 | the padded image and the size without padding |
| `RomfsReader.SlotsAreAligned` | app/src/forwarder_maker.cpp:661-665 | contents start behind the header at multiples of 16 |
| `RomfsReader.RegionsAreDisjoint` | app/src/forwarder_maker.cpp:661-665 | contents overlap neither each other nor the tables |
| `RomfsReader.AbsentPathsAreNotFound` | app/src/forwarder_maker.cpp:681-683 | a reader ends without a file on every path that is not in the image |
| `RomfsReader.FewFilesAgree` | app/src/forwarder_maker.cpp:603-621 | sizes agree for one and two files always, for three exactly if the last two are equally long |
| `RomfsReader.RomfsRoundTrip` | app/src/forwarder_maker.cpp:628-739 | a reader that follows header, bucket and chain gets every file with its exact bytes if and only if each file is as long as the one whose context took its place; so always for one or two files |
| `RomfsWalk.HeaderLocatesTables` | app/src/forwarder_maker.cpp:711-739 | the header has its own size, the place of the contents, and place and size of each of the four tables |
| `RomfsWalk.RootIsInItsBucket` | app/src/forwarder_maker.cpp:690-704 | the root is found under the hash of the empty path, and nothing in the other buckets |
| `RomfsWalk.WalkListsFiles` | app/src/forwarder_maker.cpp:603-611 | a reader that starts at the root's first file and follows the siblings finds every file once, in the order of the files, with its name, place and room |
| `RomfsWalk.WalkRoundTrip` | app/src/forwarder_maker.cpp:672-698 | and gets the exact bytes of each, shared paths included, if and only if the sizes agree |
| `Nca.StartIsExact` | app/src/forwarder_maker.cpp:995 | a section start computed in 32 bits is right if and only if it lies below 4 GiB |
| `Nca.EntryTiles` | app/src/forwarder_maker.cpp:995-996 | the entry of a further section continues the table if and only if it is the first or starts below 4 GiB |
| `Nca.RangesHoldSections` | app/src/forwarder_maker.cpp:947-952 | each table range covers exactly the bytes of its section, starts where the one before ends, and the last one ends the file |
| `Nca.WriteNcaPfs0` | app/src/forwarder_maker.cpp:981-998 | appends hash table, padding, archive and padding, and enters the section |
| `Nca.Pfs0SectionReads` | app/src/forwarder_maker.cpp:989-990 | `pfs0_layer` locates the archive, at a multiple of 512, `hash_layer` the table, the master hash covers it, and blocks have the recorded size |
| `Nca.WriteNcaRomfs` | app/src/forwarder_maker.cpp:1017-1049 | appends the six levels and padding, and enters the section |
| `Nca.LevelsAreLocated` | app/src/forwarder_maker.cpp:1031-1035 | the logical offsets are prefix sums and locate every level in the section |
| `Nca.LevelsAreChained` | app/src/forwarder_maker.cpp:1025-1029 | every level is a whole number of blocks and holds the hashes of the next; the master hash covers level 0 |
| `Nca.BlocksAreHashed` | app/src/forwarder_maker.cpp:1000-1015 | byte 32 * i of a level starts the hash of block i of the next level |
| `Nca.BlockSizesAreRecorded` | app/src/forwarder_maker.cpp:1031-1035 | every level records the block size that it is hashed with |
| `Nca.MasterHashPinsImage` | app/src/forwarder_maker.cpp:1043-1044 | a RomFS of the same size under the same master hash is the same, or the hash has a collision |
| `Nca.FinalizeNcaHeader` | app/src/forwarder_maker.cpp:1051-1062 | the sealed header replaces the room left for it, and nothing else |
| `Nca.CreateProgramNca` | app/src/forwarder_maker.cpp:1064-1077 | a finished program: two sections and the logo if both its files are there; its table tiles it if and only if every section after the first starts below 4 GiB |
| `Nca.CreateControlNca` | app/src/forwarder_maker.cpp:1079-1088 | a finished file with one RomFS section and its section header |
| `Nca.CreateMetaNca` | app/src/forwarder_maker.cpp:1125-1128 | a finished file with one PFS0 section and its section header |
| `NcaReader.Pfs0FilesAreFound` | app/src/forwarder_maker.cpp:981-998 | the files of a PFS0 section are found through the section table and both headers |
| `NcaReader.RomfsFilesAreFound` | app/src/forwarder_maker.cpp:1017-1049 | the same for a RomFS section, if and only if the sizes agree |
| `XmlSearch.XmlSearch` | app/src/libgamestream/xml.cpp:138-165 | the collected text up to its first zero |
| `XmlSearch.XmlSearchAll` | app/src/libgamestream/xml.cpp:198-216 | the collected texts |
| `XmlSearch.SearchJoinsSearchAll` | app/src/libgamestream/xml.cpp:138-216 | on every balanced stream `xml_search` yields the concatenation of what `xml_search_all` lists |
| `XmlSearch.ResultsIgnoreCuts` | app/src/libgamestream/xml.cpp:110-123 | how the parser cuts text does not matter |
| `XmlSearch.SearchAllFindsOutermost` | app/src/libgamestream/xml.cpp:175-195 | on a document the texts are those of the outermost elements of the name, in order |
| `XmlSearch.SearchFindsOutermost` | app/src/libgamestream/xml.cpp:36-50 | on a document the text is all text inside elements of the name |
| `AppList.ReverseList` | app/src/libgamestream/xml.cpp:241-248 | the list reversed in place |
| `AppList.NumberList` | app/src/libgamestream/xml.cpp:249-251 | the apps are numbered from 0 along the list |
| `AppList.XmlApplist` | app/src/libgamestream/xml.cpp:218-254 | the list that starts at the result holds the apps that the handlers have built, oldest first and numbered from 0 |
| `AppList.ListsWhatDocumentDescribes` | app/src/libgamestream/xml.cpp:51-91 | on every document the handlers build the list that its structure describes: every App starts an app, and every field without an element inside sets that field of the newest app |
| `AppList.ListsAppsInOrder` | app/src/libgamestream/xml.cpp:218-254 | on a server's list the apps come in document order; name, uuid and id of each are the texts of the last AppTitle, UUID and ID without an element inside, at any depth |
| `AppList.DescribedByLastFields` | app/src/libgamestream/xml.cpp:74-91 | what the fields among some elements make of an app: of each name the last one counts |
| `AppList.FieldNeedsBareText` | app/src/libgamestream/xml.cpp:74-91 | a field is recorded if and only if it has no element inside |
| `Benchmark.PercentileIsMonotone` | app/src/benchmark/BenchmarkAccumulator.cpp:41-55 | percentiles grow with the rank, from the minimum at 0 to the maximum at 1 |
| `Benchmark.PercentileIgnoresOrder` | app/src/benchmark/BenchmarkAccumulator.cpp:41-55 | the order of the samples does not matter |
| `Benchmark.PositionIsProportional` | app/src/benchmark/BenchmarkAccumulator.cpp:44-48 | ranks are spread evenly over the sorted samples |
| `Benchmark.InterpolatedIsLinear` | app/src/benchmark/BenchmarkAccumulator.cpp:49-55 | between two ranks the value goes in a straight line from the one sample to the next |
| `Benchmark.SummaryTellsOfSamples` | app/src/benchmark/BenchmarkAccumulator.cpp:57-70 | every entry of a summary: the mean, and the percentiles at 0, 0.5, 0.95, 0.99 and 1 |
| `Benchmark.MedianOfThree` | app/src/benchmark/BenchmarkAccumulator.cpp:41-70 | the median of three samples in any order is the middle one |
| `Benchmark.SummaryIsOrdered` | app/src/benchmark/BenchmarkAccumulator.cpp:57-70 | min <= median <= p95 <= p99 <= max and min <= mean <= max |
| `Benchmark.BetterRunsScoreHigher` | app/src/benchmark/BenchmarkAccumulator.cpp:123-144 | a run that is nowhere worse scores no less |
| `Benchmark.SingleFaults` | app/src/benchmark/BenchmarkAccumulator.cpp:123-144 | what each kind of fault costs by itself, and at most |
| `Benchmark.FaultsAddUp` | app/src/benchmark/BenchmarkAccumulator.cpp:123-144 | the penalties add up |
| `Benchmark.FullScore` | app/src/benchmark/BenchmarkAccumulator.cpp:123-144 | 100 is the score of exactly the runs without any penalty |

## Findings

Where the code does not keep what one would expect of it, the exact condition is proved.

- RomFS images of three or more files: contexts are linked behind the first one, so from the second
  file on they are in reverse order, while the passes walk the files in order. Those files get
  the room and the recorded size of one another. `RomfsReader.RomfsRoundTrip` says when nothing is
  lost, `RomfsReader.FewFilesAgree` what that means for up to three files; callers pass one or two.
- Section starts: the start of every section after the first is computed in 32 bits and is wrong
  from 4 GiB on (`Nca.StartIsExact`, `Nca.EntryTiles`, `Nca.CreateProgramNca`).
- 32-bit cursors: the hashing loops never end on levels of 4 GiB and more (`Blocks.IvfcLoopEnds`),
  and on archives whose last block, rounded up, reaches 4 GiB (`Blocks.Pfs0LoopCountsBlocks`,
  `Blocks.Pfs0LoopEnds`).
- Bucket counts: `romfsGetHashTableCount` wraps around for the two largest entry counts
  (`RomfsHash.RomfsGetHashTableCount`).
- Table and provider can part for good, without any call being left to repair it, in four ways
  (`RouteWitness.PartedByDeactivation`, `PartedByRival`, `PartedByReplacement`, `PartedByStopping`);
  `RouteAgreement.TableAndProviderAgree` shows that there is no fifth as long as
  `setActiveProviderId` is not used, and `RoutePartings.CarelessStepParts` that each of them is open
  from wherever its first step is taken.
- `setActiveProviderId` leaves routes behind that belong to no active provider
  (`RouteTheorems.OverrideKeepsOwnership`).
- A joining call can succeed for a route that is gone (`RouteWitness.JoinerMayBeLate`), exactly when a
  release has erased it in between (`RouteJoiners.JoinedRoute`).
- Leases release by key: after a stop or a reselection a lease from before it can release the route
  of a lease from after it (`RouteLease.StaleRelease`). A stop leaves the counts in order exactly if
  no lease holds a route (`RouteLease.StopUnderLeases`).
- An ID, AppTitle or UUID with an element inside it is not recorded (`AppList.FieldNeedsBareText`);
  one without any text is recorded as an unterminated buffer (`AppList.ListsWhatDocumentDescribes`).
- A trimming push can move the deadline of the oldest frame back (`FrameStore.PushKeepsDue`).

## Left out

- The answers of a provider in the class model are any function of what it was asked and told so far; in the protocol they are free.
- Entries of routes are indices into a sequence that only grows; the shared pointers that keep them alive are not modelled. Generations do not wrap.
- Registered providers do not change during a run of the protocol, and have distinct, non-empty ids; registering is modelled one call at a time only.
- `availableProviders`, `allPeers`, `poll` and `status` take part in the protocol only with the locks they take.
- A provider is the set of targets it has accepted and not dropped; that it may call the manager back is not modelled.
- The theorems about the active provider, about leaks and about agreement exclude `setActiveProviderId`; what it breaks is stated.
- Exceptions and failed allocations other than those of frames are not modelled.
- Frame contents, FFmpeg references and telemetry stamps: a frame is an identity, and allocation or referencing may fail at any time.
- The clock is a parameter; it is required not to run backwards between arrivals. The checks for infinite and undefined numbers are void on reals.
- The fields of each clock, of the filter, of the statistics and of the credit are grouped in records; getters are left out. The rates and grants that the credit is compared with are ghost state.
- Rounding of floating-point numbers: rates, credit, filter, percentiles and scores are reals.
- SHA-256 is a parameter, and so is the layout and encryption of the NCA header block; title ids, SDK versions, NPDM and NACP patches, CNMT contents and the hashes of the section headers are left out.
- Directories other than the root of a RomFS: the writer has none.
- Sizes are unbounded numbers that have to fit their fields; exclusive or and rotation are written as arithmetic. Alignment is modelled below the width of its type.
- The XML parser is represented by its events; parse errors, attributes, `xml_status` and the numeric variant of `xml_search` are left out, and so are failed allocations in the handlers.
- `std::sort` is modelled by the sorted arrangement of the samples; collecting samples and exporting them are left out.
- User interface, discovery, pairing, network transport, cryptography back ends, image code and host capability tables are left out; they are views, wrappers or tables.
