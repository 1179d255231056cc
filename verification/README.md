# Verification of the Ascend device plugin

This project models the logic of the Ascend NPU device plugin in Dafny and proves what it
promises to kubelet, to HAMi and to the metrics scraper. `dafny verify dfyconfig.toml` checks
everything.

| file | models |
|---|---|
| `Publication.dfy` | the published device list, its fingerprint, the HAMi registration list |
| `WatchProtocol.dfy` | the watch loop and the ListAndWatch handlers of any number of streams as concurrent processes |
| `Allocation.dfy`, `AllocationRuns.dfy` | the Allocate call, and whole runs of calls |
| `ConfigSelection.dfy` | tiered config selection with memory bands |
| `Manager.dfy` | config loading, virtual device count, the four loops over the hardware |
| `NodeRegistration.dfy` | node annotations across SKU switches |
| `ShmemLayout.dfy` | the shared-memory file and its reader |
| `MemoryMetrics.dfy` | aggregation of memory readings by device UUID |
| `ContainerDirs.dfy` | the per-container directories and the scrape over them |
| `HostView.dfy` | one scrape from the slots written to the figures shown for the host |
| `CrashBudget.dfy` | the restart loop around the gRPC server |
| `Lifecycle.dfy` | Start, Stop, the restart loop and the tracked goroutines |
| `Text.dfy` | sequences, splitting and decimal printing |

Code that updates fields, arrays or maps in loops is written as methods and classes, each
proved against a small function; lemmas then state what that function means. The two concurrent
parts are step relations over which every interleaving is a run.

## Results that differ from what one might expect

- Comparing fingerprints decides whether kubelet's list changed, for UUIDs that do not contain
  the markers `=0;` or `=1;`. Some list without markers shares the fingerprint of a device list
  exactly when that list has a marker in a UUID (`Publication.CleanDoubleIff`); among all lists
  only those of at most one marker-free device have a fingerprint of their own
  (`Publication.DoubleIff`).
- Kubelet can be left with a wrong list for as long as the device set stays the same. When no
  resend is due, the list of a handler that is up to date with the last handoff is the right one
  exactly when it was not read from a version whose offer timed out
  (`WatchProtocol.AgreementIff`). A handler that took the last handoff, or was opened since, and
  whose last Send worked is up to date (`WatchProtocol.InformedIsUpToDate`). Each condition is
  needed: an offer times out, a late stream shows the new list and the set then changes back
  (`WatchProtocol.LateStreamStaysStale`); a Send fails, since its error is ignored
  (`WatchProtocol.LostSendStaysStale`); the handler of a broken stream, which still waits at the
  channel, takes the handoff meant for the stream that replaced it
  (`WatchProtocol.BrokenStreamTakesHandoff`). The last two always leave a wrong list: one read
  since the handoff before the last, from a version whose offer did not time out, is the cache's
  exactly when it is no older than the last handoff (`WatchProtocol.MissedHandoffIff`).
- HAMi's count and the number of IDs shown to kubelet agree exactly when the virtual count
  survives the conversion to 32 bits (`Publication.CapacityAgreesIff`).
- The order of the config entries is irrelevant exactly when all best-ranked entries are equal
  (`ConfigSelection.OrderIrrelevantIff`).
- Bands cut at breakpoints never match a failed reading, unless there is no breakpoint at all:
  the one entry then counts as having no band and matches everything
  (`ConfigSelection.BandsPartition`).
- The scrape drops empty UUIDs before it indexes the readings, although a comment at
  internal/monitor/collector.go:141-142 says that the indices correspond. They do exactly when
  no empty UUID stands before a non-empty one (`ContainerDirs.AlignedIff`).
- A comment at internal/server/server.go:227-228 restricts the fatal exit to crashes that
  lasted less than an hour each. The code tests the counter before it looks at the gap, so the
  last gap plays no part (`CrashBudget.LastGapIrrelevant`): six crashes a second apart and one
  more a day later end the process (`CrashBudget.QuitsAfterQuietDay`). The model follows the code.
- Registering an entry without a chip name, as one selected by its device type may be, clears
  nothing: the other words stay as they were (`NodeRegistration.NamelessClearsNothing`,
  `NodeRegistration.OthersAreSilentIff`).
- A UUID whose usage adds up to a multiple of 2^64 reads as unused, and the host view then shows
  the driver's figure (`MemoryMetrics.HostShowsPods`).
- Slots beyond the pod's containers are answered for an empty name and share one directory; all
  other grants of a pod have directories of their own (`ContainerDirs.RunDirsDistinctIff`).
- A container's directory name can be read back exactly when the pod UID has no `_`
  (`ContainerDirs.NameRoundTripIff`).

## Model

| member | source | states |
|---|---|---|
| WatchProtocol.AgreementIff | internal/server/register.go:49-93 | in every reachable state with the watcher at its timer the stored fingerprint is that of the cache exactly when the offer of the current version did not time out; then the list kubelet has from an up-to-date handler is the cache's exactly when it was not read from a version whose offer timed out |
| WatchProtocol.Agreement | internal/server/register.go:49-93 | for any virtual count: with no timeout since the last handoff, or since Start, the stored fingerprint is that of the cache and an up-to-date handler's list is the cache's |
| WatchProtocol.InformedIsUpToDate | internal/server/server.go:280-290 | a waiting handler that took the last handoff or was opened since, and whose last Send worked, has shown kubelet a version no older than the one handed off |
| WatchProtocol.MissedHandoffIff | internal/server/register.go:69-83 | in every reachable state with the watcher at its timer and the current version not refused, a list read since the handoff before the last, from a version whose offer did not time out, is the cache's exactly when it is no older than the last handoff |
| WatchProtocol.EndsOnlyWhenStopped | internal/server/register.go:58-93 | in every reachable state the watch loop and every handler have ended only if the plugin was stopped, whatever failed before |
| WatchProtocol.FailedRefreshIsHarmless | internal/server/register.go:64-68 | a round whose refresh fails leaves everything as it was, the watcher at its timer |
| WatchProtocol.WatcherCanEnd | internal/server/register.go:58-79 | once stopped the watch loop can end, wherever it is |
| WatchProtocol.HandlerCanEnd | internal/server/server.go:282-285 | and so can every handler |
| WatchProtocol.HandoffAnswered | internal/server/server.go:280-290 | after a handoff the handler that took it is not back at its channel before it has passed to Send a list read from a cache at least as new as the fingerprinted one |
| WatchProtocol.SteadyState | internal/server/register.go:69-83 | over any steps that keep the fingerprint a handler at rest sends nothing and its view stays as it is |
| WatchProtocol.LateStreamStaysStale | internal/server/register.go:73-83 | a reachable rest state with a timed-out offer in which kubelet holds a list other than the cache's and no resend is due |
| WatchProtocol.LostSendStaysStale | internal/server/server.go:286-287 | the same after a handoff whose Send failed, without any timeout |
| WatchProtocol.BrokenStreamTakesHandoff | internal/server/server.go:280-290 | the same for a reopened stream without any timeout or failed Send of its own, the handler of the broken stream having taken the handoff |
| WatchProtocol.WatcherInvStep | internal/server/register.go:58-83 | every step keeps: of the versions dealt with since the last handoff exactly those whose offer timed out have another fingerprint than the stored one |
| WatchProtocol.HandlerInvStep | internal/server/server.go:280-290 | every step keeps, for every handler: its lists are those of the versions they were read from, and no older than the last handoff when it was informed of it |
| Publication.ApiDevices | internal/server/server.go:255-274 | the nested loop computes the published list |
| Publication.DeviceFingerprint | internal/server/register.go:97-108 | the builder loop computes the fingerprint |
| Publication.ApiListEqualIff | internal/server/server.go:255-274 | with a virtual count of at least 1, two device sets publish equal lists exactly when UUIDs and health agree in order, for any UUIDs |
| Publication.FingerprintEqualIff | internal/server/register.go:97-108 | for marker-free UUIDs the fingerprint determines UUIDs and health in order |
| Publication.FingerprintDecides | internal/server/register.go:95-108 | equal fingerprints mean equal published lists, and conversely when the virtual count is at least 1 |
| Publication.CleanDoubleIff | internal/server/register.go:97-108 | some marker-free device list with another view has the fingerprint of a list exactly when a UUID of that list contains a marker |
| Publication.DoubleIff | internal/server/register.go:97-108 | some list at all has, exactly when there are two devices or a marker |
| Publication.ParsePublishedID | internal/server/server.go:264-268 | UUID and index are recovered from an ID, even when the UUID contains '-' |
| Publication.PublishedIDsDistinct | internal/server/server.go:259-271 | IDs are pairwise distinct when UUIDs are |
| Publication.EntriesForDevice | internal/server/server.go:259-271 | each device has as many entries as the virtual count, all with its health |
| Publication.RegistrationList | internal/server/register.go:110-139 | the registration loop yields one info per device, indexed from 0 without gaps |
| Publication.InfoDescribes | internal/server/register.go:114-137 | what HAMi is told about a device: its position, UUID, health, count and memory in 32 bits, cores and network ID |
| Publication.CapacityAgreesIff | internal/server/register.go:119-128 | no entry shown to kubelet has another health than HAMi is told, and the counts agree exactly when the virtual count fits 32 bits |
| Devices.IndexByUUID | internal/manager/manager.go:340-349 | the lookup finds the first device with the UUID, if any |
| Allocation.BuildLookup | internal/server/allocate.go:225-231 | the loop builds the lookup map |
| Allocation.LookupLast | internal/server/allocate.go:216-232 | a UUID is found exactly when a non-empty entry names it, with its last entry |
| Allocation.BuildResponse | internal/server/allocate.go:28-147 | the loops compute the container's environment, mounts and directory, or the error |
| Allocation.ResponseTells | internal/server/allocate.go:38-147 | a response is given exactly for a non-empty slot of known cards; it shows the printed physical IDs in order and, by the pod's mode or else the node's, either memory and core of the first device that has them with the hami-core paths and mounts, or the first non-empty template and npu-smi |
| Allocation.MountCore | internal/server/allocate.go:75-134 | the mounts under hami-core, in order |
| Allocation.MountNpuSmi | internal/server/allocate.go:163-175 | the loop over the candidates |
| Allocation.SmiMountIff | internal/server/allocate.go:163-175 | the one mounted is the first candidate that exists, none exactly when none exists |
| Allocation.CollectDevices | internal/server/allocate.go:38-56 | the loop over the slot collects the IDs and the first non-empty settings, or fails exactly when a UUID is unknown |
| Allocation.FirstOfExact | internal/server/allocate.go:45-55 | template, memory quota and priority come from the first device that has one |
| Allocation.JoinVisible | internal/server/allocate.go:61-66 | the loop joins the printed IDs with commas |
| Allocation.JoinSplits | internal/server/allocate.go:61-66 | the visible-devices value splits back into the printed IDs, in order |
| Allocation.VisibleDevicesExact | internal/server/allocate.go:61-66 | equal values mean equal ID lists |
| Allocation.CtrName | internal/server/allocate.go:185-193 | a slot belongs to the container at its position among init containers followed by regular ones |
| Allocation.PopNext | internal/server/allocate.go:180-198 | pops the first non-empty slot with its container's name and erases just that slot in place |
| Allocation.ServeRequest | internal/server/server.go:334-348 | one round of the request loop, with its errors |
| Allocation.ServeBatch | internal/server/server.go:332-349 | the request loop, stopping at the first error |
| Allocation.Allocate | internal/server/server.go:296-360 | a failed call leaves the stored annotation as it was; a successful one answers all requests and stores the erased slots |
| Allocation.ServeSplits | internal/server/server.go:329-349 | serving one list of requests after another is serving their concatenation |
| AllocationRuns.NothingLostOrRepeated | internal/server/server.go:296-360 | over any calls with any failures, the slots handed out followed by those still pending are the original pending slots in order; each is handed out whole and at most once |
| AllocationRuns.CommitsIff | internal/server/server.go:311-359 | a call commits exactly when nothing outside fails, enough slots are pending, the k-th has the k-th requested size and all UUIDs are known; request k is then answered from the k-th pending slot |
| AllocationRuns.CommittedTells | internal/server/server.go:333-359 | the k-th response of a committed call tells the container of the k-th pending slot about the cards of that slot |
| AllocationRuns.FailsWith | internal/server/server.go:303-357 | each failure has its own error: those outside in order, else the obstacle of the first request that cannot be met; an empty slot is never served |
| AllocationRuns.ServeIff | internal/server/server.go:333-349 | the same for the request loop alone |
| AllocationRuns.SplittingIsHarmless | internal/server/server.go:329-359 | splitting a request list over any number of calls gives the result of the single call, or its error |
| ConfigSelection.PickFromCandidates | internal/manager/manager.go:191-212 | picks the first candidate whose band holds the reading, else the first without band, else the first |
| ConfigSelection.IndexVNPUConfig | internal/manager/manager.go:222-250 | returns the first entry of least rank, or -1 when no entry is ranked; the chip-name test inside the second tier never matters |
| ConfigSelection.SelectionRule | internal/manager/manager.go:214-250 | entries with the chip's name decide, else those of its type without a name, else those of its type, by the first band holding the reading, else the first without band, else the first; -1 exactly when no entry names the chip or its type |
| ConfigSelection.SelectionUnique | internal/manager/manager.go:222-250 | the rule leaves no choice |
| ConfigSelection.OrderIrrelevantIff | internal/manager/manager.go:191-250 | no reordering of the config list changes the selected entry exactly when all best-ranked entries are equal |
| ConfigSelection.DecidedWhen | internal/manager/manager.go:195-205 | that is so when the best tier has one entry, or exactly one whose band holds the reading |
| ConfigSelection.BandsPartition | internal/manager/manager.go:169-189 | bands cut at ascending breakpoints match each non-zero reading exactly once and a zero reading never; without a breakpoint the only entry matches every reading |
| ConfigSelection.BandedSelection | internal/manager/manager.go:175-250 | entries of one chip cut at breakpoints: any order selects the entry whose band holds the reading |
| Manager.AscendManager.LoadConfig | internal/manager/manager.go:122-148 | loads the selected entry with its templates sorted, or fails and changes nothing |
| Manager.LoadedIs | internal/manager/manager.go:140-145 | the loaded entry has the figures of the selected one and its templates, smallest first; the other entries stay |
| Manager.CountOtherwise | internal/manager/manager.go:273-282 | a positive count for the node wins, an entry without templates counts one, and only a smallest template of size zero makes the division fail |
| Manager.TruncDivIs | internal/manager/manager.go:281 | the division rounds towards zero |
| Manager.CountIsCapacity | internal/manager/manager.go:273-282 | no selection of templates that fits the allocatable memory has more members than the virtual count, and that many of the smallest fit |
| Manager.AscendManager.ShouldIgnoreDevice | internal/manager/manager.go:100-120 | a device is ignored exactly when its non-empty UUID or its index is listed |
| Manager.AscendManager.UpdateDevice | internal/manager/manager.go:284-332 | replaces the cache, or leaves it as it was on any query error |
| Manager.AscendManager.GetIDs | internal/manager/manager.go:351-381 | the loop yields the visible IDs |
| Manager.AscendManager.GetUnHealthIDs | internal/manager/manager.go:383-419 | the loop yields the visible unhealthy IDs |
| Manager.AscendManager.CleanupIdleVNPUs | internal/manager/manager.go:421-481 | destroy requests go, in order, to the idle vNPUs of the visible devices; the count is that of the successes |
| Manager.AscendManager.DestroyIdle | internal/manager/manager.go:458-476 | the inner loop over one device |
| Manager.VisiblePicks | internal/manager/manager.go:361-379 | the loops that go on after a query error keep, in order, exactly the devices whose needed queries answer and that are not listed |
| Manager.UnhealthyPicks | internal/manager/manager.go:391-417 | the unhealthy ones likewise, with a health code that answers and is not zero |
| Manager.IdlePicks | internal/manager/manager.go:458-476 | each idle vNPU of a device is targeted once, in order |
| Manager.IdleSplits | internal/manager/manager.go:429-477 | the targets of the devices follow each other in the order of the devices |
| Manager.CountIsSuccesses | internal/manager/manager.go:465-471 | the count is the number of destroy requests that succeeded |
| Manager.LoopsAgree | internal/manager/manager.go:284-481 | whenever a refresh succeeds, the cached devices are exactly those the other three loops work on |
| Manager.RefreshOkIff | internal/manager/manager.go:291-316 | a refresh succeeds exactly when all identity queries answer and the health query does for devices not ignored |
| Manager.CachedFields | internal/manager/manager.go:317-326 | every cached device carries its own answers and is not ignored |
| Manager.OnlyIdleTargeted | internal/manager/manager.go:458-470 | a vNPU is targeted exactly when it is an idle one of a device given |
| Manager.AscendManager.StaleRegisterCommonWords | internal/manager/manager.go:256-267 | the loop collects the stale words |
| Manager.StaleWordsExact | internal/manager/manager.go:256-267 | they are exactly the other non-empty words of entries sharing the non-empty chip name |
| Manager.StaleWordsPicks | internal/manager/manager.go:256-267 | one for each such entry, in order |
| NodeRegistration.StaleRegisterAnnotations | internal/server/register.go:176-196 | clears exactly the present annotations of stale words |
| NodeRegistration.RegisterHAMi | internal/server/register.go:146-174 | a success merges the fresh annotations and the clears, a failure changes nothing |
| NodeRegistration.CurrentIsFresh | internal/server/register.go:147-165 | after a success the current word's annotation is the reported list, its handshake the time reported, and the hami-core flag the node's |
| NodeRegistration.OthersAreSilentIff | internal/server/register.go:181-190 | after a success another word of the chip is absent or "[]" exactly when the chip has a name or the word was so before |
| NodeRegistration.OthersAreEmptied | internal/server/register.go:181-194 | of another word of a named chip a success leaves the annotations there were, emptied |
| NodeRegistration.NamelessClearsNothing | internal/manager/manager.go:256-267 | a success for an entry without a chip name adds its own annotations and clears nothing |
| NodeRegistration.OthersAreKept | internal/server/register.go:146-165 | every annotation of an unrelated key is kept |
| NodeRegistration.OneLiveWord | internal/server/register.go:146-196 | over any history of switches among one chip's entries, at most the last successful word is live |
| NodeRegistration.UnrelatedUntouched | internal/server/register.go:146-196 | over any such history unrelated keys keep their values |
| NodeRegistration.RepeatIsStable | internal/server/register.go:176-196 | a repeated registration finds the same annotations to clear and changes nothing |
| ShmemLayout.ShmemReader.OpenLocalShmem | internal/monitor/registry.go:41-63 | refuses exactly the files that cannot hold one slot |
| ShmemLayout.ShmemReader.ReadPodStats | internal/monitor/registry.go:69-75 | the primary fields, all in bounds and aligned |
| ShmemLayout.HeaderReadBack | internal/monitor/registry.go:69-75 | any encoded header reads back as its limit, its usage and whether it has workers |
| ShmemLayout.ImageReadBack | internal/monitor/registry.go:69-94 | a whole file of header and slots reads back as what was written |
| ShmemLayout.ShmemReader.ReadMemoryByDevice | internal/monitor/registry.go:78-94 | with its early exit the loop returns, per device, the sum modulo 2^64 over the active slots that fit, at most 64; all loads are in bounds and aligned |
| ShmemLayout.ReadBack | internal/monitor/registry.go:78-94 | reading any encoded slots back gives those sums, whatever header, padding and trailing bytes hold |
| ShmemLayout.FieldsDisjoint | internal/monitor/registry.go:12-29 | distinct fields, primary or of any slots, are disjoint and aligned |
| MemoryMetrics.CollectContainer | internal/monitor/collector.go:145-169 | the inner loop emits one sample per UUID and adds it to the map |
| MemoryMetrics.CollectPodMetrics | internal/monitor/collector.go:121-172 | the loops emit the samples and build the map |
| MemoryMetrics.TallyExact | internal/monitor/collector.go:166-168 | each entry is the sum emitted under its UUID modulo 2^64, and the keys are the non-empty UUIDs emitted |
| MemoryMetrics.MemoryConserved | internal/monitor/collector.go:133-171 | the map's total is the total emitted for non-empty UUIDs modulo 2^64, and equals it exactly when no single UUID overflows |
| MemoryMetrics.CollectHostMetrics | internal/monitor/collector.go:108-119 | per device the pods' figure when positive, else the driver's |
| MemoryMetrics.HostShowsPods | internal/monitor/collector.go:110-114 | a host device shows the usage of all containers carrying its UUID, modulo 2^64, exactly when that is not zero |
| HostView.LiveContainerShows | internal/monitor/collector.go:133-169 | a live container's directory makes one sample per UUID kept from its pod's annotation, labelled by pod and container, with the usage written for the device of that number and the limit written |
| HostView.SamplesByDirectory | internal/monitor/container.go:141-203 | a sample is emitted exactly for some directory listed |
| HostView.ScrapeShowsWritten | internal/monitor/collector.go:121-172 | when the files hold what the limiters wrote, a host device shows the usage written by the active processes of all live containers for its card, modulo 2^64, unless that is zero |
| HostView.Collect | internal/monitor/collector.go:89-99 | one scrape does so for every host device, removes exactly the stale directories, and so a container's directory exactly when no pod of its UID is listed or the last one listed has succeeded or failed |
| HostView.KeptCountsAnnotated | internal/monitor/container.go:177-188 | counting usage by the kept UUIDs is counting it by the annotation when no empty UUID stands before a non-empty one |
| ContainerDirs.NameRoundTripIff | internal/server/allocate.go:122 | the written name splits back to pod UID and container name exactly when the UID has no '_' |
| ContainerDirs.DirsDistinct | internal/server/allocate.go:121-124 | different pods, or different containers of one pod, get different directories |
| ContainerDirs.RunDirsDistinctIff | internal/server/allocate.go:121-124 | over any run of calls for a pod two grants share a directory exactly when both slots lie past the named containers |
| ContainerDirs.StaleIff | internal/monitor/container.go:150-168 | the directory written for a container is stale exactly when its pod is gone or finished |
| ContainerDirs.ContainerLister.BuildPodByUID | internal/monitor/container.go:132-135 | the loop builds the map from UID to pod |
| ContainerDirs.PodByUIDExact | internal/monitor/container.go:132-135 | a pod is found by its UID exactly when one is listed with it, and then the last such |
| ContainerDirs.RemovedIff | internal/monitor/container.go:150-168 | the directory of a container is removed exactly when no pod of its UID is listed or the last one listed has succeeded or failed |
| ContainerDirs.NonEmptyPicks | internal/monitor/container.go:180-188 | the UUIDs kept are the non-empty ones, in order |
| ContainerDirs.ContainerLister.ReadEntry | internal/monitor/container.go:170-200 | reads one live container, dropping empty UUIDs |
| ContainerDirs.ContainerLister.VisitEntry | internal/monitor/container.go:146-200 | one round of the loop over the directory |
| ContainerDirs.ContainerLister.ListContainers | internal/monitor/container.go:123-203 | removes exactly the stale well-named directories and reports the live readable ones in listing order |
| ContainerDirs.AlignedIff | internal/monitor/container.go:177-188 | kept UUIDs keep their annotation index exactly when no empty UUID stands before a non-empty one |
| CrashBudget.ServeLoop | internal/server/server.go:210-243 | the loop ends by stop, clean end or quitting, its counter following the rule |
| CrashBudget.GapsAre | internal/server/server.go:233-234 | each gap is the time since the crash before, the first since the loop began |
| CrashBudget.CountClosedForm | internal/server/server.go:229-241 | the counter is the number of crashes since the last gap over an hour, plus one if there was one, at most 6; the process quits exactly at the crash after it reaches 6 |
| CrashBudget.SixCrashesAreSurvived | internal/server/server.go:229-232 | never before the seventh crash |
| CrashBudget.QuitsAfterQuietDay | internal/server/server.go:227-241 | an input on which the code and its comment differ: the last gap is a day and the process quits |
| CrashBudget.LastGapIrrelevant | internal/server/server.go:227-241 | the next crash is fatal exactly when the counter is 6, whatever its gap |
| Lifecycle.EpochsNeverMix | internal/server/server.go:124-192 | in every run no channel is closed twice, nothing tracked is alive when Start replaces the channel, and every goroutine only ever reads the channel and gRPC server of its own Start |
| Lifecycle.LeavesOnlyOnExit | cmd/main.go:92-117 | the caller leaves only after a signal to exit |
| Lifecycle.RestartStays | cmd/main.go:71-104 | from a restart on it neither leaves nor begins afresh until such a signal |
| Lifecycle.RestartStarts | cmd/main.go:71-104 | in every run that has come to a restart it can stop, clean up, go through the whole of Start and watch again |
| Lifecycle.StartGoesOn | internal/server/server.go:124-157 | without a failure Start goes through all its actions, in order, into the event loop |
| Lifecycle.WatchingRunsAll | internal/server/server.go:152-156 | whenever the event loop runs, exactly one serve loop and one watcher run, and one idle cleanup exactly when it is asked for |
| Lifecycle.CanServe | internal/server/server.go:213-221 | while the event loop runs the serve loop can always come to serve the current server |
| Lifecycle.CrashedServesAgain | internal/server/server.go:213-241 | also after a crash |
| Lifecycle.StopReachesExactlyItsOwn | cmd/main.go:71-117 | while the event loop runs no goroutine can see a stop and Serve can only end by a crash; once Stop waits every select and every Serve can end |
| Lifecycle.StopCanReturn | internal/server/server.go:177-192 | in every run, whatever the tracked goroutines are doing when Stop waits, they can all finish and let it return through the closed channel and the stopped server alone |
| Lifecycle.StopMustReturn | internal/server/server.go:177-192 | in every run, however the goroutines go on to notice a waiting Stop, they do so in at most three steps each, and Stop returns exactly when nobody has anything left to notice |
| Lifecycle.ChannelInvStep | internal/server/server.go:177-189 | every step keeps: no channel is logged twice as closed, and the current channel and server are stopped only once Stop is under way |
| Lifecycle.GoroutineInvStep | internal/server/server.go:124-175 | every step keeps each goroutine within its own Start |

## Left out

- WatchProtocol and Lifecycle: concurrent processes are step relations on values, not classes, because a method cannot interleave with another; update in place is not modelled there.
- WatchProtocol: a handler that outlives its Start is not modelled; the streams of one Start may open and break at any time.
- WatchProtocol: that timers fire and enabled steps are eventually taken (liveness) is not stated.
- WatchProtocol: the handoff and the assignment of the stored fingerprint are one step, because only the watcher reads that field.
- Lifecycle.StopMustReturn: timers, handoffs and crashes that come between are not counted, since nothing bounds how often a select prefers them to the closed channel.
- Lifecycle: ListAndWatch handlers are not tracked by the WaitGroup and are not modelled; that a fatal crash ends the process is not either.
- Allocation.Allocate: finding the pending pod, decoding and encoding the annotation and patching are HAMi code outside the repository; they are outcomes of a call, the codec keeps positions and a failed patch changes nothing.
- Allocation.Allocate: a call sees one snapshot of the device cache, while the code looks each UUID up separately and the watch loop may replace the cache between two lookups.
- Allocation.Allocate: bind phase and node lock after a call, and the removal and creation of the shared-memory directory on the host, are not modelled.
- Manager.AscendManager.LoadConfig: parsing the YAML file, classifying the chip name and probing its memory are inputs; `sort.Slice` is any sort by memory, so the order of equal sizes is open.
- Manager: hardware answers do not change within one loop, and the read lock around the cache is left out, since a refresh replaces the slice as a whole.
- NodeRegistration.RegisterHAMi: JSON encoding, the time format, the node label and other writers between reading and patching the node are left out.
- ShmemLayout: words are little-endian, as on the platforms the driver supports; concurrent writers during a read are not modelled.
- MemoryMetrics.CollectHostMetrics: figures stay integers; the conversion to floating point, utilization and Prometheus emission are left out.
- ContainerDirs.ContainerLister.ListContainers: the choice of the annotation key and JSON parsing are inputs, removals succeed, and failing to list pods or to read the directory (nothing happens then) is left out.
- CrashBudget.ServeLoop: times are exact reals in seconds.
- Kubelet registration, gRPC dialing, file watching, signals, device sharing, host resource preparation, flags, the legacy config layout and logging would only add outcomes or one-branch claims.
