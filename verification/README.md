# OpenYurt, modelled and proved in Dafny

OpenYurt extends Kubernetes to edge nodes that lose their connection. Its node
agent, YurtHub, answers from a local cache while the cloud is out of reach,
shares pool-wide metadata through leader hubs and balances traffic between API
servers; its controllers and its IoT dock keep both sides in step. This project
models the parts of it where state, order and failure matter, and proves what
they promise, or exactly when they do.

`dafny verify dfyconfig.toml` checks everything. One module per component:

- `ErrorLog`, `CacheErrors`: the error-key log (map, queue, append-only file,
  compaction, restart) as a state machine and a class, and the storage wrapper
  that feeds it.
- `DiskTree`, `DiskStore`, `DiskOutcomes`, `DiskDirs`, `DiskFailures`,
  `StoreKeys`: what lies on the disk and the recovery walk; the disk store
  broken into file-system calls, with any number of operations in progress,
  calls that fail and a process that may die between any two calls; what a whole
  operation leaves; that every entry stays in its directory; runs that go wrong;
  the keys and their reading back.
- `ListCache`, `DiskListing`, `ListAdmission`, `InMemoryCache`: how list and
  watch responses reach the disk and come back, what a list reads besides live
  files, which lists are let in, and the kubelet's in-memory shortcut.
- `FilteredWatch`, `PoolScopeFlag`, `LeaderConfig`, `PoolRouting`: filtered
  lists and watches, the metadata flag, the leader configmap from controller to
  hub, and the way of a request from hub to hub.
- `Iptables`, `LocalLB`, `ChainTable`: the local load balancer's rules with any
  failing call, the addresses behind them, and finding chains in saved tables.
- `AppSetConversion`, `Dialer`, `DeviceSync`: YurtAppSet between its versions,
  connection tracking under concurrent closing, and a device synchronisation
  round.
- `Strs`, `Collections`, `Objects`: shared definitions.

Where the source changes state step by step the model is a class or a method
with a loop, proved against a function; what is promised is then proved about
that function, mostly over whole runs.

Some promises turn out not to hold everywhere. The lemmas named here show how
each fails and say exactly when it is kept:

- A record written behind a torn last line of the error log is lost
  (`ErrorLog.TornTailSwallowsRecord`, `ErrorLog.NextRecordSurvivesIffNotTorn`);
  the next compaction repairs the file exactly if it writes its own file well
  enough (`ErrorLog.CompactionRepairsIff`).
- A compaction does not notice when its own writes fail and puts the short file
  in the place of the good one (`ErrorLog.FullDiskDestroysLog`,
  `ErrorLog.LostRecordDropsKey`, `ErrorLog.SwapSyncsIff`,
  `ErrorLog.CompactionSyncsIff`).
- The error log relies on the queue handing over operations on one key in
  order and unmerged, while the rate-limited work queue may delay and merge
  them (`ErrorLog.ReorderedOrMergedDeliveryDiverges`,
  `ErrorLog.SameReplayIffSameLastOps`).
- When the error log cannot be reopened after a compaction, a later restart
  forgets everything since (`CacheErrors.RestartForgetsSinceShutDown`,
  `CacheErrors.FrozenFileKnowsIff`).
- A crash while the backup of a replaced list is being removed brings part of
  the old list back (`DiskFailures.ReplaceCanLeaveHalfTheOldList`,
  `DiskStore.ReplaceCrashRestoresOldIff`).
- Recovery passes over every path that starts with the path of a directory it
  has restored, without a separator in between, so the backup of "ns10" is left
  behind when "ns1" is restored, and undoes later writes at the restart after
  (`DiskTree.LongerNameIsLeftBehind`, `DiskTree.AllRestoredIff`,
  `DiskFailures.SkippedBackupUndoesCreate`).
- An update or a list replacement that fails half way leaves a backup that
  undoes later writes at the next restart
  (`DiskFailures.FailedUpdateUndoesCreate`,
  `DiskFailures.FailedReplacementUndoesCreate`, `DiskStore.RestartKeepsKeyIff`,
  `DiskStore.RestartLowersVersionIff`).
- A backup inside the backup of a list is restored or left depending on how the
  list's name sorts (`DiskTree.NestedBackupRestoredIff`,
  `DiskFailures.CrashBringsBackItemIff`).
- A list reads the files of backups left below its key as well, so an object can
  come back twice (`DiskListing.FailedUpdateIsListedTwice`,
  `DiskListing.ListsLiveObjectsIff`).
- A store key does not always give back what it was built from
  (`StoreKeys.ExtractUndoesKeyIff`).
- Only list requests are checked against the selector table, so the watch of a
  refused list, and any answer with one object, still fills the cache
  (`ListAdmission.RefusedListsWatchIsCached`,
  `ListAdmission.UnlistedObjectIsServed`, `ListAdmission.WatchLeavesListIff`).
- A watch does not store pods that have no node yet, and a list by name that
  finds nothing empties its namespace, so a cached list can differ from the
  server's (`ListAdmission.UnassignedPodIsMissing`,
  `ListAdmission.EmptyNamedListKeepsIff`, `ListAdmission.StoreHoldsServersIff`).
- Memory and store part ways for two versions of one resource, for lists by
  name, for stale watch events and for copies that overtake each other
  (`InMemoryCache.TwoVersionsCollide`, `InMemoryCache.EveryRunCoherentIff`,
  `InMemoryCache.NamedListKeepsCurrentIff`, `InMemoryCache.WatchKeepsCurrentIff`,
  `InMemoryCache.CopyKeepsCurrentIff`); writers creating one key at once can
  lose the newest object (`InMemoryCache.TwoWritersCanLoseNewest`,
  `InMemoryCache.NewestIsStoredIff`).
- A chain left without its jump stops the load balancer from ever updating its
  rules again (`Iptables.DanglingIsForever`, `Iptables.LeavesDanglingIff`,
  `Iptables.FaultlessUpdateSucceedsIff`).
- Two Endpoints objects that share an address lose it on an update
  (`LocalLB.UpdateTracksIff`).
- Converting a YurtAppSet to the old version and back sets replicas to zero
  where neither template nor tweak sets them
  (`AppSetConversion.RoundTripKeepsReplicasIff`), and the values of other
  selectors are taken over as if they named pools
  (`AppSetConversion.ForeignLabelIsTakenForPools`,
  `AppSetConversion.TakenMeansSelectedIff`).
- The chain scan runs over the line or out of bounds at a declaration without a
  space (`ChainTable.ScanExactIff`, `ChainTable.CrashesIff`).
- Hubs that disagree about who leads can pass a request round
  (`PoolRouting.DisagreeingHubsCycle`, `PoolRouting.ForwardedOnceIff`).
- A synchronisation round misses a device whose object name is taken, also by
  another pool (`DeviceSync.TakenNameIsMissing`,
  `DeviceSync.OtherPoolsNameIsMissing`, `DeviceSync.RoundReachesTargetIff`); an
  object it has created outlives its device until something else marks it synced
  (`DeviceSync.NewObjectIsNotDeleted`).

## Model

| member | source | states |
|---|---|---|
| `ErrorLog.SyncedRun` | pkg/yurthub/cachemanager/error_keys.go:86-269 | In every run of put, del, queue hand-over, write, snapshot, swap (rename or reopen may fail) and crash between records in which no write call fails, the file followed by the backlog replays to exactly the map in memory; without crashes the counter equals the number of lines |
| `ErrorLog.SyncedStep` | pkg/yurthub/cachemanager/error_keys.go:86-237 | Each single step in which no write call fails keeps the file in step with the map and the counter in step with the file |
| `ErrorLog.CoveredRun` | pkg/yurthub/cachemanager/error_keys.go:86-237 | In every run, with failing and torn writes of the writer and of rewrite() itself, replaying the backlog over the map changes nothing and the file being written by rewrite() holds nothing but puts that say what the map says |
| `ErrorLog.CoveredStep` | pkg/yurthub/cachemanager/error_keys.go:86-237 | Each step, a rewrite that loses or cuts any of its records included, keeps the backlog idle over the map and the new file free of anything the map does not say |
| `ErrorLog.SwapSyncs` | pkg/yurthub/cachemanager/error_keys.go:167-237 | A swap after a rewrite that lost nothing puts file and map in step again, whatever the old file held and whatever is still queued, and the counter with it |
| `ErrorLog.CompactionRepairsIff` | pkg/yurthub/cachemanager/error_keys.go:167-237 | After any run with torn or lost records, a swap puts the file right for every tidy run after it if and only if the new file ends in a whole line and every key it lacks is still to be written |
| `ErrorLog.SwapSyncsIff` | pkg/yurthub/cachemanager/error_keys.go:167-237 | A swap puts file and map in step if and only if the new file ends in a whole line and every key of the map that it lacks ends in the backlog, whatever the old file held |
| `ErrorLog.CompactionSyncsIff` | pkg/yurthub/cachemanager/error_keys.go:167-237 | The same told by what became of each write of rewrite(), none of which it notices, and with the writer going on meanwhile: in step if and only if the last write that got anywhere was not cut and every key whose put was lost, cut or written behind a cut one is still to be written |
| `ErrorLog.DraftTells` | pkg/yurthub/cachemanager/error_keys.go:176-188 | For any fate of each write, the finished lines of the new file say exactly what the map says about the keys whose put was written in full behind a whole line, and every key is counted |
| `ErrorLog.LostRecordDropsKey` | pkg/yurthub/cachemanager/error_keys.go:176-188 | With an empty queue, a swap after a lost record makes the next restart forget the key |
| `ErrorLog.FullDiskDestroysLog` | pkg/yurthub/cachemanager/error_keys.go:176-224 | A concrete run from the first start: a put safely in the file, a compaction whose one write fails unnoticed, and a restart that finds nothing |
| `ErrorLog.CompressionShrinksFile` | pkg/yurthub/cachemanager/error_keys.go:153-206 | From any reachable state in which compress() rewrites and no write call had failed, the finished rewrite, none of its own writes failing, leaves one line per key, takes more than the threshold of 20 off the file and does not trigger again |
| `ErrorLog.CountWithinFileRun` | pkg/yurthub/cachemanager/error_keys.go:127-145 | Over every run in which no write call fails, of the writer or of rewrite(), the line counter never exceeds the lines in the file, with one to spare while the last line is torn |
| `ErrorLog.FailedWriteIsCounted` | pkg/yurthub/cachemanager/error_keys.go:127-145 | A write that fails at once is counted all the same, so the counter can run ahead |
| `ErrorLog.CutWriteIsToldIff` | pkg/yurthub/cachemanager/error_keys.go:127-145 | After a write that fails and a restart the map says about every key what the file said before, except that a record that lacks only its newline counts as written |
| `ErrorLog.PersistingIff` | pkg/yurthub/cachemanager/error_keys.go:208-237 | The queue is shut down if and only if a reopen failed and no restart came after it |
| `ErrorLog.QueuedAre` | pkg/yurthub/cachemanager/error_keys.go:86-103 | What put and del leave in the map and behind the queue: nothing once it is shut down, and nothing for a key that is not there |
| `ErrorLog.DrainedRestartRebuildsMap` | pkg/yurthub/cachemanager/error_keys.go:239-269 | From the first start on, a restart with an empty queue and no write in flight rebuilds the map exactly |
| `ErrorLog.SuffixReplayIsIdle` | pkg/yurthub/cachemanager/error_keys.go:208-269 | Replaying any in-order suffix of a history over the state it led to changes nothing, which is why swapping with a non-empty queue is harmless |
| `ErrorLog.SettledMeansIdle` | pkg/yurthub/cachemanager/error_keys.go:239-269 | A list of operations is idle over a map if and only if the map already shows the outcome of the last operation on every key |
| `ErrorLog.SnapshotIsTheMap` | pkg/yurthub/cachemanager/error_keys.go:176-188 | The puts written for a map in any iteration order, none of the writes failing, replay to that map, one whole line each |
| `ErrorLog.SameReplayIffSameLastOps` | pkg/yurthub/cachemanager/error_keys.go:86-145 | Delivered and issued operations give the same file state if and only if every key ends in the same outcome |
| `ErrorLog.ReorderedOrMergedDeliveryDiverges` | pkg/yurthub/cachemanager/error_keys.go:86-103 | A put delayed behind its del, or a repeated put merged into the first, gives another state: the premise on the queue is needed |
| `ErrorLog.NextRecordSurvivesIffNotTorn` | pkg/yurthub/cachemanager/error_keys.go:127-145 | After a restart the next record reaches the file for good, for every key and value, if and only if the file ends in a newline |
| `ErrorLog.TornTailSwallowsRecord` | pkg/yurthub/cachemanager/error_keys.go:127-145 | Behind a torn last line every record is lost, and that line with it: a restart finds the file as if neither had been written |
| `ErrorLog.ErrorKeys.constructor` | pkg/yurthub/cachemanager/error_keys.go:50-71 | A new log over whatever the file holds starts with an empty map, a zero counter and a running queue |
| `ErrorLog.ErrorKeys.PutKey` | pkg/yurthub/cachemanager/error_keys.go:86-92 | Whole new state: the map entry, and the operation queued unless the queue is shut down |
| `ErrorLog.ErrorKeys.DelKey` | pkg/yurthub/cachemanager/error_keys.go:94-103 | Whole new state: nothing for an absent key, otherwise entry removed and del queued |
| `ErrorLog.ErrorKeys.ProcessNextOperator` | pkg/yurthub/cachemanager/error_keys.go:127-145 | Whole new state: one operation the queue may hand over is appended as a line and counted, or, when the write fails, lost in whole or in part and counted all the same |
| `ErrorLog.ErrorKeys.WriteSnapshot` | pkg/yurthub/cachemanager/error_keys.go:167-190 | For any set of keys whose write fails and however far it gets, the loop over the map leaves the file that the fates of its writes tell, for some order of all its keys, and touches nothing else |
| `ErrorLog.ErrorKeys.SwapAOF` | pkg/yurthub/cachemanager/error_keys.go:208-237 | Whole new state for each of rename and reopen failing or not; the counter is set only when both succeed |
| `ErrorLog.ErrorKeys.Recover` | pkg/yurthub/cachemanager/error_keys.go:239-269 | The two loops decode the lines that decode and replay them over the map |
| `CacheErrors.ErrorMapTellsHistory` | pkg/yurthub/cachemanager/storage_wrapper.go:93-286 | In every run of wrapper calls, writes that may fail, compactions whose rename or reopen may fail, and restarts with the file in step, a key is in the error map if and only if its latest recorded outcome was a failure not followed by a wipe of its component, and with that message |
| `CacheErrors.MapTellsAllCalls` | pkg/yurthub/cachemanager/storage_wrapper.go:93-286 | From the first start on, the map tells exactly the calls made so far |
| `CacheErrors.LatestCallDecides` | pkg/yurthub/cachemanager/storage_wrapper.go:93-286 | From the first start on, in every run of calls, failing writes, compactions and restarts, the map says about a key what the latest call that concerns it said: the message of the first thing that failed with the prefix of the call, nothing after a success or a wipe of its component; an update that is not found or conflicts concerns no key |
| `CacheErrors.NothingReportedIff` | pkg/yurthub/cachemanager/storage_wrapper.go:85-87 | Nothing is reported if and only if no key's latest call failed |
| `CacheErrors.WipesFirstElement` | pkg/yurthub/cachemanager/storage_wrapper.go:265-276 | The keys a wipe clears are those whose path has the component as its first element |
| `CacheErrors.FileStaysInStep` | pkg/yurthub/cachemanager/error_keys.go:86-269 | While no write call fails, of the writer or of a compaction, the file stays in step with the map through every run of calls, compactions and restarts |
| `CacheErrors.RestartForgetsSinceShutDown` | pkg/yurthub/cachemanager/error_keys.go:208-237 | When the file cannot be reopened after a compaction, renamed or not, the map goes on telling everything, and the next restart tells exactly what the file at that moment says |
| `CacheErrors.FrozenFileKnowsIff` | pkg/yurthub/cachemanager/error_keys.go:208-237 | That file says about a key what was known at that moment if and only if: it is the new one, and the key was not failing or its record reached it; or it is the old one, in step till then, and what was still to be written about the key would not have changed what it says |
| `CacheErrors.CallKeepsTelling` | pkg/yurthub/cachemanager/storage_wrapper.go:93-286 | One call changes the map exactly as its outcome says: failure, success, wipe, or nothing for not-found and conflict |
| `CacheErrors.BackgroundKeepsTelling` | pkg/yurthub/cachemanager/error_keys.go:127-269 | Writes, failed writes, compactions, failed renames and reopens, and restarts with the file in step never change what the map says |
| `CacheErrors.RecordStepsRun` | pkg/yurthub/cachemanager/storage_wrapper.go:235-276 | Putting or deleting the keys of a call one by one, in any order, settles exactly those keys |
| `CacheErrors.StorageWrapper.CreateObject` | pkg/yurthub/cachemanager/storage_wrapper.go:93-110 | What every key says after a create, told by what the serializer and the store answered; the log takes exactly the steps for it |
| `CacheErrors.StorageWrapper.DeleteObject` | pkg/yurthub/cachemanager/storage_wrapper.go:113-121 | What every key says after a delete, with its prefix on the message; the log takes exactly the steps for it |
| `CacheErrors.StorageWrapper.UpdateObject` | pkg/yurthub/cachemanager/storage_wrapper.go:197-233 | What every key says after an update; not found and conflict leave all as it was; the log takes exactly the steps for it |
| `CacheErrors.StorageWrapper.ReplaceList` | pkg/yurthub/cachemanager/storage_wrapper.go:235-262 | Every key of the list has the message of the failure or none, all others are as they were, whatever order the map yields |
| `CacheErrors.StorageWrapper.DeleteComponent` | pkg/yurthub/cachemanager/storage_wrapper.go:265-276 | Exactly the keys below the component are cleared, and only when the store succeeded |
| `CacheErrors.StorageWrapper.SaveCluster` | pkg/yurthub/cachemanager/storage_wrapper.go:278-286 | What every key says after saving cluster information, with its prefix on the message |
| `CacheErrors.StorageWrapper.GetCacheResult` | pkg/yurthub/cachemanager/storage_wrapper.go:85-87 | The number of failing keys and their messages, in whatever order the map yields them |
| `DiskStore.StepRefines` | pkg/yurthub/storage/disk/storage.go:107-572 | Refinement: for any number of operations in progress, every file-system call, failing call, restore or crash changes what a path stands for exactly as promised, wherever nothing is left behind above the path and the step leaves nothing behind itself; so an update or a finished replacement takes effect in one call |
| `DiskStore.NoStaleStepIff` | pkg/yurthub/storage/disk/storage.go:228-272 | Where nothing was left behind above a path, nothing is after the step, if and only if the step is neither the failure of an operation that holds a backup above it nor a crash whose recovery skips one |
| `DiskStore.RestartShowsBacked` | pkg/yurthub/storage/disk/storage.go:484-572 | A restart shows what the store stands for wherever nothing is left behind and nothing is skipped |
| `DiskStore.InvRun` | pkg/yurthub/storage/disk/storage.go:107-572 | Over every interleaving, call by call, with operations that fail at any call and leave their backup, and with crashes, the disk is in the phase each operation in progress believes it to be in |
| `DiskStore.InvStep` | pkg/yurthub/storage/disk/storage.go:107-572 | Each call of one operation, failing ones included, keeps the phase of every other operation and puts its own in the next phase |
| `DiskStore.VersionNeverDecreases` | pkg/yurthub/storage/disk/storage.go:228-272 | For any number of writers, interleaved call by call and cut by crashes, the version a key stands for never decreases between deletions and list replacements that cover it, as long as no operation holding a backup above it fails and no crash finds such a backup skipped |
| `DiskStore.SeenVersionNeverDecreases` | pkg/yurthub/storage/disk/storage.go:228-272 | Under the same conditions the version a reader finds never decreases between moments when no operation covers the key |
| `DiskStore.RestartLowersVersionIff` | pkg/yurthub/storage/disk/storage.go:228-272 | After any run of updates, deletes and list replacements, with none in progress above the key, a restart lowers its version if and only if the outermost backup above it that a failed operation left standing and that is not skipped shows a lower version than the live one |
| `DiskStore.VersionStep` | pkg/yurthub/storage/disk/storage.go:610-625 | No single call, restore or crash that leaves nothing behind lowers the version a key stands for |
| `DiskStore.UpdateCrashRestoresOld` | pkg/yurthub/storage/disk/storage.go:228-272 | Until the last call of an update the key stands for the old file, and a crash that does not skip its backup restores it whole |
| `DiskStore.CrashKeepsUnlocked` | pkg/yurthub/storage/disk/storage.go:484-572 | Away from operations in progress and from backups left behind a restart shows exactly what is live |
| `DiskTree.Recover` | pkg/yurthub/storage/disk/storage.go:484-572 | The walk in its order, with its prefix test on the directories already moved, leaves exactly the disk of the specification: the outermost backup that is not skipped decides below its key, skipped backups stay behind; what becomes of backups inside is `DiskTree.RestoredInside` |
| `DiskTree.RestoredInside` | pkg/yurthub/storage/disk/storage.go:484-572 | What a restart leaves at and below an outermost backup's key, files, directories and backups: what recovering the backup itself would leave if the key is there beside its backup and its name sorts behind tmp_ and itself byte by byte, else the backup as it is; so it goes on at every depth |
| `DiskTree.NestedBackupRestoredIff` | pkg/yurthub/storage/disk/storage.go:484-572 | A backup inside a restored one is gone after the restart if and only if the outer key is there beside its backup and its name sorts behind tmp_ and itself; else it stays as it was |
| `DiskTree.WalkedAfterBackupIff` | pkg/yurthub/storage/disk/storage.go:484-517 | The walk comes to an entry after its backup if and only if the last part of its path sorts behind tmp_ and itself |
| `DiskTree.RecoveredRooted` | pkg/yurthub/storage/disk/storage.go:484-572 | Recovery leaves every file, directory and backup in a directory that is there, if they were before |
| `DiskTree.AllRestoredIff` | pkg/yurthub/storage/disk/storage.go:484-517 | A restart restores every backup if and only if each has a restorable backup at or above it and none lies below another one that is restored over it with something else there; where no backup lies above another, if and only if no backed up directory has a path that is a proper prefix, character by character, of another backup's path |
| `DiskTree.TestDecides` | pkg/yurthub/storage/disk/storage.go:487-491 | At every point of the walk the prefix test on the directories moved so far skips exactly the backups whose path goes on where that of some backed up directory ends |
| `DiskTree.LongerNameIsLeftBehind` | pkg/yurthub/storage/disk/storage.go:484-517 | Of two backups in one directory, one name beginning with the other as ns10 does with ns1, the longer one is never restored: it keeps what is live and its backup stays on the disk, unless a backup restored further up decides on both |
| `DiskTree.RestoredIff` | pkg/yurthub/storage/disk/storage.go:484-572 | One backup, nested ones allowed for, is restored if and only if it or one above it is not skipped and the outermost such one puts the same below it |
| `DiskTree.PrefixOfSibling` | pkg/yurthub/storage/disk/storage.go:669-675 | The path of one backup begins with that of another in the same directory if and only if their names do |
| `DiskTree.BackupNamesItsEntry` | pkg/yurthub/storage/disk/storage.go:669-685 | The entry of a backup is found back from its name, so no two entries share one |
| `DiskStore.ReplaceCrashRestoresOldIff` | pkg/yurthub/storage/disk/storage.go:331-397 | A crash during a list replacement restores the old list whole if and only if no file of its backup has been removed yet; a list whose backup is skipped shows what is live, whole only if that is still the old list |
| `DiskStore.RemovalPunchesHoles` | pkg/yurthub/storage/disk/storage.go:331-397 | Once the backup is being removed a crash shows the old list with the removed items missing |
| `DiskFailures.ReplaceCanLeaveHalfTheOldList` | pkg/yurthub/storage/disk/storage.go:331-397 | A concrete run: replacing a list of two by the empty list, a crash leaves one of the two, neither the old list nor the new |
| `DiskFailures.FailedUpdateUndoesCreate` | pkg/yurthub/storage/disk/storage.go:264-270 | A concrete run: an update fails after its backup, an object is created, and the next restart brings the old object back |
| `DiskFailures.FailedReplacementUndoesCreate` | pkg/yurthub/storage/disk/storage.go:331-397 | A concrete run: a replacement of a list fails to remove its backup, an object is created in the list, and the next restart brings the whole replaced list back |
| `DiskFailures.SkippedBackupUndoesCreate` | pkg/yurthub/storage/disk/storage.go:484-517 | A concrete run: two lists n1 and n10 under replacement at a crash, an object created in n10 afterwards, and the second restart brings the old one back |
| `DiskFailures.CrashBringsBackItemIff` | pkg/yurthub/storage/disk/storage.go:484-572 | A family of runs: an update of an item fails, then a crash cuts off the replacement of its list; the restart brings the item back if and only if the list's name sorts behind tmp_ and itself, and else leaves it in its backup |
| `DiskFailures.WebSortsBehindNs1DoesNot` | pkg/yurthub/storage/disk/storage.go:484-517 | Both outcomes happen: a list named web gets its item back, a list named ns1 does not |
| `DiskStore.NewListShowsEmptyFirst` | pkg/yurthub/storage/disk/storage.go:331-397 | A list stored for the first time is visible as an empty directory before any item of it |
| `DiskOutcomes.OperationLeaves` | pkg/yurthub/storage/disk/storage.go:107-397 | Whatever other operations do meanwhile, an operation none of whose calls fails leaves at and below its key exactly what it and the earlier content say: a create where nothing was, an update that is not older, a deletion, a list replaced by its new items; and otherwise what was there |
| `DiskOutcomes.ReplacedListIsFound` | pkg/yurthub/storage/disk/storage.go:331-397 | A replaced list, stored before or not, is found with exactly its new items |
| `DiskOutcomes.EveryOperationCanEnd` | pkg/yurthub/storage/disk/storage.go:107-397 | From every reachable state an operation in progress can go on to its end by calls of its own that do not fail |
| `DiskOutcomes.WholeOnlyOverTorn` | pkg/yurthub/storage/disk/storage.go:107-397 | No call makes a file whole that was not there unfinished before it |
| `DiskDirs.NothingBelowNothingEver` | pkg/yurthub/storage/disk/storage.go:107-397 | From the empty disk on, whatever operations run, fail or crash: nothing lies below a path that does not exist, neither a file nor a backup |
| `DiskDirs.InDirsRun` | pkg/yurthub/storage/disk/storage.go:107-572 | Every run keeps every file, directory and backup in a directory that is there |
| `DiskDirs.InDirsStep` | pkg/yurthub/storage/disk/storage.go:107-572 | Each single call, failure and crash does |
| `DiskDirs.OperationLeavesEver` | pkg/yurthub/storage/disk/storage.go:107-397 | An operation begun at any moment of any run from the empty disk, none of its calls failing, leaves what it and the earlier content say |
| `DiskStore.RestartKeepsKeyIff` | pkg/yurthub/storage/disk/storage.go:228-397 | After any run of updates, deletes and list replacements, with none in progress above the key, a restart keeps what is live at the key if and only if no backup that a failed operation left above it still stands unskipped, or the outermost one shows what is live again |
| `DiskStore.RestartShowsLastFailed` | pkg/yurthub/storage/disk/storage.go:228-397 | After any such run a restart shows what the outermost standing backup above the key shows, and what is live if there is none |
| `DiskStore.FailedStepTells` | pkg/yurthub/storage/disk/storage.go:228-397 | For every step of any run, the history of failed operations tells exactly which backups stand above the key and what is in them: a failing holder adds its own, a rename takes along or overwrites those below its key, a failed replacement puts them back, one in the way is removed bit by bit, a restart restores the outermost |
| `DiskStore.AbortLeavesBefore` | pkg/yurthub/storage/disk/storage.go:228-397 | What a failing operation leaves standing is what its key held when it began, or what the removal has left of that |
| `StoreKeys.ExtractUndoesKeyIff` | pkg/yurthub/storage/disk/key.go:47-135 | Reading back the key of an object gives the description it was built from if and only if no dot is in the resource (and version), the group is not literally core, no namespace was dropped, and outside enhancement mode version and group are empty |
| `StoreKeys.ExtractReads` | pkg/yurthub/storage/disk/key.go:83-135 | For every object key, extraction returns the component, the parsed resource directory, the namespace kept in the path and the name, or fails with the resource directory |
| `StoreKeys.ExtractFailsIff` | pkg/yurthub/storage/disk/key.go:83-135 | A key is not read at all if and only if it has fewer than three elements or its second one has a single dot |
| `StoreKeys.RecoverableKeysDiffer` | pkg/yurthub/storage/disk/key.go:47-81 | In enhancement mode two objects whose keys keep all of their description never share a key |
| `ListAdmission.AcceptedListsAreServed` | pkg/yurthub/cachemanager/cache_manager.go:162-245 | From an empty cache, after any run of list responses, watch events, answers with one object and lists by name that find nothing, every cached list of which nothing was missed last is answered with exactly the objects the server has, each once, at the highest version among them |
| `ListAdmission.StoreHoldsServersIff` | pkg/yurthub/cachemanager/cache_manager.go:363-626 | After any such run a cached list holds exactly what the server has if and only if for no object the last thing that happened was one that only the store or only the server took (a pod without a node, an object outside the list's selector, an older object), or a wipe by a list by name that found nothing |
| `ListAdmission.MissedStepTells` | pkg/yurthub/cachemanager/cache_manager.go:363-626 | Step by step, the history tells exactly which objects the store has differently from the server |
| `ListAdmission.UnassignedPodIsMissing` | pkg/yurthub/cachemanager/cache_manager.go:657-663 | A watched pod without a node that the store does not have yet is missing from the list the server has it in |
| `ListAdmission.UnlistedObjectIsServed` | pkg/yurthub/cachemanager/cache_manager.go:519-626 | An object that another request brings, by its name or through a watch with another selector, is filed in the cached list above its key although the server does not have it in that list |
| `ListAdmission.EmptyNamedListKeepsIff` | pkg/yurthub/cachemanager/cache_manager.go:519-564 | A list by name that finds nothing replaces the whole namespace by nothing; a cached list survives it if and only if it has nothing there and does not lie below |
| `ListAdmission.RunKeepsInv` | pkg/yurthub/cachemanager/cache_manager.go:363-626 | Over every run the subtree of each cached list holds exactly the objects that were stored for it and not replaced, deleted or wiped since |
| `ListAdmission.ListKeepsInv` | pkg/yurthub/cachemanager/cache_manager.go:537-564 | Saving one accepted list disturbs no other accepted list |
| `ListAdmission.ObjectKeepsInv` | pkg/yurthub/cachemanager/cache_manager.go:399-626 | Storing, removing or refusing one object, of a watch event or of an answer, changes the one list above its key, if there is one, and disturbs no other list |
| `ListAdmission.ListResponseSetsServer` | pkg/yurthub/cachemanager/cache_manager.go:537-564 | Right after a list response the objects of the list are its items, each once |
| `ListAdmission.WatchLeavesListIff` | pkg/yurthub/cachemanager/cache_manager.go:399-466 | Any watch event leaves an accepted list as it was if and only if its key lies elsewhere or it changes nothing that is stored |
| `ListAdmission.RefusedListsWatchIsCached` | pkg/yurthub/cachemanager/cache_manager.go:754-835 | A watch whose own list was refused for its selector is cached all the same and its objects appear in the accepted list |
| `ListAdmission.AcceptedListsAgreeOrDiffer` | pkg/yurthub/cachemanager/cache_manager.go:787-834 | Two list requests accepted at any two times share key and selector, or neither key contains the other |
| `ListAdmission.TableOverRuns` | pkg/yurthub/cachemanager/cache_manager.go:787-834 | Over every run of CanCacheFor recorded lists are never changed or removed and no recorded key occurs inside another |
| `ListAdmission.AdmitKeepsAntichain` | pkg/yurthub/cachemanager/cache_manager.go:787-834 | One admission keeps every recorded list, records an accepted one with its selector, and keeps keys free of each other |
| `ListAdmission.AdmitIff` | pkg/yurthub/cachemanager/cache_manager.go:787-834 | A key is admitted if and only if it is recorded with the same selector, or not recorded and neither inside nor around a recorded key; the table then has it with its selector, else it is as it was |
| `ListAdmission.CanCacheIff` | pkg/yurthub/cachemanager/cache_manager.go:754-835 | A request is let in if and only if component, request, verb, subresource and resource pass the checks and, if it is a list without a name, its key has a place in the table |
| `ListAdmission.FirstListIsAccepted` | pkg/yurthub/cachemanager/cache_manager.go:787-834 | The first list that passes the checks is accepted |
| `ListAdmission.AcceptedStaysAccepted` | pkg/yurthub/cachemanager/cache_manager.go:787-834 | A list accepted once is accepted after whatever requests came in between |
| `ListAdmission.CacheManager.CanCacheFor` | pkg/yurthub/cachemanager/cache_manager.go:754-835 | The answer told by the checks and the recorded keys, and the table afterwards; the loop over the table finds a key inside or around another |
| `ListAdmission.CacheManager.SaveListObject` | pkg/yurthub/cachemanager/cache_manager.go:469-565 | For any items: a list with a key outside its own is refused and changes nothing; an object in the way puts the old list back; nothing beside the list is lost; a list as an API server sends it replaces the old one |
| `ListAdmission.CacheManager.SaveOneObject` | pkg/yurthub/cachemanager/cache_manager.go:567-626 | An answer with one object stores it under its own or the request's name and namespace, and nothing when it has no name |
| `ListAdmission.OneKeyPerObject` | pkg/yurthub/cachemanager/cache_manager.go:413-635 | However one component comes by an object, in a list over its namespace or over all, by a watch, a create, a get or an update, it is filed under one key |
| `ListAdmission.ConvertedApart` | pkg/yurthub/util/util.go:540-542 | One resource asked for in full, and as partial metadata of one version or another, is cached under different keys |
| `ListAdmission.CacheManager.SaveWatchObject` | pkg/yurthub/cachemanager/cache_manager.go:363-467 | The loop over the events stores, removes or passes over each object in turn; objects without a name and pods without a node are not stored |
| `ListAdmission.CacheManager.SaveEvent` | pkg/yurthub/cachemanager/cache_manager.go:395-467 | One turn of the loop: store, remove or pass over |
| `ListAdmission.BuildContents` | pkg/yurthub/cachemanager/cache_manager.go:537-558 | The loop over the items files each under its own key, an item without a namespace under the namespace of the request |
| `ListAdmission.CompleteListVersion` | pkg/yurthub/cachemanager/cache_manager.go:327-345 | The list version is the highest version among the objects, zero for none |
| `ListCache.SaveThenQuery` | pkg/yurthub/cachemanager/cache_manager.go:162-245 | Round trip: a saved list is answered with exactly its items, whatever was stored before and in whatever order the directory is read |
| `ListCache.AnswerIs` | pkg/yurthub/cachemanager/cache_manager.go:162-245 | The answer to a list from any files: not found if and only if nothing is stored for it and it does not ask by name, or the kubelet's pods are all gone; an error if and only if the first file read does not decode; else exactly the objects that decode, with the highest version among them |
| `DiskListing.AnswersFromLiveIff` | pkg/yurthub/storage/disk/storage.go:184-224 | List reads every regular file below the key, those of backups too: it reads the live files alone, and the answer is the one over them, if and only if no backup below the key holds a file |
| `DiskListing.ListsLiveObjectsIff` | pkg/yurthub/storage/disk/storage.go:184-224 | The list has exactly the live objects, each as often, if and only if no backup below its key holds an object |
| `DiskListing.ListedMoreOftenIff` | pkg/yurthub/storage/disk/storage.go:184-224 | It has an object more often than the live files do if and only if a backup below the key holds it, and never less often |
| `DiskListing.FailedUpdateIsListedTwice` | pkg/yurthub/storage/disk/storage.go:184-273 | A run: an update of an item fails after its backup, the item is created anew, and the list comes back with the new object and the old |
| `DiskListing.MovedBelowIff` | pkg/yurthub/storage/disk/storage.go:669-685 | A backup and what is in it lie below a key if and only if the entry it saves does |
| `DiskListing.MovedInjective` | pkg/yurthub/storage/disk/storage.go:669-685 | No two files, in whatever backups, have one path |
| `ListCache.HeldObjectsAreServed` | pkg/yurthub/cachemanager/cache_manager.go:162-245 | A store that holds objects answers with exactly them |
| `ListCache.EventKeepsHolds` | pkg/yurthub/cachemanager/cache_manager.go:399-466 | Any event takes the held objects to those after it, a pod without a node and an object older than the stored one leaving them as they were |
| `ListCache.EventFollowsServerIff` | pkg/yurthub/cachemanager/cache_manager.go:399-466 | An event keeps a list equal to the server's equal to it if and only if it is not a pod without a node, or an object older than the stored one, that differs from what is stored |
| `ListCache.StaleEventIsIgnored` | pkg/yurthub/cachemanager/cache_manager.go:657-693 | An event older than what is stored leaves the store as it is |
| `ListCache.WatchTurnsConcat` | pkg/yurthub/cachemanager/cache_manager.go:399-466 | A watch takes its events one after the other, and those without a name leave no trace |
| `ListCache.ItemKeyInjective` | pkg/yurthub/storage/disk/key.go:47-81 | Different items of one list have different keys |
| `ListCache.ItemBelowRoot` | pkg/yurthub/storage/disk/key.go:47-81 | Every item of a list lies strictly below the key of the list |
| `ListCache.DiskReplaceIsAfterReplace` | pkg/yurthub/storage/disk/storage.go:331-397 | The last call of the disk replacement leaves, file by file, what the list cache takes a replacement to do |
| `InMemoryCache.HitIsWhatStoreHolds` | pkg/yurthub/cachemanager/cache_manager.go:567-655 | Over every run of responses, rejected versions and restarts, with one directory per resource, a memory hit is exactly what the store holds |
| `InMemoryCache.QueryIsAnsweredFromStore` | pkg/yurthub/cachemanager/cache_manager.go:247-306 | Over the same runs every query is answered with what the store holds and with nothing else, whether memory has it, has lost it at a restart or never had it |
| `InMemoryCache.MemoryIsFilled` | pkg/yurthub/cachemanager/cache_manager.go:247-306 | A query for a stored object, and a response that is stored, leave the object in memory |
| `InMemoryCache.EveryRunCoherentIff` | pkg/yurthub/cachemanager/cache_manager.go:567-655 | Every run stays so if and only if any two served versions of one resource are kept in the same directory, which outside enhancement mode they always are |
| `InMemoryCache.StepKeepsCoherent` | pkg/yurthub/cachemanager/cache_manager.go:567-655 | With one directory per resource each response keeps memory and store in agreement for every request |
| `InMemoryCache.OneWriterKeepsNewest` | pkg/yurthub/cachemanager/cache_manager.go:657-693 | Stored one after the other, the newest of all objects wins and what is stored is one of them or what there was |
| `InMemoryCache.TwoWritersCanLoseNewest` | pkg/yurthub/cachemanager/cache_manager.go:657-693 | Two writers that both find the key missing can leave the older object |
| `InMemoryCache.TwoVersionsCollide` | pkg/yurthub/cachemanager/cache_manager.go:903-915 | Requests that differ only in group or version share a key in memory and the second is answered with the first one's object |
| `InMemoryCache.NamedListKeepsCurrentIff` | pkg/yurthub/cachemanager/cache_manager.go:519-536 | From any coherent state, a list by name keeps memory in step if and only if memory has nothing for it, or the object is refused or already there |
| `InMemoryCache.ActKeepsBehind` | pkg/yurthub/cachemanager/cache_manager.go:567-655 | Under any interleaving of store and memory writes memory never runs ahead of the store and stored versions never decrease |
| `InMemoryCache.CopyKeepsCurrentIff` | pkg/yurthub/cachemanager/cache_manager.go:567-655 | With any number of copies under way to memory, one that lands keeps memory bound for what the store holds if and only if it does not overtake an earlier one with another object |
| `InMemoryCache.OrderedCopiesStayCurrent` | pkg/yurthub/cachemanager/cache_manager.go:567-655 | However responses, queries and restarts overlap, as long as no copy overtakes another on its way, memory agrees with the store whenever no copy is under way |
| `InMemoryCache.NewestResponseIsStored` | pkg/yurthub/cachemanager/cache_manager.go:657-693 | However responses, queries, copies and restarts overlap, the store ends up with the newest object it was given for a key, the last of them if several have that version |
| `InMemoryCache.MemoryCatchesUp` | pkg/yurthub/cachemanager/cache_manager.go:247-306 | After a response that is not older than what is stored, or a query that finds the object, and without a restart, memory holds what the store holds as soon as no copy is under way |
| `InMemoryCache.OrderedActKeepsDueIsStored` | pkg/yurthub/cachemanager/cache_manager.go:567-655 | Each store write, fetch, copy that overtakes none, or restart keeps what is due in memory equal to what is stored |
| `InMemoryCache.NewestIsStoredIff` | pkg/yurthub/cachemanager/cache_manager.go:657-693 | For any number of writers and any interleaving of their update and create calls, what is stored in the end is as new as every object if and only if every object whose create comes after another create is no newer than what there was or than one whose create does not |
| `InMemoryCache.LosersAreRefused` | pkg/yurthub/cachemanager/cache_manager.go:657-693 | Told by the schedule alone: a create is refused if and only if another one landed before it, that is, between its own update and it |
| `InMemoryCache.WatchKeepsCurrentIff` | pkg/yurthub/cachemanager/cache_manager.go:433-443 | A watch event reaches memory even when the store refuses it: memory stays in step if and only if the object is not older than what is stored, or is it |
| `InMemoryCache.MemKeyInjective` | pkg/yurthub/cachemanager/cache_manager.go:903-915 | The memory key tells resource, namespace and name apart |
| `InMemoryCache.DiskKeyInjective` | pkg/yurthub/storage/disk/key.go:47-81 | Within one resource directory the disk key tells all requests apart |
| `InMemoryCache.KeysAgree` | pkg/yurthub/cachemanager/cache_manager.go:903-915 | With one directory per resource, the key in memory and the key on disk tell the same requests apart |
| `InMemoryCache.KubeletCache.StoreObjectWithKey` | pkg/yurthub/cachemanager/cache_manager.go:657-693 | Whole new store and result: update, create when missing, refusal of an older version or an unassigned pod; a refusal changes nothing and stored versions never fall |
| `InMemoryCache.KubeletCache.SaveOneObject` | pkg/yurthub/cachemanager/cache_manager.go:567-638 | Whole new store and memory; memory follows only when the store took the object |
| `InMemoryCache.KubeletCache.QueryOneObject` | pkg/yurthub/cachemanager/cache_manager.go:247-306 | Where memory agrees with the store the answer is what the store holds, hit or miss, and memory then has it |
| `FilteredWatch.ClientHoldsFilteredImage` | pkg/yurthub/multiplexer/filterwatch.go:66-94 | With a filter that keeps namespace and name, a client that starts from the filtered list holds after any number of events exactly the filtered image of the source |
| `FilteredWatch.ClientHoldsLatest` | pkg/yurthub/multiplexer/filterwatch.go:66-94 | After a list and events the client holds under a key exactly what the filter makes of the object the latest event on it brought, and nothing if that was a deletion or the filter drops it |
| `FilteredWatch.LatestEventDecides` | pkg/yurthub/multiplexer/filterwatch.go:66-94 | A cache fed with events holds under a key what the latest event on it left, or what it held before |
| `FilteredWatch.TracksIffKeysKept` | pkg/yurthub/multiplexer/filterwatch.go:66-94 | A filter is tracked on every source and stream if and only if it keeps namespace and name |
| `FilteredWatch.RenamingBreaksTracking` | pkg/yurthub/multiplexer/filterwatch.go:66-94 | An object filtered into another name ends up under a key the source does not have |
| `FilteredWatch.EventsTrack` | pkg/yurthub/multiplexer/filterwatch.go:66-94 | Applying the rewritten events to the filtered image gives the filtered image of the source after the events |
| `FilteredWatch.ListTracks` | pkg/yurthub/multiplexer/filterstore.go:81-105 | The filtered list is the filtered image of the list |
| `FilteredWatch.FilterItemsConcat` | pkg/yurthub/multiplexer/filterstore.go:92-98 | Filtering a list is filtering its items one by one, in their order |
| `FilteredWatch.ChainTracks` | pkg/yurthub/filter/objectfilter/chain.go:50-59 | A chain of filters that each keep namespace and name is tracked as one filter |
| `FilteredWatch.ChainConcat` | pkg/yurthub/filter/objectfilter/chain.go:50-59 | A chain in two parts: the second works on what the first lets through |
| `FilteredWatch.ChainKeepsKey` | pkg/yurthub/filter/objectfilter/chain.go:50-59 | What such a chain lets through keeps its namespace and name |
| `FilteredWatch.Receive` | pkg/yurthub/multiplexer/filterwatch.go:66-94 | The loop delivers, up to the stop, bookmarks and errors as they are, kept objects as the filter makes them under their event type, and dropped ones as deletions of the original object |
| `FilteredWatch.FilterListObject` | pkg/yurthub/multiplexer/filterstore.go:81-105 | The loop keeps what the filter keeps in order; a list without items goes through the filter itself |
| `FilteredWatch.FilterChain` | pkg/yurthub/filter/objectfilter/chain.go:50-59 | The loop applies the filters in order and stops at the first that drops the object |
| `PoolScopeFlag.RoundTripIff` | cmd/yurthub/app/options/pool_scope_metadata.go:29-63 | Setting the flag to its own printout gives the list back if and only if it is not empty and every field is clean |
| `PoolScopeFlag.CleanListRoundTrips` | cmd/yurthub/app/options/pool_scope_metadata.go:29-63 | A non-empty list of clean resources survives printing and parsing |
| `PoolScopeFlag.ParsedAre` | cmd/yurthub/app/options/pool_scope_metadata.go:47-63 | Parsing takes the parts in order, fields trimmed, up to the first that has not three fields, and fails if and only if there is one |
| `PoolScopeFlag.PoolScopeMetadatas.Set` | cmd/yurthub/app/options/pool_scope_metadata.go:47-63 | Appends what it parses; on a bad part the parts before it stay appended |
| `PoolScopeFlag.PoolScopeMetadatas.ToText` | cmd/yurthub/app/options/pool_scope_metadata.go:29-44 | The loop prints group, version and resource of each entry in order |
| `LeaderConfig.StateIsParseOfLatest` | pkg/yurthub/multiplexer/multiplexer.go:112-202 | After an add and any chain of updates, source, pool-scope set, leader addresses and both sets of backends are the plain parse of the latest configmap: all three shortcuts are sound |
| `LeaderConfig.FollowsPoolIff` | pkg/yurthub/multiplexer/multiplexer.go:167-173 | Whatever configmaps came before, a hub that has taken in the one published for a pool reads from the pool if and only if the pool elects leaders, has one, and none of them is the hub's own node |
| `LeaderConfig.BackendsAreLeaders` | pkg/yurthub/multiplexer/multiplexer.go:175-181 | Both sets of backends are then the servers of exactly those leaders whose address parses |
| `LeaderConfig.SourceIs` | pkg/yurthub/multiplexer/multiplexer.go:167-173 | The source is the pool if and only if the raw value is true, there is a leader and no leader has the node's name |
| `LeaderConfig.LeadersAre` | pkg/yurthub/multiplexer/multiplexer.go:155-165 | A hub takes for leaders exactly the comma-separated entries of two parts, whatever else the value holds |
| `LeaderConfig.MetadataIs` | pkg/yurthub/multiplexer/multiplexer.go:140-153 | A hub takes for pool-scope resources exactly the entries of three parts |
| `LeaderConfig.MultiplexerManager.UpdateLeaderHubConfiguration` | pkg/yurthub/multiplexer/multiplexer.go:139-202 | Whole new state after the parsing loops and the three comparisons; the source told by the raw value and the leaders |
| `LeaderConfig.MultiplexerManager.ParseMetadata` | pkg/yurthub/multiplexer/multiplexer.go:140-153 | The loop over the published resources |
| `LeaderConfig.MultiplexerManager.ParseLeaders` | pkg/yurthub/multiplexer/multiplexer.go:155-165 | The loop that fills the set of names and the set of addresses side by side |
| `LeaderConfig.MultiplexerManager.AddConfigmap` | pkg/yurthub/multiplexer/multiplexer.go:112-121 | The state becomes the parse of the configmap |
| `LeaderConfig.MultiplexerManager.UpdateConfigmap` | pkg/yurthub/multiplexer/multiplexer.go:123-137 | The state becomes the parse of the new configmap, also when equal data is skipped |
| `LeaderConfig.MultiplexerManager.ResolveLeaderHubServers` | pkg/yurthub/multiplexer/multiplexer.go:254-265 | The servers are those of the addresses that parse |
| `LeaderConfig.PublishedLeadersParse` | pkg/yurtmanager/controller/hubleaderconfig/hubleaderconfig_controller.go:180-203 | A hub reads out of the published configmap exactly the leaders the controller put in |
| `LeaderConfig.PublishedMetadataParses` | pkg/yurtmanager/controller/hubleaderconfig/hubleaderconfig_controller.go:186-203 | A hub reads out of the published configmap exactly the pool-scope resources |
| `LeaderConfig.GvrStringInjective` | pkg/yurtmanager/controller/hubleaderconfig/hubleaderconfig_controller.go:240-242 | The printed form of a resource tells resources apart |
| `LeaderConfig.PoolScopedExactly` | pkg/yurtmanager/controller/hubleaderconfig/hubleaderconfig_controller.go:186-203 | With the published configmap applied a hub treats as pool-scoped exactly the resources of the pool |
| `PoolRouting.RequestEndsAtMostTwoHubsOn` | pkg/yurthub/proxy/proxy.go:165-195 | In a pool that agrees on its configmap every request ends after at most four steps, is forwarded at most once, has been at no more than its hub and one leader, and never comes back to where it was |
| `PoolRouting.CourseOfRequest` | pkg/yurthub/proxy/proxy.go:149-256 | The exact course of a client's request of any kind in a pool whose hubs have applied what was published: past the multiplexer if the resource is pool-scope, through one leader if the hub is a follower and a leader is healthy, and then to the API server, the local cache, the autonomy proxy or a refusal of the last hub, told by what it finds and by whether the kubelet asks for a lease, a node or an access review |
| `PoolRouting.TurnedAwayIff` | pkg/yurthub/proxy/proxy.go:149-256 | A hub turns a request away if and only if it comes from outside before the hub is ready, the multiplexer's cache is not ready, or nothing is left to ask: no leader, no API server and, but for the kubelet's access reviews, which the local cache does not answer, no local proxy |
| `PoolRouting.OtherEndsBy` | pkg/yurthub/proxy/proxy.go:196-256 | Where a request that is not for pool-scope metadata ends, as four if-and-only-ifs over who asks, for what, and which of API server and edge mode there is |
| `PoolRouting.ComponentIsKubeletIff` | pkg/yurthub/util/util.go:132-146 | A request is the kubelet's if and only if its User-Agent is kubelet, in any case, alone or before a slash |
| `PoolRouting.LeaseStaysAtTheEdge` | pkg/yurthub/proxy/proxy.go:228-242 | The kubelet's leases never leave a hub in edge mode, also while the API server is healthy |
| `PoolRouting.ForwardedOnceIff` | pkg/yurthub/multiplexer/multiplexer.go:220-252 | A pool-scope request is forwarded between hubs at most once, from everywhere, if and only if no hub forwards to one that forwards itself |
| `PoolRouting.DisagreeingHubsCycle` | pkg/yurthub/multiplexer/multiplexer.go:220-252 | Two hubs that each take the other for the leader pass a request round and round |
| `PoolRouting.PathIsShort` | pkg/yurthub/proxy/proxy.go:165-195 | Without chained pools every path is bounded by the rank of its start, which is at most four |
| `PoolRouting.RankFalls` | pkg/yurthub/proxy/proxy.go:165-195 | Without chained pools the rank falls along every path, so no place is visited twice |
| `PoolRouting.VisitsStartAndOneLeader` | pkg/yurthub/proxy/proxy.go:165-195 | Every hub on the way is where the request started, or one leader |
| `PoolRouting.PublishedPoolAgrees` | pkg/yurtmanager/controller/hubleaderconfig/hubleaderconfig_controller.go:163-237 | The configmap published for a pool and applied by all its hubs is such an agreement |
| `PoolRouting.AgreedHasNoChain` | pkg/yurthub/multiplexer/multiplexer.go:139-202 | In an agreeing pool no leader follows the pool, so nothing is chained |
| `PoolRouting.HandOver` | pkg/yurthub/proxy/proxy.go:165-195 | A follower hands its own request to a leader hub, which asks on under its own name |
| `Iptables.EveryRunLinkedOrDangling` | pkg/yurthub/locallb/iptables.go:62-159 | Over every run of updates with any failing call: never two jumps, never a jump without its chain, foreign OUTPUT rules kept in place |
| `Iptables.UpdateEffect` | pkg/yurthub/locallb/iptables.go:62-71 | A successful update leaves one rule per address in order and one jump; a failing one leaves the chain linked or, only if dropping the chain or adding the jump failed, dangling |
| `Iptables.LeavesDanglingIff` | pkg/yurthub/locallb/iptables.go:62-159 | An update leaves the chain dangling if and only if dropping it fails after its jump is gone, or adding the jump fails after the chain has been made |
| `Iptables.CleanEffect` | pkg/yurthub/locallb/iptables.go:127-159 | A successful cleanup leaves no chain and no jump; a dangling chain makes it fail |
| `Iptables.AddEffect` | pkg/yurthub/locallb/iptables.go:73-125 | Adding succeeds if and only if no call fails and the service address splits, and then the chain holds exactly the rules |
| `Iptables.AddRulesEffect` | pkg/yurthub/locallb/iptables.go:104-124 | The loop over the addresses succeeds if and only if no append fails; the first that fails leaves the rules before it |
| `Iptables.OthersConcat` | pkg/yurthub/locallb/iptables.go:127-159 | The foreign rules of OUTPUT are those that are not jumps to the chain, in their order |
| `Iptables.OthersOfOne` | pkg/yurthub/locallb/iptables.go:127-159 | A single rule is foreign if and only if it is not a jump to the chain |
| `Iptables.DanglingIsForever` | pkg/yurthub/locallb/iptables.go:127-159 | A dangling chain makes every later update and cleanup fail and stays |
| `Iptables.FaultlessUpdateSucceedsIff` | pkg/yurthub/locallb/iptables.go:62-71 | With iptables working, an update succeeds if and only if the chain is not dangling and the service address splits |
| `Iptables.EveryAddressChosenAlike` | pkg/yurthub/locallb/iptables.go:161-168 | Every API server gets exactly one n-th of the packets |
| `Iptables.UpdateBalances` | pkg/yurthub/locallb/iptables.go:62-125 | After an update that succeeds, rule i sends packets for the service to address i of the list, every address gets its multiplicity over n of the packets, and none is left |
| `Iptables.ReachOfRules` | pkg/yurthub/locallb/iptables.go:161-168 | Rule i is reached by exactly (n-i)/n of the packets |
| `Iptables.NoPacketFallsThrough` | pkg/yurthub/locallb/iptables.go:161-168 | No packet falls through the last rule |
| `Iptables.GetRandomBalancingProbability` | pkg/yurthub/locallb/iptables.go:161-168 | The loop fills the slice with 1/n up to 1 |
| `Iptables.IptablesManager.UpdateIptablesRules` | pkg/yurthub/locallb/iptables.go:62-71 | Whole new table and result of the clean-and-add sequence; on success rule i is for address i with probability 1/(n-i) |
| `Iptables.IptablesManager.AddIptablesRules` | pkg/yurthub/locallb/iptables.go:73-125 | Whole new table and result, call by call |
| `Iptables.IptablesManager.CleanIptablesRules` | pkg/yurthub/locallb/iptables.go:127-159 | Whole new table and result, call by call |
| `LocalLB.TrackedIsLatest` | pkg/yurthub/locallb/locallb.go:68-136 | For one Endpoints object, after its add and any chain of updates, the tracked list holds exactly its latest addresses |
| `LocalLB.LatestAddressesGetTheirShare` | pkg/yurthub/locallb/locallb.go:68-136 | From event to packet: after an add and any chain of updates, when the rules are set, each address of the latest Endpoints gets exactly its share of the packets |
| `LocalLB.UpdateTracksIff` | pkg/yurthub/locallb/locallb.go:90-136 | An update keeps the list right if and only if the addresses did not change or none of the old ones is shared with another object |
| `LocalLB.WithoutCounts` | pkg/yurthub/locallb/locallb.go:138-150 | Removing addresses removes every copy of them and no other address |
| `LocalLB.WithoutConcat` | pkg/yurthub/locallb/locallb.go:138-150 | Removing addresses goes address by address and keeps the order of the rest |
| `LocalLB.AddrsOfConcat` | pkg/yurthub/locallb/locallb.go:77-85 | The addresses of an Endpoints object are those of its subsets one after the other |
| `LocalLB.SubsetAddrsConcat` | pkg/yurthub/locallb/locallb.go:79-83 | Those of a subset are every address with every port, address by address |
| `LocalLB.CollectAddrs` | pkg/yurthub/locallb/locallb.go:68-87 | The nested loops collect every address with every port in order |
| `LocalLB.LocalLBManager.AddEndpoints` | pkg/yurthub/locallb/locallb.go:68-87 | Whole new list; the rules are updated to mirror it unless iptables failed |
| `LocalLB.LocalLBManager.UpdateEndpoints` | pkg/yurthub/locallb/locallb.go:90-136 | Whole new list; equal sorted addresses touch neither list nor rules, otherwise the rules are updated to mirror the list |
| `LocalLB.LocalLBManager.DeleteOldApiserverAddrs` | pkg/yurthub/locallb/locallb.go:138-150 | The loop filters the list in place, keeping order |
| `AppSetConversion.RoundTripKeepsReplicasIff` | pkg/apis/apps/v1alpha1/yurtappset_conversion.go:29-198 | Going to the old version and back keeps a pool's effective replicas if and only if the template or a tweak of the pool sets them |
| `AppSetConversion.RoundTripCounts` | pkg/apis/apps/v1alpha1/yurtappset_conversion.go:29-198 | The round trip keeps pools and templates and gives every pool its effective count or, lacking one, zero |
| `AppSetConversion.SecondRoundTripIsIdle` | pkg/apis/apps/v1alpha1/yurtappset_conversion.go:29-198 | A second round trip, in any map order, changes no pool's count and no pool |
| `AppSetConversion.AlphaRoundTrip` | pkg/apis/apps/v1alpha1/yurtappset_conversion.go:29-170 | The other way round: a topology of one pool per entry comes back with the same pools, each with its own count or, lacking one, the template's |
| `AppSetConversion.LastTweakIs` | pkg/apis/apps/v1alpha1/yurtappset_conversion.go:160-166 | The count of a pool is that of the last listed tweak that names it and sets replicas |
| `AppSetConversion.TakenOfEntry` | pkg/apis/apps/v1alpha1/yurtappset_conversion.go:53-66 | What is taken of one topology entry: its values and, if it sets replicas, a tweak of them all |
| `AppSetConversion.TakenConcat` | pkg/apis/apps/v1alpha1/yurtappset_conversion.go:53-66 | The topology is taken entry by entry, in order |
| `AppSetConversion.TakenMeansSelectedIff` | pkg/apis/apps/v1alpha1/yurtappset_conversion.go:51-68 | For every entry, whatever its match expressions: the pools taken over stand for the very nodes its match expressions select if and only if it begins with In on the pool label and its other expressions hold of every node of those pools, or it selects no node and no value is taken over |
| `AppSetConversion.ForeignLabelIsTakenForPools` | pkg/apis/apps/v1alpha1/yurtappset_conversion.go:54-56 | In on another label, and NotIn on the pool label, are taken over as if their values were pools, and stand for other nodes |
| `AppSetConversion.PoolEntryIsTakenRight` | pkg/apis/apps/v1alpha1/yurtappset_conversion.go:54-56 | A single In on the pool label is taken over to the very nodes it selects |
| `AppSetConversion.ConvertFrom` | pkg/apis/apps/v1alpha1/yurtappset_conversion.go:107-169 | The map overwritten tweak by tweak and emptied in some order gives the templates and, for every pool, exactly one topology entry with the replicas of the last tweak that names it and sets them, else the template's, else zero |
| `AppSetConversion.DefaultTweaks` | pkg/apis/apps/v1alpha1/yurtappset_conversion.go:143-157 | The first loop gives exactly the pools the default count |
| `AppSetConversion.TopologyOf` | pkg/apis/apps/v1alpha1/yurtappset_conversion.go:167-169 | The map emptied in whatever order gives one topology entry per pool, with its count |
| `AppSetConversion.ConvertTo` | pkg/apis/apps/v1alpha1/yurtappset_conversion.go:51-68 | The loop over the topology; it runs out of bounds if and only if an entry has no match expression |
| `AppSetConversion.ApplyTweak` | pkg/apis/apps/v1alpha1/yurtappset_conversion.go:160-166 | One tweak overwrites exactly the pools it names, and only when it sets replicas |
| `ChainTable.ScanExactIff` | pkg/util/iptables/save_restore.go:32-52 | For every text the scan returns exactly the declared chains if and only if every declaration has its space |
| `ChainTable.ScanFindsDeclared` | pkg/util/iptables/save_restore.go:32-52 | On a table whose declarations have their space the scan finds exactly the declared names |
| `ChainTable.PrintedChainsAreFound` | pkg/util/iptables/save_restore.go:25-52 | A header, printed chain lines and other lines: the scan gives back the names |
| `ChainTable.CrashesIff` | pkg/util/iptables/save_restore.go:32-52 | The scan runs out of bounds if and only if some declaration has no space anywhere behind it |
| `ChainTable.ScanOverrunsLine` | pkg/util/iptables/save_restore.go:32-52 | At a declaration without its space the name found runs on over the end of the line |
| `ChainTable.NameOnChainLine` | pkg/util/iptables/save_restore.go:25-27 | A printed chain line declares exactly the chain it was made for |
| `ChainTable.GetChainsFromTable` | pkg/util/iptables/save_restore.go:32-52 | The in-place loop over the buffer computes the scan |
| `Dialer.InvRun` | pkg/yurthub/util/connrotation.go:40-154 | Under any interleaving of dials, closes and close-alls, connections are filed under their address, detached sets have one closer, and every connection is tracked, pending with a closer, or closed |
| `Dialer.InvStep` | pkg/yurthub/util/connrotation.go:40-154 | Each locked section or close call keeps that |
| `Dialer.TrackedFromStart` | pkg/yurthub/util/connrotation.go:40-154 | From the first dial on, under any interleaving, a connection is tracked if and only if it has been tracked and since then neither closed itself nor been detached by a close of its address or of all; what is tracked is not closed, and no connection is lost |
| `Dialer.TrackedIff` | pkg/yurthub/util/connrotation.go:40-154 | The same from any state |
| `Dialer.ClosedIff` | pkg/yurthub/util/connrotation.go:40-116 | A connection is closed if and only if its own close or a forced one got to closing it |
| `Dialer.NoneStaleRun` | pkg/yurthub/util/connrotation.go:40-154 | The table never holds a connection that is closed or being closed by its user |
| `Dialer.LeavesTrackingOnlyByClose` | pkg/yurthub/util/connrotation.go:40-116 | A connection leaves tracking only by its own close or by being detached for closing |
| `Dialer.FinishedCloseAllClosedEverything` | pkg/yurthub/util/connrotation.go:85-99 | When a close-all finishes, whatever happened meanwhile, every connection tracked when it took the lock is closed |
| `Dialer.FinishedCloseClosedAddress` | pkg/yurthub/util/connrotation.go:104-116 | When the close of an address finishes, every connection tracked for it when it took the lock is closed |
| `Dialer.TrackingDialer.Add` | pkg/yurthub/util/connrotation.go:124-154 | A dialled connection is tracked under its address |
| `Dialer.TrackingDialer.CloseConn` | pkg/yurthub/util/connrotation.go:40-51 | A closed connection leaves tracking and is closed |
| `Dialer.TrackingDialer.CloseAddress` | pkg/yurthub/util/connrotation.go:104-116 | Exactly the connections of the address are closed and forgotten |
| `Dialer.TrackingDialer.CloseAll` | pkg/yurthub/util/connrotation.go:85-99 | Every tracked connection is closed and tracking is empty |
| `DeviceSync.RoundReachesTargetIff` | pkg/yurtiotdock/controllers/device_syncer.go:73-228 | A failure-free round leaves exactly the devices of the edge platform and the unsynced ones if and only if every object name it needs for a new device is free in the namespace, names of other pools included |
| `DeviceSync.OldObjectAfterRound` | pkg/yurtiotdock/controllers/device_syncer.go:147-252 | What a round makes of an object that was there: gone if and only if it is synced and the edge platform has it no more, with the edge's status if the edge has it, else as it was |
| `DeviceSync.NewObjectAfterRound` | pkg/yurtiotdock/controllers/device_syncer.go:182-239 | Every new object stands for a device of the edge that had none, under the pool's name, in this pool, not managed, without status and not marked synced, because status is a subresource |
| `DeviceSync.NewDevicesHaveObjects` | pkg/yurtiotdock/controllers/device_syncer.go:182-239 | A round that reaches its target has made that object for every such device |
| `DeviceSync.NewObjectIsNotDeleted` | pkg/yurtiotdock/controllers/device_syncer.go:168-214 | A new object is not deleted by the next round, nor by any until it is marked synced, even if the edge platform has lost the device |
| `DeviceSync.NextRoundIsIdle` | pkg/yurtiotdock/controllers/device_syncer.go:73-228 | The round after a successful one creates nothing, deletes nothing and updates exactly the devices of the edge platform |
| `DeviceSync.AppliedReachesTargetIff` | pkg/yurtiotdock/controllers/device_syncer.go:182-228 | Applying any diff that separates the two sides reaches the target if and only if the new object names are free in the namespace |
| `DeviceSync.DiffSeparates` | pkg/yurtiotdock/controllers/device_syncer.go:147-179 | The diff puts every device in the one set it belongs to |
| `DeviceSync.FindDiffDevice` | pkg/yurtiotdock/controllers/device_syncer.go:147-179 | The three sets are disjoint, cover the edge platform, and leave out only unsynced objects |
| `DeviceSync.CompareEdge` | pkg/yurtiotdock/controllers/device_syncer.go:147-166 | The first loop: new devices with their completed content, known ones with the merged content |
| `DeviceSync.CompareKube` | pkg/yurtiotdock/controllers/device_syncer.go:168-179 | The second loop: exactly the synced objects the edge platform lacks |
| `DeviceSync.ByEdgeName` | pkg/yurtiotdock/controllers/device_syncer.go:118-144 | The map holds every edge name, keyed by it; of two devices with one name the later wins |
| `DeviceSync.CreatedNamesWithin` | pkg/yurtiotdock/controllers/device_syncer.go:182-193 | Creations keep every edge name there was and add none but the new ones |
| `DeviceSync.TakenNameIsMissing` | pkg/yurtiotdock/controllers/device_syncer.go:182-193 | A new edge name whose object name is taken is not created |
| `DeviceSync.OtherPoolsNameIsMissing` | pkg/yurtiotdock/controllers/device_syncer.go:118-144 | A device whose object name an object of another pool has, which the list of this pool does not show, is missed |
| `DeviceSync.PoolsShareNames` | pkg/yurtiotdock/controllers/device_syncer.go:231-239 | Two pools can need one object name: a device b-c of pool a and a device c of pool a-b |
| `DeviceSync.NameSurvivesCreationIff` | pkg/yurtiotdock/controllers/util/tools.go:81-89 | The name an edge device is known by survives its creation if and only if it is kept in the label |
| `DeviceSync.DeviceSyncer.SyncEdgeToKube` | pkg/yurtiotdock/controllers/device_syncer.go:182-193 | The loop creates what it can; names already taken are passed over |
| `DeviceSync.DeviceSyncer.DeleteDevices` | pkg/yurtiotdock/controllers/device_syncer.go:196-214 | The loop removes exactly the listed objects |
| `DeviceSync.DeviceSyncer.UpdateDevices` | pkg/yurtiotdock/controllers/device_syncer.go:217-228 | The loop replaces exactly the listed objects |
| `DeviceSync.DeviceSyncer.SyncOnce` | pkg/yurtiotdock/controllers/device_syncer.go:73-113 | One round is list, compare, create, delete, update in that order |

## Left out

- ErrorLog.SyncedRun: assumes that the queue hands over every operation once and those on one key in order, because the file follows the map only then; what happens otherwise is `ErrorLog.SameReplayIffSameLastOps`.
- ErrorLog.ErrorKeys.Recover: does not model the scanner's limit on the length of a line, nor JSON; a line decodes to its operation or not at all.
- CacheErrors.ErrorMapTellsHistory: restarts are those with an empty queue and a file in step; what another restart loses is what `ErrorLog.SyncedRun` leaves in the backlog and what `CacheErrors.FrozenFileKnowsIff`, `ErrorLog.CompactionSyncsIff` and `ErrorLog.TornTailSwallowsRecord` say.
- DiskStore.InvRun: the contents of a replacement lie below its key, while the store tests only that their paths begin with the key and so lets "pods/ns10/x" into "pods/ns1"; directories and files never clash in name, no key has a part that begins with "tmp_", and deleting a whole directory (a root key or a component) is not among the operations.
- DiskTree.Recover: a crash in the middle of recovery is not modelled, nor a recovery that gives up on an entry of the wrong kind.
- DiskStore.StepRefines: says nothing of paths below a backup that was left behind; there `DiskTree.Recover` and `DiskStore.RestartShowsLastFailed` say what a restart shows.
- DiskListing.AnswersFromLiveIff: no key has a part that begins with "tmp_"; the results on cached lists in `ListAdmission` and `ListCache` are about the live files, and this says when those are what a list reads.
- DiskStore.VersionNeverDecreases: between deletions and list replacements only, because those forget the version.
- StoreKeys.ExtractUndoesKeyIff: parts hold no path separator, and the cleaning of "." and ".." in paths is not modelled.
- ListAdmission.AcceptedListsAreServed: list items are those an API server sends (named, in the namespace asked for, no two alike), no object's key is a cached list's key or lies above one, what the server has for a list is told by its responses and by a flag on each object, and a list whose directory went with a wipe above it counts as cached again from its next response on; crashes are in `DiskStore`.
- ListAdmission.CacheManager.SaveWatchObject: the in-memory copy of watched nodes and leases is modelled apart, in `InMemoryCache.WatchKeepsCurrentIff`.
- InMemoryCache.HitIsWhatStoreHolds: one response or query at a time; overlapping ones are `InMemoryCache.OrderedCopiesStayCurrent` and `InMemoryCache.ActKeepsBehind`.
- FilteredWatch.ClientHoldsFilteredImage: the filter is the same function throughout and leaves an empty list alone; filters that read changing state are not modelled.
- FilteredWatch.FilterListObject: does not model a list that cannot be taken apart or put together.
- LeaderConfig.PublishedLeadersParse: names, addresses and resource parts hold no comma, slash or outer space, as Kubernetes requires of them.
- PoolRouting.RequestEndsAtMostTwoHubsOn: transport below the proxy handlers is a parameter (who answers, who is ready).
- PoolRouting.CourseOfRequest: for requests for resources; where a request ends is its handler, and what the autonomy proxy or the local proxy then answers is not modelled; a User-Agent is ASCII.
- Iptables.EveryAddressChosenAlike: probabilities are real numbers; the rounding of their decimal form is not modelled.
- LocalLB.TrackedIsLatest: for one Endpoints object, because with several that share an address it is false (`LocalLB.UpdateTracksIff`).
- AppSetConversion.TakenMeansSelectedIff: match expressions only; the match fields of a selector term, which the conversion drops as well, are not modelled.
- AppSetConversion.RoundTripCounts: spec only; status, revision history and conditions are copied field by field.
- DeviceSync.RoundReachesTargetIff: every call to the edge platform and the API server succeeds; failing calls are logged and left to the next round.
- DeviceSync.DeviceSyncer.SyncOnce: devices of the edge platform carry the label with their name, as its client sets it.
- Serializers, the REST mapper and content negotiation of the cache manager.
- Reverse proxies, health checks, load-balancing strategies and certificate handling of YurtHub.
- Individual object filters, which rewrite fields of Services, EndpointSlices and ConfigMaps.
- The remaining controllers, webhooks, yurtadm, yurt-node-servant and tunnel-style networking.
- Metrics, logging, clocks and tickers.
