# A model of the Huawei eSDK Kubernetes CSI plugin

This project models the parts of the plugin whose correctness depends on more than one function at a
time, and proves what they keep.

* **Connecting a volume** (`DeviceScan`, `PathWorkers`, `DmConnect`, `DmLiveness`, `DmVerdict`,
  `UltraPathConnect`, `SinglePathConnect`, `DeviceVerify`, `IscsiConnect`). One worker per path logs in, scans
  and publishes its device in a record shared with a coordinator, which polls, resets, stops and joins the workers. Workers, coordinator and clock form a step
  system; its theorems hold for every interleaving, every number of workers and every answer of the host.
  The rescan loop and the checks at the end are loops and methods, as in the source.
* **Unstaging a volume** (`DeviceLookup`, `WwnStore`, `Unstage`, `SanNodes`). The WWN record on disk, the
  look-up of devices, and the call that may fail or crash at any step and is then repeated. `Unstage` is the
  step system, and `SanNodes` has the code, proved to be a run of it.
* **Choosing a pool** (`Topology`, `StoragePools`, `CapabilityFilters`, `PoolSelection`,
  `CapacityAccounting`, `PairSelection`). Topology matching, the filter chain, sorting by preference with
  random ties, the search for a remote pool, and charging requests to the cached free capacities.
  `CapacityAccounting` has the runs of overlapping requests, and `PairSelection` the code on the pools,
  proved to make such runs.
* **Node information in secrets** (`HostSecrets`). Any number of nodes saving to one secret with optimistic
  locking, against a map from hosts to information.
* **Collecting logs** (`LogPipeline`, `LogDelivery`, `RetryableOnce`). Semaphore, wait groups, task channel and
  respawning handlers: safety, freedom from deadlock, termination of every schedule, and delivery.
* **Claims and names** (`ClaimSecrets`, `BackendNames`, `Regexes`, `LunId`, `Strconv`). Rotation of secrets
  and certificates with every call failing or cut short anywhere; names and ids with their round trips.

Runs are sequences of states and events; an invariant is proved of each step and lifted to all runs.
Whatever the host, the storage, kubectl, the clock or a random generator answers is a parameter or an event
and may be anything, unless a theorem says otherwise.

Some expected properties do not hold of the code. In each case the code is modelled as it is, a lemma shows
the failing case and a theorem says exactly when the property holds:

* A DM connect hangs if a worker logs in and its target never shows up (`DmConnect.HiddenTargetHangs`), and an
  NVMe UltraPath connect if a worker panics (`UltraPathConnect.PanicBeforeLoginHangs`,
  `UltraPathConnect.PanickedWorkerHangs`). `DmLiveness.LoopIsLeftIff` and `UltraPathConnect.LoopIsLeftIff` say
  exactly when the loops are left. Without multipathing a connect always ends (`SinglePathConnect.ConnectEnds`).
* The WWN found for a multipath device need not be that of all its slaves
  (`DeviceVerify.EmptyReportHidesAMismatch`); neighbouring reports only are compared (`DeviceVerify.ScanFindsIff`).
* Unstaging reports success without looking for devices if, and only if, the WWN is out of reach
  (`Unstage.SuccessMeansEmptyLookupIff`).
* A device announced between the load of the list's length and the cut that follows is dropped without being
  handed to multipathd (`DmVerdict.LateDeviceCanBeLost`, exactly `DmVerdict.CutDropsLateDevices`).
* Removing a WWN record can uncover a legacy record (`WwnStore.RemoveThenRead`), and write-if-absent overwrites
  a record that cannot be read (`WwnStore.Store.WriteIfNotExist`).
* For a replicated volume the remote pool is looked for among the pools of the local backend, so that a pool
  can be paired with itself and charged twice (`PoolSelection.LocalPoolIsItsOwnCandidate`).
  `PairSelection.SelfPairIff` says exactly when it is.
* The remark in csi/backend/backend.go:738 speaks of a lock taken during selection, but no such lock is taken,
  and overlapping requests can overdraw a pool (`CapacityAccounting.OverlapOverdraws`).
  `CapacityAccounting.NeverOverdrawnIff` and `CapacityAccounting.SerialNeverOverdrawnIff` are exact.
* Configuring a backend deletes a secret of its name even if another claim uses it
  (`ClaimSecrets.Cluster.ConfigureBackend`), and a lost answer of kubectl can leave a claim without its secret
  (`ClaimSecrets.Cluster.UpdateBackend`, `ClaimSecrets.Cluster.CreateCert`); their contracts are exact.
* Backend names are hashed after they are cut to 57 characters, so longer names collide
  (`BackendNames.LongNamesCollide`), and so do a name and its mapped form (`BackendNames.MappedLabelCollides`).
  `BackendNames.SameBackendIff` is exact.
* A topology with a hand-configured protocol label is supported for a protocol that the backend does not use
  (`Topology.ConfiguredProtocolWidens`, exactly `Topology.SupportedIff`), and a snapshot id is misread if its
  parent has a dot (`BackendNames.SnapshotIdRoundTripIff`).

`dafny verify dfyconfig.toml` checks the whole project.

## Model

| member | source | states |
|---|---|---|
| `DeviceScan.RescanBound` | connector/iscsi/iscsi_helper.go:431-467 | whatever the host answers, at most 5 rescans are issued after a manual-scan login and 4 after an automatic one |
| `DeviceScan.RescanSpacing` | connector/iscsi/iscsi_helper.go:436-467 | two consecutive rescans, the first of which is the c-th, are exactly (c+1)^2 one-second waits apart, and (c+2)^2 after an automatic login |
| `DeviceScan.FirstRescanIff` | connector/iscsi/iscsi_helper.go:436-497 | the first rescan comes with the first turn that has seen the host:channel:target:lun, but after an automatic login not before four seconds have passed |
| `DeviceScan.EndsIff` | connector/iscsi/iscsi_helper.go:436-467 | a turn ends the loop if and only if it shows a device that can be read and reports the target's WWN, or the stop flag is up, or all five rescans (four after an automatic login) are used up; it ends with that device or with none |
| `DeviceScan.CounterTracksRescans` | connector/iscsi/iscsi_helper.go:436-467 | the rescan counter of any run is its initial value plus the rescans issued, and never passes the limit |
| `DeviceScan.KnownTargetEndsWithin54Waits` | connector/iscsi/iscsi_helper.go:436-467 | once the host:channel:target:lun is known, every run ends within 54 more waits |
| `DeviceScan.UnknownTargetNeverEnds` | connector/iscsi/iscsi_helper.go:436-467 | while the target stays unknown and nobody raises the stop flag, every turn goes on: the loop has no limit of its own |
| `DeviceScan.Scanner.Run` | connector/iscsi/iscsi_helper.go:436-467 | the loop as written, watched for any number of turns, takes the turns above; a turn that sees the target and a usable device ends it; it has ended if the target or the stop flag showed up more than 54 turns ago, and returns no device or one that was read and reports a WWN containing the target's |
| `PathWorkers.NextKeepsPathInv` | connector/iscsi/iscsi_helper.go:469-510 | every step of every worker and every reset by the coordinator keeps the counters equal to what the workers have done |
| `PathWorkers.EveryInterleaving` | connector/nvme/nvme_helper.go:192-243 | in every interleaving: one login outcome per worker, counted before it stops; at most one device published, only after a login; stopped <= logged in + failed <= workers; devices on record <= logins |
| `PathWorkers.CounterBounds` | connector/iscsi/iscsi_helper.go:92-99 | stopped <= logged in + failed <= workers, and devices on record <= logins, in every state that satisfies the invariant |
| `PathWorkers.HistoryOfWorker` | connector/iscsi/iscsi_helper.go:469-510 | the number of logins, publications and stops of a worker in a run is what its record says |
| `PathWorkers.StoppedHasPublishedOrGivenUp` | connector/nvme/nvme_helper.go:192-252 | in every run without a panic a worker that has stopped has published and announced a device, unless its login was refused or its scan gave up; an NVMe worker scans at most three times |
| `PathWorkers.FoundIsComplete` | connector/iscsi/iscsi_helper.go:488-510 | as long as the coordinator does not reset the list, as many devices are on record as workers have published one |
| `PathWorkers.AddedIsComplete` | connector/iscsi/iscsi_helper.go:488-510 | and as long as it neither resets nor cuts the other list, all announced devices are in it |
| `PathWorkers.AllStopped` | connector/iscsi/iscsi_helper.go:469-510 | once as many workers have stopped as there are, all login outcomes are in and no worker will touch the record again |
| `PathWorkers.WorkOnlyAdds` | connector/iscsi/iscsi_helper.go:488-510 | workers alone never shorten a list, lower a counter or touch the stop flag |
| `PathWorkers.HeldDevicesWereChecked` | connector/iscsi/iscsi_helper.go:469-510 | every device on record or in a worker's hands was read and reported a WWN containing the target's, at some earlier step of the run |
| `PathWorkers.WorkersStop` | connector/nvme/nvme_helper.go:192-243 | an NVMe worker, and an iSCSI worker once the stop flag is up, takes at most 8 more steps whatever the host answers |
| `PathWorkers.WorkerCanAct` | connector/iscsi/iscsi_helper.go:469-510 | a worker that has not signalled the wait group always has a step to take |
| `PathWorkers.ActsUsesPatience` | connector/iscsi/iscsi_helper.go:436-510 | every step of a worker uses up one of at most 61 steps, except a look that does not find its target and is not told to stop |
| `DmConnect.FindAvailableMeaning` | connector/connector_utils.go:549-583 | a multipath name comes back exactly if all held devices have one holder between them, and the record is cleared exactly if they have several |
| `DmConnect.StepKeepsInv` | connector/iscsi/iscsi_helper.go:733-834 | every step of the workers, the coordinator and the clock keeps the coordinator's variables in agreement with the shared record |
| `DmConnect.DmVerdict` | connector/iscsi/iscsi_helper.go:537-559 | in every interleaving, when the availability check starts: all workers are joined, the path count given to it is the final number of logins, a multipath name comes with a found device, and the none-found exit carries neither |
| `DmConnect.NoneFoundIsFinal` | connector/iscsi/iscsi_helper.go:804-834 | after the exit for 'all stopped, none found' no device ever appears and the verdict stays empty |
| `DmConnect.FoundPathIsFinal` | connector/iscsi/iscsi_helper.go:733-752 | a multipath name, once found, is never given up, and the devices then on record stay on record |
| `DmConnect.CoordinatorMakesProgress` | connector/iscsi/iscsi_helper.go:804-834 | with all workers stopped, each coordinator step shortens the turn or uses up one of the sleeps left |
| `DmConnect.LoopIsLeft` | connector/iscsi/iscsi_helper.go:804-834 | once all workers have stopped, the coordinator goes round at most 17 more times, whatever sysfs and multipathd answer |
| `DmVerdict.AgreeingHostGivesThePath` | connector/iscsi/iscsi_helper.go:754-834 | on a host whose multipath device holds every device found, in every interleaving: what is verified is that device, and it is missing only if every worker had stopped and none found a device |
| `DmVerdict.BareHostIsToldTheWwn` | connector/iscsi/iscsi_helper.go:754-834 | on a host without a multipath device the loop is left only because no device was found or for want of time, and then multipathd was told the WWN that sysfs gave, or the target's if that was empty |
| `DmVerdict.WwnWasRead` | connector/iscsi/iscsi_helper.go:804-834 | the WWN in use is always one that sysfs gave, or the target's in place of an empty one |
| `DmVerdict.AddedWasAccepted` | connector/iscsi/iscsi_helper.go:704-717 | multipathd is taken to know the WWN only after it has said so |
| `DmVerdict.DisagreementClears` | connector/iscsi/iscsi_helper.go:733-778 | whenever the devices on record turn out to have different holders, the path is dropped and both lists have been emptied before the coordinator goes on |
| `DmVerdict.AgreementIsTaken` | connector/connector_utils.go:549-583 | an answer in which all holders are one is taken as the path at once |
| `DmVerdict.NoEarlyTimeout` | connector/iscsi/iscsi_helper.go:804-834 | the coordinator gives up for want of time only when more than fifteen seconds have passed since a moment at which every worker had stopped |
| `DmVerdict.DrainIsComplete` | connector/iscsi/iscsi_helper.go:733-752 | once the WWN is handed over, the coordinator goes on only with a path found or no just-added device left |
| `DmVerdict.EveryDeviceIsAccountedFor` | connector/iscsi/iscsi_helper.go:733-778 | at every point of every run, each time a device was announced it was handed to multipathd, or is about to be, or is still on the list, or was dropped by a reset or a cut |
| `DmVerdict.CutDropsLateDevices` | connector/iscsi/iscsi_helper.go:733-752 | a cut drops exactly what was announced since the length of the list was loaded, so that it loses a device if and only if one was announced in between |
| `DmVerdict.LateDeviceCanBeLost` | connector/iscsi/iscsi_helper.go:733-752 | and whenever the coordinator is about to load the length while a worker is about to announce its device, the run may go on so that this device is dropped |
| `DmVerdict.WwnIsFinal` | connector/iscsi/iscsi_helper.go:804-834 | once read, the WWN never changes |
| `DmConnect.HiddenTargetHangs` | connector/iscsi/iscsi_helper.go:804-834 | a worker that logs in but never sees its target is never told to stop: no run in which it stays hidden leaves the loop |
| `DmLiveness.HangingRun` | connector/iscsi/iscsi_helper.go:804-834 | from every initial state and for every number of rounds there is a run in which a worker logs in and looks in vain while the coordinator goes round that often |
| `SinglePathConnect.ConnectEnds` | connector/iscsi/iscsi_helper.go:654-661 | without multipathing every connect ends, hidden targets included: at most 33 coordinator steps, and 8 of each worker once it is told to stop |
| `SinglePathConnect.NeverStuck` | connector/iscsi/iscsi_helper.go:585-592 | until the check, a step that counts towards that bound is always possible, if need be once the current sleep is over |
| `SinglePathConnect.NoEarlyEnd` | connector/iscsi/iscsi_helper.go:654-661 | the stop flag goes up only once a device was found or thirty seconds have passed, and every device that was published is on record |
| `SinglePathConnect.FinishConnect` | connector/iscsi/iscsi_helper.go:640-652 | in every interleaving all workers have stopped when the check starts, and the connect succeeds if and only if the first found device reads and reports the LUN's WWN |
| `DmLiveness.SightedWorkIsBounded` | connector/iscsi/iscsi_helper.go:469-510 | in any run the workers take at most 61 steps each apart from looks in vain, so workers whose targets show up come to an end by themselves |
| `DmLiveness.LeftAfterLastWorker` | connector/iscsi/iscsi_helper.go:733-834 | once all workers have come to an end, the coordinator wakes up at most 17 more times |
| `DmLiveness.CoordinatorEnds` | connector/iscsi/iscsi_helper.go:733-834 | once all workers have stopped, the coordinator takes a bounded number of steps in all, whatever sysfs and multipathd answer |
| `DmLiveness.LeavingNeeds` | connector/iscsi/iscsi_helper.go:804-834 | whoever leaves the loop does so with all workers stopped, with a path and all logins counted, or because sysfs failed |
| `DmLiveness.LoopIsLeftIff` | connector/iscsi/iscsi_helper.go:804-834 | with workers that do no more than look in vain, and after 18 wake-ups: the loop is left if and only if all workers had stopped, or all logins are counted and some evaluation of the loop condition began with a path, or sysfs failed |
| `IscsiConnect.FinishConnect` | connector/iscsi/iscsi_helper.go:537-559 | in every interleaving a connect succeeds if and only if a path was found and passes its checks; it then names a device that was read, whose map and one of whose readable slaves report a WWN containing the LUN's, and which, if all paths must be online, has as many slaves as workers logged in |
| `UltraPathConnect.UltraPathVerdict` | connector/nvme/nvme_helper.go:292-344 | the reason for leaving the loop still holds when the device is verified, with panicking workers too |
| `UltraPathConnect.CoordinatorMakesProgress` | connector/nvme/nvme_helper.go:365-397 | with all workers stopped, every wake-up uses up one of the sleeps left |
| `UltraPathConnect.LoopIsLeft` | connector/nvme/nvme_helper.go:365-397 | once all workers have stopped, the coordinator goes round at most 17 more times, whatever upadmin answers |
| `UltraPathConnect.WorkersEnd` | connector/nvme/nvme_helper.go:192-243 | in any run the workers take at most 8 steps each, panics included |
| `UltraPathConnect.LeavingNeeds` | connector/nvme/nvme_helper.go:391-397 | whoever leaves the loop does so with all workers stopped, or with a device and all logins counted |
| `UltraPathConnect.LoopIsLeftIff` | connector/nvme/nvme_helper.go:365-397 | once all workers have returned, and after 18 wake-ups: the loop is left if and only if all had counted themselves as stopped, or some evaluation of the loop condition found all logins counted and a device |
| `UltraPathConnect.CoordinatorEnds` | connector/nvme/nvme_helper.go:365-397 | once all workers have stopped, the coordinator takes at most 215 more steps |
| `UltraPathConnect.NeverStuck` | connector/nvme/nvme_helper.go:292-389 | no state is stuck: the coordinator can step, once its sleep is over, or a worker that it waits for can |
| `UltraPathConnect.NamedDeviceIsVerified` | connector/nvme/nvme_helper.go:365-389 | if upadmin always names the device, in every interleaving that device is verified, unless every worker had stopped and none was found |
| `UltraPathConnect.NoEarlyTimeout` | connector/nvme/nvme_helper.go:365-389 | the coordinator gives up for want of time only when more than fifteen seconds have passed since a moment at which every worker had stopped |
| `UltraPathConnect.PanicBeforeLoginHangs` | connector/nvme/nvme_helper.go:192-243 | a worker that panics before its login outcome is counted hangs the connect whatever upadmin answers |
| `UltraPathConnect.PanickedWorkerHangs` | connector/nvme/nvme_helper.go:365-397 | a worker that panics later, before it is counted as stopped, hangs the connect for as long as upadmin finds nothing |
| `UltraPathConnect.PanicCanHappen` | connector/nvme/nvme_helper.go:192-243 | such runs start from every initial state |
| `DeviceVerify.WatchDMDevice` | connector/connector_utils.go:486-512 | the first poll before the timeout that shows the device, with exactly the expected slaves if all paths must be online; without one, the error of the last poll |
| `DeviceVerify.FindDeviceWwn` | connector/connector_utils.go:1211-1236 | the loop settles on the WWN of the scan specified by FindWwn |
| `DeviceVerify.FoundWwnIsReported` | connector/connector_utils.go:1211-1236 | a WWN that is found is the report of one of the devices |
| `DeviceVerify.ScanFindsIff` | connector/connector_utils.go:1211-1236 | a WWN is found if and only if each report is related to the one before it, if that is not empty; it is then the last report |
| `DeviceVerify.UniformReportsAgree` | connector/connector_utils.go:1211-1236 | so if all devices are disks whose reports have one non-zero length, a WWN that is found is the report of every one |
| `DeviceVerify.EmptyReportHidesAMismatch` | connector/connector_utils.go:1211-1236 | and an empty report between two different ones hides the difference |
| `DeviceVerify.ClearFaultyDevices` | connector/connector_utils.go:1238-1254 | exactly the readable slaves stay, in order; an error exactly if an unreadable one cannot be removed |
| `DeviceVerify.VerifyMultiPathDevice` | connector/connector_utils.go:1420-1453 | success exactly for a device that passes all checks; it then reads, its map WWN contains the LUN's, and one of its readable slaves reports a WWN that contains it; otherwise the reason of the first check that failed |
| `DeviceVerify.HealthyMapVerifies` | connector/connector_utils.go:1257-1282 | a device all of whose parts read, with the LUN's WWN anywhere within its map's and within the one that all its disks report, passes |
| `DeviceVerify.VerifiedHasTheWwn` | connector/connector_utils.go:1257-1282 | and one that passes has the LUN's WWN within what its map and one of its readable slaves report |
| `Basics.ContainsIff` | connector/connector_utils.go:1263-1306 | the containment test of WWNs holds if and only if the one stands at some position of the other |
| `DeviceVerify.VerifySingleDevice` | connector/connector_utils.go:1354-1376 | success exactly if the device reads and reports a non-empty WWN containing the LUN's; so a readable device that reports the LUN's WWN with anything before and after it passes |
| `DeviceVerify.CheckDmAvailable` | connector/iscsi/iscsi_helper.go:610-638 | success if and only if there is a name, the device shows up in time and passes the checks above; if all paths must be online it had exactly the expected slaves |
| `DeviceVerify.CheckSinglePathAvailable` | connector/iscsi/iscsi_helper.go:640-652 | success if and only if there is a found device and the first one reads and reports the LUN's WWN |
| `DeviceLookup.GetVirtualDevice` | connector/connector_utils.go:194-267 | exactly when each answer is given: a failed partition check, several devices of the preferred kind, no whole disk of a known kind, or the one device |
| `DeviceLookup.KindMeaning` | connector/connector_utils.go:217-231 | what a device name stands for, by its prefix: the prefixes exclude each other |
| `Unstage.StepKeepsSafe` | csi/manage/san_manager.go:96-121 | each step of UnStageVolume, failing or not, and each crash keeps the WWN in reach until a look-up for it has come back empty |
| `Unstage.NoSuccessBeforeEmptyLookup` | csi/manage/san_manager.go:96-121 | along any sequence of calls, failures and crashes with reliable record I/O: before a look-up for the WWN came back empty, no call reports success and the record is not removed |
| `Unstage.SuccessMeansEmptyLookupIff` | csi/manage/san_manager.go:176-200 | whatever works or fails, a successful call has seen an empty look-up if and only if its WWN was in reach: in a record that can be read, or on the path |
| `Unstage.CallSettlesRecord` | csi/manage/san_manager.go:96-121 | a call that fails leaves a record that it could read as it was; one that succeeds with its WWN in reach, and can drop the record, leaves none |
| `Unstage.NoRecordAfterSuccess` | csi/manage/san_manager.go:161-174 | along any run, with drops that work: after a call that succeeded with its WWN in reach there is no record until a new one is saved |
| `Unstage.DroppedRecordStaysAway` | csi/manage/san_manager.go:161-174 | once a record was dropped there is none until one is saved, whatever calls, failures and crashes follow |
| `Unstage.WorkingRemovalsDisconnect` | connector/connector_utils.go:1313-1326 | however many devices there are: if each removal works and removes what was found, the loop ends with an empty look-up and none left, the record goes and the call succeeds |
| `Unstage.LostRecordLosesDevices` | csi/manage/san_manager.go:176-200 | if the record cannot be written and disconnecting fails, the next call reports success with the device still there |
| `SanNodes.SanNode.GetDeviceWwn` | csi/manage/san_manager.go:176-200 | the code reads, asks and saves as the step system does; it finds a WWN exactly if one is in reach, the recorded one before the path's, and the record is then as stated |
| `SanNodes.SanNode.SaveWwn` | utils/wwn_helper.go:55-61 | a WWN from the path is saved unless a record can be read again; what a failing write leaves behind is anything |
| `SanNodes.SanNode.RemoveDevices` | connector/iscsi/iscsi_helper.go:911-954 | one pass looks up and removes as the step system does; it reports 'none' exactly for an empty look-up and goes on exactly if the look-up names one device and removing it works |
| `SanNodes.SanNode.DisconnectVolume` | connector/connector_utils.go:1313-1326 | success if and only if some look-up in time comes back empty and each one before it named a single device that was removed |
| `SanNodes.SanNode.UnStageWithWwn` | csi/manage/san_manager.go:161-174 | the same, after which the record is gone if dropping it works; on failure it is as it was |
| `SanNodes.SanNode.UnStageVolume` | csi/manage/san_manager.go:96-121 | a call is a run of the step system, from idle to idle, that ends in the verdict returned: success if and only if no WWN is found, or unmounting works and the devices of that WWN can be disconnected; what becomes of the record and the mount in every case, in particular that a call that fails keeps a record it has read |
| `SanNodes.SafeAlongCall` | csi/manage/san_manager.go:161-200 | with a reliable host, safety holds at every step of such a call |
| `SanNodes.CrashIsSafe` | csi/manage/san_manager.go:96-121 | a crash after any step of a call leaves a safe node, from which the next call starts |
| `SanNodes.SanNode.UnStageRepeatedly` | csi/manage/san_manager.go:96-121 | however many calls fail first, success means that a look-up for the WWN came back empty; until then the WWN is in the record or the path is mounted; and one try that can unmount and disconnect is enough |
| `WwnStore.PathsMeet` | utils/wwn_helper.go:114-123 | short paths meet exactly if the last 64 characters of the ids do; a legacy path meets no other volume's path |
| `WwnStore.PathMeaning` | utils/wwn_helper.go:114-123 | the paths: under /csi/disks, the last 64 characters of the id or all of them, and .wwn |
| `WwnStore.OthersUntouched` | utils/wwn_helper.go:39-96 | writing or removing a record leaves volumes with other keys as they were |
| `WwnStore.WritesMeetIff` | utils/wwn_helper.go:39-51 | writing one record leaves another as it was, whatever is written, if and only if the ids differ and do not end in the same 64 characters |
| `WwnStore.RemoveThenRead` | utils/wwn_helper.go:80-147 | after a removal the record is gone if and only if there were not a short and a legacy file both; with both, the legacy record resurfaces |
| `WwnStore.StoreRefinesMap` | utils/wwn_helper.go:39-147 | for volumes with distinct keys and no legacy file, the store is a map from ids to WWNs under any sequence of operations |
| `WwnStore.Store.Read` | utils/wwn_helper.go:64-77 | the record, if there is one and it can be read; an error otherwise |
| `WwnStore.Store.Write` | utils/wwn_helper.go:39-51 | the file system after a write that works, and what a failing one may leave behind |
| `WwnStore.Store.WriteIfNotExist` | utils/wwn_helper.go:55-61 | a record that is not empty is kept if and only if it can be read |
| `WwnStore.Store.Remove` | utils/wwn_helper.go:80-96 | the file that holds the record goes, and no other; nothing changes on failure |
| `WwnStore.Store.Stat` | utils/wwn_helper.go:125-147 | the short file if it exists, else the legacy file, else not found |
| `HostSecrets.StepRefinesMap` | connector/host/host_helper.go:135-207 | in either layout a step puts the saver's own entry, when its update lands, and otherwise leaves the map from hosts to information alone |
| `HostSecrets.SuccessMeansLanded` | connector/host/host_helper.go:135-149 | a save reports success only in the step in which its update lands |
| `HostSecrets.EntryStays` | connector/host/host_helper.go:99-149 | an entry changes only when a save of that host lands |
| `HostSecrets.SavedEntryIsRead` | connector/host/host_helper.go:170-213 | once a save has reported success, the host's entry reads back as saved, with a blank host name, until the same host saves again, whatever others save meanwhile |
| `HostSecrets.RunRefinesMap` | connector/host/host_helper.go:135-207 | in either layout, at every point of every run, the store holds its initial entries with the landed updates applied in order |
| `HostSecrets.LayoutsAgree` | connector/host/host_helper.go:99-127 | two runs, one in each layout, that begin with the same entries and in which the same updates land end with the same entries |
| `HostSecrets.LabelsAreKept` | connector/host/host_helper.go:196-207 | along any run no save loses a label of a secret |
| `HostSecrets.TouchedSecretIsLabelled` | connector/host/host_helper.go:151-207 | a step creates or changes only the common secret or the saver's own, by the layout, and leaves it with the provisioner label |
| `HostSecrets.ServedSaveEnds` | connector/host/host_helper.go:135-168 | a save whose own calls are all served has not failed, whatever others do; after at most twelve of them, eleven if its secret was there, it has saved, or given up after five updates of others landed while it was retrying |
| `HostSecrets.UnservedSaveFails` | connector/host/host_helper.go:135-168 | one call of an unfinished save that is not served, and the save has failed for good, even if the call had its effect |
| `HostSecrets.GivingUpIsPaidFor` | connector/host/host_helper.go:135-149 | a save gives up over conflicts only after five updates of others have landed on its secret while it was retrying |
| `LogPipeline.NextKeepsInv` | cli/resources/logs_helper.go:239-313 | every step of every routine, panics and respawns included, keeps the counters, the channel and the tasks in agreement |
| `LogPipeline.PipelineSafety` | cli/resources/logs.go:153-202 | in every state of every run: at most the allowed node collections at once, live and gone handlers add up to the limit, no send after close, at most one task per pod, tasks started in the order handed over and at most the channel's capacity behind |
| `LogPipeline.NothingIsLost` | cli/helper/async_task.go:47-82 | when the transmitter's wait returns, every task handed over was started exactly once, the queue is empty and nothing is left at work |
| `LogDelivery.BegunTasksAreRun` | cli/resources/logs_helper.go:261-311 | in every run that has returned, a task is started exactly once if its pod ever began to hand it over, and never otherwise |
| `LogDelivery.SendsIffBegun` | cli/resources/logs_helper.go:261-311 | at every point of every run the pods that are handing over or have handed over are those that began to |
| `LogDelivery.DiligentRunsDeliver` | cli/resources/logs_helper.go:239-311 | in every run that has returned and in which no pod gave up, every pod with a container has handed over its task, and each was started exactly once |
| `LogDelivery.CanBeFinished` | cli/resources/logs.go:153-202 | every such run, wherever it is, can be continued to the return without a pod giving up |
| `LogDelivery.EveryTaskCanBeRun` | cli/resources/logs.go:153-202 | so from every initial state there is a run to the return in which the task of every pod with a container was started exactly once |
| `LogDelivery.HostCollectedOnce` | cli/resources/logs_helper.go:305-311 | the host information of a node is collected successfully at most once, and its once is done exactly from then on |
| `LogDelivery.HostInformationIsTried` | cli/resources/logs_helper.go:261-311 | when a run has returned, a pod that sent its task or passed a running container has tried to collect it, or it was collected |
| `LogDelivery.PanicEndsPod` | cli/resources/logs_helper.go:249-259 | a panic in there ends the pod for good |
| `LogPipeline.NoSenderLeft` | cli/resources/logs.go:169-189 | once the nodes' wait group is down, no pod is sending: the channel is closed safely |
| `LogPipeline.NeverStuck` | cli/helper/goroutine_limit.go:41-64 | no state that satisfies the invariants is stuck, with the lock under which host information is collected |
| `LogPipeline.NoDeadlock` | cli/resources/logs.go:153-202 | so in every state of every run that has not returned some routine can step, and without a pod giving up |
| `LogPipeline.OneCollectsHostInformation` | cli/resources/logs_helper.go:309-311 | at most one pod of a node collects host information at a time |
| `LogPipeline.StepUsesWork` | cli/helper/async_task.go:59-71 | every step uses up work, respawning handlers included |
| `LogPipeline.RunsAreBounded` | cli/resources/logs.go:153-202 | no run is longer than the work at its start |
| `RetryableOnce.OnceGuarantee` | cli/helper/once.go:31-45 | however calls interleave, fail or panic: one at a time in the locked section; the function is never run again once it has returned nil; each call runs it at most once and returns with the fate of that run; and a call skips it only after it has returned nil |
| `RetryableOnce.AllCallsReturn` | cli/helper/once.go:31-45 | every schedule can be continued until all calls have returned, however the function ends in each |
| `RetryableOnce.SomeCallSteps` | cli/helper/once.go:36-45 | a call that waits for the lock waits for one that can step |
| `RetryableOnce.FailuresAreRetried` | cli/helper/once.go:31-45 | as long as the function has not returned nil, every call that has returned has run it |
| `RetryableOnce.LateCallsLeaveAtOnce` | cli/helper/once.go:31-34 | a call that enters after a success leaves at once, even while the lock is held |
| `Topology.CheckProtocolSupport` | csi/backend/backend.go:717-726 | some protocol label of the entry is asked for with its value |
| `Topology.HasAll` | csi/backend/backend.go:688-693 | every label has its value in the entry |
| `Topology.IsTopologySupported` | csi/backend/backend.go:668-701 | the search finds an entry if and only if some entry has all the ordinary labels asked for with their values, and one of the protocol labels if there are any |
| `Topology.Backend.AddProtocolTopology` | csi/backend/backend.go:287-318 | the list becomes its expansion by the protocol of the backend; nothing changes without a protocol |
| `Topology.SupportedIff` | csi/backend/backend.go:287-318 | after the expansion a topology is supported if and only if its ordinary labels, if any, stand with their values in one configured topology and its protocol labels, if any, have the backend's own; or a configured topology with a protocol label of its own has it all |
| `Topology.SupportedIffPromised` | csi/backend/backend.go:668-701 | with no hand-configured protocol label the second case falls away |
| `Topology.UnknownLabelIsRefused` | csi/backend/backend.go:668-701 | a topology with an ordinary label whose value stands in no configured topology is not supported |
| `Topology.ConfiguredProtocolWidens` | csi/backend/backend.go:287-318 | a hand-configured protocol label makes the backend answer for a protocol that it does not use |
| `CapabilityFilters.RunFilter` | csi/backend/backend.go:471-634 | a filter keeps, in order, the pools it admits; it fails exactly if QoS leaves none, or a malformed quota meets a pool that supports quotas |
| `CapabilityFilters.Keeps` | csi/backend/backend.go:471-634 | the test that each filter makes of one pool decides what it admits |
| `CapabilityFilters.PrimaryMeaning` | csi/backend/backend.go:57-71 | a pool passes the primary table if and only if it meets what each storage class parameter asks for, spelled out parameter by parameter: each goes to its own filter and none is left out |
| `CapabilityFilters.SecondaryMeaning` | csi/backend/backend.go:73-81 | the same for the secondary table |
| `CapabilityFilters.FilterByCapability` | csi/backend/backend.go:809-833 | the chain gives the pools that meet every row, in order, and fails if and only if there are none or a quota is malformed |
| `CapabilityFilters.OrderOfRowsIsIrrelevant` | csi/backend/backend.go:57-81 | reordering or repeating rows of a filter table changes no outcome |
| `CapabilityFilters.PartOfTableKeepsAll` | csi/backend/backend.go:73-81 | filtering again by rows that were already there changes nothing |
| `PoolSelection.FilterPoolsOnTopology` | csi/backend/backend.go:729-759 | exactly the pools whose known backend has no topologies or supports a required one, in order |
| `PoolSelection.Shuffle` | csi/backend/backend.go:789-803 | for all random choices, the permutation that the choices give |
| `PoolSelection.EveryOrderIsPossible` | csi/backend/backend.go:789-803 | and every order of the pools is the outcome for some choices |
| `PoolSelection.SortPools` | csi/backend/backend.go:764-806 | for all random choices, a permutation of the kept pools in which the index of the first supported preference never decreases |
| `PoolSelection.PreferenceMeaning` | csi/backend/backend.go:764-806 | that index is the first preference that the pool supports, or the number of preferences |
| `PoolSelection.FilterByTopology` | csi/backend/backend.go:637-665 | all pools without requirements; else a sorted permutation of those that meet them; an error exactly if there are none or the parameter is of another type |
| `PoolSelection.FilterByCapacity` | csi/backend/backend.go:876-898 | the fitting pools, in order |
| `PoolSelection.FittingOrdered` | csi/backend/backend.go:876-898 | the capacity filter keeps the order of preference |
| `PoolSelection.WeightByFreeCapacity` | csi/backend/backend.go:900-915 | the first pool with the most free capacity, none exactly if there is no pool |
| `PoolSelection.FilterPool` | csi/backend/handler/backend_selector.go:169-182 | exactly the eligible pools, each as often as before, in order of preference; an error if and only if no pool passes the filters by capability and topology or a quota is malformed |
| `PoolSelection.FilterStoragePool` | csi/backend/backend.go:348-371 | the same, with an error also if no pool has room |
| `PoolSelection.PickBest` | csi/backend/backend.go:423-438 | no eligible pool has more free capacity than the one picked, and none with as much has a better preference |
| `PoolSelection.SelectPool` | csi/backend/backend.go:348-438 | for all random choices, filtering and weighing pick such a pool, and fail if and only if none is eligible or a quota is malformed |
| `PoolSelection.LocalPoolIsItsOwnCandidate` | csi/backend/handler/backend_selector.go:124-167 | for a replicated volume the local pool is always eligible as its own remote pool, and is chosen if its backend has no other |
| `PairSelection.SelfPairIff` | csi/backend/handler/backend_selector.go:124-167 | ties aside, a pool that is among the candidates for its own remote pool becomes it if and only if every other one that could be is worse |
| `PairSelection.RemoteIsAsLarge` | csi/backend/handler/backend_selector.go:58-167 | if those others could have been local too, the remote pool has as much free capacity as the local one, so that pairing a replicated volume with itself is the normal outcome |
| `PairSelection.UpdateSelectPool` | csi/backend/backend.go:458-469 | a thick request takes its size from the free capacity, in 64-bit arithmetic; any other changes nothing |
| `PairSelection.WeightPools` | csi/backend/backend.go:441-456 | the pair of a largest local pool; each side is charged once, a pool that is both sides twice, every other pool nothing |
| `PairSelection.SelectRemotePool` | csi/backend/handler/backend_selector.go:124-167 | where the remote pool is looked for, exactly when that fails, and that the pool found is a best one, or none if nothing has room |
| `PairSelection.RemoteByParameters` | csi/backend/handler/backend_selector.go:124-167 | where the remote pool of a pair comes from, by the parameters: nowhere for a plain volume, the metro backend with hyperMetro, the backend itself with replication, and no pair with both |
| `PairSelection.SelectDtreePool` | csi/backend/handler/backend_selector.go:88-110 | DTree volumes without a parent go to pools whose plugin has one, and it is an error if there is none |
| `PairSelection.ChoosePairs` | csi/backend/handler/backend_selector.go:58-86 | exactly the pools that can take the volume, each with the result of its search |
| `PairSelection.SelectPoolPair` | csi/backend/handler/backend_selector.go:58-86 | a pair of a largest local pool and its remote pool, refused exactly for a malformed quota, no local pool or a failing search; both sides pass their checks and the free capacities of all pools change by exactly this placement |
| `PairSelection.Serve` | csi/backend/handler/backend_selector.go:58-86 | serving requests one at a time takes the pools through a run of the ledger whose placements are those of the replies |
| `PairSelection.ServeSafely` | csi/backend/handler/backend_selector.go:58-86 | each pool ends with what it had less what was placed in it; no pool is overdrawn along the way if and only if pools on both sides of a placement had room for both, and none is if the two sides always differ, as they do without replication |
| `CapacityAccounting.RunConserves` | csi/backend/backend.go:441-469 | for any overlap of requests, at every point each pool holds what it began with less all that was charged to it (modulo 2^64) |
| `CapacityAccounting.ChargeOverdrawsNothingIff` | csi/backend/backend.go:458-469 | a charge overdraws nothing if and only if both sides still pass the capacity check at that moment and a pool that is both sides has room for both |
| `CapacityAccounting.AdmittedOverdrawsNothingIff` | csi/backend/backend.go:458-469 | for a placement that still passes its checks, of any size: if and only if a pool that is both sides has room for both |
| `CapacityAccounting.NeverOverdrawnIff` | csi/backend/backend.go:441-469 | along any run, overlapping or not: nothing is overdrawn if and only if every placement still fitted when it was charged |
| `CapacityAccounting.SerialNeverOverdrawnIff` | csi/backend/backend.go:441-469 | with one request at a time: if and only if pools on both sides of a placement had room for both |
| `CapacityAccounting.SerialRunNeverOverdraws` | csi/backend/backend.go:441-469 | with one request at a time and two different sides, no pool is ever overdrawn |
| `CapacityAccounting.OverlapOverdraws` | csi/backend/handler/backend_selector.go:58-86 | two requests checked before either is charged drive the free capacity below zero |
| `ClaimSecrets.Cluster.UpdateBackend` | cli/resources/backend.go:129-198 | the claims, the secrets and the reply for every outcome of every call; references stay sound at every point of failure, unless the answer to storing the claim is lost and restoring it fails (exactly then not) |
| `ClaimSecrets.Cluster.SwitchAccount` | cli/resources/backend.go:147-169 | the same for the part after the new secret exists |
| `ClaimSecrets.Cluster.CreateCert` | cli/resources/cert.go:160-202 | the claims, the secrets and the reply for every outcome; references stay sound unless the answer to storing the claim is lost and the secret is deleted (exactly then not); an existing certificate is left alone |
| `ClaimSecrets.Cluster.DeleteCert` | cli/resources/cert.go:76-114 | the claims, the secrets and the reply for every outcome; references stay sound at every point of failure; success drops the reference and the secret |
| `ClaimSecrets.Cluster.DeleteBackend` | cli/resources/backend.go:102-126 | the claims, the secrets and the reply for every outcome; references stay sound; success deletes the claim and exactly its own secrets |
| `ClaimSecrets.Cluster.ConfigureBackend` | cli/resources/backend.go:409-459 | exactly when the references stay sound: no other claim refers to a secret of the backend's name, or the outcome leaves such a secret and does not store the claim |
| `ClaimSecrets.Cluster.ConfigureInStages` | cli/resources/backend.go:409-459 | the claims, the secrets and the reply for every outcome; each is one of four stages, and a failure whose roll-back works leaves neither claim nor secret |
| `ClaimSecrets.Cluster.Run` | cli/resources/backend.go:129-198 | any sequence of rotations, certificate changes, deletions and new backends, each failing or stopped anywhere, comes to what they come to one after the other; if no answer is lost and no backend is configured under a name that another claim's secret bears, every claim then refers to secrets that exist and are its own |
| `BackendNames.PatternIsLabels` | cli/helper/utils.go:36-42 | the pattern for names accepts exactly the labels of section 2.1 of RFC 1123 |
| `BackendNames.DnsFormatMeaning` | cli/helper/utils.go:236-241 | a name is accepted exactly if it is a label of at most 63 characters; it then has no dot |
| `BackendNames.AcceptedNameIsFixed` | cli/resources/backend.go:514-544 | an accepted name b: the driver maps both the user's name and b to b |
| `BackendNames.AcceptedIff` | cli/resources/backend.go:514-544 | which names are accepted: labels of at most 63 characters and, leniently, names whose first 57 characters fold to the beginning of a label |
| `BackendNames.AsciiAcceptedIff` | cli/resources/backend.go:514-544 | for ASCII names: those that start with a letter or digit and have only letters, digits, '-', '_' and '.' in their first 57 characters |
| `BackendNames.SameBuiltNameIff` | cli/helper/utils.go:256-271 | two names are mapped to one if and only if their first 57 characters agree after folding and in their hash |
| `BackendNames.BuiltNameShape` | cli/helper/utils.go:243-271 | the built name of an ASCII name, character by character: the first 57 with '_' and '.' as '-' and letters in lower case, a hyphen, and the first five digits of their digest; at most 63 in all |
| `BackendNames.SameBackendIff` | cli/helper/utils.go:256-278 | which names the driver takes for one backend: equal names, two non-labels that agree in folded text and hash, and a label that is the mapped form of a non-label |
| `BackendNames.LongNamesCollide` | cli/helper/utils.go:256-278 | all over-long names with the same first 57 characters become one backend name |
| `BackendNames.MappedLabelCollides` | cli/helper/utils.go:256-278 | a name that is mapped and the label that it is mapped to are one backend |
| `BackendNames.VolumeIdRoundTrip` | utils/utils.go:218-227 | a volume id gives back its backend and volume, for every volume name |
| `BackendNames.SnapshotIdRoundTripIff` | utils/utils.go:229-235 | a snapshot id gives back its three parts if and only if the parent has no dot |
| `LunId.LunIdRoundTrip` | connector/fibrechannel/fc_helper.go:414-426 | decoding gives back canonical ids, in the decimal form below 256 and modulo 2^32 above |
| `LunId.TextOfLunId` | connector/fibrechannel/fc_helper.go:414-426 | the text itself: below 256 the id as it stands, else 0x, four hexadecimal digits for the low half and four for the high, and eight zeros |
| `LunId.SameTextIff` | connector/fibrechannel/fc_helper.go:414-426 | two canonical ids have the same text if and only if they are equal or, both being at least 256, equal modulo 2^32 |
| `Strconv.IntRoundTrip` | utils/utils.go:873-880 | every 64-bit integer is parsed back from its decimal form, so that capacities survive being stored as text |

## Left out

- Shell commands, sysfs, multipathd, upadmin, iscsiadm and nvme output: their answers are parameters or events.
- PathWorkers: the objects shared by concurrent routines (`shareData`, and likewise the secrets, channels and wait groups of HostSecrets, LogPipeline and RetryableOnce) are states of a step system and not classes, since Dafny methods do not interleave.
- PathWorkers.EveryInterleaving: NVMe workers may panic, iSCSI workers do not; one that did would never signal the wait group.
- DeviceVerify.VerifyMultiPathDevice: the disconnect and the removal of devices that follow a failed check are not modelled.
- DmConnect: the UltraPath coordinators of iSCSI, and the early return of the NVMe connect that leaves workers unjoined.
- Unstage: NVMe and FC-NVMe disconnect, which makes one removal pass without a second look-up; whether a removal really removes is up to the host.
- SanNodes.SanNode.UnStageVolume: runs to its report; `SanNodes.CrashIsSafe` has the crashes in the middle of a call.
- PoolSelection.SelectPool: among equal pools when no topology is required, the choice of the first one is stated by `PoolSelection.WeightByFreeCapacity` only.
- CapabilityFilters.RunFilter: the checks of QoS and quota texts by the plugins are parameters; error texts and logging are left out.
- CapacityAccounting: the refresh of capacities from the storage while requests are served.
- PairSelection.ServeSafely: one request at a time; overlapping ones are runs of `CapacityAccounting`, not of the code on pool objects.
- ClaimSecrets: one namespace; the contents of secrets, config maps and finalizers; two commands running at once. A delete call of several resources takes effect as a whole or not at all.
- BackendNames: SHA-256 and lower case are parameters, and names are sequences of the characters that the source counts.
- BackendNames.VolumeIdRoundTrip: ids of managed volumes, which are built from the unmapped backend name, are not covered.
- HostSecrets: gathering the information, and JSON beyond the blank host name on read-back.
- LogPipeline: what is collected, the progress display and the archive.
- Not modelled at all: the generated gRPC code, command-line and service wiring, NFS mounting, volume resizing, the REST clients and the storage plugins.
