# CRI-O: proofs about its concurrent and stateful core

A Dafny model of five parts of CRI-O, with proofs over every input, every run or every interleaving.

- **Idempotent creation.** A container creation whose client has gone away is parked, not lost: a retry
  waits for it, a sweeper reaps it, and undo functions take a failed creation apart again. The model has the
  name registrar, the resource cleaner and the resource store as classes (`registrar.dfy`,
  `resourcecleaner.dfy`, `resourcestore.dfy`), the store's history (`storehistory.dfy`), and the protocol as
  a state machine of requests, sweeper and removals (`creation.dfy`, `creationproof.dfy`). What each client
  is answered, which pieces its container has, that no container is forgotten, what a retry is given and told,
  and what removals can do to each other is in `creationclaims.dfy`, `creationpieces.dfy`,
  `creationaccounts.dfy`, `creationretries.dfy`, `creationstages.dfy` and `creationraces.dfy`.
- **Hostport rules.** `Add` and `Remove` rewrite the NAT table through one iptables-restore input each
  (`iptables.dfy`, `hostport.dfy`, `hostportproof.dfy`, `hostportundo.dfy`, `hostportremove.dfy`,
  `hostportruns.dfy`, `hostportmanager.dfy`, `hostportpods.dfy`). `packets.dfy` walks a packet through any
  NAT table, reading the rules word by word; with it `hostportpackets.dfy` and `hostportforwarding.dfy` say
  where packets go after any run. The same on text, from the save through
  the written rules and their normal form to the restored table, is in `iptablestext.dfy`,
  `rulesyntax.dfy`, `iptablesrestore.dfy`, `hostportwords.dfy` and `hostporttext.dfy`.
- **CPU tuning.** The IRQ affinity mask (`irqmask.dfy`, `irqserial.dfy`), the two cpuset files of a cgroup
  hierarchy (`cpuset.dfy`, `cpusetproof.dfy`, `cpusetfiles.dfy`) and saved per-CPU settings
  (`cpusettings.dfy`).
- **Stopping and NRI.** One stop loop with many stoppers, exec sessions and a shrinking deadline
  (`stop.dfy`, `stopruns.dfy`), and the events the plugins see (`nri.dfy`).
- **Streams.** Copying until the detach keys (`copydetachable.dfy`) and demultiplexing a container log
  (`parselog.dfy`).

`options.dfy`, `sequences.dfy` and `text.dfy` hold what several parts share. `dafny verify dfyconfig.toml` checks everything.

Objects the source updates in place are classes. Their methods are proved against functions of their state,
and the theorems are about those functions. Concurrency is interleaving: what the source does under one lock
is one step. I/O outcomes, clocks, map iteration orders and plugin answers are parameters, and the theorems
hold for all of them. Lemmas carry `{:induction false}` wherever Dafny would otherwise add an induction
hypothesis of its own.

## Where a plausible property fails

Each has a lemma with an input that shows it and a lemma with the exact condition.

- `Remove` after `Add` does not always restore the table: a stray rule in a hostport chain that mentions the
  pod's chains is dropped (`HostportUndo.StrayRuleDropped`, `HostportUndo.RemoveUndoesAddExactly`).
- A last line without a newline is not always read whole (`IptablesText.TailLost`,
  `IptablesText.TailReadExactly`).
- An NRI remove can go out with no stop before it, after a sync that reports a stopped container
  (`Nri.RemovedWithoutStop`, `Nri.RemoveFollowsStop`).
- A restore of CPU settings that failed in the middle is not repaired by a retry
  (`CpuSettings.RetryStopsEarly`, `CpuSettings.RetryRestores`).
- A save of CPU settings that is torn part-way is taken for the original by the next call
  (`CpuSettings.TornSaveLoses`, `CpuSettings.RunThenRestore`).
- Re-enabling load balancing can leave a child cgroup with CPUs its parent has lost, because the cgroup
  manager writes nothing for an empty CPU list (`CpusetFiles.EnableTearsNesting`,
  `CpusetProof.EnableKeepsNesting`).
- The revert of a failed re-enable runs from the bottom up and can give a child CPUs its parent lacks
  (`CpusetProof.EnableRevertLeavesNesting`, `CpusetProof.RevertKeepsNesting`,
  `CpusetProof.EnableRevertKeepsNesting`).
- The detach keys are missed after a lone first key (`CopyDetachable.DefaultKeysTyped`,
  `CopyDetachable.DefaultKeysDetach`, and `CopyDetachable.KeysDetach` for any keys).
- A container in the table does not always hold its name, and two of one name can be there at once, the
  older one on its way out (`CreationRaces.TwoInTable`, `CreationProof.OneLiveContainerPerName`).
- A removal can release the name of its container's heir, if two removals of the container overlap and the
  heir is created between them (`CreationRaces.OverlappingRemovals`, `CreationProof.ReleaseExactly`,
  `CreationProof.RunInvariantExactly`).
- A stopper that comes to wait after the stop loop has finished panics on the closed channel
  (`StopRuns.LateWaitPanics`, `StopRuns.WaitExactly`).

## Model

| member | source | states |
|---|---|---|
| Registrar.Registrar.constructor | internal/registrar/registrar.go:28-34 | starts empty and valid |
| Registrar.Registrar.Reserve | internal/registrar/registrar.go:39-53 | fails exactly when the name belongs to another key; repeating a reservation changes nothing; the two maps stay inverse to each other |
| Registrar.Registrar.Release | internal/registrar/registrar.go:57-79 | removes exactly the name from both maps, the key's other names staying in order and a key whose last name goes being dropped, and keeps the maps inverse |
| Registrar.ReleaseKeepsInverse | internal/registrar/registrar.go:57-79 | cutting the name out of its key's list leaves the other names in order and the maps inverse to each other |
| Registrar.Registrar.Delete | internal/registrar/registrar.go:83-90 | removes exactly the names of the key from both maps and keeps them inverse |
| Registrar.DeleteKeepsInverse | internal/registrar/registrar.go:83-90 | deleting a key leaves the maps inverse to each other |
| Registrar.Registrar.GetNames | internal/registrar/registrar.go:93-102 | the key's names, each exactly once, or an error exactly when it has none |
| Registrar.Registrar.Get | internal/registrar/registrar.go:105-114 | the name's key, or an error exactly when it is not reserved |
| ResourceCleaner.ResourceCleaner.Add | internal/resourcestore/resourcecleaner.go:31-46 | the new function goes in front of those added before |
| ResourceCleaner.ResourceCleaner.Cleanup | internal/resourcestore/resourcecleaner.go:50-57 | runs from newest to oldest, stops at the first that exhausts its retries, succeeds exactly when none does |
| ResourceCleaner.Retry | internal/resourcestore/resourcecleaner.go:61-82 | succeeds exactly when the function fails fewer times than there are attempts |
| ResourceCleaner.FirstAddedRunsLast | internal/resourcestore/resourcecleaner.go:31-57 | an undo function completes only after every one added later has completed |
| ResourceCleaner.CompletedIsPrefix | internal/resourcestore/resourcecleaner.go:50-57 | what completes is the longest prefix of the order with no function given up |
| ResourceStore.ResourceStore.Put | internal/resourcestore/resourcestore.go:157-181 | fails exactly when a resource is there; otherwise stores it and sends one token to each watcher of the entry, none of whose channels is full |
| ResourceStore.ResourceStore.Get | internal/resourcestore/resourcestore.go:135-151 | hands out a stored resource and forgets the entry; a placeholder stays |
| ResourceStore.ResourceStore.Delete | internal/resourcestore/resourcestore.go:185-190 | forgets the entry, stored or not |
| ResourceStore.ResourceStore.WatcherForResource | internal/resourcestore/resourcestore.go:199-213 | a fresh channel on the entry, made a placeholder if absent, and the stage |
| ResourceStore.ResourceStore.SetStageForResource | internal/resourcestore/resourcestore.go:215-230 | records the stage, making a placeholder if absent |
| ResourceStore.ResourceStore.SweepStale | internal/resourcestore/resourcestore.go:94-129 | takes out exactly the stored resources that were stale, ages the other stored ones, leaves placeholders, in whatever order the map is visited |
| ResourceStore.PutKeepsValid | internal/resourcestore/resourcestore.go:157-181 | no watcher is registered twice or on two entries, those of placeholders have received nothing, and no channel holds two tokens |
| ResourceStore.WatchKeepsValid | internal/resourcestore/resourcestore.go:199-213 | the same after a watch |
| ResourceStore.SweepKeepsValid | internal/resourcestore/resourcestore.go:94-129 | the same after a sweep |
| StoreHistory.RunKeepsHeld | internal/resourcestore/resourcestore.go:94-213 | after any operations what is held is what was put, and it is stale exactly when one sweep has passed |
| StoreHistory.RunLeavesOnce | internal/resourcestore/resourcestore.go:94-190 | nothing leaves the store twice, and nothing that left is held |
| StoreHistory.EveryPutAccountedFor | internal/resourcestore/resourcestore.go:94-190 | a Put succeeded exactly when its resource is held or has left |
| StoreHistory.ParkedResourceLife | internal/resourcestore/resourcestore.go:94-190 | a stored resource is held, having seen at most one sweep, or left exactly once: by Get, Delete or the second sweep after its Put |
| StoreHistory.WatchersToldExactlyOnce | internal/resourcestore/resourcestore.go:157-213 | a watcher has a token exactly when it was registered on a placeholder whose Put came before any Delete; never two |
| StoreHistory.StageIsLatest | internal/resourcestore/resourcestore.go:199-230 | a watcher is told the stage set last, if the entry has been there ever since |
| StoreHistory.StageUnset | internal/resourcestore/resourcestore.go:199-230 | if none was set since the entry was last missing it is told the empty stage, or the unknown one if there is no entry |
| CreationProof.StepKeeps | server/container_create.go:389-492 | every step of every request, of the sweeper and of any number of removals keeps the invariant tying registrar, store, storage, tables, runtime and removals together, unless it is a removal's release of a name that an heir of its container needs |
| CreationProof.StepKeepsStore | internal/resourcestore/resourcestore.go:94-230 | every step keeps the store valid |
| CreationProof.RunInvariant | server/container_create.go:389-492 | in a run without such a release the invariant holds in every state |
| CreationProof.RunInvariantExactly | server/container_create.go:389-492 | the invariant holds in every state of a run if and only if no removal releases a name that another container holds of which anything is left |
| CreationProof.RunMonotone | server/container_create.go:389-492 | what is created, was handed to a cleaner or was lost sight of stays so |
| CreationClaims.ReturnedNeverCleaned | server/container_create.go:389-492 | an ID sent to a client is never handed to a cleaner, before or after, in any interleaving whatsoever, overlapping removals included |
| CreationClaims.RunClaims | server/container_create.go:389-492 | in any interleaving each container belongs to one request, one parked resource or one client: what is being created or kept is neither created nor cleaned, nothing is both, and what a request is about to answer or has answered is a created container of the name it asked for |
| CreationClaims.AnsweredByName | server/container_create.go:402-416 | in any interleaving the ID a request is answered with was generated for the very name the request asked for, and is created |
| CreationClaims.AnswerStays | server/container_create.go:402-492 | a request is answered once: no later step of anyone changes its answer |
| CreationPieces.AnsweredIsWhole | server/container_create.go:418-492 | in any interleaving what a client was sent is in storage, table, index and runtime until a removal of it begins, and what is parked is whole too |
| CreationAccounts.NoneForgotten | server/container_create.go:389-492 | in any interleaving every container ever begun, and every one of which a piece exists, is owned by a request at work on it, parked, created, being taken apart, recorded as lost sight of, or gone with its name |
| CreationAccounts.CleanedIsGone | internal/resourcestore/resourcecleaner.go:50-57 | a container handed to a cleaner that is done and gave nothing up has no piece left and does not hold its name |
| CreationAccounts.NoneLost | server/container_create.go:470-481 | without the release of an heir's name a container is lost sight of only if a cleaner gives up: the store takes what is parked and keeps it until it is taken or swept |
| CreationRetries.ExpiredParks | server/container_create.go:470-478 | from any state, a container finished after its client's context ended is parked under its name with its whole cleaner, and nothing else changes: no answer, no clean-up |
| CreationRetries.LiveAnswers | server/container_create.go:480-492 | finished in time it is created, its ID is the answer and the store holds nothing of the name |
| CreationRetries.ParkedIsReturned | server/utils.go:101-117 | from any state, a request for a name under which a container is parked is answered with that container, which is then created, no longer parked and untouched |
| CreationRetries.CreatedIsReturned | server/container_create.go:402-411 | from any state, a request for the name of a created container is answered with it and changes nothing else |
| CreationRetries.FreshIsCreated | server/container_create.go:402-492 | from any state, a request for a free name that meets no failure is answered with its own ID; the container then has the name and all its pieces and nothing else has changed |
| CreationRetries.ParkedThenReturned | server/container_create.go:470-478 | a run in which a container is parked and the retry is answered with it |
| CreationStages.RetryToldStage | server/utils.go:118-122 | without the release of an heir's name, whoever registers to wait for a creation is told the stage it has reached |
| CreationProof.OneLiveContainerPerName | server/container_create.go:389-492 | in a run without the release of an heir's name, a container any piece of which exists holds its name if and only if no removal of it has released the name and is still to clear the table and index, which are all that is left of it then; so two containers of one name are never both in storage or the runtime, and of two in the table or index one is on its way out |
| CreationProof.StoreAgreesWithRegistrar | server/utils.go:101-152 | in such a run a stored resource is the container the registrar knows by that name, and the Put of a parking request never finds the slot taken |
| CreationProof.NameReleasedLast | internal/resourcestore/resourcecleaner.go:31-57 | in such a run a cleaner about to release a name releases its own, and nothing else is left of the container |
| CreationProof.NothingParkedUnderOwnName | server/container_create.go:470-492 | while a request creates, nothing is stored under its name |
| CreationProof.RemovalKeeps | server/container_remove.go:52-89 | each step of a removal, from the runtime over storage and the name to the table and the index, interleaved with everything else, other removals of the container included, and failing where it can, keeps the invariant if it releases no heir's name |
| CreationProof.ReleaseExactly | server/container_remove.go:80 | releasing the name keeps the invariant if and only if the name is free, the container's own, or held by one of which nothing is left; taken from an heir any piece of which exists, it leaves the heir live without its name |
| CreationProof.BeginRemoval | internal/lib/container.go:14-34 | beginning the removal of a container found in the table keeps the invariant, also while another removal of it is under way |
| CreationRaces.TwoInTable | server/container_remove.go:80-81 | a run with one removal in which two containers of one name are in the table |
| CreationRaces.OverlappingRemovals | server/container_remove.go:52-89 | a run with two overlapping removals of one container in which the second releases the heir's name, and that ends with two containers of one name in storage, one of them without its name |
| CreationRaces.SerialIsSafe | server/container_remove.go:52-89 | if no two removals of one container overlap, every removal releases its own container's name |
| CreationProof.ParkKeeps | server/container_create.go:470-492 | parking a container for a client that has gone keeps the invariant |
| Text.Search | internal/hostport/hostport_manager.go:438-453 | finds a substring exactly when there is one |
| Iptables.FakeIPTables.EnsureChain | internal/hostport/fake_iptables.go:82-106 | tells whether the chain was there; it is there afterwards, empty if it was not, and every other chain stays |
| Iptables.FakeIPTables.EnsureRule | internal/hostport/fake_iptables.go:144-168 | tells whether the rule was there; it is there afterwards, at the asked end if it was not, and every other rule and chain stays |
| Iptables.FindRule | internal/hostport/fake_iptables.go:134-142 | where the rule first stands, or -1 when it does not |
| Iptables.FakeIPTables.RestoreAll | internal/hostport/fake_iptables.go:274-355 | the table and result of the lines taken in turn, stopping at the first that fails |
| Iptables.RestoreByChain | internal/hostport/fake_iptables.go:274-355 | restoring acts on each chain through the lines about that chain alone |
| Iptables.RestoreSucceeds | internal/hostport/fake_iptables.go:274-355 | an input that deletes nothing does not fail |
| Iptables.RestoreKeepsDistinct | internal/hostport/fake_iptables.go:144-168 | whatever is restored, no chain comes to hold a rule twice |
| HostportProof.AddProducesTable | internal/hostport/hostport_manager.go:68-193 | the input Add writes never fails and leaves one table, whatever the order of Go's maps: old rules that mention the pod's chains gone, the pod's rules in place |
| HostportProof.RemoveProducesTable | internal/hostport/hostport_manager.go:211-268 | the input Remove writes succeeds exactly when no existing chain is listed twice, and then leaves the table without the pod's chains and rules |
| HostportProof.DeletesSucceed | internal/hostport/fake_iptables.go:274-355 | a list of chain deletions succeeds exactly when each chain exists and none is named twice |
| HostportUndo.RemoveUndoesAdd | internal/hostport/hostport_manager.go:68-268 | on a table without the pod's chains, Remove after Add, asked for with whatever has the pod's chains, succeeds, and gives the table with just the base chains if and only if no hostport chain held a rule twice or a rule mentioning the pod's chains |
| HostportUndo.RemoveUndoesAddExactly | internal/hostport/hostport_manager.go:68-268 | the same on a table that iptables can hold, so without repeated rules, if and only if no rule of a hostport chain mentions the pod's chains |
| HostportUndo.StrayRuleDropped | internal/hostport/hostport_manager.go:438-453 | the only rule of the dispatch chain mentions the pod's chain, and the dispatch chain is empty after Add and Remove |
| HostportUndo.OperationsKeepDistinct | internal/hostport/hostport_manager.go:68-268 | neither the base set-up nor Add nor Remove makes a chain hold a rule twice |
| HostportUndo.GoodPodChains | internal/hostport/hostport_manager.go:286-290 | the chains of a well-formed pod are all different |
| HostportUndo.RemoveSucceeds | internal/hostport/hostport_manager.go:211-268 | so Remove of a well-formed pod never deletes a chain twice, on any table |
| HostportUndo.FreshIs | internal/hostport/hostport_manager.go:107-159 | a pod's lines leave its jumps, newest first, in the dispatch chains and one rule in each of its own |
| HostportUndo.SurvivesExactly | internal/hostport/hostport_manager.go:438-453 | a chain comes through filtering and re-insertion unchanged exactly when it has no duplicate and no filtered rule |
| HostportRemove.HeadLeaves | internal/hostport/hostport_manager.go:248-262 | the table just before the deletions of Remove, the same for every order of Go's maps |
| HostportRemove.RemoveLeavesTable | internal/hostport/hostport_manager.go:211-268 | the table Remove leaves for every order of Go's maps, also when it fails: the chains before the first one named a second time are deleted |
| HostportRemove.RemoveLeavesResult | internal/hostport/hostport_manager.go:211-268 | without a repeated chain that is the table without the pod |
| HostportRuns.AddOnOverlay | internal/hostport/hostport_manager.go:68-193 | adding a pod to a table with other live pods puts it in front of them; adding it again, with the same address or another, takes the place of what it had and moves it to the front |
| HostportRuns.RemoveOnOverlay | internal/hostport/hostport_manager.go:195-268 | a removal, known by its chains, takes out the live pod with those chains and nothing of the others |
| HostportRuns.RunIsOverlay | internal/hostport/hostport_manager.go:68-268 | after any run of Adds and Removes, the removals giving the pods' chains and not their addresses, the table is the base table with the live pods laid over it |
| HostportRuns.RemovalsSucceed | internal/hostport/hostport_manager.go:195-268 | no Remove of such a run fails |
| HostportRuns.RunKeepsDistinct | internal/hostport/hostport_manager.go:68-268 | no run makes a chain hold a rule twice |
| HostportRuns.DispatchIntact | internal/hostport/hostport_manager.go:68-268 | after any run each live port has its two chains with their single rules, and exactly one rule of each dispatch chain mentions its chain: its jump |
| HostportRuns.NoReferenceWhenDeleted | internal/hostport/hostport_manager.go:232-262 | after any run, when Remove comes to its deletions no rule of any other chain, hostport or not, mentions a chain it deletes |
| HostportRuns.NothingLeft | internal/hostport/hostport_manager.go:195-268 | after a run that ends in a removal none of the pod's chains is in the table and no rule mentions one |
| HostportRuns.EnsureBaseIdempotent | internal/hostport/hostport.go:58-98 | ensuring the base chains again changes nothing |
| HostportManager.PodIsGood | internal/hostport/hostport_manager.go:286-290 | different digests of equal length give the pod distinct chains and distinct jumps |
| HostportManager.GatherHostportMappings | internal/hostport/hostport_manager.go:294-306 | the mappings with a host port whose host IP fits the family, in order |
| HostportManager.ReadExisting | internal/hostport/hostport_manager.go:312-340 | the rules of the hostport chains, chain by chain |
| HostportManager.FilterRules | internal/hostport/hostport_manager.go:438-453 | exactly the rules whose text contains none of the chains, in order |
| HostportManager.PortBuffers | internal/hostport/hostport_manager.go:107-159 | the chains and lines of all ports in order |
| HostportManager.PresentChains | internal/hostport/hostport_manager.go:238-246 | the pod's chains that exist, in order |
| HostportManager.EnsureKubeHostportChains | internal/hostport/hostport.go:58-98 | the base chains and jumps, added where absent; where they lead is HostportForwarding.BaseJumpMeets |
| HostportManager.HostportManager.Add | internal/hostport/hostport_manager.go:68-193 | fails only without a valid pod IP; otherwise the pod's family gets the pod's rules, whose effect on packets HostportForwarding states, and the other family is untouched |
| HostportManager.HostportManager.AddPorts | internal/hostport/hostport_manager.go:104-193 | always succeeds and leaves the table AddProducesTable describes |
| HostportManager.HostportManager.RemoveForFamily | internal/hostport/hostport_manager.go:211-268 | succeeds exactly when no existing chain is listed twice, so always for a well-formed pod, and leaves the table RemoveLeavesTable describes whether it succeeds or not |
| HostportManager.HostportManager.Remove | internal/hostport/hostport_manager.go:195-209 | cleans up both families, whatever becomes of the first, and succeeds exactly when both do |
| HostportPods.RuleNames | internal/hostport/hostport_manager.go:107-159 | the only chain a rule written for a port names is the target of its jump or the chain it stands in |
| HostportPods.EntriesSilent | internal/hostport/hostport_manager.go:107-159 | with different hashes, no rule of one pod mentions a chain of another |
| HostportPods.EntryTargets | internal/hostport/hostport_manager.go:107-159 | a pod's jumps each mention their own target and no other chain of the pod |
| HostportPods.EntryRulesApart | internal/hostport/hostport_manager.go:107-159 | the rule in a port's chain mentions none of the pod's other chains |
| HostportPods.SandboxChains | internal/hostport/hostport_manager.go:286-290 | a pod's chains come from the sandbox's ID and mappings, not from its name or address |
| HostportPods.ClusterOrderly | internal/hostport/hostport_manager.go:107-290 | requests for pods with ordinary names and addresses and different hashes, the removals with any name and address, meet every assumption of the run theorems |
| HostportPods.ServerLife | server/sandbox_network.go:97-179 | an Add and the Remove of the same ID and mappings without the address are such a run, and leave the table with just the base chains |
| HostportPods.ManagerLive | internal/hostport/hostport_manager.go:68-268 | a sandbox that was added, with no request for it since, is live |
| HostportPods.ManagerDispatchIntact | internal/hostport/hostport_manager.go:68-268 | after any run of the manager's Adds and of Removes without an address each live port has its two chains with their single rules, and exactly one rule of each dispatch chain mentions its chain |
| HostportPods.ManagerNoReference | internal/hostport/hostport_manager.go:232-262 | in any such run no chain is deleted while a rule of another chain mentions it |
| HostportPods.ManagerNothingLeft | internal/hostport/hostport_manager.go:195-268 | after a removal in any such run no chain of the sandbox is left and no rule mentions one |
| Packets.WordsOf | internal/hostport/fake_iptables.go:170-214 | a rule made of words, quoted or not, is read back as those words |
| Packets.NumberOf | internal/hostport/hostport_manager.go:107-159 | a number written in decimal is read back as that number |
| HostportPackets.PortMeets | internal/hostport/hostport_manager.go:124-149 | the jump to a port's chain and the rule there translate exactly the packets of the mapping's protocol and host port whose destination is its host IP, or any if it has none, to the pod's address and the container port; all others go on to the next rule |
| HostportPackets.MasqMeets | internal/hostport/hostport_manager.go:124-159 | the jump to a port's masquerading chain and the rule there masquerade exactly the packets the pod sent to its own host port and that were translated back to it |
| HostportPackets.LiveIsStanding | internal/hostport/hostport_manager.go:68-268 | the live pods are those of the requests with no later request for the sandbox, newest first |
| HostportForwarding.EntryAfter | internal/hostport/hostport.go:58-98 | after any run with an Add OUTPUT, PREROUTING and POSTROUTING hold what they held and the jump to the manager's chain, which is there |
| HostportForwarding.BaseJumpMeets | internal/hostport/hostport.go:58-98 | OUTPUT and PREROUTING hand packets for the host to the hostport chain, POSTROUTING hands translated ones to the masquerading chain, and what those decide is decided |
| HostportForwarding.PacketReachesPod | internal/hostport/hostport_manager.go:68-268 | after any run of Adds and Removes a packet that arrives for, or that the host sends to, a forwarded host port and host IP leaves for the pod's address and the container port of the mapping; among pods that stand the one added last wins, and among its mappings the last |
| HostportForwarding.PacketLeftAlone | internal/hostport/hostport_manager.go:68-268 | after any run a packet for no mapping of a standing pod, or not for the host, fares as if the manager's jump were not there |
| HostportForwarding.HairpinMasqueraded | internal/hostport/hostport_manager.go:151-159 | after any run a packet a standing pod sends to its own host port leaves masqueraded |
| HostportForwarding.OthersNotMasqueraded | internal/hostport/hostport_manager.go:151-159 | after any run every other packet fares in POSTROUTING as if the manager's jump were not there |
| HostportForwarding.KeysDiffer | internal/hostport/hostport_manager.go:286-290 | mappings that differ in sandbox, host port, protocol or host IP are hashed from different texts |
| HostportForwarding.WebReached | internal/hostport/hostport_manager.go:68-193 | a pod with one mapping on a host without rules, and the packets that reach it |
| RuleSyntax.NormalizeRule | internal/hostport/fake_iptables.go:170-214 | the normal form of any rule text, its syntax error, or the panic on a blank rule or text right after a quote |
| RuleSyntax.NormalizedRule | internal/hostport/fake_iptables.go:170-214 | a rule of plain and quoted words is kept word by word with its addresses prefixed |
| RuleSyntax.NormalizedDestination | internal/hostport/fake_iptables.go:175-177 | a destination written after an equals sign is kept after a space |
| HostportWords.JumpsKept | internal/hostport/hostport_manager.go:124-134 | the two jumps are kept as written |
| HostportWords.DnatKept | internal/hostport/hostport_manager.go:136-149 | the DNAT rule as written is kept as the model's rule, which is kept as it is; neither breaks a line or reads as a deletion; read back, it sends the packets of the mapping, and no others, to the pod (HostportPackets.PortMeets) |
| HostportWords.SnatKept | internal/hostport/hostport_manager.go:151-158 | the same for the MASQUERADE rule |
| IptablesText.ReadLine | internal/hostport/hostport_manager.go:387-434 | a line with a newline is cut there and trimmed; reading always advances and never leaves the buffer |
| IptablesText.TailReadExactly | internal/hostport/hostport_manager.go:387-434 | a last line without a newline is read whole exactly when it is blank or its last two characters are not spaces |
| IptablesText.TailLost | internal/hostport/hostport_manager.go:387-434 | a last field of one character is lost |
| IptablesText.GetChainLines | internal/hostport/hostport_manager.go:346-385 | the chain lines between the table's opening line and the next table or COMMIT; None where the source would panic |
| IptablesText.SaveChain | internal/hostport/fake_iptables.go:250-254 | one line for each rule, in order |
| IptablesText.SaveInto | internal/hostport/fake_iptables.go:256-272 | the opening line, a line for each chain, all rules chain by chain, COMMIT |
| IptablesText.ParsedChainsAreSaved | internal/hostport/hostport_manager.go:346-385 | parsing the saved text of any table finds exactly its chains |
| IptablesText.ReadRulesAreSaved | internal/hostport/hostport_manager.go:312-340 | the lines picked by prefix from the saved text are exactly the rules of the hostport chains |
| IptablesText.ParseRendered | internal/hostport/fake_iptables.go:274-355 | every line the manager writes is understood by restore as what it was written for |
| IptablesRestore.FakeTables.Restore | internal/hostport/fake_iptables.go:274-355 | the tables after a text is restored line by line, with comments, several tables, malformed lines, rule normalisation and the substring test for deletions |
| IptablesRestore.PutRule | internal/hostport/fake_iptables.go:144-168 | the chain is made, and the normalised rule is added if it is not there; the chain is made even when the rule is refused |
| IptablesRestore.TextRestores | internal/hostport/fake_iptables.go:274-355 | if the texts are writings of the lines and the search for deletions finds exactly theirs, restoring the text gives the table and the outcome of restoring the lines, and leaves other tables alone |
| IptablesRestore.SeenIf | internal/hostport/fake_iptables.go:308-314 | the search finds exactly the deletions when no other line reads as one |
| HostportText.SaidRestores | internal/hostport/fake_iptables.go:274-355 | texts that neither break lines nor read as deletions restore what their lines restore, and keep the table in that form |
| HostportText.KeptSay | internal/hostport/hostport_manager.go:312-453 | the rules picked from the saved text and filtered there are the rules the table model filters |
| HostportText.AddTextRestores | internal/hostport/hostport_manager.go:104-193 | saving the table, reading the text, filtering it, writing the pod's rules and restoring the result gives the table AddProducesTable describes, for every order of Go's maps, and the parser does not panic |
| HostportText.RemoveTextRestores | internal/hostport/hostport_manager.go:211-268 | the same for Remove and the table RemoveLeavesTable describes, failing exactly when an existing chain is listed twice |
| HostportText.BaseSettled | internal/hostport/hostport.go:58-98 | the base rules are kept as written, so the set-up leaves a table Add and Remove can handle on text |
| IrqMask.IsASCII | internal/runtimehandlerhooks/utils_linux.go:16-23 | true exactly for text within ASCII |
| IrqMask.MapHexCharToByte | internal/runtimehandlerhooks/utils_linux.go:29-52 | the bytes of the digits, lowest CPUs first, or an error exactly when a digit is not hexadecimal |
| IrqMask.MapByteToHexChar | internal/runtimehandlerhooks/utils_linux.go:54-76 | the digits of the bytes, highest CPUs first, padded to 32 bits |
| IrqMask.InvertByteArray | internal/runtimehandlerhooks/utils_linux.go:79-84 | every byte complemented |
| IrqMask.BytesMean | internal/runtimehandlerhooks/utils_linux.go:29-52 | the bytes denote the CPUs the digits denote, for any number of digits |
| IrqMask.HexMeans | internal/runtimehandlerhooks/utils_linux.go:54-76 | the digits denote the CPUs the bytes denote, padding included |
| IrqMask.MarkedMeans | internal/runtimehandlerhooks/utils_linux.go:121-131 | setting or clearing CPUs in the bytes adds or takes away exactly those CPUs |
| IrqMask.MarkBytes | internal/runtimehandlerhooks/utils_linux.go:119-131 | both arrays after the loop over the CPUs |
| IrqMask.UpdateMeans | internal/runtimehandlerhooks/utils_linux.go:100-144 | the new mask denotes the old set with the CPUs added or taken away; the banned mask is its complement over the CPUs of the input; both are lower-case groups of eight, and no padding bit is set |
| IrqMask.UpdateIRQSmpAffinityMask | internal/runtimehandlerhooks/utils_linux.go:100-144 | returns those two masks, or an error exactly when the input without commas is not hexadecimal |
| IrqSerial.TouchedCpu | internal/runtimehandlerhooks/high_performance_hooks_linux.go:540-560 | after any starts and stops a CPU of a container that took part is in the file exactly when the container is not started-and-not-stopped |
| IrqSerial.UntouchedCpu | internal/runtimehandlerhooks/high_performance_hooks_linux.go:540-560 | every other CPU is as it was at first |
| IrqSerial.MaskTracksPinned | internal/runtimehandlerhooks/high_performance_hooks_linux.go:133-191 | the file denotes the initial set without the CPUs of the containers started and not stopped |
| IrqSerial.MaskRestored | internal/runtimehandlerhooks/high_performance_hooks_linux.go:133-191 | once none is left the file denotes the initial set exactly when the CPUs of all that took part were in it |
| Cpuset.RunIsLevelsAfter | internal/runtimehandlerhooks/high_performance_hooks_linux.go:430-462 | the files after any number of writes, in either order, level by level |
| CpusetProof.DisableKeepsNesting | internal/runtimehandlerhooks/high_performance_hooks_linux.go:430-462 | after every single write of a disable, exclusive CPUs are among a cgroup's CPUs and a child has none its parent lacks |
| CpusetProof.EnableKeepsNesting | internal/runtimehandlerhooks/high_performance_hooks_linux.go:430-503 | the same for a re-enable, exactly when no parent keeps other CPUs while its child would be emptied |
| CpusetFiles.EnableTearsNesting | internal/runtimehandlerhooks/high_performance_hooks_linux.go:355-503 | a pod cgroup and its container, with the states wanted for them, where re-enabling leaves the container with a CPU the pod has lost |
| CpusetProof.DisableReverted | internal/runtimehandlerhooks/high_performance_hooks_linux.go:407-427 | a disable that stops anywhere and is reverted leaves each exclusive set without the requested CPUs, so restores them exactly when they had none |
| CpusetProof.EnableReverted | internal/runtimehandlerhooks/high_performance_hooks_linux.go:407-427 | a re-enable that stops anywhere and is reverted leaves the requested CPUs in every exclusive set |
| CpusetProof.EnableRevertLeavesNesting | internal/runtimehandlerhooks/high_performance_hooks_linux.go:407-434 | two levels where the revert of a re-enable breaks the nesting on its way |
| CpusetProof.RevertKeepsNesting | internal/runtimehandlerhooks/high_performance_hooks_linux.go:407-434 | from any hierarchy, the revert of a re-enable keeps the nesting at every write if and only if it holds to begin with and each parent already has what its child is to get back |
| CpusetProof.EnableRevertKeepsNesting | internal/runtimehandlerhooks/high_performance_hooks_linux.go:407-434 | after a re-enable that stopped at update n, if and only if only the lowest level was updated and each parent had, before the call, what its child gets back |
| CpusetFiles.ReverseStates | internal/runtimehandlerhooks/high_performance_hooks_linux.go:432-434 | the slice reversed in place |
| CpusetFiles.Files.AddOrRemoveCpusetFromManager | internal/runtimehandlerhooks/high_performance_hooks_linux.go:464-503 | the one file updated, nothing on an error, and nothing for cpuset.cpus when no CPU is left |
| CpusetFiles.Files.AddOrRemoveCpusetFromManagers | internal/runtimehandlerhooks/high_performance_hooks_linux.go:430-462 | exactly the updates before the first error, in the order of adding or removing, and the slice left reversed when removing |
| CpusetFiles.Files.SetCPULoadBalancingV2 | internal/runtimehandlerhooks/high_performance_hooks_linux.go:325-428 | a call that succeeds leaves every level as WantedDisables or WantedReenables says, and the partition file isolated exactly after a disable; one that fails leaves the files after the change up to its error and the revert up to its own |
| CpusetFiles.ListManagers | internal/runtimehandlerhooks/high_performance_hooks_linux.go:355-405 | the wanted state of each cgroup from the top down, or an error when shared CPUs are requested without a container cgroup; what those states make of the files is CpusetFiles.WantedDisables and CpusetFiles.WantedReenables |
| CpusetFiles.WantedDisables | internal/runtimehandlerhooks/high_performance_hooks_linux.go:355-405 | a disable adds the exclusive CPUs to cpuset.cpus.exclusive of every cgroup, all online CPUs to cpuset.cpus of the pod's, the exclusive and the shared ones to that of the container's, and just the exclusive ones to that of the lowest; nothing is taken away |
| CpusetFiles.WantedReenables | internal/runtimehandlerhooks/high_performance_hooks_linux.go:355-405 | a re-enable takes the exclusive CPUs out of cpuset.cpus.exclusive of every cgroup, and out of cpuset.cpus of the lowest and of any other that is to have just them, unless no CPU would be left; nothing is added |
| CpusetFiles.DepthCounts | internal/runtimehandlerhooks/high_performance_hooks_linux.go:355-371 | the pod's cgroups are the non-empty parts of the path |
| CpusetFiles.WantedIsChain | internal/runtimehandlerhooks/high_performance_hooks_linux.go:355-405 | with online CPUs only, what is wanted narrows on the way down |
| CpuSettings.Files.DoSet | internal/runtimehandlerhooks/high_performance_hooks_linux.go:722-793 | the settings and save files after one call of either hook, with an error at any point of any CPU: the CPUs before the one at which it stops have the value, or their saved one, and no other CPU changes |
| CpuSettings.SetExactly | internal/runtimehandlerhooks/high_performance_hooks_linux.go:736-769 | a set succeeds exactly when it stops nowhere; the CPUs before the stop, and no others, have the value, and each is saved, with the value it had unless one was saved before; of the CPU at the stop at most the save is new |
| CpuSettings.RestoresExactly | internal/runtimehandlerhooks/high_performance_hooks_linux.go:771-793 | a restore writes back and forgets exactly the CPUs before the place at which it stops, and succeeds exactly when that is the end of the list or an unsaved CPU |
| CpuSettings.SetSets | internal/runtimehandlerhooks/high_performance_hooks_linux.go:736-769 | without an I/O error every CPU of the list has the value afterwards and no other changes |
| CpuSettings.LatestCallRules | internal/runtimehandlerhooks/high_performance_hooks_linux.go:722-793 | over any calls failing anywhere a CPU has the value of the latest call that reached it, or the kept original if that was a restore |
| CpuSettings.UnreachedIsOriginal | internal/runtimehandlerhooks/high_performance_hooks_linux.go:722-793 | a CPU no call reached has its original value |
| CpuSettings.SetKeepsPrefix | internal/runtimehandlerhooks/high_performance_hooks_linux.go:736-769 | however a set ends, the saved CPUs stay a prefix of the list |
| CpuSettings.RunKeepsOriginals | internal/runtimehandlerhooks/high_performance_hooks_linux.go:736-793 | over any calls failing anywhere, torn saves included, a saved value is the kept original and an unsaved CPU still has it |
| CpuSettings.OriginalsKept | internal/runtimehandlerhooks/high_performance_hooks_linux.go:736-769 | the kept originals are prefixes of the true ones, and are the true ones exactly when no call tears a save short |
| CpuSettings.RestoreExactly | internal/runtimehandlerhooks/high_performance_hooks_linux.go:771-793 | a restore without I/O error returns every CPU to its original value with nothing saved exactly when the saved CPUs are a prefix |
| CpuSettings.RunThenRestore | internal/runtimehandlerhooks/high_performance_hooks_linux.go:838-899 | setting any number of times, failing anywhere, then restoring once without I/O error returns every CPU to its original value if and only if no call tore a save short |
| CpuSettings.TornSaveLoses | internal/runtimehandlerhooks/high_performance_hooks_linux.go:736-793 | a torn save, a second set and a restore that leaves half a value |
| CpuSettings.RetryRestores | internal/runtimehandlerhooks/high_performance_hooks_linux.go:771-793 | a restore fails exactly when the error meets a saved CPU or the reading of the first unsaved one; a retry then completes it exactly when the error was at the first CPU or at the first unsaved one |
| CpuSettings.RetryStopsEarly | internal/runtimehandlerhooks/high_performance_hooks_linux.go:771-793 | two CPUs, a restore that fails at the second, and a retry that does nothing |
| Stop.Container.SetAsStopping | internal/oci/container.go:586-594 | sets the flag, and is true for the first caller only |
| Stop.Container.WaitOnStopTimeout | internal/oci/container.go:596-613 | returns when the container is not stopping, panics on a closed channel, blocks on a full one, and otherwise sends the timeout and registers a watcher; only the last changes anything |
| Stop.Container.SetAsDoneStopping | internal/oci/container.go:615-623 | closes each registered watcher once, in order, leaves none, and closes the channel |
| Stop.Container.AddExecPID | internal/oci/container.go:725-735 | admits the PID unless the container is stopping |
| Stop.Container.DeleteExecPID | internal/oci/container.go:738-742 | forgets the PID |
| Stop.Container.KillExecPIDs | internal/oci/container.go:746-773 | every registered PID but 0, and no other, receives SIGKILL or SIGINT as it was registered, in as many rounds as it takes |
| Stop.SignalRound | internal/oci/container.go:752-770 | one round reaches those that do not refuse and keeps the others for the next |
| StopRuns.OneStopLoop | internal/oci/runtime_oci.go:820-838 | with any number of stoppers at most one stop loop is started |
| StopRuns.NoExecOnceStopping | internal/oci/container.go:725-735 | once stopping is set no exec PID is admitted |
| StopRuns.ExecsSignalled | internal/oci/container.go:746-773 | when the loop has finished every non-zero exec PID still registered has received its signal, although PIDs are deregistered while the loop ranges over the live map; no signal goes to PID 0 or to a PID not registered with it |
| StopRuns.ExecStaysRegistered | internal/oci/container.go:725-742 | an exec PID admitted before the stop stays registered with its signal until it is deregistered |
| StopRuns.ExecGetsItsSignal | internal/oci/container.go:725-773 | such a PID has received SIGKILL, or SIGINT, as asked at its admission when the loop has finished |
| StopRuns.TimeoutsInOrder | internal/oci/runtime_oci.go:902-938 | what the loop has received and what waits in the channel are all timeouts sent, in order |
| StopRuns.WatchersClosedOnce | internal/oci/container.go:596-623 | no watcher is closed twice, and after the loop has finished every one registered is closed and none is left |
| StopRuns.StopReturnsWhenDone | internal/oci/runtime_oci.go:804-842 | a stop returns only if it found the container spoofed or gone, was cancelled, or the loop has finished |
| StopRuns.WaitExactly | internal/oci/container.go:596-613 | in every reachable state a stopper still to wait panics exactly when the loop has finished, and blocks exactly when the channel is full before that |
| StopRuns.LateWaitPanics | internal/oci/runtime_oci.go:820-835 | a stopper whose loop finishes before it waits |
| StopRuns.KillNotBeforeDeadline | internal/oci/runtime_oci.go:902-938 | SIGKILL is due by timeout only at or after the least of the first deadline and receipt plus timeout over all timeouts received |
| StopRuns.DeadlineNeverPostponed | internal/oci/runtime_oci.go:902-938 | a later timeout never moves the deadline back, and the deadline meets every timeout received |
| StopRuns.RunInvariant | internal/oci/runtime_oci.go:804-957 | what ties flag, loop, watchers, channel, PIDs and deadline together in every reachable state |
| Nri.LocalNri.CreateContainer | internal/nri/nri.go:205-229 | whatever the plugins answer exactly one create is added to the log, and the state is Created |
| Nri.LocalNri.StartContainer | internal/nri/nri.go:249-267 | whatever the plugins answer exactly one start is added to the log, and the state is Running |
| Nri.LocalNri.StopContainer | internal/nri/nri.go:344-374 | one stop is added to the log for a container whose latest event left it created or running, nothing otherwise |
| Nri.LocalNri.RemoveContainer | internal/nri/nri.go:376-401 | a stop if one is due and then a remove are added to the log for a container that is not removed, nothing otherwise |
| Nri.LocalNri.SyncPlugin | internal/nri/nri.go:407-440 | one report per container is added to the log, in order, whatever the plugin answers |
| Nri.RunIsValid | internal/nri/nri.go:205-493 | after any requests the map holds exactly the states the events say, and each stop and remove went out to a container in a state that calls for it |
| Nri.SendsExactly | internal/nri/nri.go:205-493 | after any requests the next one adds exactly the events that are due on the log so far, whether a stop or a remove is due being read off the latest event of the container |
| Nri.StopsAreSeparated | internal/nri/nri.go:344-401 | between two stops, and between a remove and a later stop, the container was created, started or reported alive |
| Nri.RemovesAreSeparated | internal/nri/nri.go:376-401 | between two removes the container was created, started or reported by a sync |
| Nri.RemoveFollows | internal/nri/nri.go:376-401 | every remove directly follows a stop of the container or a sync that reported it stopped |
| Nri.RemoveFollowsStop | internal/nri/nri.go:376-401 | a removal directly follows a stop exactly when the latest event was not such a sync |
| Nri.RemovedWithoutStop | internal/nri/nri.go:407-428 | a sync reporting a stopped container and then a removal: a remove with no stop |
| CopyDetachable.Copy | utils/utils.go:45-97 | for every chunking, keys and reader or writer errors: all bytes read are written, on a detach all but the keys, on a writer error a prefix; with a good writer it detaches exactly where Detaches says, and with the default keys exactly when they are typed after an even run of lone first keys |
| CopyDetachable.ReadRound | utils/utils.go:62-76 | one round reads until a read breaks the match, keeping everything it read |
| CopyDetachable.MatchesAll | utils/utils.go:64-75 | the keys are recognised at a round's start exactly when each arrives as a read of its own |
| CopyDetachable.DefaultKeysTyped | utils/utils.go:55-75 | the default keys detach, but not after a lone first key |
| CopyDetachable.TwoKeysDetach | utils/utils.go:55-76 | two different keys detach if and only if they stand as two reads of their own, no error ends the copy before them, and the run of lone first keys just before them is even |
| CopyDetachable.DefaultKeysDetach | utils/utils.go:54-57 | the same for the default keys |
| CopyDetachable.KeysDetach | utils/utils.go:55-76 | whatever the keys, the copy detaches if and only if they stand somewhere as reads of their own where no attempt begun earlier is still under way, and no earlier attempt was broken by a read with an error |
| CopyDetachable.DetachNeedsKeys | utils/utils.go:55-76 | whatever the keys, a detach means that they stand somewhere as reads of their own and no read before them ends the copy |
| CopyDetachable.FreshKeysDetach | utils/utils.go:55-76 | whatever the keys, they detach when no lone first key and no error comes before them |
| ParseLog.Parse | internal/oci/runtime_oci.go:354-398 | the streams after all lines in order |
| ParseLog.ParseLine | internal/oci/runtime_oci.go:361-394 | what one line adds, nothing for an empty, malformed or unknown one |
| ParseLog.ParsedConcat | internal/oci/runtime_oci.go:354-398 | parsing distributes over concatenation at a line's end |
| ParseLog.ParseInvertsRender | internal/oci/runtime_oci.go:354-398 | any interleaving of full and partial entries of both streams parses back to the exact bytes of each stream |
| ParseLog.LogReadsBackWrites | internal/oci/runtime_oci.go:354-398 | so does any interleaving of writes with newlines anywhere |

## Left out

- CreationRetries.ParkedIsReturned: the request is left to run: what others do to the name meanwhile is in the theorems about every interleaving.
- CreationProof.RunInvariant: assumes fresh IDs, a sandbox that stays, and no sandbox removal while one of its containers is being created.
- CreationProof.StepKeeps: a request's name is taken as given; the sandbox creation flow, which has the same shape, is not modelled.
- CreationProof.BeginRemoval: the lookup of the container to remove is one step, and stopping it comes before.
- HostportManager.HostportManager.Add: the NAT table exists and iptables calls do not fail for other reasons; the hash in a chain name is the parameter `digest`; conntrack cleanup is not modelled.
- HostportManager.ReadExisting: reads the table; that the saved text says the same is HostportText.KeptSay.
- HostportForwarding.PacketReachesPod: for readable names and addresses, as in HostportWords.DnatKept; rules of others before the manager's jump come first, and the hypothesis says they let the packet pass; of a rule's matches those the manager writes are read, a jump is followed as deep as the given depth, and what a translated packet meets later is another packet.
- HostportForwarding.PacketLeftAlone: rules that stood in the hostport chain before the first Add are assumed to let the packet pass.
- HostportRuns.RunIsOverlay: for pods none of whose rules contains another pod's chain name, which HostportPods.ClusterOrderly shows of the manager's own, and whose chains are absent from the initial table: a run begins before the first of them is added.
- Iptables.FakeIPTables.EnsureRule: the rule is in normal form already; normalisation is in IptablesRestore.PutRule.
- Iptables.FakeIPTables.RestoreAll: works on lines, each rule in normal form; the text is restored by IptablesRestore.FakeTables.Restore, and HostportText ties the two together.
- Iptables.RestoreSucceeds: about lines, so without the syntax errors that a text can have.
- RuleSyntax.NormalizeRule: white space is the space character.
- IptablesRestore.FakeTables.Restore: RestoreAll without flushing, which is how the manager calls it.
- HostportWords.DnatKept: the address parser is a parameter, of which are used only the characters an address can have and that a dotted IPv4 address with a port is none; pod names hold no quote and no newline.
- HostportText.RemoveTextRestores: for tables in which no hostport chain's name begins the name of a chain of the pod, so that the search for deletions is exact.
- IrqMask.UpdateIRQSmpAffinityMask: the CPU list is parsed already; an empty mask or a CPU beyond the mask, where the source panics, is excluded.
- IrqSerial.MaskTracksPinned: updates of the file do not overlap in time, and the irqbalance service and its configuration file are not modelled.
- CpusetFiles.Files.SetCPULoadBalancingV2: a failed write leaves its file as it was.
- CpuSettings.Files.DoSet: a failed write of a setting leaves it as it was; the lookup of available governors is an error at the point Check.
- Stop.Container.KillExecPIDs: stated for a map that does not change meanwhile and for signals that are all delivered by some round, without which the source loops for ever; StopRuns.ExecsSignalled is about the live map.
- StopRuns.RunInvariant: what a panicking stopper does to the process is not modelled; termination is not claimed.
- Nri.RunIsValid: eviction, unsolicited updates and shutting the interface down are not modelled.
- ParseLog.LogReadsBackWrites: bytes are characters, and dates hold no space and no newline.
- Liveness of watchers, sweepers and stop loops.
- The parser of CPU lists and the other cgroup, quota and shared-CPU settings.
- Image pulls, storage, networking plugins, metrics, configuration, the command line and the gRPC surface.
- SELinux label counting, the in-memory stores, environment merging and mount ordering, whose code is a map or a list with no invariant across calls.
