# Enjoliver: a verified model of the provisioning loop

This project models, in Dafny, how Enjoliver turns discovered machines into a Kubernetes
cluster, and proves what that loop keeps.

* `Prelude`, `Text`: order on text, sorted lists, splitting and joining.
* `Machines`, `Formats`, `Database`, `Queries`: the fleet as a value and the formats of its
  columns, the SQL tables behind it with their unique columns and foreign keys, and the view
  from one to the other.
* `Discovery`, `Scheduling`: the two repositories as classes over the tables; each request
  is proved to change the view exactly as a function on fleets says.
* `PlanRun`, `PlanSafety`, `PlanHazards`, `PlanHistory`, `HarmfulRun`: the plan process as a
  step system in which reports arrive at any time and every request may fail before or after
  it took effect; what holds in every run, that the bound is reached, where the order of
  events matters, and the exact conditions there.
* `Placement`, `Choice`, `Plan`, `KubernetesPlan`: which machines are chosen, and the code
  of the plan as classes, each call proved to be a run of that step system, with what a
  pass without failures adds up to.
* `GroupFiles`, `SyncHistory`, `ClusterView`, `Sync`: the matchbox group files and their fate
  over whole runs, the etcd cluster as each host is told about it, and the code that writes
  the files.
* `Backup`, `BackupHistory`: the exported playbook and its replay, and the two over whole runs.
* `Locksmith`, `Agent`: the rolling-restart lock over a cluster, that it is exclusive and that
  it comes back, and the restart itself as a run of it.
* `Backoff`: the hold before `RunPod`.
* `CniIpam`, `DiskClass`, `BootQuery`: address ranges, disk classes, the boot query and
  its three parsers.
* `TimedCache`, `ApiCache`: the install lock, the sync gate and the cached routes.

`dafny verify dfyconfig.toml` checks everything.

## What the proofs found

* A retry asks for the whole expected number again, so `2 * expected - 1` control planes is
  the true bound (`PlanHistory.EveryRunIsBounded`), and it is reached
  (`PlanSafety.BoundIsReached`). The bound, the coherence of the fleet and the absence of
  repeated rows need nothing of reports.
* That every machine holds one bundle at most needs exactly that the POSTs are harmless when
  they are handled (`PlanHistory.PartitionedIffHarmless`), and that nodes wait for enough
  control planes needs exactly that enough POSTs of each try land
  (`PlanHistory.EnoughIffTriesLand`).
  A report between the listing and a POST can break the second without any fault
  (`PlanHazards.NodeBesideNoControlPlane`, with the reports of `PlanHazards.CardExchanged`),
  because a POST for an unknown MAC is logged and answered like any other; and reports of a
  card that moves between two machines can break the first (`HarmfulRun.HarmfulPost`): one
  machine holds all three roles, no control plane is left, and its group file stays.
* The smallest MACs are chosen among the interfaces that the database happens to list first.
  The choice is independent of that exactly if the chosen machines lie wholly below the
  others (`Choice.SameChoiceIff`); two machines with interleaved cards are enough for two
  outcomes (`Choice.ChoiceFollowsListing`).
* `get_role_ip_list` and `get_available_machines` report the first interface of a machine,
  not its boot interface. All hosts are told the same members exactly if every member has
  one address on all its interfaces (`ClusterView.AnswersAgreeIff`). A member with several
  addresses can miss its own entry (`ClusterView.MissesItself`); when every member finds
  itself once is `Sync.OwnEntryInFileIff`.
* Two boot MACs equal up to case are two machines for the database and one for the group
  files (`GroupFiles.CaseClash`).
* A report that arrives during a sync, or before its notification, outdates a series exactly
  if it changes the MAC a machine of the role boots from (`SyncHistory.ReportKeepsSeriesIff`);
  the gate lets requests through nevertheless.
* The file cache cuts the expiry of a value off to a whole second, so two machines can be
  granted the install lock up to a second too early (`TimedCache.GrantsNearlySecondCloser`);
  over longer windows nothing adds up (`TimedCache.GrantsInWindow`).
* The cached list of schedules is outdated by a report exactly if it moves the boot MAC of a
  scheduled machine (`ApiCache.DiscoverKeepsSchedulesIff`).
* The parsers of the boot query differ on keys that merely end with `uuid` or `mac`
  (`BootQuery.LongerKeyDisagrees`); when they agree is `BootQuery.ParsersAgreeIff`.
* An export by role loses a machine that is an etcd member only (`Backup.RolesBackIff`); no
  run of the plan leaves one (`BackupHistory.RunRoundTrip`).
* The lock comes back: a rolling update over any number of hosts can always complete
  (`Locksmith.RollingUpdate`), and a lock left behind has its reason in the run
  (`Locksmith.HeldWithReason`).
* The mean of the back-off counts the oldest of the four calls twice and leaves out the
  newest; the promised spacing holds nevertheless (`Backoff.ReleasedLate`).

The lookup of a chassis joins two conditions, on its name and on its identifier, with
Python's `and`; of two column comparisons that leaves the first, so the name alone decides
(`machine_discovery.py:82-84`). And `model.py:287-296` stacks two `validates` decorators on one
method whose text promises to check gateway and address; the outer one replaces what the
inner one registered, so only the address is checked. The model follows the code in both.

## Model

| member | source | states |
|---|---|---|
| `Discovery.MachineDiscoveryRepository.Upsert` | enjoliver-api/enjoliver/repositories/machine_discovery.py:102-130 | A report is taken exactly if its keys, uuid, MACs, addresses, links and the uniqueness of its MACs allow it; then the fleet seen through the tables changes to the specification `Discover`, every foreign key and unique column still holds, schedules stay, and the answer tells a new machine; a refused report commits nothing. After an accepted one the machine has exactly the reported facts, column by column |
| `Discovery.DeleteAllAttached` | enjoliver-api/enjoliver/repositories/machine_discovery.py:33-55 | Walking over the interfaces removes exactly the disks, the interfaces and the ports plugged into them of that one machine |
| `Discovery.InsertLinks` | enjoliver-api/enjoliver/repositories/machine_discovery.py:57-100 | Succeeds exactly if every link names a listed interface and every new chassis comes with a MAC; then the links of the machine are those reported, a chassis keeps its first MAC, and nothing else changes |
| `Machines.LastReportWins` | enjoliver-api/enjoliver/repositories/machine_discovery.py:102-130 | After any sequence of reports a machine has exactly what its last accepted report said, column by column, and the roles it had before |
| `Machines.ReportIsStored` | enjoliver-api/enjoliver/repositories/machine_discovery.py:57-130 | After an accepted report an interface row is one of its machine exactly if a reported interface with a MAC has its MAC, name, netmask, address, CIDR notation, gateway and verified name, the boot flag being set exactly for the reported boot MAC; the disks are those reported; and each reported link is a port of the last listed interface of its name |
| `Machines.ChassisFirst` | enjoliver-api/enjoliver/repositories/machine_discovery.py:80-90 | A chassis known by its name keeps its MAC; a new one gets the identifier of the first link that names it |
| `Machines.ScheduleStores` | enjoliver-api/enjoliver/repositories/machine_schedule.py:30-53 | Of each machine a schedule request changes nothing but its roles: each role grows by its occurrences in the posted list exactly if the machine owns the MAC and did not hold it |
| `Machines.UnreportedStays` | enjoliver-api/enjoliver/repositories/machine_discovery.py:102-130 | A machine that no accepted report was about is unchanged by any sequence of reports |
| `Machines.RolesNeverMove` | enjoliver-api/enjoliver/repositories/machine_discovery.py:102-130 | No sequence of reports gives or takes a role, or breaks the coherence of the fleet |
| `Machines.DiscoverKeepsCoherent` | enjoliver-api/enjoliver/model.py:266-296 | A report keeps every MAC on one interface of one machine and at most one boot interface per machine |
| `Machines.DiscoverKeepsAddresses` | enjoliver-api/enjoliver/model.py:278-296 | Stored MACs and addresses stay well formed over any report |
| `Machines.ScheduleKeepsAddresses` | enjoliver-api/enjoliver/repositories/machine_schedule.py:30-53 | So do they over any schedule request |
| `Machines.DottedPlain` | enjoliver-api/enjoliver/model.py:40-43 | An accepted IPv4 address holds digits and dots only |
| `Formats.AddressIff` | enjoliver-api/enjoliver/model.py:42 | An address is accepted exactly if it is four numbers of at most 255, printed in decimal with dots between them |
| `Formats.SameBytesIff` | enjoliver-api/enjoliver/generator.py:229-235 | Two MACs are lowered to one text exactly if they write the same six bytes, and the lowered text writes them too |
| `Database.ViewCoherent` | enjoliver-api/enjoliver/model.py:191-296 | Tables that satisfy the unique columns and foreign keys show a coherent fleet |
| `Scheduling.MachineScheduleRepository.CreateSchedule` | enjoliver-api/enjoliver/repositories/machine_schedule.py:30-53 | Adds, on the one machine that owns the MAC, each posted role it did not hold when the request began; an unknown MAC or a request without its keys changes nothing; interfaces and machines are untouched |
| `Machines.ScheduleHitsOwner` | enjoliver-api/enjoliver/repositories/machine_schedule.py:30-53 | A schedule request changes the machine that owns the MAC and no other |
| `Scheduling.InsertRoles` | enjoliver-api/enjoliver/repositories/machine_schedule.py:44-53 | The loop adds one row for each occurrence in the posted list of a role not held at the start |
| `Scheduling.MachineScheduleRepository.GetAvailableMachines` | enjoliver-api/enjoliver/repositories/machine_schedule.py:73-96 | Lists, each once and in any order, exactly the machines without a role that have a boot interface, each by some interface of its own |
| `Scheduling.MachineScheduleRepository.GetMachinesByRoles` | enjoliver-api/enjoliver/repositories/machine_schedule.py:113-135 | Lists exactly the machines that hold the one role, or whose set of roles is the given set, each by its boot interface; raises exactly if one of them has none |
| `Scheduling.MachineScheduleRepository.GetRoleIpList` | enjoliver-api/enjoliver/repositories/machine_schedule.py:137-147 | Lists one address of some interface of each machine with the role and a boot interface |
| `Scheduling.MachineScheduleRepository.GetAllSchedules` | enjoliver-api/enjoliver/repositories/machine_schedule.py:55-62 | Maps the boot MAC of every scheduled machine to its roles and has no other key; raises exactly if a scheduled machine has no boot interface |
| `PlanRun.PostBundle` | enjoliver-api/enjoliver/repositories/machine_schedule.py:30-53 | A POST for an unscheduled machine makes it a control plane or a node and touches no other machine |
| `PlanRun.ListedArePending` | enjoliver-api/enjoliver/schedulerv2.py:79-90 | The MACs a plan takes from a listing lead to different unscheduled machines, whichever interface each machine was listed by |
| `PlanRun.StepKeeps` | enjoliver-api/enjoliver/schedulerv2.py:65-125 | Every step with an orderly report or none keeps the plan invariant: bundles only, fewer than twice the expected control planes, nodes only beside enough control planes, pending MACs lead to different free machines |
| `PlanHistory.EveryRunIsBounded` | enjoliver-api/enjoliver/schedulerv2.py:79-107 | In every state of every run from an empty database, with reports at any moment, faults anywhere and any number of retries and restarts: at most 2 * expected - 1 control planes, no repeated (machine, role) row, and a coherent fleet |
| `PlanHistory.PartitionedIffHarmless` | enjoliver-api/enjoliver/repositories/machine_schedule.py:30-53 | In any such run each machine always holds nothing or exactly one of the two bundles if and only if every POST that reached the database was harmless when it was handled: the owner of its MAC, if any, held nothing or that very bundle |
| `PlanHistory.EnoughIffTriesLand` | enjoliver-api/enjoliver/schedulerv2.py:79-125 | In any such run whose node POSTs name no control plane, the plan is never at its nodes or files beside fewer than the expected control planes if and only if, for every try that ends normally, the control planes there were at its fetch and its POSTs that reached the database while their MAC led to an unscheduled machine add up to that many; and then no node ever stands beside fewer |
| `PlanHistory.LandingsAdd` | enjoliver-api/enjoliver/schedulerv2.py:65-90 | Over any stretch of any run without node POSTs the control planes grow by exactly the POSTs that landed |
| `PlanHistory.ShortTryGoesWrong` | enjoliver-api/enjoliver/schedulerv2.py:109-125 | After a try that ended short, with a free machine, three more requests without fault or report put a node beside too few control planes |
| `PlanHistory.LandingRunIsSafe` | enjoliver-api/enjoliver/schedulerv2.py:65-125 | In any such run whose POSTs lead to unscheduled machines when they are handled, roles stay partitioned and a node stands only beside at least the expected number of control planes |
| `PlanHistory.OrderlyRunLands` | enjoliver-api/enjoliver/schedulerv2.py:65-125 | Every run whose reports leave each listed MAC with an unscheduled machine of its own is such a run |
| `PlanHistory.EveryRunIsAddressed` | enjoliver-api/enjoliver/model.py:278-296 | In every state of every run the stored MACs, addresses and uuids are well formed |
| `PlanSafety.BoundIsReached` | enjoliver-api/enjoliver/schedulerv2.py:84-102 | For every positive expected number and every fleet with 2 * expected - 1 unscheduled machines, a run in which one POST is lost, and with no other fault and no report, reaches 2 * expected - 1 control planes |
| `PlanHistory.FaultlessRunIsWholeIff` | enjoliver-api/enjoliver/schedulerv2.py:79-107 | In any such run without faults whose node POSTs name no control plane: there are always none or exactly the expected number of control planes when no control plane POST is under way, with every try on its way from none to that number, if and only if every control plane POST leads to an unscheduled machine when it is handled |
| `PlanSafety.StepGrows` | enjoliver-api/enjoliver/repositories/machine_schedule.py:30-53 | From any state that satisfies the plan invariant no step removes a control plane or a node |
| `PlanSafety.ReachesSafely` | enjoliver-api/enjoliver/schedulerv2.py:65-137 | Whatever a call of the plan leads to, whatever fails, satisfies the plan invariant if its start did |
| `PlanHazards.PostKeepsPartitionIff` | enjoliver-api/enjoliver/repositories/machine_schedule.py:30-53 | A POST of a bundle keeps the roles partitioned exactly if the owner of the MAC, if any, holds nothing or that very bundle |
| `PlanHazards.PostCountsIff` | enjoliver-api/enjoliver/schedulerv2.py:65-77 | A control plane POST that is handled adds a control plane exactly if its MAC leads to an unscheduled machine at that moment |
| `PlanHazards.TryPlacesAllIff` | enjoliver-api/enjoliver/schedulerv2.py:79-90 | A try whose POSTs are all answered makes as many control planes as it posts MACs if and only if every listed MAC leads to an unscheduled machine of its own; the plan counts them in any case |
| `PlanRun.LeavingAloneIsOrderly` | enjoliver-api/enjoliver/repositories/machine_discovery.py:102-130 | A report that neither takes a listed MAC from its machine nor gives it one keeps every listed MAC with an unscheduled machine of its own |
| `PlanHazards.NodeBesideNoControlPlane` | enjoliver-api/enjoliver/schedulerv2.py:79-125 | For every pair of reports of one machine where the second lacks the first boot MAC, a run without any fault ends with that machine a node and no control plane at all: the second report arrived between the listing and the POST |
| `PlanHazards.CardExchanged` | enjoliver-api/enjoliver/repositories/machine_discovery.py:102-130 | Such pairs of reports exist: a machine whose one network card was exchanged |
| `HarmfulRun.HarmfulPost` | enjoliver-api/enjoliver/schedulerv2.py:79-125 | For any three MACs a run without any fault comes to a node POST that names a control plane, because two reports moved the card of the listed machine to it: the POST is harmful, leaves that machine with the roles of both bundles, leaves no control plane, and a group file too many |
| `Placement.PostAllPlaces` | enjoliver-api/enjoliver/schedulerv2.py:79-90 | Posting a list of MACs that lead to different unscheduled machines puts the bundle on exactly their owners, one per MAC, and changes nothing else |
| `Placement.PlacedViews` | enjoliver-api/enjoliver/schedulerv2.py:79-125 | After a placement the owners have left the available machines for their role, and the other views are unchanged |
| `Plan.Api.PostSchedule` | enjoliver-api/enjoliver/schedulerv2.py:65-77 | A POST that returns has committed; one that fails may or may not have |
| `Plan.FetchAvailable` | enjoliver-api/enjoliver/schedulerv2.py:25-42 | A missing connection reads as an empty list; any other answer is the whole list of available machines |
| `Plan.EtcdMemberKubernetesControlPlane.PostEach` | enjoliver-api/enjoliver/schedulerv2.py:86-88 | Posting in order is a run of the step system; when it ends normally every MAC was posted |
| `Plan.EtcdMemberKubernetesControlPlane.ApplyAvailableBudget` | enjoliver-api/enjoliver/schedulerv2.py:79-90 | True only after posting for the smallest listed MACs, as many as expected; without failures true exactly if enough machines are available, and false leaves the tables alone |
| `Plan.EtcdMemberKubernetesControlPlane.ApplyBudget` | enjoliver-api/enjoliver/schedulerv2.py:92-107 | Whatever fails, a run of the step system after one query for the control planes; without failures: true and nothing changed if there are enough, true after placing the expected number if enough are free, false and nothing changed otherwise or if the listing raises; at most one reply fails, and it ends the try, with False for a missing connection or a page that is not JSON, and with the exception for any other |
| `Plan.EtcdMemberKubernetesControlPlane.Apply` | enjoliver-api/enjoliver/schedulerv2.py:127-152 | A run over all retries: one query for the control planes per try, an exception after each try but the last, and a raised one only after all of them; what the last try answers is what one try answers |
| `Plan.KubernetesNode.PostEach` | enjoliver-api/enjoliver/schedulerv2.py:118-123 | Posting in order is a run of the step system; the count grows by one per POST |
| `Plan.KubernetesNode.ApplyEverything` | enjoliver-api/enjoliver/schedulerv2.py:109-125 | Without failures every available machine becomes a node and the result is nodes before plus machines available; it raises, changing nothing, exactly if a node has no boot interface |
| `Plan.KubernetesNode.Apply` | enjoliver-api/enjoliver/schedulerv2.py:127-172 | The same for the nodes: one query for them per try, and an exception leaves only after as many failed tries as were allowed |
| `KubernetesPlan.PassConserves` | enjoliver-api/enjoliver/k8s_2t.py:66-75 | From any partitioned fleet with enough control planes or enough free machines: none stays available, control planes and nodes partition the machines with a boot interface, and the chosen control planes are the owners of the smallest listed MACs, as many as expected |
| `KubernetesPlan.Kubernetes2Tiers.Apply` | enjoliver-api/enjoliver/k8s_2t.py:66-75 | Whatever fails, a pass is a run of the step system; a synced one leaves the group files current and exact. Without failures it waits exactly if a control plane cannot be listed or there are neither enough of them nor enough free machines, with the tables unchanged; it is stopped, with nothing changed, if there are enough and a node cannot be listed; with all it needs it returns the number of machines with a boot interface. With failures it waits only after at most four exceptions that were passed on, at a try that came to False, before any query for the nodes and with no file written; a pass that is stopped before the nodes has seen five exceptions |
| `KubernetesPlan.RunIsReadyIff` | enjoliver-api/enjoliver/k8s_2t.py:66-75 | In any run, with reports at any moment, a pass has what it needs exactly if the roles are partitioned, every scheduled machine has a boot interface, and there are enough control planes or enough free machines |
| `Choice.SameChoiceIff` | enjoliver-api/enjoliver/schedulerv2.py:84-88 | All listings of the free machines choose the same n of them if and only if some n free machines have all their MACs below all MACs of the other free machines |
| `Choice.PlacementForgetsListingIff` | enjoliver-api/enjoliver/schedulerv2.py:79-90 | The fleet after the placement does not depend on the listing under exactly that condition |
| `Choice.ChoiceFollowsListing` | enjoliver-api/enjoliver/repositories/machine_schedule.py:73-96 | A fleet where it does: of two free machines, the one card of the second lies between the two cards of the first; listed by its low card the first is chosen, by its high card the second |
| `SyncHistory.FilesNeverOutnumber` | enjoliver-api/enjoliver/sync.py:342-392 | In every state of every run whose node POSTs name no control plane, each series of files is numbered 0 to k - 1 with k at most the number of machines of the role |
| `SyncHistory.UnsparedOutnumbers` | enjoliver-api/enjoliver/sync.py:342-392 | A node POST that names a control plane leaves a series of control planes that was complete with a file too many |
| `SyncHistory.SeriesIsExact` | enjoliver-api/enjoliver/sync.py:342-392 | A series written to the end, in any such run, is exactly that of the fleet at that moment whatever files there were before: one file per machine of the role, file i selecting the i-th smallest boot MAC |
| `SyncHistory.ReportKeepsSeriesIff` | enjoliver-api/enjoliver/repositories/machine_discovery.py:102-130 | Over a report a series stays exact, with its numbering, if and only if the report does not change the MAC that a machine of the role boots from |
| `SyncHistory.MovedIsOutdated` | enjoliver-api/enjoliver/generator.py:229-235 | A report that changes such a MAC by more than the case of letters leaves files that fit no numbering of the fleet |
| `SyncHistory.SyncIsExact` | enjoliver-api/enjoliver/sync.py:403-418 | At a notification each series is exact unless a report since that series was written changed the MAC that a machine of its role boots from |
| `SyncHistory.NotifiedAfterBoth` | enjoliver-api/enjoliver/sync.py:403-410 | In every run a notification is sent, answered or not, only after a sync that wrote both series to the end, with nothing but reports since and in between |
| `SyncHistory.ForwardedAfterSync` | enjoliver-api/enjoliver/routes.py:250-260 | A forwarded `/ignition` request: at most the time to live before, a notification followed such a sync |
| `GroupFiles.SecondSyncChangesNothing` | enjoliver-api/enjoliver/sync.py:342-392 | Over an unchanged fleet a further sync, complete or cut short, selects nothing anew, in whatever order the rows come |
| `GroupFiles.NumberingIsUnique` | enjoliver-api/enjoliver/sync.py:420-433 | The numbering of machines by boot MAC does not depend on the order of the answer |
| `GroupFiles.OneGroupEach` | enjoliver-api/enjoliver/generator.py:223-240 | After a complete sync each machine of a role is selected by exactly one file, if no two boot MACs of the role are equal up to case |
| `GroupFiles.CaseClash` | enjoliver-api/enjoliver/generator.py:229-235 | That condition is exact |
| `GroupFiles.OneGroupAcrossIff` | enjoliver-api/enjoliver/generator.py:223-240 | With both series exact and the two roles apart, every scheduled machine is selected by exactly one file of the two series if and only if no two boot MACs of scheduled machines are equal up to case |
| `GroupFiles.NoStaleGroup` | enjoliver-api/enjoliver/sync.py:342-392 | Every file of the series selects a machine that holds the role |
| `ClusterView.AnswersAgreeIff` | enjoliver-api/enjoliver/repositories/machine_schedule.py:137-147 | All queries for the etcd members give the same sorted list, whatever order the rows come in and whichever interface comes first, exactly if all interfaces of each member carry one address |
| `ClusterView.ClusterEntries` | enjoliver-api/enjoliver/sync.py:172-180 | Taken apart at its commas the initial cluster has one entry per member |
| `ClusterView.BootAnswersAgree` | enjoliver-api/enjoliver/repositories/machine_schedule.py:137-147 | Whatever other interfaces the members have, two answers that list every member by its boot interface are one list once sorted |
| `ClusterView.OwnEntryOnce` | enjoliver-api/enjoliver/sync.py:172-180 | In such an answer every member finds its own address, and exactly once if and only if no other member boots with it |
| `ClusterView.MissesItself` | enjoliver-api/enjoliver/repositories/machine_schedule.py:137-147 | A member that no other shares its boot address with misses itself in some answer that lists it by an interface with another address |
| `ClusterView.OwnEntryIff` | enjoliver-api/enjoliver/repositories/machine_schedule.py:137-147 | Over all answers, whichever interface comes first: a member finds its address exactly once in every one if and only if all its interfaces carry it and no other member has an interface that does |
| `Sync.SameClusterEverywhere` | enjoliver-api/enjoliver/sync.py:234-340 | Where all answers agree, the files of all hosts carry one initial cluster and one set of members |
| `Sync.BootClusterEverywhere` | enjoliver-api/enjoliver/sync.py:234-340 | So do the files of all hosts made from answers that list the boot interfaces first, whatever other interfaces the members have |
| `Sync.OwnEntryInFile` | enjoliver-api/enjoliver/sync.py:172-180 | In a file so made a member finds its own name with its own peer URL in the initial cluster, and exactly once if and only if no other member boots with its address |
| `Sync.OwnEntryInFileIff` | enjoliver-api/enjoliver/sync.py:234-340 | Whichever interfaces come first: every file that can describe a member has its own name and peer URL exactly once in its initial cluster if and only if all interfaces of the member carry one address and no other member has an interface with it |
| `Sync.OneDescriptionIff` | enjoliver-api/enjoliver/generator.py:77-98 | Any two files that can describe a machine of an unchanged fleet have the same data, so that a further sync has nothing to write, if and only if all answers agree |
| `Sync.CountIsClusterSize` | enjoliver-api/enjoliver/sync.py:342-372 | In a partitioned fleet the count of API servers in a control plane file is the number of entries of its initial cluster |
| `Sync.LowerMac` | enjoliver-api/enjoliver/generator.py:229-235 | The lower case form of every stored MAC passes the check of the selector |
| `Sync.MatchboxDirectory.Dump` | enjoliver-api/enjoliver/generator.py:77-98 | Replaces the file exactly if it is missing or its data differ, lists compared without order; counts the writes |
| `Sync.ConfigSyncSchedules.WriteFile` | enjoliver-api/enjoliver/sync.py:234-340 | Writes or keeps one file of which each field says what the source puts there: the lower case MAC as selector, the address as etcd name and in the peer URL, the verified name as node name if there is one (other than the one the sync makes up itself) and the address otherwise, the entries of the initial cluster and the list of members from answers about them; a failing query leaves the directory alone |
| `Sync.AskedSays` | enjoliver-api/enjoliver/sync.py:242-340 | Every content the database can ask for says exactly that, told field by field |
| `Sync.MembersListed` | enjoliver-api/enjoliver/sync.py:293-301 | The list of members in such a file has one address per etcd member with a boot interface: every address listed is one of a member, and every member has one listed |
| `Sync.DescribesMembers` | enjoliver-api/enjoliver/generator.py:77-98 | So has a file that was left because its data are the same, but for repetitions |
| `Sync.RepeatedKept` | enjoliver-api/enjoliver/generator.py:77-98 | These are not excluded: a file whose list repeats an address is left as it is |
| `Sync.BootMembersListed` | enjoliver-api/enjoliver/sync.py:293-301 | Made from answers that list the boot interfaces first, an address is listed exactly if a member boots with it, and the initial cluster has one entry per member, those of the listed addresses |
| `Sync.ConfigSyncSchedules.WriteSeries` | enjoliver-api/enjoliver/sync.py:342-392 | Returns the number of machines of the role after writing a current file for each; a failure leaves the first files of the listing written; where all answers agree and the files are current nothing is written |
| `Sync.ConfigSyncSchedules.TryOnce` | enjoliver-api/enjoliver/sync.py:403-410 | Control planes, nodes, then the notification; finishes only if all three worked, with both series current and exact |
| `Sync.ConfigSyncSchedules.Apply` | enjoliver-api/enjoliver/sync.py:403-418 | The same over all retries; an exception leaves only after the control planes were queried once per allowed try; a repeated sync of an unchanged database writes no file where all answers agree |
| `Backup.ConstructDiscovery` | enjoliver-api/enjoliver/crud.py:200-239 | Reports each interface of the machine once with its own columns but the address as CIDR notation, its disks, its boot MAC and no links; raises exactly if the machine has no boot interface |
| `Backup.BackupExport.ExportRole` | enjoliver-api/enjoliver/crud.py:268-274 | One discovery and one schedule request for each machine that holds the role, or an error exactly if one has no boot interface |
| `Backup.BackupExport.GetPlaybook` | enjoliver-api/enjoliver/crud.py:262-276 | Control planes first, then nodes; None exactly if an exported machine has no boot interface |
| `Backup.RoundTrip` | enjoliver-api/enjoliver/crud.py:200-276 | Replayed on an empty database the playbook brings back exactly the exported machines, each with the same interfaces (MAC, name, netmask, address, gateway, boot flag) and disks, and the roles an export by role can tell |
| `Backup.RebuiltColumns` | enjoliver-api/enjoliver/crud.py:200-239 | Rebuilt interfaces are the exported ones in MAC, name, netmask, address, gateway and boot flag, column by column and in both directions |
| `Backup.TwiceIsOnce` | enjoliver-api/enjoliver/crud.py:262-276 | Replaying the playbook again changes nothing at all |
| `Backup.RolesBackIff` | enjoliver-api/enjoliver/crud.py:241-260 | The roles brought back are the roles held exactly if none is held twice and etcd member goes with control plane |
| `BackupHistory.RunRoundTrip` | enjoliver-api/enjoliver/crud.py:200-276 | In every state of every run of the plan, with reports at any moment and faults anywhere: the playbook brings back exactly the scheduled machines, each with its interfaces and disks and with exactly the roles it holds |
| `BackupHistory.EveryRunIsPaired` | enjoliver-api/enjoliver/schedulerv2.py:65-77 | In every state of every run a machine is etcd member exactly if it is control plane |
| `Locksmith.StepKeepsHeld` | enjoliver-agent/systemd_restart.go:117-155 | With names apart, every step keeps: whoever is inside its section holds the lock under its own name |
| `Locksmith.EveryRunExclusive` | matchbox/ignition/kubernetes-node.yaml:639-676 | In every state of every run over any number of hosts, with failing commands, crashes, power loss and reboots, at most one agent or lifecycle script is inside, and it holds the lock under its own name |
| `Locksmith.ExclusiveIffApart` | matchbox/ignition/etcd-member-kubernetes-control-plane.yaml:1394-1397 | Mutual exclusion holds in all runs exactly if no two actors of the cluster share a name |
| `Locksmith.HeldUntilItRuns` | enjoliver-agent/systemd_restart.go:127-147 | While an agent holds the lock after a failed restart, no other actor gets inside before that agent unlocks again |
| `Locksmith.DownHostsRest` | matchbox/ignition/kubernetes-node.yaml:639-676 | In every run no agent is at work on a host that is down |
| `Locksmith.ReadyReleases` | matchbox/ignition/kubernetes-node.yaml:712-720 | When the script of a host that came back finishes, a lock held under its name is free |
| `Locksmith.RollingUpdate` | matchbox/ignition/kubernetes-node.yaml:639-720 | For any number of hosts and any list of their agents and lifecycle scripts there is a run in which each in turn gets the lock, does its work inside (a reboot, for a script) and comes back, and which ends as it began, all idle and nobody holding |
| `Locksmith.HeldWithReason` | matchbox/ignition/kubernetes-node.yaml:639-720 | In every run a lock held under a name is held by an actor that is inside, or has been held ever since a grant whose answer was lost, a crash, an unlock that did not take effect, or the end of the host of an agent |
| `Locksmith.IdleHoldsNothing` | enjoliver-agent/systemd_restart.go:117-155 | Without such a mishap an idle actor never holds the lock |
| `Locksmith.ConfiguredApartIff` | enjoliver-agent/init.go:97-117 | The suffixed and the bare raw queries are apart exactly if no query repeats and none is another one with the suffix |
| `Locksmith.WithoutSuffix` | enjoliver-agent/init.go:104-105 | Without the suffix exclusion fails in every cluster with a host |
| `Agent.Runtime.WaitUnitIs` | enjoliver-agent/systemd_restart.go:17-35 | Looks at the unit until it is in a wanted state, dbus refuses, or thirty looks were made; succeeds exactly in the first case |
| `Agent.Runtime.StartUnitRetry` | enjoliver-agent/systemd_restart.go:37-56 | Starts the unit until systemd reports it done, dbus refuses, or ten starts were made; succeeds exactly in the first case |
| `Agent.Runtime.StopUnits` | enjoliver-agent/systemd_restart.go:65-77 | Stops the units in order, each seen down before the next, up to the last or to the first whose stop fails |
| `Agent.UnitLists` | enjoliver-agent/init.go:117-128 | The units a restart works through, in order, on a control plane and on a node |
| `Agent.StoppedSeenDown` | enjoliver-agent/systemd_restart.go:65-77 | Each unit that was stopped before the next was asked to stop and seen inactive or failed afterwards |
| `Agent.Runtime.StartUnits` | enjoliver-agent/systemd_restart.go:79-92 | Starts every unit in the reverse order whatever became of the others; counts those not seen active afterwards |
| `Agent.Runtime.RestartStack` | enjoliver-agent/systemd_restart.go:58-101 | Without a connection to dbus it fails before any stop or start; otherwise its commands are the stops and then the starts above and nothing else, and it succeeds exactly if every unit was seen active after its start |
| `Agent.EveryUnitStarted` | enjoliver-agent/systemd_restart.go:58-101 | A unit is started in a restart, however the stopping went, exactly if dbus could be reached; without dbus the restart fails; after one that succeeded each unit was seen active after its start |
| `Agent.UnconnectedFails` | enjoliver-agent/systemd_restart.go:58-63 | A restart without a connection to dbus counts as failed and releases nothing, so the agent returns with the lock taken as after any failed restart |
| `Agent.Runtime.TryForLock` | enjoliver-agent/systemd_restart.go:129-137 | Granted after fewer than ten refusals and then the agent holds the lock, or refused ten times |
| `Agent.Runtime.RestartKubernetes` | enjoliver-agent/systemd_restart.go:117-155 | An opening unlock, at most ten tries for the lock, the restart, and a closing unlock only after a restart that succeeded. Whatever the other actors do meanwhile, everything is a run of the lock of the cluster in which these commands are the steps of the agent; a failed restart returns with the lock still held if names are apart, success means it was given up |
| `Agent.RestartsAlone` | enjoliver-agent/systemd_restart.go:127-147 | With names apart, while the agent is at work on its units it holds the lock and no other actor of the cluster is inside |
| `Backoff.Runtime.Shift` | aci/aci-hyperkube/patches/rkt-basic-backoff.patch:89-95 | The first three times move one slot on; the sum counts the oldest twice and the newest not at all |
| `Backoff.Runtime.Push` | aci/aci-hyperkube/patches/rkt-basic-backoff.patch:80-96 | The register is again the last four call times, newest first |
| `Backoff.Runtime.BasicBackoff` | aci/aci-hyperkube/patches/rkt-basic-backoff.patch:67-105 | Each pod keeps exactly its own last four call times; the first call passes; a later one is held as `Hold` says of the register before it, or crashes exactly if all four slots are zero; other pods are untouched |
| `Backoff.ReleasedLate` | aci/aci-hyperkube/patches/rkt-basic-backoff.patch:97-103 | A call with four before it is released at least 80 seconds after the fourth last of them and held for at most 89 |
| `Backoff.FirstCallsPass` | aci/aci-hyperkube/patches/rkt-basic-backoff.patch:100-103 | With fewer than four calls before it a call is not held |
| `Backoff.HeldIff` | aci/aci-hyperkube/patches/rkt-basic-backoff.patch:80-103 | A call with four before it is held exactly if it comes less than 80 seconds after the mean of the three calls before the last one, the oldest of them counted twice, and then until 80 seconds after that mean and the jitter |
| `Backoff.LateCallPasses` | aci/aci-hyperkube/patches/rkt-basic-backoff.patch:97-103 | A call at least 80 seconds after the last one is never held |
| `Backoff.FiveCallsApart` | aci/aci-hyperkube/patches/rkt-basic-backoff.patch:67-105 | For calls of one pod one after the other, the fifth next call begins at least 80 seconds later |
| `Backoff.CallsInWindow` | aci/aci-hyperkube/patches/rkt-basic-backoff.patch:67-105 | At most 5 * (T / 80 + 1) calls of a pod begin in any T seconds |
| `CniIpam.PassesTestIff` | enjoliver-api/enjoliver/sync.py:108-112 | The test accepts exactly zero and the powers of two |
| `CniIpam.NetworkIs` | enjoliver-api/enjoliver/sync.py:104-105 | The subnet of a host starts at the one multiple m of 2^(32 - prefix) with m at most the address and the address below m + 2^(32 - prefix) |
| `CniIpam.RangeIs` | enjoliver-api/enjoliver/sync.py:114-122 | With blocks the range starts at that, plus the last decimal field of the address (its remainder by 256) times the block size, plus the skipped addresses; without, at the address plus the skipped ones; it ends the configured number of addresses later |
| `CniIpam.RefusedIff` | enjoliver-api/enjoliver/sync.py:107-124 | It fails exactly if the block size is neither zero nor a power of two up to 256, or the end lies beyond the 32-bit addresses |
| `CniIpam.DisjointIff` | enjoliver-api/enjoliver/sync.py:114-122 | With a range shorter than a block, two hosts of one subnet get disjoint ranges exactly if their addresses differ in the last decimal field, the remainder by 256 |
| `CniIpam.InsideSubnet` | enjoliver-api/enjoliver/sync.py:114-122 | If (last + 1) * sub_ips is at most 2^(32 - prefix), which is exactly when the block lies inside the subnet, the range lies inside it too |
| `CniIpam.WidePrefixFits` | enjoliver-api/enjoliver/sync.py:94-134 | With a prefix of at most 16 that always holds and no address overflows |
| `DiskClass.ComputeDisksSize` | enjoliver-api/enjoliver/sync.py:218-232 | The name of the least rung above the sum of the whole GiB of each disk, or of the top rung; `inMemory` without disks; raises exactly for an empty ladder |
| `DiskClass.ClassIsUnique` | enjoliver-api/enjoliver/sync.py:218-232 | With distinct rung sizes the class depends neither on the order of the disks nor on that of the ladder |
| `DiskClass.AddedDiskGrows` | enjoliver-api/enjoliver/sync.py:218-232 | Adding a disk, however small, never lowers the class |
| `DiskClass.EnlargedDiskGrows` | enjoliver-api/enjoliver/sync.py:218-232 | Neither does enlarging one |
| `DiskClass.RoundingLoss` | enjoliver-api/enjoliver/sync.py:223-224 | The rounding loses less than 2^30 bytes per disk |
| `BootQuery.GetCoreosConfigUrl` | discoveryC/bootinfo.go:25-36 | What follows the key in the first word of the line that has it |
| `BootQuery.GetBootInfoFromUrl` | discoveryC/bootinfo.go:53-86 | Fails exactly if neither route splits the URL in two; otherwise reads the last arguments that contain the fields |
| `BootQuery.GetBootInfoFromMetadata` | discoveryC/bootinfo.go:105-134 | Reads the last selectors of exactly the keys in the first word that has the prefix; crashes exactly if a selector is the bare key |
| `BootQuery.GetMacFromRawQuery` | enjoliver-api/enjoliver/tools.py:11-25 | The last parameter that contains the field with the field cut out and colons for hyphens; raises exactly if that is empty |
| `BootQuery.UrlRoundTrip` | enjoliver-api/enjoliver/generator.py:143-160 | For every uuid and hyphenated MAC and on both routes, the printed URL is read back as that uuid and the colon form of that MAC, digit by digit |
| `BootQuery.CommandLineRoundTrip` | discoveryC/bootinfo.go:25-36 | Placed anywhere on a kernel command line, behind words without the key, the URL is found whole |
| `BootQuery.MetadataRoundTrip` | discoveryC/bootinfo.go:105-134 | Any well formed query, quoted in the metadata file between any other words, is read as that query |
| `BootQuery.UrlReadsQuery` | discoveryC/bootinfo.go:69-79 | On any well formed query the URL parser takes the last value whose key ends with `uuid`, and with `mac` |
| `BootQuery.MetadataReadsQuery` | discoveryC/bootinfo.go:113-123 | On any well formed query the metadata parser takes the last value whose key is `uuid`, and `mac` |
| `BootQuery.PythonAgreesIff` | enjoliver-api/enjoliver/tools.py:11-25 | The Python parser answers the MAC of the URL parser exactly if the last key that ends with `mac` is `mac` and has a value |
| `BootQuery.UrlAgreesIff` | discoveryC/bootinfo.go:53-134 | On any well formed query the URL parser and the metadata parser read the same if and only if, for both words, the last key that ends with the word and the last key that is the word carry the same value, up to the separators of the MAC |
| `BootQuery.LongerKeyDisagrees` | discoveryC/bootinfo.go:69-79 | They need not: the query `xmac=a` has three different MACs for the three parsers |
| `BootQuery.ParsersAgreeIff` | enjoliver-api/enjoliver/tools.py:11-25 | All three parsers agree on a well formed query if and only if no longer key overrides the value of `uuid` and the last key that ends with `mac` is `mac` and has a value |
| `BootQuery.BootQueriesAreApart` | enjoliver-agent/init.go:97-117 | The boot queries of machines with different uuids give all lock names apart, so the cluster is exclusive |
| `TimedCache.InstallGate.Authorize` | enjoliver-api/enjoliver/routes.py:337-355 | A free or expired lock is taken for the lock time, a held one denies and stays as it is; without a positive lock time everyone is granted |
| `TimedCache.DeniedIffInside` | enjoliver-api/enjoliver/routes.py:337-355 | A request is denied if and only if it falls before the expiry of an earlier grant, which is the lock time after that grant cut off to a whole second |
| `TimedCache.GrantsApart` | enjoliver-api/enjoliver/routes.py:337-355 | Two grants are more than the lock time less one second apart, whoever asks in between, and at least the lock time apart in whole seconds |
| `TimedCache.GrantsNearlySecondCloser` | enjoliver-api/enjoliver/routes.py:337-355 | No larger gap is sure: two grants can be as little above the lock time less one second apart as one likes |
| `TimedCache.DeniedOnlyInside` | enjoliver-api/enjoliver/routes.py:338-345 | A denial falls inside the lock time of an earlier grant |
| `TimedCache.GrantsInWindow` | enjoliver-api/enjoliver/routes.py:337-355 | A window of T seconds holds at most T / L + 1 grants |
| `TimedCache.SyncGate.Notify` | enjoliver-api/enjoliver/routes.py:777-792 | A notification is remembered until the time to live is over, cut off to a whole second |
| `TimedCache.SyncGate.Ask` | enjoliver-api/enjoliver/routes.py:250-260 | A forwarded `/ignition` means the last notification has not expired; `/ignition-pxe` is always forwarded; unless the file was removed early every request in sync is forwarded |
| `ApiCache.FetchAllDiscovery` | enjoliver-api/enjoliver/repositories/machine_discovery.py:132-170 | Every machine with an interface once, with its interfaces, disks and boot MAC; raises exactly if one has no boot interface |
| `ApiCache.AnswerRepeatsLastReport` | enjoliver-api/enjoliver/repositories/machine_discovery.py:132-170 | After any sequence of reports a discovery answer has an entry for each machine with interfaces that repeats its last accepted report column by column |
| `ApiCache.Routes.GetDiscovery` | enjoliver-api/enjoliver/routes.py:205-208 | Answers the stored list unless it is empty or expired, or a fresh read that it stores; if what was stored is right, so is the answer; a stored answer was read at most 30 seconds before |
| `ApiCache.Routes.PostDiscovery` | enjoliver-api/enjoliver/routes.py:181-188 | Stores the report and, if the request completes, drops the stored discovery answer; right stored schedules stay right exactly if the report does not move the boot MAC of a scheduled machine |
| `ApiCache.Routes.GetScheduler` | enjoliver-api/enjoliver/routes.py:658-663 | Answers the stored schedules unless expired, or a fresh read that it stores; if what was stored is right, so is the answer; stored schedules were read at most 10 seconds before |
| `ApiCache.Routes.PostScheduler` | enjoliver-api/enjoliver/routes.py:694-696 | Keeps a right discovery answer right and drops the stored schedules, whatever they were |
| `ApiCache.DiscoverKeepsSchedulesIff` | enjoliver-api/enjoliver/routes.py:181-188 | A right listing of the schedules stays right over a report exactly if the report does not change the MAC a scheduled machine boots from |
| `ApiCache.ScheduleKeepsDiscovery` | enjoliver-api/enjoliver/routes.py:694-696 | A schedule request never outdates a discovery answer |
| `ApiCache.DiscoverKeepsReportsIff` | enjoliver-api/enjoliver/routes.py:181-188 | A right discovery answer that was not dropped stays right over a report exactly if the report repeats the interfaces and disks known of the machine |
| `ApiCache.DiscoveryAnswersAreFresh` | enjoliver-api/enjoliver/routes.py:205-208 | In any sequence of requests, from any state whose stored discovery answer is right, every answer of GET `/discovery` is one a fresh read could give, as long as the POSTs of reports complete |
| `ApiCache.SchedulerAnswersAreFresh` | enjoliver-api/enjoliver/routes.py:658-663 | In any sequence of requests, every answer of GET `/scheduler` is one a fresh read could give, from the start and from each POST of a schedule until the next report that moves the boot MAC of a scheduled machine |
| `ApiCache.OutdatedAnswer` | enjoliver-api/enjoliver/routes.py:658-663 | After such a report the next GET `/scheduler` may answer the stored schedules, and they are wrong |

## Left out

- Machines.DiscoverEffect: dates of creation and update, and the sized columns, are not modelled.
- Discovery.MachineDiscoveryRepository.Upsert: the DNS check of reported names is a parameter of the report, and row ids come from one counter; a line end after a MAC, an address or a uuid, which Python's `$` lets pass, is refused by the model.
- Scheduling.MachineScheduleRepository.CreateSchedule: role names outside the three known ones are not modelled, so the check of the role column is not either.
- PlanHistory.EveryRunIsBounded: one plan process, and no roles posted by operators.
- PlanRun.StepKeeps: the in-memory query cache of the sync is not modelled; every step reads the database.
- Plan.EtcdMemberKubernetesControlPlane.Apply: the classes of the plan run on their own; reports that arrive between two of their requests are covered by the step system, not by the classes.
- KubernetesPlan.Kubernetes2Tiers.Apply: one pass; the endless loop around it and the waiting are not modelled.
- Sync.ConfigSyncSchedules.WriteFile: of the many metadata of a group file the model keeps the selector, the names, the cluster texts and the count of API servers; constant settings, DNS attributes, profiles, SSH keys and extra selectors are not part of it, nor is a malformed CIDR notation that stops the sync.
- Sync.MatchboxDirectory.Dump: the comparison of the `deepdiff` library is taken as equality with lists compared as sets.
- Backup.RoundTrip: CIDR notation, host names and LLDP are outside it: the export replaces the first, the second is looked up again, the third is not exported.
- Locksmith.EveryRunExclusive: the lock service itself is a single holder name; its etcd storage is not modelled, nor are the drain and the service stops inside a section.
- Agent.Runtime.RestartKubernetes: the mutex of the agent is the single call at a time; sleeps between tries are not modelled; a call that is cut off by the end of its process or host is a crash or a power loss of `Locksmith`, not of the class.
- Backoff.CallsInWindow: calls for one pod follow one another, as `RunPod` does; whole seconds.
- CniIpam.DisjointIff: the other fields of the JSON document (routes, data directory) are constants and not modelled.
- BootQuery.CommandLineRoundTrip: the base of the URL is one word without `?` and `=`; words end at what Go's `unicode.IsSpace` takes for white space.
- TimedCache.GrantsApart: one worker, a clock that never goes back, no file removed from the cache directory before it expires, and the expiry as the file cache of werkzeug before 0.13 stores it.
- TimedCache.InstallGate.Authorize: a query without a MAC makes the route fail after the lock was taken; the model counts that request as granted.
- ApiCache.Routes.PostDiscovery: the table of machine states is a parameter that tells whether it could be written.
- Lifecycle tables, health checks, the user interface, iPXE scripts, Prometheus and HTTP plumbing: not part of this model.
- Concurrent API workers and concurrent transactions: a request is one atomic step.
