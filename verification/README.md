# quadletman, verified

quadletman keeps the containers of a host in *compartments*. A SQL database is the source of truth;
systemd unit files ("quadlets") are written from it; slow lifecycle work runs through one queue per
compartment; a monitor links the processes it sees to regex patterns. This project models that logic in
Dafny 4.11 and proves what it keeps. `dafny verify dfyconfig.toml` checks the whole of it.

Stateful code is modelled twice: a class with the program's own fields and methods, and a step function
over values. Every method is proved to be its step; everything that holds over runs is proved about the
steps. Host calls, commits' outcomes, clocks, fresh ids and what subprocesses print are parameters, so a
statement over all steps is a statement over all of their outcomes.

| file | program | content |
|---|---|---|
| `Text.dfy` | Python's `str` | strip, splitlines, split, join, partition, decimal numbers, and how they undo each other |
| `Mounts.dfy`, `Units.dfy` | quadlet_writer.py | rows, rendering, mount resolution, file names |
| `UnitSync.dfy`, `UnitManager.dfy` | compartment_manager.py, quadlet_writer.py | stored rows against unit files when any host call may fail |
| `UnitSyncProofs.dfy`, `UnitDrift.dfy` | the same | why the two can disagree over every run, what a resync repairs, exactly when a unit drifts though every call succeeded, where stray files come from |
| `UnitOutcomes.dfy` | the same | exactly which requests are refused, what else a write settles, what a report and a bundle hold, told on the stored rows |
| `Patterns.dfy`, `ProcessMonitor.dfy` | compartment_manager.py | processes, patterns and their links |
| `PatternOutcomes.dfy` | the same | exactly which requests are refused, what each leaves, how often a process was seen |
| `Operations.dfy`, `OperationQueue.dfy` | compartment_manager.py | operation rows, queues and workers, one scheduling step at a time |
| `OperationEnds.dfy` | the same | what every operation row says, told from the steps of the run |
| `OperationFaults.dfy` | the same | exactly which steps leave operations that no worker takes, or that never end |
| `IdMaps.dfy` | quadlet_writer.py | UID/GID maps |
| `BundleParser.dfy`, `BundleExport.dfy`, `IniParser.dfy` | bundle_parser.py, quadlet_writer.py | bundles and their INI text |
| `HostSettings.dfy`, `SettingValues.dfy` | host_settings.py | the sysctl settings file and the values it may hold |
| `Templates.dfy` | compartment_manager.py | mounts of containers created from a template |
| `Sessions.dfy` | session.py | sessions, their expiry, two credential stores, the reaper |
| `SessionLimits.dfy` | the same | exactly when a session is still good, in numbers |
| `StatusCache.dfy` | systemd_manager.py | unit-status caches, batched lookups and their parsers |
| `StatusFreshness.dfy` | the same | exactly when a lookup is answered from the cache |
| `StatusListings.dfy` | the same | when a batch gives every unit its own text |
| `ImageUpdates.dfy` | agent_api.py | deduplication of image-update notifications |
| `ProcNetTcp.dfy` | metrics.py | the kernel's `/proc/net/tcp` tables and their parser |
| `Connections.dfy`, `Peers.dfy` | agent.py | the connection scan, and its list against the peers themselves |
| `Sets.dfy` | | sizes of finite sets and of images |

## Where the code does less than it seems to promise

Each of these is a theorem below, with the exact condition where there is one.

- `resync_compartment` never writes `.build` units, although `check_service_sync` compares them: after a
  successful resync the check reports exactly the `.build` issues it reported before. `start_compartment`
  also leaves `.timer` files alone. (`ResyncRepairs`)
- `add_network` stores `network_name` but writes the file from an object without it. Its file is in sync
  afterwards exactly when the network template does not tell the two apart; with one that shows the name it
  is not. (`NetworkDriftsIff`, `NetworkNameDrifts`)
- Deleting a volume changes what stopped containers that mounted it render to. A container that was in sync
  stays so exactly when its template does not tell its mounts from those without the volume; with one that
  shows whether anything is mounted it does not. (`VolumeDriftsIff`, `DeletedVolumeDrifts`)
- A rolled-back add, a renamed network, the timers of a deleted container and an unnoticed failure to remove
  a file leave files that belong to no stored unit; nothing else but files from before does. (`FilesAreAccounted`)
- A process marked known and then unknown cannot be marked known again: the pattern row of the first time
  still exists and is unique. (`MarkingAgainFails`; `MarkKnownLinksOne` says exactly when marking works)
- Queued operations can be left with no worker that will take them. Exactly these steps do it: a submission
  between a worker's idle timeout and its end, and a worker that gives up with operations queued, because its
  idle timer fires after a submission woke it and before it resumes, or because the database connection is
  closed while it marks an operation as running or fails to record an outcome. They then stay queued until the
  next submission. A worker just started takes the operation it was started for before its timer can fire.
  (`ServedIff`, `PutServesIff`, `StrandedUntilNextPut`, `NewWorkerLooksFirst`, and at runs `WokenTooLate`,
  `SubmittedTooLate`)
- An operation taken from the queue stays pending or running until the next start-up exactly when marking it
  or recording its outcome was a fault. (`UnfinishedIffFaulted`)
- When the settings file exists but may not be read, changing one setting drops all others. (`PersistKeepsOthersIff`)
- A bundle of no sections splits into one empty section. (`EmptyBundle`) A rendered line that strips to `---`
  splits its section in two. (`BundleRoundTrip`)
- In the INI reader, section `a.b` with key `c` and section `a` with key `b.c` are one name. (`ParseSeparatesIff`)
- An id map is injective only for non-negative ids, and covers exactly 0..65535 only for ids in that range.
  (`InjectiveIff`, `PartitionsNamespace`)
- When the set of notified image updates is full, it is emptied: every compartment forgets what it was
  notified of. That happens in a report exactly when there is no room for it, and a key already notified is
  notified again exactly when the set was emptied before the report reaches it and it has not come up between.
  (`OthersKeptIff`, `ClearsIffNoRoom`, `RaisedAgainIff`)
- Image updates are told apart by compartment, container and image joined with slashes. Two updates of a
  compartment share a key exactly when they name the same container and image, or part of one's image path
  stands at the end of the other's container name; the second of them is then not notified. Container names
  without a slash are always told apart. (`SameKeyIff`, `NoSlashSeparates`, `SharedKeyIsSilent`)
- A batch gives every asked unit its own status text, or "" when it is not listed, exactly when no continuation
  line of a block opens a block of an asked unit and no line of the preamble opens one of a unit that is not
  listed. An indented line that starts like another unit's block takes text from one unit and gives it to the
  other. (`BatchTextBelongsIff`, `ContinuationIsTaken`)
- The connection scan keeps only the last four octets of an address. So it lists IPv6 loopback as the remote
  peer 0.0.0.1, drops IPv6 peers whose last word looks like 127.x.y.z or 0.0.0.0, and merges IPv6 peers that
  differ only in front of it. The listed ends are those of the peers that are not the host itself exactly when
  no remote address is of the first two kinds, and each has an entry of its own exactly when there is no pair
  of the third. (`LocalIsOwnHostIff`, `ListedArePeersIff`, `ListSeparatesIff`, and at inputs
  `SixLoopbackRead`, `SixRemoteDropped`, `HighIsLost`)

## Model

| member | source | states |
|---|---|---|
| Units.TidyIdempotent | quadletman/services/unsafe/quadlet.py:15-17 | tidying tidied text changes nothing, so rendered text compares equal to itself once written |
| Units.TidyRuns | quadletman/services/unsafe/quadlet.py:15-17 | every run of three or more newlines becomes two, and everything else stays |
| Units.FileNameInjective | quadletman/services/quadlet_writer.py:406-671 | for names without a dot the file name determines the unit's kind and name, volumes' compartment prefix included |
| Units.RenderedSame | quadletman/services/quadlet_writer.py:206-310 | a unit renders alike before and after a change of the database that touches neither the row, nor the volumes it mounts, nor the container a timer names |
| Units.ContainerRenders | quadletman/services/quadlet_writer.py:167-202 | a container's template is given one mount for every stored volume it mounts, in order, with that mount's path and options and the volume's own unit file, or its host directory |
| Units.OthersRender | quadletman/services/quadlet_writer.py:206-310 | a timer's template is given its row and its container's name, any other unit's template its row |
| Mounts.ResolveMounts | quadletman/services/quadlet_writer.py:167-202 | the loop fills in, in order, the plan of the mounts whose volume exists and drops the dangling ones |
| Mounts.ResolvedAt | quadletman/services/quadlet_writer.py:167-202 | as many mounts are resolved as have a volume; each stands behind those in front of it, with its own path and options and the volume's unit name or host directory |
| Mounts.PlanDependsOnMounted | quadletman/services/quadlet_writer.py:167-202 | resolved mounts depend on the mounted volumes only |
| UnitManager.Manager.WriteAndReload | quadletman/services/compartment_manager.py:1935-1967 | the host calls made are exactly the container plan up to the first failure: helper users, network and image files, the unit, reload, status, restart when active |
| UnitManager.Manager.AddFiles | quadletman/services/compartment_manager.py:681-1930 | for each kind of unit the writes and calls made are that kind's plan, in order, up to the first failure |
| UnitManager.Manager.Add | quadletman/services/compartment_manager.py:681-1930 | new rows, files and outcome of add_volume, add_network, add_pod, add_image, add_artifact, add_build, add_container and create_timer: for a build with content the Containerfile first, then insert, write, and delete the row again when a host call fails |
| UnitManager.Manager.Update | quadletman/services/compartment_manager.py:990-2140 | new rows, files and outcome of the update functions: for a build with content the Containerfile first, then commit, write after, report out of sync when a host call fails |
| UnitManager.Manager.Delete | quadletman/services/compartment_manager.py:851-2165 | new rows, files and outcome of the delete functions: refuse while referred to, remove the file, then the row and its timers |
| UnitManager.Manager.Resync | quadletman/services/compartment_manager.py:2352-2391 | writes every pod, quadlet volume, image, used network, container and timer file in that order until a call fails |
| UnitManager.Manager.Start | quadletman/services/compartment_manager.py:2213-2263 | the subuid setup, the same files without timers, then the reload |
| UnitManager.Manager.CheckServiceSync | quadletman/services/quadlet_writer.py:313-401 | the issues reported are the comparisons of all checked kinds, in order; one issue when the directory cannot be ensured |
| UnitSyncProofs.DistinctFiles | quadletman/services/quadlet_writer.py:406-671 | two stored units never share a file, so no write of a pass overwrites another |
| UnitSyncProofs.AddKeeps | quadletman/services/compartment_manager.py:681-1930 | an add keeps every stored unit in sync or explained, and one that does not succeed leaves the stored rows exactly as they were |
| UnitSyncProofs.UpdateKeeps | quadletman/services/compartment_manager.py:990-2140 | an update keeps every stored unit in sync or explained whichever host call fails |
| UnitSyncProofs.DeleteKeeps | quadletman/services/compartment_manager.py:851-2165 | a delete keeps every stored unit in sync or explained whichever host call fails |
| UnitSyncProofs.WriteAllKeeps | quadletman/services/compartment_manager.py:2213-2391 | a resync or start that stops anywhere keeps every stored unit in sync or explained |
| UnitSyncProofs.RunKeepsInvariant | quadletman/services/compartment_manager.py:681-2391 | every sequence of adds, updates, deletes, starts and resyncs, each failing anywhere, keeps it |
| UnitSyncProofs.DriftIsExplained | quadletman/services/compartment_manager.py:681-2391 | over every run from an empty database and any directory contents, each stored unit's file is in sync or the unit was blamed since its last write, and the check reports only such units |
| UnitSyncProofs.BlamedMeans | quadletman/services/compartment_manager.py:681-2391 | blamed means: a blame in the history with no write of the unit after it |
| UnitSyncProofs.BlameIsEarned | quadletman/services/compartment_manager.py:681-2391 | blame falls only on the target of a failed update or delete, a container that mounted a deleted volume, or a network added with a network name |
| UnitSyncProofs.ResyncRepairs | quadletman/services/compartment_manager.py:2352-2391 | after a successful resync the check reports exactly the .build issues it reported before; after a successful start those and the .timer issues |
| UnitDrift.AddDone | quadletman/services/compartment_manager.py:681-1930 | a successful add stores exactly that row, and its file is in sync iff the row renders as it does without its network name |
| UnitDrift.NetworkDriftsIff | quadletman/services/compartment_manager.py:916-985 | a successful add_network leaves its file in sync iff the template gives the same text for the row with and without its network name |
| UnitDrift.NetworkNameDrifts | quadletman/services/compartment_manager.py:916-985 | with a template that shows the name, an add to an empty database where every call succeeds ends out of sync |
| UnitDrift.UpdateDone | quadletman/services/compartment_manager.py:990-2140 | a successful update changes exactly its row, the name of a network only, and leaves its file in sync |
| UnitDrift.OutOfSyncIff | quadletman/services/compartment_manager.py:990-2140 | an update that ends out of sync changes exactly its row; its file is in sync all the same iff the unit's own write was reached or the old file already holds the new rendering |
| UnitDrift.DeleteDone | quadletman/services/compartment_manager.py:851-2165 | a successful delete removes the row and a container's timers, and takes away the unit's own file and no other |
| UnitDrift.DeleteDriftsIff | quadletman/services/compartment_manager.py:851-2165 | a unit that was in sync and outlives a successful delete stays in sync iff it renders as before |
| UnitDrift.VolumeDriftsIff | quadletman/services/compartment_manager.py:851-895 | after a successful delete of a volume a container that was in sync stays so iff the template gives the same text for its mounts with and without the volume |
| UnitDrift.DeletedVolumeDrifts | quadletman/services/compartment_manager.py:851-895 | with a template that shows whether anything is mounted, adding a volume and a container that mounts it and deleting the volume, where every call succeeds, ends out of sync |
| UnitDrift.FilesAreAccounted | quadletman/services/compartment_manager.py:681-2391 | over every run a file on disk was there at the start, belongs to a stored unit, or was left by a rolled-back add, a rename, the timer cascade or a suppressed removal that failed |
| UnitOutcomes.DeleteRejectedIff | quadletman/services/compartment_manager.py:851-2165 | a stored unit's delete is refused iff a stored container refers to it: by network, pod or build name, by its name with ".image", or, when it runs, by a mount; timers, containers and artifacts are never refused |
| UnitOutcomes.AddRefusedIff | quadletman/services/compartment_manager.py:681-1930 | an add fails without a row iff its Containerfile cannot be written, its timer's container is not stored, or its name is in use in its table |
| UnitOutcomes.UpdateRefusedIff | quadletman/services/compartment_manager.py:990-2140 | an update is turned down iff its Containerfile cannot be written, it is no update of a stored unit of that table, or it renames a network to a name in use |
| UnitOutcomes.AddSettlesNeighbours | quadletman/services/compartment_manager.py:681-1930 | a successful add also leaves in sync a container's network and image unit, and for a pod every network some container joins by itself |
| UnitOutcomes.UpdateSettlesNeighbours | quadletman/services/compartment_manager.py:1935-1967 | a successful update of a container also leaves its network and image unit in sync |
| UnitOutcomes.DoneIffCallsSucceed | quadletman/services/compartment_manager.py:681-2391 | an operation that is not turned down succeeds iff all its host calls do, so many per kind of unit |
| UnitOutcomes.ReportIff | quadletman/services/quadlet_writer.py:313-401 | the report holds exactly a missing file for each compared unit without one and a changed one for each whose tidied file is not its rendering; networks are compared iff a container joins them by itself, volumes iff they have a unit file, artifacts never |
| UnitOutcomes.ReportOrder | quadletman/services/quadlet_writer.py:313-401 | the report goes through networks, pods, volumes, images, builds, containers and timers in this order |
| UnitOutcomes.WriteOrder | quadletman/services/compartment_manager.py:2213-2391 | a resync and a start write pods, volumes, images, networks, containers and, a resync only, timers in this order |
| UnitOutcomes.ListOldestFirst | quadletman/services/compartment_manager.py:831-1359 | a table lists its rows oldest first |
| ProcessMonitor.Monitor.MatchAgainstPatterns | quadletman/services/compartment_manager.py:3008-3019 | finds the oldest pattern of the compartment and name that fully matches |
| ProcessMonitor.Monitor.CheckPatternOverlap | quadletman/services/compartment_manager.py:3023-3056 | reports a conflict iff a process linked to another pattern of that compartment and name matches |
| ProcessMonitor.Monitor.UpsertProcess | quadletman/services/compartment_manager.py:2850-2913 | counts a process seen before, inserts and links a new one |
| ProcessMonitor.Monitor.CreateProcessPattern | quadletman/services/compartment_manager.py:3060-3113 | the new store and outcome: refused on overlap or duplicate, else the row and the links |
| ProcessMonitor.Monitor.UpdateProcessPattern | quadletman/services/compartment_manager.py:3117-3192 | the new store and outcome: refused on overlap or duplicate, else unlinks what no longer matches and links what now does |
| ProcessMonitor.Monitor.DeleteProcessPattern | quadletman/services/compartment_manager.py:3196-3213 | unlinks the pattern's processes and deletes the row |
| ProcessMonitor.Monitor.SetProcessKnown | quadletman/services/compartment_manager.py:2934-2976 | marking known creates the escaped pattern and its links; marking unknown clears flag and link |
| Patterns.LiteralEscape | quadletman/services/compartment_manager.py:2934-2967 | re.escape yields a regex of the literal fragment that denotes exactly the original text |
| Patterns.EscapeHasNoGroup | quadletman/models/sanitized.py:1630-1646 | escaped text never contains "(?", and holds the characters of the original |
| Patterns.LinksStaySound | quadletman/services/compartment_manager.py:2850-3213 | over every sequence of process and pattern operations from an empty store, a process is known iff linked, and its pattern exists, has its compartment and name and fully matches its command line; rows stay unique |
| Patterns.CreateLinks | quadletman/services/compartment_manager.py:3060-3113 | after a successful create the processes linked to the pattern are exactly those of its compartment and name that match, no process of another pattern changed; a failed one changes nothing |
| Patterns.UpdateLinks | quadletman/services/compartment_manager.py:3117-3192 | the same for an update, links to the old regex included |
| Patterns.UpsertLinks | quadletman/services/compartment_manager.py:2850-2913 | seeing a process again changes its counter only; a new one is known iff some pattern covers it, and linked to the oldest |
| Patterns.MarkKnownLinksOne | quadletman/services/compartment_manager.py:2934-2967 | marking an unlinked process known never overlaps, succeeds exactly when its command line is acceptable and no pattern has that text yet, and then links that process and no other |
| Patterns.MarkingAgainFails | quadletman/services/compartment_manager.py:2934-2976 | known, unknown, known always ends in a duplicate pattern |
| PatternOutcomes.CreateOutcomeIff | quadletman/services/compartment_manager.py:3060-3113 | refused as overlapping iff a process of that compartment and name is linked and fully matches, else as duplicate iff a pattern has that text, else created |
| PatternOutcomes.UpdateOutcomeIff | quadletman/services/compartment_manager.py:3117-3192 | not found outside its compartment; refused as overlapping iff a process linked to another pattern fully matches, else as duplicate iff another pattern has that text, else updated |
| PatternOutcomes.MarkKnownOutcomeIff | quadletman/services/compartment_manager.py:2934-2967 | not found, existing, unsafe, duplicate or created, each with its exact condition |
| PatternOutcomes.MarkUnknownIs | quadletman/services/compartment_manager.py:2967-2994 | marking unknown unlinks, and deleting removes, that one process of the compartment |
| PatternOutcomes.DeletePatternIs | quadletman/services/compartment_manager.py:3196-3213 | its processes are unlinked, whichever compartment is named, and the pattern goes iff it is in that one |
| PatternOutcomes.DropCompartmentIs | quadletman/db/orm.py:950-993 | exactly the compartment's processes and patterns go, and no other row changes |
| PatternOutcomes.SeedIs | quadletman/services/compartment_manager.py:464-520 | a default pattern is stored iff its compartment does not have it, and links nothing |
| PatternOutcomes.UpsertIsNewIff | quadletman/services/compartment_manager.py:2850-2913 | a process is new iff no row has its key; it is linked to the oldest pattern that matches it, if any |
| PatternOutcomes.SeenCounts | quadletman/services/compartment_manager.py:2850-2913 | in every run the counter of a stored process is the number of times it was reported since it was inserted |
| OperationQueue.Queues.InsertOperation | quadletman/services/compartment_manager.py:246-265 | seen from any compartment, the commit of a submission is the Insert step of that compartment and nothing for the others |
| OperationQueue.Queues.EnsureWorker | quadletman/services/compartment_manager.py:219-224 | a worker is created exactly when none is registered or the registered one is done |
| OperationQueue.Queues.PutOperation | quadletman/services/compartment_manager.py:213-270 | queueing after the commit is the Put step |
| OperationQueue.Queues.TakeNext | quadletman/services/compartment_manager.py:312-332 | a worker takes the oldest queued id |
| OperationQueue.Queues.MarkOperation | quadletman/services/compartment_manager.py:334-373 | marking as running, or failing for an expired session or a fault, is the MarkRunning step |
| OperationQueue.Queues.FinishOperation | quadletman/services/compartment_manager.py:373-424 | recording the outcome, failing to, or failing to roll back after that, which reaches the worker loop and may end it, is the Finish step |
| OperationQueue.Queues.RestartProcess | quadletman/services/compartment_manager.py:297-309 | for every compartment a crash and start-up is the Restart step |
| Operations.StepKeeps | quadletman/services/compartment_manager.py:213-424 | every scheduling step keeps one live worker, the order of ids, and the rows' agreement with where each id is |
| Operations.QueueIsSafe | quadletman/services/compartment_manager.py:213-424 | in every interleaving: at most one live worker, ids taken followed by ids queued are the ids put in order, ids are executed in that order and never twice, restarts included |
| Operations.TerminalIsFinal | quadletman/services/compartment_manager.py:297-424 | a completed or failed row never changes again, in this process life or later ones |
| OperationEnds.RowsTell | quadletman/services/compartment_manager.py:297-424 | in every run a row is there iff written and not deleted since; completed iff the worker recorded success; failed iff its session had expired, a failure was recorded, or a restart came before either; pending iff it was never marked either; else running |
| Operations.CrashFinishesEarlier | quadletman/main.py:157-165 | after a crash at any step of any run, start-up and any further run, no operation submitted before is queued or executed again, its row is terminal, and as it was if it was terminal at the crash |
| Operations.CanProceed | quadletman/services/compartment_manager.py:312-424 | a busy worker that is not exiting always has a step to make |
| Operations.WorkerDrains | quadletman/services/compartment_manager.py:312-424 | without faults, time-outs or submissions it makes at most as many steps as its work measures, and when none is left every operation is terminal and the valid ones were executed in order |
| OperationFaults.ServedDrains | quadletman/services/compartment_manager.py:312-424 | a queue that is served is drained by the registered worker within the steps its work measures, every queued operation ending terminal |
| OperationFaults.ServedIff | quadletman/services/compartment_manager.py:213-424 | a step from a served state leaves queued operations unserved iff it is a submission to an expiring worker, or an idle timeout, closed fault or escaped closed failure with operations queued |
| OperationFaults.PutServesIff | quadletman/services/compartment_manager.py:213-270 | a submission leaves a worker that serves it iff the registered worker was not between its idle timeout and its end |
| OperationFaults.RunStaysServed | quadletman/services/compartment_manager.py:213-424 | in every run without such a step every queued operation has a worker that will take it |
| OperationFaults.StrandedUntilNextPut | quadletman/services/compartment_manager.py:213-332 | stranded operations stay queued and stranded over every run without a submission or restart |
| OperationFaults.WokenTooLate | quadletman/services/compartment_manager.py:312-332 | a run of the queue in which a sleeping worker is woken by a submission, its idle timer fires before it resumes, and the operation is left unserved |
| OperationFaults.SubmittedTooLate | quadletman/services/compartment_manager.py:256-332 | a run in which the submission comes between the worker's idle timeout and its end, and the operation is left unserved |
| OperationFaults.NewWorkerLooksFirst | quadletman/services/compartment_manager.py:256-332 | a worker started by a submission neither sleeps nor times out before it has taken an operation |
| OperationFaults.AbandonedNeverRuns | quadletman/services/compartment_manager.py:246-270 | an operation whose submission ended between the commit of its row and the queue is never queued or executed, in any process life |
| OperationFaults.UnfinishedIffFaulted | quadletman/services/compartment_manager.py:334-424 | in every run the row, if still there, of a taken operation no worker holds is not terminal iff marking it or recording its outcome was a fault since the last start-up |
| IdMaps.ResolveIdMaps | quadletman/services/quadlet_writer.py:124-163 | no ids, no entries; otherwise contiguous entries from the least id to past the greatest or 65535, each listed id and 0 an entry of size 1, 0 to 0 and N to N+1, at most 2k+1 entries for k distinct ids |
| IdMaps.TranslateIs | quadletman/services/quadlet_writer.py:124-163 | the map sends 0 to 0 and any other N of its range to N+1, through exactly one entry |
| IdMaps.PartitionsNamespace | quadletman/services/quadlet_writer.py:124-163 | exactly 0..65535 is mapped iff all ids are in that range |
| IdMaps.InjectiveIff | quadletman/services/quadlet_writer.py:124-163 | no two ids share a namespace id iff none is negative |
| IdMaps.HostId | quadletman/services/quadlet_writer.py:124-163 | composed with the rootless namespace, id N > 0 is subid_start + N and 0 is the service user |
| BundleExport.ExportServiceBundle | quadletman/services/quadlet_writer.py:514-558 | the bundle is the sections of pods, quadlet volumes, images, builds, containers and used networks in order |
| UnitOutcomes.ExportedIff | quadletman/services/quadlet_writer.py:514-558 | a bundle holds every stored pod, image, build and container, the volumes with a unit file and the networks a container joins by itself |
| UnitOutcomes.BundleOrder | quadletman/services/quadlet_writer.py:514-558 | its sections are pods, volumes, images, builds, containers and networks in this order |
| BundleExport.BundleNameIsStem | quadletman/services/quadlet_writer.py:514-558 | a section is named after the unit's file, without the suffix |
| BundleExport.BundleRoundTrip | quadletman/services/quadlet_writer.py:514-558 | splitting an exported bundle recovers the sections in order iff no rendered text has a line that strips to ---; file names come back always, texts unchanged when newline is their only line break |
| BundleExport.FileNameRecovered | quadletman/services/bundle_parser.py:74-79 | the parser finds an exported section's file name, for volumes with the compartment prefix |
| BundleParser.SplitSections | quadletman/services/bundle_parser.py:58-70 | the loop cuts the lines at delimiters into sections |
| BundleParser.ExtractFilename | quadletman/services/bundle_parser.py:74-79 | the loop gives the first file name comment of the section |
| BundleParser.SectionsDelimiterFree | quadletman/services/bundle_parser.py:58-70 | no line of a section is a delimiter, whatever the text |
| BundleParser.CutRecoversIff | quadletman/services/bundle_parser.py:58-70 | joined sections come back in order iff none has a delimiter line |
| BundleParser.DelimiterIff | quadletman/services/bundle_parser.py:58-70 | a line is a delimiter iff it reads "---" between white space |
| BundleParser.CutAtDelimiter | quadletman/services/bundle_parser.py:58-70 | the lines in front of the first delimiter make a section unless there are none, and the rest is cut on its own |
| BundleParser.FileNameIff | quadletman/services/bundle_parser.py:74-79 | a line names a file iff it is "#", "FileName" and "=", with white space between, and some text, which stripped is the name |
| BundleParser.EmptyBundle | quadletman/services/bundle_parser.py:58-70 | the bundle of no sections is split into one empty section |
| IniParser.ParseIniMulti | quadletman/services/bundle_parser.py:101-116 | the loop reads the lines in order from the empty state |
| IniParser.PairReads | quadletman/services/bundle_parser.py:101-116 | a key and a value around the first "=" are read without the white space around each |
| IniParser.OtherReads | quadletman/services/bundle_parser.py:101-116 | blank lines, comments and lines that are no header and have no "=" say nothing |
| IniParser.ReadConcat | quadletman/services/bundle_parser.py:101-116 | parsing two texts in a row is parsing the second from the first's state |
| IniParser.ParsePrinted | quadletman/services/bundle_parser.py:101-116 | reading printed sections gives, for every dotted name, the in-order list of its values, repeated keys and re-opened sections merged |
| IniParser.ParseSeparatesIff | quadletman/services/bundle_parser.py:101-116 | each section and key gets exactly its own values iff no two have the same dotted name |
| IniParser.NoDotNoCollision | quadletman/services/bundle_parser.py:101-116 | sections named without a dot never share a name |
| HostSettings.ReadFile | quadletman/services/host_settings.py:221-235 | an absent or unreadable file gives no settings, a readable one those of its lines |
| HostSettings.PairReads | quadletman/services/host_settings.py:221-235 | a key and a value around the first "=" are read without the white space around each |
| HostSettings.OtherReads | quadletman/services/host_settings.py:221-235 | blank lines, comments and lines without "=" say nothing |
| HostSettings.Persist | quadletman/services/host_settings.py:214-245 | the new text is the banner and the updated settings' lines in ascending key order |
| HostSettings.ReadPrinted | quadletman/services/host_settings.py:221-241 | reading printed settings gives them back |
| HostSettings.PersistThenRead | quadletman/services/host_settings.py:214-245 | reading the file after a change gives the previous reading updated at the key, for any prior text |
| HostSettings.PersistIdempotent | quadletman/services/host_settings.py:214-245 | the same change twice gives identical text |
| HostSettings.PersistCommutes | quadletman/services/host_settings.py:214-245 | changes of two different keys commute to identical text |
| HostSettings.PersistKeepsOthersIff | quadletman/services/host_settings.py:221-229 | the other settings in the file survive iff it is readable or holds none |
| HostSettings.SortKeys | quadletman/services/host_settings.py:240-241 | an ascending list of exactly the keys |
| HostSettings.LessIff | quadletman/services/host_settings.py:240-241 | the order of the keys is the lexicographic one of their characters |
| SettingValues.ValidatedGood | quadletman/services/host_settings.py:174-211 | an accepted value is one trimmed, non-empty line that can be read back from the file |
| SettingValues.ValidatedNoControl | quadletman/services/host_settings.py:174-211 | an accepted value has no control character |
| SettingValues.ValidateIdempotent | quadletman/services/host_settings.py:174-211 | an accepted value is 0 or 1, a number within the bounds or a pair within them, and validates to itself |
| SettingValues.AcceptedIff | quadletman/services/host_settings.py:174-211 | a value is accepted, and as which text, iff it has no control character, is not blank, has at most 64 characters and is 0 or 1, one number within the bounds returned as it is, or two within the upper bound returned without leading zeros |
| SettingValues.SettingKeysGood | quadletman/services/host_settings.py:214-241 | every key of the table can be read back from the file |
| SettingValues.ApplyThenRead | quadletman/services/host_settings.py:250-268 | whatever value is accepted, the file then reads as before with that setting at the accepted value |
| Templates.RemapMounts | quadletman/services/compartment_manager.py:2639-2769 | the loop replaces each volume id by the id of the new volume of that name and leaves dangling ids |
| Templates.SameVolumeUpToId | quadletman/services/compartment_manager.py:2639-2769 | a mount's old id in the source and its new id in the copy denote volumes of the same name and kind, or both none |
| Templates.PlanPreserved | quadletman/services/compartment_manager.py:2639-2769 | the new container's mounts resolve against the new volumes as the source's against its own |
| Templates.InstantiateMounts | quadletman/services/compartment_manager.py:2639-2769 | one by one and in order, what the source's mounts resolve to in its compartment: the same path, options and volume name, with the new compartment's unit name or host directory; dangling mounts stay dropped |
| Sessions.SessionStore.CreateSession | quadletman/security/session.py:29-65 | a session, and its password in the kernel keyring or encrypted under a fresh key, or no credential for an empty password |
| Sessions.SessionStore.GetSession | quadletman/security/session.py:68-79 | the user and a new last access, or removal of an expired session |
| Sessions.SessionStore.GetSessionCredentials | quadletman/security/session.py:82-120 | user and password from the keyring or by decryption; removal when expired or unreadable |
| Sessions.SessionStore.DeleteSession | quadletman/security/session.py:123-127 | session, key and keyring id go together |
| Sessions.SessionStore.ReaperSweep | quadletman/security/session.py:147-166 | an uninterrupted sweep removes exactly the sessions past one of the two limits, in numbers, at its snapshot, drops their keys, revokes their keyring ids and counts them |
| Sessions.RunKeepsGood | quadletman/security/session.py:23-166 | in every run keys, ciphertexts, sessions and keyring ids fit together |
| Sessions.KeysBelongToCiphertext | quadletman/security/session.py:56-60 | keys belong exactly to the live sessions with ciphertext, and decrypt it |
| Sessions.RemovedIsRevoked | quadletman/security/session.py:130-144 | a keyring id's revocation was requested iff no live session holds it |
| Sessions.AnswersAreDue | quadletman/security/session.py:23-166 | in every run every call answers what the earlier calls about that session alone entitle it to: the reaper, other sessions and the choice of credential store leave no trace |
| Sessions.ReturnedInTime | quadletman/security/session.py:23-120 | a session returned was created as that user at most TTL ago, last accessed at most TTL // 2 ago and not deleted since; a password returned is the one it was created with |
| SessionLimits.AnsweredIff | quadletman/security/session.py:23-120 | an access is answered, with the user and password of its creation, iff the session was created at most TTL ago, was neither deleted nor lost since, and no two consecutive accesses up to this one are more than TTL // 2 apart |
| SessionLimits.ReapRemovesIff | quadletman/security/session.py:147-166 | a recheck removes its session iff it was created more than TTL or last accessed more than TTL // 2 ago, and no other |
| SessionLimits.SnapshotHoldsIff | quadletman/security/session.py:147-157 | the reaper picks exactly the sessions past one of the two limits |
| Sessions.RefusedForever | quadletman/security/session.py:68-120 | once get_session, or get_session_credentials of a session created with a password, has returned nothing, no later call returns the session |
| Sessions.ExpiredForever | quadletman/security/session.py:23-166 | once past either limit no later call returns the session, whether or not the reaper came |
| Sessions.UnexpiredSurvives | quadletman/security/session.py:147-166 | a session good at the end of any run of reaper steps and calls about other sessions is still there, untouched |
| StatusCache.StatusCaches.CachedUnitProps | quadletman/services/systemd_manager.py:44-67 | a fresh entry, or the parsed answer stored with the time of the call, the cache emptied first when full |
| StatusCache.StatusCaches.BatchUnitProps | quadletman/services/systemd_manager.py:70-113 | hits, and the blocks of the answer zipped with the misses, stored one by one |
| StatusCache.StatusCaches.CachedUnitText | quadletman/services/systemd_manager.py:116-128 | a fresh entry or the stripped answer |
| StatusCache.StatusCaches.BatchUnitText | quadletman/services/systemd_manager.py:131-194 | hits, the listing's blocks by the unit that opens them, and "" for asked units without one |
| StatusCache.StatusCaches.InvalidateUnitCache | quadletman/services/systemd_manager.py:197-200 | exactly that unit's entries go |
| StatusCache.NeverOverfull | quadletman/services/systemd_manager.py:64-67 | over every run the cache holds at most its maximum |
| StatusCache.ReturnedIsReported | quadletman/services/systemd_manager.py:44-200 | every value returned, singly or in a batch, was reported for that unit less than the TTL ago and the unit was not invalidated since |
| StatusCache.RoomKeepsAll | quadletman/services/systemd_manager.py:101-111 | with room for its answers a batch evicts nothing: each reported unit has its last reported value and the time of the batch, every other entry is as before |
| StatusFreshness.FreshIff | quadletman/services/systemd_manager.py:44-200 | over every run with room, a lookup is answered from the cache iff the unit's latest report is less than TTL old and the unit was not invalidated since, and then with that report |
| StatusFreshness.FullForgets | quadletman/services/systemd_manager.py:64-67 | storing answers in a full cache leaves no other entry, of any compartment |
| StatusFreshness.PropertyIff | quadletman/services/systemd_manager.py:59-63 | a property has a value iff the last line that names it gives it that value; a line is a key, up to its first "=", and the rest |
| StatusCache.BatchPropsBelong | quadletman/services/systemd_manager.py:70-113 | whatever the cache holds and however often it is emptied midway, the answer has exactly the asked units, each with its fresh entry or its own properties |
| StatusCache.BatchTextBelongs | quadletman/services/systemd_manager.py:131-194 | whatever the cache holds, each asked unit gets its fresh entry, else its own block of the listing, else "" |
| StatusCache.BlocksAreReports | quadletman/services/systemd_manager.py:99-107 | cutting the listing at blank lines gives back every unit's own properties in order |
| StatusCache.ListedTextBelongs | quadletman/services/systemd_manager.py:160-190 | a listing of some of the asked units, in any order after any preamble, none of whose other lines opens a block, gives each its own text and no other unit anything |
| StatusCache.StatusBlocks | quadletman/services/systemd_manager.py:163-188 | the blocks come back in order and the preamble is dropped |
| StatusCache.StatusBlocksIff | quadletman/services/systemd_manager.py:163-188 | the blocks come back in order iff no preamble line and no continuation line opens a block of an asked unit |
| StatusListings.ListingDueIff | quadletman/services/systemd_manager.py:160-190 | every unit is handed its own text if listed and else nothing iff no continuation line of a listed unit opens a block and no preamble line opens one of an unlisted unit |
| StatusListings.BatchTextBelongsIff | quadletman/services/systemd_manager.py:131-194 | whatever the cache holds, the answer is every asked unit's fresh entry, own text or "" iff the same holds of the listing for the units without a fresh entry |
| StatusListings.OpensIff | quadletman/services/systemd_manager.py:179-187 | a line opens a unit's block iff the unit is asked about and the line is, after white space, a word that starts with a marker, white space and the unit's name as a word |
| StatusListings.MarkerOpens | quadletman/services/systemd_manager.py:179-187 | a marker and an asked unit's name open its block however far the line is indented |
| StatusListings.ContinuationIsTaken | quadletman/services/systemd_manager.py:179-188 | for any two asked units, an indented line in the only listed block that starts like the other's is taken from the one and given to the other |
| ImageUpdates.Notifier.HandleReport | quadletman/services/agent_api.py:297-354 | the new set of notified keys and the webhook calls, in order |
| ImageUpdates.SentIff | quadletman/services/agent_api.py:308-347 | a webhook is called iff an event is raised for the update and the hook is an enabled image-update hook of the reporting compartment that names no container or this one |
| ImageUpdates.SentCount | quadletman/services/agent_api.py:334-347 | every raised update makes one call for each hook that listens to it |
| ImageUpdates.ProcessedIff | quadletman/services/agent_api.py:305-315 | a report is looked at iff it is not empty and its compartment has an enabled image-update hook; otherwise nothing is sent, remembered or forgotten |
| ImageUpdates.ContainerIs | quadletman/services/agent_api.py:320-321 | the container's name is the unit's without ".service" at its end |
| ImageUpdates.RunBound | quadletman/services/agent_api.py:330-333 | over every run the set holds at most its cap |
| ImageUpdates.HandledIs | quadletman/services/agent_api.py:319-354 | with room a report leaves the other compartments' keys and its own; without, some of its own only |
| ImageUpdates.OthersKeptIff | quadletman/services/agent_api.py:319-354 | a report leaves every other compartment's keys alone iff there is room or they have none |
| ImageUpdates.CacheIsPrevious | quadletman/services/agent_api.py:297-354 | in every run a compartment's keys are among those of its latest processed report, and exactly those while there was always room |
| ImageUpdates.RaisedIffNew | quadletman/services/agent_api.py:297-354 | while there was always room, events are raised exactly for the first mention of each key absent from the compartment's previous processed report |
| ImageUpdates.NoneMissed | quadletman/services/agent_api.py:297-354 | room or not, every key absent from the previous processed report raises an event |
| ImageUpdates.RaisedIff | quadletman/services/agent_api.py:319-347 | events are raised for exactly the updates whose key is missing when the report reaches them |
| ImageUpdates.RaisedAgainIff | quadletman/services/agent_api.py:319-347 | of an update whose key was notified before, or earlier in the report, an event is raised iff the set was emptied earlier in the report and the key has not come up between |
| ImageUpdates.ClearsIffNoRoom | quadletman/services/agent_api.py:330-333 | a report empties the set iff its keys and the old ones together exceed the cap |
| ImageUpdates.FullNotifiesAgain | quadletman/services/agent_api.py:327-333 | at the cap any report that starts with a new key has the first mention of every known key in it notified again |
| ImageUpdates.SameKeyIff | quadletman/services/agent_api.py:319-324 | two updates share a key iff they name the same container and image, or part of one's image path stands at the end of the other's container name |
| ImageUpdates.NoSlashSeparates | quadletman/services/agent_api.py:319-324 | for container names without a slash, keys agree iff container and image do |
| ImageUpdates.SharedKeyIsSilent | quadletman/services/agent_api.py:319-328 | of two updates of different containers that share a new key only the first raises an event |
| ProcNetTcp.AddrRoundTrip | quadletman/services/metrics.py:214-224 | reading an address the kernel printed gives its last four octets, dotted, and its port; for IPv4 and IPv4-mapped addresses that is all of it |
| ProcNetTcp.LastEightDigits | quadletman/services/metrics.py:214-224 | only the last eight hexadecimal digits of an address count |
| ProcNetTcp.ParseProcNetTcp | quadletman/services/metrics.py:227-264 | the connections and listening ports of the lines after the header; nothing for an unreadable file, an error for a malformed line |
| ProcNetTcp.MalformedIff | quadletman/services/metrics.py:214-264 | a line is malformed iff it has four words and its state is no hexadecimal number, or an address its state calls for is not two of them around a colon |
| ProcNetTcp.TableFailsIff | quadletman/services/metrics.py:227-264 | reading a table fails iff a line after its header is malformed; an unreadable or empty file yields nothing |
| ProcNetTcp.TableRoundTrip | quadletman/services/metrics.py:227-264 | reading a table the kernel printed gives what the parser makes of the ends of its established and, when asked, TIME_WAIT sockets, in order, and its listening ports |
| Connections.GetConnections | quadletman/services/agent.py:266-324 | the list built by the nested loops over containers, tables and connections |
| Connections.ScanExact | quadletman/services/agent.py:266-324 | the scan fails iff a table is malformed; otherwise it lists without repetition exactly the non-local remote ends, inbound iff the local port listens in either table |
| Connections.ConnectionsOfSockets | quadletman/services/agent.py:266-324 | from printed tables of sockets: the scan succeeds and lists, once each, exactly what the parser shows of the non-local remote ends of the wanted sockets of all containers |
| Peers.LocalIsOwnHostIff | quadletman/services/agent.py:303-304 | the test for local addresses agrees with loopback-or-unspecified on the whole address iff it is neither ::1 nor an IPv6 address, other than :: and mapped ones, that ends in 127.x.y.z or 0.0.0.0 |
| Peers.ListedOwnHostIff | quadletman/services/agent.py:303-304 | an address of the host itself is taken for a remote one iff it is ::1 |
| Peers.DroppedRemoteIff | quadletman/services/agent.py:303-304 | a remote address is dropped iff it is such an IPv6 address |
| Peers.SixLoopbackRead | quadletman/services/metrics.py:214-224 | the kernel's text for ::1 with port 5432 is read as 0.0.0.1, which does not count as local |
| Peers.SixRemoteDropped | quadletman/services/metrics.py:214-224 | the kernel's text for 2001:db8::7f00:1 is read as an address that counts as local |
| Peers.HighIsLost | quadletman/services/metrics.py:214-224 | addresses that differ only in front of the last word are read alike |
| Peers.SixLoopbackIsListed | quadletman/services/agent.py:266-324 | every wanted socket to ::1 puts an entry for 0.0.0.1 into the list |
| Peers.ListIsEntries | quadletman/services/agent.py:266-324 | the list holds exactly the entries of the ends, with their whole peers, whose shown address is not local |
| Peers.ListedArePeersIff | quadletman/services/agent.py:266-324 | the listed ends are exactly the ends of peers that are not the host itself iff no wanted remote address is ::1 or an IPv6 one that ends like a local address |
| Peers.ListSeparatesIff | quadletman/services/agent.py:266-324 | the list is as long as there are listed ends, peers taken whole, iff no two of them differ only in front of their peers' last words |
| Peers.FourOctetsSeparate | quadletman/services/agent.py:266-324 | ends of IPv4 and IPv4-mapped peers never differ only there |

## Left out

- Rendering: the Jinja templates are one uninterpreted function of a row and what it refers to; its result is tidied as in the source.
- Unit sync: one compartment with its service user in place; commits succeed; writing one file either happens or fails; what a Containerfile holds, kube units and `update_volume_owner` are not modelled; `check_service_sync` is not given artifacts, and neither is the model.
- Unit sync: columns that neither other rows nor the layout depend on are one text per row; containers are listed by age only, not by sort order, which orders the report but not its members.
- Unit sync: stop, restart, enable, disable and single-container start and stop touch no unit file.
- `render_quadlet_files` lists the same renderings once more for display.
- Ids of rows are numbers; that a new id is fresh is a condition of the step that uses it.
- Operations: a commit that raises is one that did not happen; shutdown of workers, and a lock shared by two generations of a compartment with the same id.
- Patterns: the regex engine is any function that gives the escaped-literal fragment its usual meaning, and a regex that does not compile is not modelled; patterns of equal age are ordered by insertion.
- IdMaps.ResolveIdMaps: takes numbers; reading the strings with `int()`, which raises ValueError for one that is no number (such as "0:100000:65536"), is left out.
- Templates: pods and keys of templates saved by older versions; only the mounts of containers are followed through.
- Bundles: building parsed containers, pods, volumes and images from the fields, and type detection.
- SettingValues: `\d` covers the ASCII digits only; `sysctl -w` itself.
- Sessions: Fernet opens under its own key only, and the kernel keyring gives back what was stored under an id or nothing; sweeps visit the snapshot in any order.
- StatusCache: two calls in different threads do not overlap; what `systemctl` prints is a function of the units it is asked about.
- ImageUpdates: reports do not overlap; how a webhook call ends does not matter to the set.
- Connections: `int(x, 16)` is modelled on hexadecimal digits, without signs, underscores, prefixes or surrounding space.
- FastAPI routes, templates of pages, settings loading, sockets, PAM, podman and sudo calls, metrics, webhook retries, event classification, connection counters and allowlist matching.
