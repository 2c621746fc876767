# LASH: a verified model of the session daemon's state machines

LASH is an audio session daemon. It restores the clients of a project in dependency order, asks them
to save, keeps a small configuration store for each of them, logs what they print and reconnects
their ports. This project models that logic in Dafny and proves what a user of the daemon relies on.
Verify it with `dafny verify dfyconfig.toml`; nothing else is needed.

## How it is built

The session itself is written twice. `SessionSpec` says on values what one project is, what a step
(a save request, a connection, a progress report, a committed data set) does to it, and what a run
of steps is. `Session` is the imperative form: a `Project` object whose methods loop, launch, count
down and move clients between lists as the C code does, and each of which is proved equal to the
specification through `View()`. Everything about runs is then proved of the specification:

- `TaskAccounting`: the counters, the percentages and the signals, after every run.
- `SaveProtocol`: one save under arbitrary delivery of messages (late, repeated, reordered), while
  clients connect and further saves are asked for; and all saves of a run together.
- `RestoreSchedule`, `RestoreRuns`: the order of launches, safety of every run, that a run without
  failures never comes to a standstill and ends with everybody restored, and exactly which projects
  can be loaded at all.
- `Progress`: which percentage is recorded and shown, over every run, from the reports alone.
- `Newcomers`, `LoadRequests`, `RestoredStores`: what is recorded of a client that connects by itself,
  who is told to load, and who has a store and can be saved again.
- `Graph`, `ClientDependency`, `ProjectFile`, `ProjectRestore`: the dependency graph, the search
  that refuses cycles, and the way from a project file to the graph the scheduler works on.

The other components stand by themselves:

- `Bytes`, `Store`, `ConfigStore`, `DataSet`: the files of a client's store, the store object over a
  directory whose writes may fail half-way, and the way of a data set from a client to the disk and
  back to a client.
- `ChildOutput`, `Loader`, `PrintedLog`: splitting a child's output into lines through a fixed buffer,
  compressing repeated lines, and what the log as it is printed still tells about the output.
- `KList`, `ListSort`: the circular doubly linked list and the merge sort of the singly linked list,
  on heap nodes.
- `Sequences`: distinct elements, reversal and removal, shared by the others.
- `AlsaPatch`, `Args`, `ClientName`: connections that survive renumbering, the in-place compaction of
  `argv`, and unique client names.

Integers are unbounded unless the model says otherwise: the counters of a project wrap at 32 bits,
percentages at 8 bits, sizes in files at 32 bits. A read or write of a pipe or file returns whatever
the system likes; which process id a launch yields is a parameter (`forks`), as is the outcome of
writing a store during a report (`diskOk`).

## What the code does that its users may not expect

Where a property fails, the model keeps the code as it is, shows an input, and proves when the
property does hold.

- A self-dependency is accepted, and a later search that comes to it does not end. Whether a search comes
  to a cycle can depend on the order of the dependencies: it ends exactly if it finds what it looks
  for before, or, if there is nothing to find, can come to no cycle at all
  (`ClientDependency.SearchEndsExactlyWhen`, `ClientDependency.SelfDependencyInOrder`). A project file
  with a self-dependency can never be loaded to the end (`ProjectRestore.FileCanBeLoadedExactlyWhen`).
- Adding a dependency while a project runs searches the running clients only. A cycle through a lost
  client is not seen (`ClientDependency.HiddenCycle`).
- A project without clients never finishes loading, and while it is loading every save is refused
  (`RestoreRuns.EmptyNeverLoads`).
- A client that depends on a client with nothing to load is never launched, and a client whose saved
  data set is missing or empty holds up the load for good (`RestoreRuns.LoadedExactlyWhen` has the
  exact condition).
- Whoever depends on a client whose restore has failed is never launched, directly or not, and the load
  does not end (`RestoreRuns.FailureHoldsUp`). A load with failures can still end exactly if nobody who
  waits depends on a client that will never report (`RestoreRuns.RunCanEndExactlyWhen`).
- A save that meets a client with an open task asks nobody and is still announced as done
  (`SaveProtocol.SavedWithoutAskingExactlyWhen`); a client launched by hand into an idle project is
  enough (`SaveProtocol.SavedWithoutAskingRun`).
- A resumed data-set client that was never saved has no store: it can never be saved, its commit is
  refused, and if it reports success the daemon writes to a store that is not there and ends
  (`SaveProtocol.EverybodySavedExactlyWhen` says which saves can save everybody,
  `RestoredStores.SavableExactlyWhen` after the load of which files that is possible,
  `TaskAccounting.AllowedReportsExactly` and `Session.Project.OnProgress` which report is deadly, and
  `RestoreRuns.DeadlyRun` how to get there).
- A config file that was cut short while it was written is refused after the next start of the daemon,
  unless nothing but its last byte is missing: then the value is there but its type is lost
  (`Store.CutFile`).
- If only the info file of a store cannot be written, a second write reports success without writing
  it (`ConfigStore.ConfigStore.Write`). A key with a newline breaks the info file: the keys come back
  exactly if none has one (`Store.InfoRoundTrip`, and `ConfigStore.Reopen` for the whole store).
- An empty string can be stored but not read back, and the size that `lash_config_read` returns for a
  string leaves out the terminating NUL, although its comment in lash/config.h says otherwise
  (`DataSet.ValueRoundTrip`, `DataSet.ConfigHandle.Read`). Size 0 is returned at the end of the message
  and for an empty block alike, so a client that reads until 0 may stop early.
- A piece of an overlong line between repetitions loses its place in the log. The entries of the log tell
  the output exactly when there is no such piece behind the second of three or more equal lines
  (`ChildOutput.LogDeterminesOutputExactlyWhen`, `ChildOutput.BlurredMeans`).
- In the printed log a repeat marker looks like a line of the child: a line printed twice, and the line
  printed once with the texts of both markers behind it, leave the same text
  (`PrintedLog.MarkersCanBePrinted`). The lines can be read back exactly if the log nowhere leaves open
  which of the two it was, and the whole output exactly if no piece is blurred besides
  (`PrintedLog.PrintedLinesExactlyWhen`, `PrintedLog.PrintedOutputExactlyWhen`). Among children none
  of whose lines reads like a marker only the blurring is left (`PrintedLog.OrdinaryOutputExactlyWhen`).
- The sort reverses the order of equal elements (`ListSort.SortIsDetermined`).
- After arguments have been dropped, `argv` ends in a null pointer only if the last argument was one of
  those dropped (`Args.ExtractArgs`).

## Model

| member | source | states |
|---|---|---|
| Graph.AddEdgeCycle | lashd/client_dependency.c:68-105 | adding one edge to an acyclic graph closes a cycle exactly when the edge is a loop or a path led back already |
| Graph.ReachesFirstEdge | lashd/client_dependency.c:48-62 | a path of one or more edges exists exactly when some edge ends at the target or leads to a node from which one does |
| Graph.ReachSetShrinks | lashd/client_dependency.c:38-65 | along an edge of an acyclic graph the set of reachable nodes gets strictly smaller, which is why the search ends |
| ClientDependency.GetClientById | lashd/project.c:125-139 | finds the first client with the id, or nothing exactly when the list has none |
| ClientDependency.FindCircular | lashd/client_dependency.c:38-65 | whenever the search ends at all, the recursion over the client list answers true exactly when one or more dependency edges lead from the new id to the original one |
| ClientDependency.SearchSound | lashd/client_dependency.c:38-65 | on any graph, a search that comes back has found exactly whether the original client can be reached |
| ClientDependency.SearchEndsExactlyWhen | lashd/client_dependency.c:38-65 | on any graph, for any two clients, a search ends if and only if, when there is something to find, some path to it has nothing listed before its steps but dependencies that lead neither there nor to a cycle, and, when there is nothing to find, no cycle can be reached |
| ClientDependency.SelfDependencyInOrder | lashd/client_dependency.c:38-65 | the order decides: a search through a client that depends on itself ends if what it looks for is listed first, and does not if the client itself is |
| ClientDependency.AcyclicSearchEnds | lashd/client_dependency.c:38-65 | on an acyclic graph every search ends, no deeper than there are reachable clients, with the right answer |
| ClientDependency.AddDependency | lashd/client_dependency.c:68-105 | for every client list, cyclic or not, in which the search ends: refuses duplicates and visible cycles and nothing else; otherwise the id is put in front of the others |
| ClientDependency.RemoveDependency | lashd/client_dependency.c:108-132 | removes the first occurrence only |
| ClientDependency.SanityCheck | lashd/client_dependency.c:135-166 | while the list is edited in place, exactly the dependencies on unknown clients are dropped, in order |
| ClientDependency.InitUnsatisfied | lashd/client_dependency.c:169-193 | the unsatisfied list is a fresh copy of the dependencies, in reverse order |
| ClientDependency.AddKeepsAcyclicExactlyWhen | lashd/client_dependency.c:68-105 | an addition keeps the whole graph acyclic if and only if it is no self-dependency and no cycle hides outside the searched part |
| ClientDependency.AddWithAllSourcesVisible | lashd/client_dependency.h:40-48 | when every other source of edges is searched, the addition keeps the graph acyclic if and only if the ids differ |
| ClientDependency.HiddenCycle | lashd/dbus_iface_control.c:715-725 | a concrete graph that becomes cyclic because an edge of a lost client is not searched |
| ProjectFile.LoadedAt | lashd/project.c:911-918 | the k-th client element ends up at the mirrored position of the list, its dependencies checked against the clients before it |
| ProjectFile.ParsedDepsAre | lashd/client.c:325-340 | of the ids in the file exactly those stay that do not lead back to the client, each once, in reverse order of their first occurrence |
| ProjectFile.LoadedElement | lashd/client.c:236-340 | a loaded client has the identity, the abilities and the saved flag of its element, no task, no store and no name, and of the dependencies those that do not lead back to it |
| ProjectFile.ParsedAcyclic | lashd/client.c:325-340 | adding parsed dependencies one by one keeps the graph acyclic although the client itself is not in the list yet |
| ProjectFile.LoadedAcyclic | lashd/project.c:911-918 | a file without self-dependencies loads into an acyclic graph, whatever cycles it contains |
| ProjectFile.SoundFileLoads | lashd/project.c:911-918 | parsing ends for every file without self-dependencies, since no search meets a cycle |
| ProjectRestore.LoadedIsParsed | lashd/project.c:883-979 | loading leaves a project in the state in which a restore may begin: idle, all clients lost, distinct, without duplicate dependencies |
| ProjectRestore.RosterAcyclic | lashd/server.c:550-556 | the dependencies that survive the sanity check of an acyclic project are acyclic |
| ProjectRestore.FileDepsAreLoaded | lashd/client.c:325-340 | the graph that is loaded has exactly the dependencies of the file that close no cycle with those before |
| ProjectRestore.FileCanBeLoadedExactlyWhen | lashd/server.c:512-577 | from file to ProjectLoaded, as a condition on the elements: the file has clients, none depends on itself, each can be forked, none has a saved data set that is missing or empty, and none is left with a dependency on one that has nothing to load |
| ProjectRestore.AcyclicFileLosesNothing | lashd/client.c:325-340 | only genuine cycles are refused: a file whose graph is acyclic loads with exactly its dependencies |
| SessionSpec.SatisfyAllAt | lashd/project.c:215-236 | after one client is restored every lost client is updated exactly as for itself, independent of the others |
| SessionSpec.RemoveFirstAt | lashd/client_dependency.c:108-132 | exactly the first occurrence is taken out |
| SessionSpec.PrepareAllAt | lashd/server.c:550-574 | the launch loop treats every lost client independently of its place, and emits launches only |
| SessionSpec.LaunchesInOrder | lashd/project.c:215-236 | launches are signalled in the order of the list |
| SessionSpec.BeginSaveAllAt | lashd/project.c:497-507 | the save loop gives each client with internal state the new task and leaves the others alone |
| Session.FindByName | lashd/server.c:218-232 | the index of the first client with a bus name |
| Session.FindByPid | lashd/server.c:235-249 | the index of the first client with a process id |
| Session.CheckTasks | lashd/dbus_iface_server.c:323-359 | accepts a message exactly if the client has a task and the message carries its id |
| Session.Project.LaunchClient | lashd/project.c:336-341 | a launch is signalled and the client remembers the process id it was given |
| Session.Project.SatisfyClientDependency | lashd/project.c:215-236 | every waiting client loses the id once; exactly those left with nothing are launched, in list order; nobody else changes |
| Session.Project.ClientProgressed | lashd/project.c:1240-1256 | the sum of percentages is corrected by the difference and the mean, capped at 99, is shown |
| Session.Project.ClientTaskCompleted | lashd/project.c:1260-1284 | the client counts as 100; the last completion ends the task and announces it |
| Session.Project.TaskDone | lashd/client.c:179-231 | the whole effect of an accepted completion, by kind of task and outcome, on client, project and signals; a successful data-set save without a store ends the daemon and nothing else does |
| Session.Project.TaskAdvanced | lashd/client.c:142-176 | 0 and 255 end the task, anything else is progress, capped at 99; the deadly report is the one of a saved data set without a store |
| Session.Project.OnProgress | lashd/dbus_iface_server.c:362-390 | for every sender, task id and percentage the handler equals one Report step of the specification, except for exactly the reports that end the daemon |
| Session.Project.OnCommitDataSet | lashd/dbus_iface_server.c:453-504 | the handler equals one Commit step of the specification, refusals included |
| Session.Project.AnyPending | lashd/project.c:476-483 | true exactly if some client has an open task |
| Session.Project.SaveClients | lashd/project.c:471-515 | refused if a client has a task; otherwise a new id is broadcast, every client with internal state owes a report, and the project is idle at once if nobody does |
| Session.Project.ClearLostClients | lashd/project.c:701-719 | a save forgets the lost clients |
| Session.Project.SaveProject | lashd/project.c:837-880 | the whole save request equals one step of the specification |
| Session.Project.LoadFile | lashd/project.c:239-258 | a restore task with a new id is assigned and the client is told |
| Session.Project.LoadDataSet | lashd/project.c:262-333 | a new restore task for a readable store that is not empty, and otherwise no task, with the store opened |
| Session.Project.ResumeProject | lashd/client.c:383-443 | a lost client moves to the front of the running ones with its task; one with nothing to load completes at once |
| Session.Project.AddClient | lashd/server.c:472-509 | a known process id resumes the lost client, anyone else becomes a new client |
| Session.Project.NewClientRecord | lashd/project.c:179-212 | a new client starts without task, dependencies and saved state |
| Session.Project.PrepareClients | lashd/server.c:550-574 | one pass over the lost clients: sanity check, unsatisfied list, launch of those without dependencies |
| Session.Project.RestoreProject | lashd/server.c:512-577 | the whole restore equals the specification's Restore: counters, first percentage, launches in order |
| Session.Project.ParseDependencies | lashd/client.c:325-340 | the parsed ids are added one by one against the clients loaded so far |
| Session.Project.LoadClients | lashd/project.c:900-918 | the lost list after loading is the specification's list for the file, for every file whose searches end |
| TaskAccounting.RunKeeps | lashd/project.h:72-75 | after every run, also from an idle project with lost clients: pending equals the number of clients still owing a report, progress equals 100 for each finished one plus the parts of the others, nothing wraps, and the signals emitted so far are well formed |
| TaskAccounting.NextKeeps | lashd/project.c:1240-1284 | one step of any kind keeps that invariant |
| TaskAccounting.AllowedReportsExactly | lashd/client.c:179-231 | the only reports left out of the runs are those that end the daemon: success of a data-set save by a client that has no store |
| TaskAccounting.LogNeverFalls | lashd/project.c:1240-1256 | in a well formed log no percentage is lower than an earlier one of the same task |
| TaskAccounting.LogAnnounces | lashd/project.c:797-834 | saved and loaded are announced right after 100 percent and nothing else can follow it |
| TaskAccounting.SaveKeeps | lashd/project.c:837-880 | a save of any idle project, whatever clients it has lost and whatever sum an earlier task left behind, establishes the invariant |
| TaskAccounting.SaveFields | lashd/project.c:471-515 | the whole state after a save request, signals included: the percentage, the request with the new task id, and the announcement if nobody is asked |
| TaskAccounting.TaskCompletedCounts | lashd/project.c:1268-1283 | a completion announces the task exactly if it was the last one owed, and by the kind of the task |
| TaskAccounting.RepeatedNinetyNine | lashd/client.c:142-176 | of a client at 99 percent, reports up to 99 are discarded, and those from 100 to 254 change nothing except that the same percentage is signalled once more |
| Progress.ReachedIsLargest | lashd/client.c:142-176 | what a client has reached is the largest percentage it has reported for the task since it connected, at most 99 |
| Progress.NextGoes | lashd/client.c:142-176 | after one step of any kind every open task stands where it stood, or higher by the report, or at nothing if it has just begun |
| Progress.SaveShows | lashd/project.c:1240-1256 | over every run of a save: what is recorded for a client is the largest percentage it has reported, and what is shown is the mean of that over all who were asked, a hundred for each that has finished, rounded down and at most 99 |
| Progress.LoadShows | lashd/project.c:1240-1256 | the same over every run of a load |
| SaveProtocol.StaleMessage | lashd/dbus_iface_server.c:323-359 | a message with another task id than the client's, or to a client without task, changes nothing |
| SaveProtocol.EarlierMessagesAreStale | lashd/dbus_iface_server.c:323-359 | whatever carries an id from before a save changes nothing during and after it |
| SaveProtocol.IdleIffAllReported | lashd/project.c:1268-1283 | the project is idle again exactly when every asked client has answered |
| SaveProtocol.SaveStarts | lashd/project.c:837-880 | right after the request, in any idle project, exactly the clients with internal state are outstanding, and the save is announced at once if there are none |
| SaveProtocol.StepTracks | lashd/server.c:472-509 | one more step of any kind (a message from anyone, a connecting client, a refused save request) moves the save exactly as the list of steps so far says |
| SaveProtocol.SaveRun | lashd/project.c:837-880 | over every run of one save, with messages in any order, newcomers connecting and further saves refused: a client is outstanding until the first message that ends its task, that message decides whether it counts as saved, newcomers owe nothing, and ProjectSaved is emitted exactly once, when nobody is outstanding |
| SaveProtocol.SavesAnnounced | lashd/project.c:837-880 | over every run with any number of saves: announcements and open saves together are as many as the accepted save requests |
| SaveProtocol.EverybodySavedExactlyWhen | lashd/dbus_iface_server.c:453-504 | some run saves every asked client if and only if each of them has a config file or a store |
| SaveProtocol.SavedWithoutAskingExactlyWhen | lashd/project.c:476-483 | an idle project announces a save without asking anybody exactly if some client has an open task |
| SaveProtocol.SavedWithoutAskingRun | lashd/dbus_iface_control.c:776-783 | a lost client launched by hand connects to an idle project, and the next save is announced without asking anybody |
| Newcomers.NewcomersRun | lashd/project.c:179-212 | over every run of a project opened empty: its clients are those that have connected, the last one first, recorded as they said; whoever saves data sets has a store; nobody counts as saved without having said so |
| Newcomers.NewcomersCanBeSaved | lashd/project.c:191-194 | so each of its saves can save everybody |
| Newcomers.NewcomerCommits | lashd/dbus_iface_server.c:453-504 | a valid data set that can be written makes its client count as saved and owe nothing |
| RestoreSchedule.RestoreKeeps | lashd/server.c:512-577 | the restore request itself establishes the accounting invariant |
| RestoreSchedule.RestorePlaced | lashd/server.c:550-574 | after the request exactly the clients without surviving dependencies are launched, once, and every other waits for exactly its dependencies |
| RestoreSchedule.SatisfiedGood | lashd/project.c:215-236 | a waiting client waits for its dependencies minus those restored, which relies on the absence of duplicates |
| RestoreSchedule.NextPlaced | lashd/project.c:215-236 | every step of a load keeps that: unsatisfied equals surviving dependencies minus restored, for each lost client |
| RestoreRuns.PlacedIsSafe | lashd/project.c:215-236 | nobody is launched twice, and nobody before all its surviving dependencies have reported success |
| RestoreRuns.RestoreRun | lashd/server.c:512-577 | over every run after a restore: accounting, launch safety, at most one ProjectLoaded, emitted exactly at the end; and once the load has ended every client of the project is connected and was launched exactly once |
| RestoreRuns.WaitsForSomebody | lashd/project.c:215-236 | whoever waits, waits directly or not for a client under way or for one that will never report |
| RestoreRuns.HealthyRun | lashd/server.c:512-577 | by induction over every run without failing reports: while the load goes on somebody is pending, and whoever has finished has either reported success or has nothing to load |
| RestoreRuns.NoDeadlock | lashd/project.c:215-236 | freedom from deadlock over every run without failures of a project that can be started: while it is loading, some launched client has yet to connect, or some connected one to report |
| RestoreRuns.EveryRunEnds | lashd/client.c:383-443 | over every run of a project that can be started, failures included: the load goes on exactly as long as fewer steps have had an effect than there are clients to connect and clients to report |
| RestoreRuns.WholeProjectRestored | lashd/project.c:1260-1284 | every run without failures that ends the load has announced it once, with every client connected, launched once and, if it had anything to load, restored |
| RestoreRuns.SomebodyCanStep | lashd/project.c:215-236 | the state behind that: a load of an acyclic project in which nobody waits for a client that will never report has a launched client that can act, even if others have failed |
| RestoreRuns.CanFinish | lashd/server.c:512-577 | from every such state a schedule without further failures ends the load |
| RestoreRuns.FailureMakesDud | lashd/client.c:142-231 | a client that reports failure will never report success in this load |
| RestoreRuns.FailureHoldsUp | lashd/project.c:215-236 | whatever happens afterwards, whoever depends on such a client, directly or not, is never launched, and the load does not end |
| RestoreRuns.RunCanEndExactlyWhen | lashd/server.c:512-577 | however far a load has come, with whatever failures: it can still end if and only if its graph is acyclic, nobody blocks it by nature, and nobody who still waits depends on a client that will never report |
| RestoreRuns.LoadedExactlyWhen | lashd/server.c:512-577 | some run reaches ProjectLoaded if and only if the project has clients, no surviving cycle, every client can be forked, no saved data set is missing or empty, and nobody depends on a client with nothing to load |
| RestoreRuns.EmptyNeverLoads | lashd/server.c:512-577 | a project without clients is never announced as loaded and refuses every save |
| RestoreRuns.StepRemaining | lashd/client.c:383-443 | what remains to be done in a load (to connect, and to report for those with something to load) falls by one with every effective step and stays the same with every other |
| RestoreRuns.ConnectFindsLaunched | lashd/server.c:307-322 | the process id given at launch leads back to the launched client if ids are distinct |
| RestoreRuns.DeadlyRun | lashd/client.c:179-231 | the run that ends the daemon: an unsaved data-set client is restored, and reports its first save as done |
| LoadRequests.RequestsRun | lashd/client.c:401-413 | over every run after a restore: exactly the connected clients that have anything to load have been told so, once each, with the task they owe |
| LoadRequests.ElementIsAsked | lashd/project.c:239-333 | for the clients of a file: told once if saved with a config file, or with a data set that is there, and never otherwise |
| RestoredStores.StoresRun | lashd/project.c:262-333 | over every run after a restore a client has a store exactly if its saved data set was opened, and a newcomer if it saves data sets |
| RestoredStores.SavableExactlyWhen | lashd/client.c:179-231 | once a file has been loaded, everybody can be saved if and only if it has no client that saves data sets only and had never been saved |
| Bytes.BigEndianRoundTrip | lashd/store.c:285-297 | four bytes in network order give the size back |
| Bytes.BigEndianAt | lashd/store.c:285-297 | each byte by its place, the most significant first |
| Bytes.FromBigEndianRoundTrip | lashd/store.c:555-563 | every four bytes read as a size are what that size is written as |
| Bytes.FlipTwice | liblash/lash_config.c:35-79 | changing the byte order twice changes nothing |
| Bytes.DecimalRoundTrip | lashd/store.c:348-354 | a printed number is read back up to the first byte that is no digit |
| Bytes.DecimalAt | lashd/store.c:348 | each digit by its place, and none is missing |
| Bytes.SignedNumber | lashd/store.c:203-211 | a sign and leading space are read with the number |
| Store.ConfigRoundTrip | lashd/store.c:264-312 | a config file is inverted by its parser |
| Store.ReadAsExactlyWhen | lashd/store.c:546-590 | a file is read as a value if and only if it holds the size, not zero, that many bytes, and nothing more or one of the four types |
| Store.CutFile | lashd/store.c:571-590 | of a file cut short anywhere before the end of its value nothing is read, and without its type byte it reads as raw |
| Store.UntypedFileIsRaw | lashd/store.c:546-590 | a file without the type byte reads as raw data |
| Store.ReadKeysRoundTrip | lashd/store.c:213-233 | the key lines of the info file are read back |
| Store.KeysReadExactlyWhen | lashd/store.c:213-233 | keys are read if and only if the text lists that many, each on a line, the last newline optional |
| Store.CountIsRead | lashd/store.c:203-211 | the line of the count must fit a long and end with its digits |
| Store.NegativeCount | lashd/store.c:203-211 | a negative count is taken for an enormous one |
| Store.InfoName | lashd/store.c:150-160 | the name of the info file |
| Store.ReadKeysClean | lashd/store.c:213-233 | whatever the file holds, a key that is read has no newline |
| Store.InfoRoundTrip | lashd/store.c:335-373 | the info file gives its keys back if and only if no key has a newline |
| Store.NewlineKeyIsLost | lashd/store.c:335-373 | the smallest example: a key with a newline comes back as another key |
| Store.PutChangesOneKey | lashd/store.c:434-502 | setting a config changes the lookup of its key and of no other |
| Store.FindWithout | lashd/store.c:315-332 | taking a config out of the overlay hides it and no other |
| ConfigStore.Directory.Write | lashd/store.c:264-312 | a write may leave any prefix in the file |
| ConfigStore.ConfigStore.UnstoredIndex | lashd/store.c:505-518 | the first unstored config with the key |
| ConfigStore.ConfigStore.SetConfig | lashd/store.c:434-502 | refused exactly for an empty key or value; otherwise exactly one lookup changes, keys stay distinct and counted, and unstored keys are among them |
| ConfigStore.ConfigStore.WriteConfig | lashd/store.c:264-312 | success leaves exactly the encoded config, failure touches no other file |
| ConfigStore.ConfigStore.WriteConfigs | lashd/store.c:315-332 | no lookup changes, even when writes fail half-way and leave garbage; true exactly if nothing is left unstored |
| ConfigStore.ConfigStore.WriteInfoFile | lashd/store.c:335-373 | success leaves the info file listing exactly the keys |
| ConfigStore.ConfigStore.Write | lashd/store.c:403-431 | no lookup changes whatever fails; says exactly when the info file is in step afterwards |
| ConfigStore.ConfigStore.Open | lashd/store.c:163-261 | succeeds exactly on a parsable info file and takes its keys in order |
| ConfigStore.ConfigStore.GetConfig | lashd/store.c:521-610 | the unstored config if there is one, otherwise the file's |
| ConfigStore.ConfigStore.CreateConfigArray | lashd/store.c:615-642 | the readable configs in key order |
| ConfigStore.Reopen | lashd/client.c:103-123 | after a successful write, known to be in step, the keys come back if and only if none has a newline, and then the count and every lookup do too |
| ConfigStore.Written | lashd/store.c:315-332 | dropping a written config from the overlay changes no lookup |
| ConfigStore.NotWritten | lashd/store.c:315-332 | a failed write that left garbage changes no lookup while the config stays in the overlay |
| DataSet.NativeRoundTrip | liblash/lash_config.c:35-79 | a number stored in the machine's byte order is read back |
| DataSet.ValueRoundTrip | liblash/lash_config.c:35-163 | a value comes back as written, also on a machine with another byte order, except the empty string, which is refused |
| DataSet.StoredAlike | liblash/lash_config.c:50-79 | the bytes that are stored do not depend on the machine: numbers most significant byte first, a double as in section 4.7 of RFC 4506 |
| DataSet.StoredFits | lashd/dbus_iface_server.c:417-447 | what the server stores for a value that exists in memory is not empty, fits 32 bits and has a valid type |
| DataSet.ConfigHandle.Write | liblash/lash_config.c:35-79 | an integer, double or string is appended as one entry, a double in the wire form of section 4.7 of RFC 4506 |
| DataSet.ConfigHandle.WriteRaw | liblash/lash_config.c:82-105 | a block is appended as one raw entry |
| DataSet.ConfigHandle.Read | liblash/lash_config.c:108-163 | the next entry is decoded and its size returned: 8, 4 or the number of bytes, without the NUL of a string; 0 at the end of the message, -1 for an entry that cannot be read |
| DataSet.GetAndSetConfig | lashd/dbus_iface_server.c:417-447 | one entry reaches the store as its bytes and type; refused exactly if there are no bytes |
| DataSet.CommitConfigs | lashd/dbus_iface_server.c:492-500 | entries are stored in order up to the first refused one |
| DataSet.KeysInFirstOrder | lashd/store.c:434-502 | committed keys are distinct and in the order of first occurrence |
| DataSet.LastValueStored | lashd/store.c:434-502 | each key has the value written last |
| DataSet.DataSetRoundTrip | liblash/lash_config.c:35-163 | the step in between: if no lookup changes on the disk, the message sent back, on whatever machine, has every key once, in the order of first occurrence, with its last value |
| DataSet.SaveAndLoad | liblash/lash_config.c:35-163 | end to end through handle, commit, store, disk, a new store and a new handle, maybe on a machine with another byte order: if the write succeeds, a client reads back every key once, in the order of first occurrence, with the value written last, and then the end |
| ChildOutput.SplitConserves | lashd/loader.c:290-386 | pieces and leftover are the stream, byte for byte |
| ChildOutput.SplitSizes | lashd/loader.c:308-309 | cut pieces have exactly 2047 bytes, lines and leftover fewer, so at least one byte can be read and the NUL always fits |
| ChildOutput.NoNewlineInside | lashd/loader.c:315-353 | no newline is left inside a piece or in the leftover |
| ChildOutput.SplitChunks | lashd/loader.c:305-386 | reading in chunks of any sizes makes no difference |
| ChildOutput.CompressionIsLossless | lashd/loader.c:98-136 | the entries of the log give every complete line and every cut piece back, each in order, with the flush at burial |
| ChildOutput.TruncationLosesOrder | lashd/loader.c:355-375 | the smallest family of examples: two different outputs with a cut piece that leave the same log |
| ChildOutput.LogDeterminesOutputExactlyWhen | lashd/loader.c:98-136 | no other output leaves the same entries if and only if the output is not blurred |
| ChildOutput.BlurredMeans | lashd/loader.c:355-375 | blurred outputs are those in which a cut piece comes after the second of at least three equal lines and before the next different one |
| PrintedLog.OutputsAre | lashd/loader.c:305-382 | the lists of pieces that come of some stream of bytes are exactly those without newlines inside whose cut pieces fill the buffer and whose lines do not |
| PrintedLog.ChildLogsAre | lashd/loader.c:98-136 | the logs that children leave are exactly those in which a repetition is announced behind a line logged once and counted before the next line, which is another one |
| PrintedLog.PrintTellsBodies | common/debug.h:65-68 | the printed log, whatever stands in front of the entries, gives exactly the texts of the entries back |
| PrintedLog.SameBody | lashd/loader.c:319-375 | of all entries only a line and a repeat marker can have the same text; a cut piece never has that of another entry |
| PrintedLog.MarkersNameChannel | lashd/loader.c:98-115 | each marker names the channel it is about |
| PrintedLog.PrintedLinesExactlyWhen | lashd/loader.c:315-375 | the printed log gives lines and cut pieces back if and only if there is no line in it behind which both markers follow, printed by whomever, such that both readings fit what comes next |
| PrintedLog.PrintedOutputExactlyWhen | lashd/loader.c:315-375 | the printed log tells the whole output if and only if besides the output is not blurred |
| PrintedLog.OrdinaryOutputExactlyWhen | lashd/loader.c:315-375 | among children none of whose lines reads like a marker the printed log gives lines and cut pieces back, and tells the whole output if and only if it is not blurred |
| PrintedLog.MarkersCanBePrinted | lashd/loader.c:321-336 | the smallest family of examples: a line printed twice, or once with both markers behind it, is printed alike |
| Loader.ChildStream.CheckRepeatEnd | lashd/loader.c:98-115 | the count is logged if it is at least two |
| Loader.ChildStream.LogLine | lashd/loader.c:319-350 | one line is logged or counted as the compressor says |
| Loader.ChildStream.FindEol | lashd/loader.c:315 | the first newline before the terminating NUL |
| Loader.ChildStream.LogLines | lashd/loader.c:315-353 | the buffer loop logs exactly the complete lines and finds where the rest begins |
| Loader.ChildStream.KeepRest | lashd/loader.c:355-382 | the unfinished rest is moved to the front, or logged as cut if it fills the buffer |
| Loader.ChildStream.ReadChildOutput | lashd/loader.c:290-386 | whatever the reads return, buffer and log are what the fixed split of the bytes read so far says; the loop ends and the buffer never overflows |
| Loader.BuriedChild | lashd/loader.c:118-136 | from a child's first byte to its burial nothing that was read is lost, apart from an unfinished last line, and the log gives lines and cut pieces back; unread bytes of a dead child are never read |
| KList.RingIsUnique | common/klist.h:65-94 | a well formed list spells out one sequence only |
| KList.Insert | common/klist.h:86-94 | linking between two neighbours inserts at that position, also when both are the head |
| KList.Add | common/klist.h:104-107 | prepends |
| KList.AddTail | common/klist.h:117-120 | appends |
| KList.Unlink | common/klist.h:188-192 | unlinking between two neighbours removes that entry |
| KList.Del | common/klist.h:200-205 | removes the entry and poisons its pointers |
| KList.DelInit | common/klist.h:259-263 | removes the entry and leaves it an empty list |
| KList.Move | common/klist.h:270-274 | takes an entry to the front of another list, or of its own |
| KList.MoveTail | common/klist.h:281-286 | takes an entry to the end of another list, or of its own |
| KList.IsEmpty | common/klist.h:292-295 | true exactly for the empty list |
| KList.Splice | common/klist.h:334-338 | the joined list is the concatenation; the emptied head still points at a link it has lost |
| KList.SpliceInit | common/klist.h:347-354 | the joined list is the concatenation and the other list is empty |
| KList.DeleteMatching | common/klist.h:402-404 | a safe walk that deletes any subset visits every entry once, in order, and keeps exactly the others |
| KList.ClientLists.Lose | lashd/client.c:74-89 | a disconnecting client goes to the lost ones; everybody is in exactly one list and none came or went |
| KList.ClientLists.Resume | lashd/client.c:401-422 | a resuming client goes back; everybody is in exactly one list and none came or went |
| KList.TransferConserves | lashd/project.c:1120-1123 | a transfer conserves the union of both lists, with multiplicity |
| ListSort.SortedPermutes | common/list.h:290-315 | the sorted list has the same nodes, each once |
| ListSort.SortedOrdered | common/list.h:290-315 | the sorted list is ordered for every total preorder |
| ListSort.SortedTies | common/list.h:273-282 | equal elements come out in reverse order |
| ListSort.SortIsDetermined | common/list.h:290-315 | a sequence is the result if and only if it is ordered, has the same nodes and holds equal elements in reverse order |
| ListSort.MergedTies | common/list.h:262-287 | a merge takes the second list's nodes first among equals |
| ListSort.SortMerge | common/list.h:262-287 | relinking behind a local first node yields exactly the merge of both lists |
| ListSort.Half | common/list.h:302-309 | the two-speed walk stops before the second half, for even and odd lengths |
| ListSort.Cut | common/list.h:302-310 | both halves are well formed, disjoint and non-empty |
| ListSort.Sort | common/list.h:290-315 | the recursion ends and relinks the same nodes into the sorted order |
| AlsaPatch.UuidRoundTrip | lashd/alsa_patch.c:358-361 | an identity is read back from its text |
| AlsaPatch.UuidInCapitals | lashd/alsa_patch.c:404-408 | an identity is read from capital letters as well |
| AlsaPatch.PartsByTag | lashd/alsa_patch.c:349-393 | ports, queue and flags are each saved under their own name |
| AlsaPatch.EndsByTag | lashd/alsa_patch.c:349-380 | each end is saved by its identity, or by its number if it has none |
| AlsaPatch.ReadByTag | lashd/alsa_patch.c:396-466 | whatever a file holds, each part is read from the element with its name and stays as it was if there is none |
| AlsaPatch.NumbersAreCut | lashd/alsa_patch.c:396-466 | a number is cut to a byte, and any number but zero sets a flag |
| AlsaPatch.AnyOrder | lashd/alsa_patch.c:396-466 | the order of a saved patch's elements does not matter |
| AlsaPatch.ChildrenAreRead | lashd/alsa_patch.c:349-466 | reading a saved patch gives identities, ports, queue and flags back, and literal numbers only for ends without identity |
| AlsaPatch.PatchRoundTrip | lashd/alsa_patch.c:139-466 | set, save, read in any order and unset: ports, queue and flags are the same, each end has the number its client holds now, or the saved one for a client without identity, and missing clients are counted |
| AlsaPatch.NumberIsHeld | lashd/alsa_patch.c:157-199 | with distinct identities the number found is the one held by that client |
| AlsaPatch.FirstClients | lashd/alsa_patch.c:139-199 | the identity is that of the first client with the number, and the number that of the first with the identity |
| AlsaPatch.UnchangedClients | lashd/alsa_patch.c:139-228 | with the same clients before and after, a restored connection is the saved one |
| AlsaPatch.AlsaPatch.Set | lashd/alsa_patch.c:139-148 | each end gets the identity of the first client with its number, and keeps its own if there is none |
| AlsaPatch.AlsaPatch.Unset | lashd/alsa_patch.c:202-228 | each identified end gets its client's number; the result counts the clients not found |
| AlsaPatch.AlsaPatch.CreateXml | lashd/alsa_patch.c:349-393 | eight elements, identities instead of numbers where known |
| AlsaPatch.AlsaPatch.ParseXml | lashd/alsa_patch.c:396-466 | the elements are applied one after the other, unknown ones ignored |
| AlsaPatch.AlsaPatch.Dup | lashd/alsa_patch.c:297-307 | a copy has the same connection and identities |
| AlsaPatch.AlsaPatch.Compare | lashd/alsa_patch.c:504-529 | 0 exactly for the same connection, whatever identities are recorded |
| Args.PrefixesExclude | liblash/lash.c:955-995 | no argument matches two of the tests |
| Args.OwnByName | liblash/lash.c:955-995 | exactly which texts the library takes for its own, and in which of them case does not matter |
| Args.ForeignStays | liblash/lash.c:955-1011 | every foreign argument stays as often as given, no other does |
| Args.ForeignTwice | liblash/lash.c:948-1020 | a second extraction finds nothing |
| Args.MarkOwn | liblash/lash.c:955-995 | exactly the library's arguments become null, and a flag is set exactly if its argument occurred |
| Args.CloseUp | liblash/lash.c:1000-1011 | the entries that are not null close up in order; the pass ends with indices in range |
| Args.ExtractArgs | liblash/lash.c:948-1020 | the program's name and the foreign arguments remain in order and are counted, each flag is set exactly if an argument begins with its text, and what stands behind the new end is stated |
| ClientName.CandidatesCount | lashd/project.c:104-114 | the class and its 99 numbered forms are a hundred different names |
| ClientName.CandidateReads | lashd/project.c:110 | the number behind the class reads, in decimal, as the number of the candidate |
| ClientName.FreeCandidate | lashd/project.c:94-122 | with fewer than a hundred named clients one of them is free |
| ClientName.NamedClients.GetByName | lashd/project.c:83-91 | null exactly if no client of either list has the name |
| ClientName.NamedClients.PrintNumbered | lashd/project.c:110 | the numbered name and its NUL fill the buffer exactly |
| ClientName.NamedClients.UniqueName | lashd/project.c:94-122 | the first free candidate; it fails exactly if all hundred are taken, which takes a hundred named clients |
| ClientName.NamedClients.NameClient | lashd/project.c:161-176 | naming keeps non-empty names distinct and picks an unused one; the empty name is given to a client with a class only if all hundred candidates are taken, which takes a hundred named clients |

## Left out

- TaskAccounting.RunKeeps: runs are restricted to those the counters are made for. A client does not disconnect during a run, no lost client is launched by hand, no save starts while a client has a task, 100 times the number of clients stays below 2^32, and no report ends the daemon (`TaskAccounting.AllowedReportsExactly`).
- RestoreRuns.RestoreRun: the same restriction on runs.
- SaveProtocol.SaveRun: the same restriction on runs; the lost clients an idle project starts with may be any.
- RestoreRuns.WholeProjectRestored: a run without failures is one in which no ending report says 0 or an invalid data set.
- TaskAccounting.NextKeeps: a lost client of an idle project has process id 0, which is how lashd/project.c:1120 leaves it.
- Session.Project.LoadClients: a file on which a search does not end is outside the contract, because the daemon does not come back from it; `ProjectRestore.FileCanBeLoadedExactlyWhen` speaks of such files on values.
- ConfigStore.Reopen: files that were written can be read; an unreadable file is modelled only where its content is short or malformed.
- ConfigStore.ConfigStore.SetConfig: a key is a file name, so it contains neither slash nor NUL and is none of the names of the directory itself; the daemon does not check this.
- DataSet.SaveAndLoad: one data set into an empty store; what a failed write leaves is the contract of `ConfigStore.ConfigStore.Write`.
- ChildOutput.CompressionIsLossless: the repeat counter does not wrap at 2^32.
- PrintedLog.PrintedOutputExactlyWhen: the log of one stream of one child; other messages of the daemon in between are not part of the model, and the time stamps in front of the entries are any texts, the same ones for both logs.
- AlsaPatch.PatchRoundTrip: numbers beyond the range of strtoul are not modelled, because a saved patch contains none.
- Loader.ChildStream.ReadChildOutput: a child prints no NUL bytes.
- ClientName.NamedClients.UniqueName: names and classes contain no NUL.
- Task ids and process ids are natural numbers; the wrap-around of 64-bit task ids is not modelled.
- One project at a time: the list of projects, their directories, notes, descriptions, renaming and moving.
- D-Bus transport, introspection and object paths: a message is a typed value, delivery a list of steps.
- libxml2: an element is a tag with a text, a project file the list of its client elements.
- JACK, ALSA, libuuid, fork, exec, pseudo terminals, signals and threads: parameters or arbitrary outcomes.
- Removal of keys from a store and of directories: nothing in the daemon asks for the former.
- `lash_list_append`, `remove`, `concat` and `copy`, the RCU forms of the linked list: they would only add easy members.
- Jack patches and the backup lists of the managers, which go on using a list head after a plain splice.
- The application database, the panel, the synthesizer, the shell and the Python binding.
- A method split off from a longer C function (`AskClients`, `ApplyTask`, `TakeLine` and the like) has a contract of its own and no row.
