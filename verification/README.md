# The supervisor, verified

NEMEA supervisor starts, watches, restarts and stops a set of modules (processes) that a
configuration file describes. This project is a Dafny model of the core of `supervisor.c`
with proofs about whole runs of it. `dafny verify dfyconfig.toml` checks everything.

The state (`Model.State`) is what the service thread, the user's commands and a reload share
under `running_modules_lock`: the table of modules, the profiles, the default restart limit,
together with the processes and service sockets of the operating system and a log of forks,
signals and reaped children. Everything the kernel decides (which processes exit before which
visit of which slot, what `fork`, `connect` and the transfers return, which processes refuse
signals) is an input of the steps, so a statement for all inputs is a statement for every kernel.

How the modules build on each other:

- `Model`, `Kernel`, `Service`: the records, the operating system, and one period of the service
  thread as thirteen loops over the table.
- `Invariants`, `Commands`, `Tracking`, `Removal`, `Restart`, `Stopping`: what each loop and each
  command keeps, and how one module fares in a period. `CommandEffects`, `Limits`, `Signals`,
  `Connections`: what commands, the update loop, the signals and the service sockets achieve.
- `Convergence`, `Settling`, `Skipping`, `Deadline`: undisturbed runs. `StopAll`, `Termination`: how
  the service thread ends.
- `Document`, `Validation`, `Interfaces`, `Reload`, `Reconcile`, `ReloadEffect`, `ReloadTheorem`,
  `ReloadGives`, `Accounting`, `ReloadKeeps`, `Config`, `Fixpoint`: the configuration as a tree, its validation,
  and the reload.
- `Runs`: every run of periods, commands and reloads from every start. `Samples`, `Witness`,
  `Losses`: runs that show what the program does not do.
- `Numbers`, `Backup`, `RoundTrip`, `NextStart`: the backup and the start from it.
- `Loading`, `Supervisor`: the class whose methods update the table in place, loop by loop, each
  proved equal to the function the theorems are about.
- `Daemon`, `DaemonProofs`, `DaemonServes`: the acceptor and the client threads as interleaved
  small steps.
- `Params`, `Selection`: the two hand-written parsers.

## Model

| member | source | states |
|---|---|---|
| `Runs.Reachable` | supervisor.c:2153-2294 | every state of every run of periods, user commands and reloads, from every start and on every kernel, satisfies the invariant of table, processes, sockets and log |
| `Runs.EveryChildRecorded` | supervisor.c:1786-1862 | in every reachable state each started process that was not reaped is the PID of exactly one slot, that of the module it was started for |
| `Runs.ForksAlone` | supervisor.c:2006-2041 | between two forks of a module in any run the earlier process was reaped: no module is started while its process lives |
| `Runs.SignalsOrdered` | supervisor.c:1940-1975 | in every run signals go to positive PIDs that were not reaped, and SIGKILL only to a process that was sent SIGINT before |
| `Runs.ThirtyIsUnlimited` | supervisor.c:2012-2031 | in no run is a module disabled for having reached the limit 30 |
| `Limits.GivenUpAfterStarts` | supervisor.c:2026-2039 | in no run is a module disabled for having reached its limit before it was started as often as the limit says |
| `Runs.TableSound` | supervisor.c:4785-4812 | in every reachable state names are distinct, slots past the loaded ones are blank, lists fit their arrays, the two codes of every interface are those that supervisor.h gives its strings, counters lie in the window, a started module is connected exactly if the socket it stores is open, and no open socket is lost |
| `Invariants.PeriodKeeps` | supervisor.c:2162-2283 | one period keeps the whole invariant on every kernel and leaves every status exact |
| `Commands.PerformKeeps` | supervisor.c:2682-2798 | every user command, with any selection, keeps the invariant |
| `CommandEffects.EnableEffect` | supervisor.c:2682-2798 | for every selection, exactly the selected modules and profiles are switched on, a module that was off with a fresh counter, and nothing else changes |
| `CommandEffects.DisableEffect` | supervisor.c:2889-3007 | exactly the selected profiles, and those selected modules that may be signalled, are switched off |
| `CommandEffects.RestartEffect` | supervisor.c:2812-2882 | exactly the selected modules that are enabled, run and may be signalled wait for their restart |
| `CommandEffects.StartAllEffect` | supervisor.c:2627-2639 | every module is enabled, one that was off with a fresh counter |
| `CommandEffects.StopAllEffect` | supervisor.c:2642-2653 | every module is disabled and nothing else changes |
| `CommandEffects.EnabledComesUp` | supervisor.c:2760-2790 | a stopped module that a user enables, in an enabled profile, is up after one calm period |
| `CommandEffects.DisabledGoesDown` | supervisor.c:2960-3000 | a module that a user disables is stopped within the period on every kernel, unless it may not be signalled |
| `ReloadKeeps.ReloadKeepsInv` | supervisor.c:5314-5546 | every reload, of a valid or invalid document, keeps the invariant |
| `ReloadKeeps.InitialKeepsInv` | supervisor.c:5385-5393 | the load at start-up establishes the invariant exactly if the PIDs in the document are distinct |
| `Losses.SamePidTwice` | supervisor.c:5385-5393 | first documents with one PID for two modules, which break it |
| `Restart.RestartBudget` | supervisor.c:2012-2039 | n periods start a module at most (L+1) + L*((n+29)/30) times, on every kernel, with no user, reload or pending restart in between |
| `Limits.PeriodDecides` | supervisor.c:2006-2041 | on every kernel, a wanted module that the first status check leaves without a process gets exactly one start and stays enabled if its counter, after the window has moved on, is not its limit, and is disabled without a start if it is; any other gets neither |
| `Limits.SwitchStays` | supervisor.c:2186-2203 | the switch the update loop leaves is the one at the end of the period, unless a pending restart is served |
| `Signals.OnlyUnwantedSignalled` | supervisor.c:1940-1975 | a period signals a process only if it is recorded for a module that is disabled or whose profile is |
| `Settling.Converges` | supervisor.c:2162-2204 | after 3 + Bits(flagged) calm periods every flagged module is gone, a module runs exactly if it and its profile are enabled, and every unflagged module is there and runs as asked |
| `Deadline.ThreeExactly` | supervisor.c:2185-2204 | three calm periods are enough for all unflagged modules exactly if, before each module waiting for its restart, the run of flagged modules has even length (processes ended by SIGKILL), or a length not 3 modulo 4 (processes ended by SIGINT) |
| `Deadline.StubbornSettles` | supervisor.c:1959-1975 | the same for any number n of periods, processes that end only by SIGKILL: each waiting module needs 3 + Skips(k) periods, k flagged ones directly before it |
| `Deadline.PromptSettles` | supervisor.c:1940-1957 | the same for processes that end at SIGINT: 2 + Skips(k) periods |
| `Deadline.SettlesExactly` | supervisor.c:2162-2204 | on every calm kernel, whatever ends the processes, n periods are enough exactly if each module still waiting after the first one has few enough flagged ones directly before it in the table left then |
| `Skipping.SweptExactly` | supervisor.c:3430-3442 | the removal pass serves a module exactly if an even number of flagged ones stands directly before it, and leaves half of them there |
| `Skipping.SteadyExactly` | supervisor.c:2186-2203 | from any state where unwanted modules are down, a waiting module is up after n calm periods exactly if n >= 2 + Skips(k) |
| `Skipping.StubbornExactly` | supervisor.c:1968-1974 | if flagged and waiting modules end only by SIGKILL, exactly if n >= 3 + Skips(k) |
| `Skipping.PromptExactly` | supervisor.c:1944-1955 | if they end at SIGINT, exactly if n >= 2 + Skips(k) |
| `Witness.ThreeTooFew` | supervisor.c:5512-5537 | a run from the start of the supervisor after which three calm periods leave a module down that should run |
| `Removal.RemovalPass` | supervisor.c:2185-2204 | the removal pass over the table leaves at most half of the stopped flagged modules, and all others in their order, each left alone or served once |
| `Removal.ServePass` | supervisor.c:3430-3442 | the in-place pass over the shifting array is the list function Swept |
| `Removal.BacklogHalves` | supervisor.c:2185-2204 | on lists, at most half of the modules waiting to be removed are left |
| `Removal.SurvivorsKept` | supervisor.c:2185-2204 | on lists, everything else survives in order |
| `Connections.ConnectExactly` | supervisor.c:2044-2061 | a running module that is not connected gets an attempt exactly if its timer is a multiple of 30; if it succeeds the module is connected to the descriptor returned, which is open, with its timer at 0 |
| `Connections.LinkPeriod` | supervisor.c:2215-2276 | over a whole calm period: a connected module stays so exactly if its transfers work, and otherwise its socket is closed; an unconnected one is connected exactly if an attempt was due, succeeded, and the transfers worked |
| `Connections.RetriesLater` | supervisor.c:2119-2151 | after a failed attempt the next comes 30 periods later |
| `Connections.StaysLinked` | supervisor.c:2064-2117 | while all transfers work a connection lasts, over any number of periods |
| `Connections.WaitingDisconnected` | supervisor.c:2197-2199 | a running module that waits for its restart is disconnected and its socket closed |
| `StopAll.StopAllEnds` | supervisor.c:2165-2174 | stop-all ends on every kernel, whatever is pending: the loop leaves at the second status check if the flag follows the disabling at once, at the first if one period lies between, and at the first after any number of periods if nothing was pending a restart; modules that refuse signals are not counted |
| `StopAll.CountsNoneNext` | supervisor.c:1878-1915 | one full period after everything was disabled, no status check counts a running module, on every kernel |
| `Termination.StopAllExactly` | supervisor.c:3461-3472 | with k periods between the disabling and the flag, on every calm kernel: the loop leaves exactly if no module that was pending a restart, its profile enabled, is back by then, which the table after the first of these periods tells; otherwise it never does |
| `Termination.StubbornStops` | supervisor.c:1959-1975 | processes that end only by SIGKILL: exactly if k < 3 + Skips(a) for each such module, a flagged ones directly before it |
| `Termination.PromptStops` | supervisor.c:1940-1957 | processes that end at SIGINT: exactly if k < 2 + Skips(a) |
| `Witness.StopAllHangs` | supervisor.c:3461-3472 | a run from the start, everything disabled, four periods, the flag: however many checks follow, on every calm kernel, the loop does not end |
| `Validation.Validate` | supervisor.c:4851-4998 | the nested loops accept exactly the valid documents |
| `Interfaces.ScanInterfaces` | supervisor.c:5438-5478 | the loop that jumps back to the first child terminates, stays inside the grown array and computes Scanned |
| `Interfaces.ScanFaithful` | supervisor.c:4167-4258 | modified exactly if the number of interfaces or a given attribute differs; the resulting list is the document's exactly if the restarted scan loses none; codes stay right |
| `Interfaces.BuildExactly` | supervisor.c:4167-4232 | the interface read from a valid element has exactly the attributes given there, and the codes that belong to them |
| `Interfaces.MatchesExactly` | supervisor.c:4167-4232 | an interface agrees with an element exactly if each of the four attributes given there has the stored value |
| `Interfaces.AllAgree` | supervisor.c:4727-4767 | for every list read from valid documents the codes are 1 for IN, 2 for OUT, 1, 2, 4, 5, 6 for the five types, and -1 exactly if the attribute is absent |
| `Interfaces.ScanLoses` | supervisor.c:5438-5478 | documents on which the restarted scan loses an interface |
| `ReloadTheorem.ReloadRefines` | supervisor.c:5314-5537 | a reload reconciles every table with every valid document: known names keep slot, PID and run and store what is given, new ones follow in document order, missing ones are disabled and flagged, modified exactly if something given differs |
| `ReloadGives.ModifiedExactly` | supervisor.c:4025-4073 | a known module counts as modified exactly if a path or parameters given, the number of interfaces, or an attribute given for an interface differs from what is stored |
| `ReloadGives.AttributesGiven` | supervisor.c:5395-5437 | after a reload the slot of a known module holds every attribute its element gives |
| `ReloadGives.NewGiven` | supervisor.c:5371-5437 | so does the slot of a new module, also at start-up |
| `ReloadGives.ProfilesGiven` | supervisor.c:4640-4725 | there is one profile for each "modules" element, in order, with its name and its switch |
| `ReloadGives.DefaultLimitGiven` | supervisor.c:3999-4023 | the default limit becomes the one the document gives, and stays without one |
| `ReloadTheorem.ReloadStarts` | supervisor.c:5539-5546 | the load at start-up enters every module element in order, with its PID |
| `ReloadTheorem.LimitOfNew` | supervisor.c:4785-4812 | a new module without a limit of its own gets the default if its slot was there before, and the limit 0 if the load added it |
| `Losses.GrownLimits` | supervisor.c:4799-4804 | documents with more modules than the table has slots, and the limits they lead to |
| `Accounting.ReloadBalance` | supervisor.c:5490-5553 | original - removed + inserted is the number of module elements, and "unmodified" is the number of modules found unchanged |
| `Accounting.ReportsNothing` | supervisor.c:5547-5553 | 0 inserted, 0 removed, 0 modified exactly if the table mirrors the document |
| `Fixpoint.ReloadAgain` | supervisor.c:4412-4537 | reloading the same document after any periods and commands, with no flagged module left, inserts and removes nothing, and modifies nothing exactly if the first reload lost no interface |
| `RoundTrip.WrittenValid` | supervisor.c:974-1067 | the backup is valid exactly if there is a profile and every written interface has some attribute |
| `RoundTrip.BackupRoundTrip` | supervisor.c:974-1067 | loading the backup gives the same profiles and, profile by profile, the same name, path, params, switch, interfaces and PID, and the default limit; an invalid backup leaves the table empty |
| `RoundTrip.LimitKept` | supervisor.c:1011-1032 | the limit of a module survives backup and load exactly if it is the one that every module gets |
| `Losses.LimitLost` | supervisor.c:1011-1032 | for every limit a document may give, a run after which it is lost |
| `Losses.BackupRefused` | supervisor.c:1035-1050 | a document that is loaded and whose backup is then refused |
| `RoundTrip.SavedOnce` | supervisor.c:1000-1060 | every module with a profile is written exactly once |
| `NextStart.BackupBoots` | supervisor.c:5385-5393 | the backup of any reachable state starts a run for which all theorems about runs hold again |
| `NextStart.AliveNotStarted` | supervisor.c:2165-2175 | a module whose process is alive when the first check of a period looks at it is not started in that period |
| `NextStart.NextStartKeeps` | supervisor.c:2165-2175 | the first period after loading the backup of any run starts no module whose process is still alive then |
| `DaemonProofs.CounterExact` | supervisor.c:1412-1436 | in every interleaving the counter at the acceptor's test is the occupied slots plus the clients about to decrement, so below the maximum a slot is free |
| `DaemonProofs.ScanFinds` | supervisor.c:1414-1436 | the scan for a free slot never runs past the slots |
| `DaemonServes.TakenBelowMaximum` | supervisor.c:1412-1436 | a connection is taken exactly if the counter is below the maximum |
| `DaemonServes.AcceptedIsServed` | supervisor.c:1412-1436 | in every interleaving a connection that was taken keeps its slot until, if threads can be created, a thread serves it |
| `DaemonServes.AcceptorAdvances` | supervisor.c:1414-1424 | each move of the acceptor brings it nearer to creating the thread, unless it waits for the lock |
| `DaemonProofs.WritesOwnSlot` | supervisor.c:1564-1587 | a client thread writes only to its own slot and only while nobody else owns it |
| `DaemonProofs.ModeExclusive` | supervisor.c:1621-1639 | in every interleaving at most one thread is in configuration mode, the flag is set exactly then, and the streams are that thread's or the defaults |
| `DaemonServes.ModeGranted` | supervisor.c:1621-1639 | a client that tests the flag when it is clear is served after its next five moves, whatever the others do in between, with the flag set and both streams its own |
| `DaemonServes.TurnedAway` | supervisor.c:1624-1630 | a client is turned away only while another one is in the mode |
| `DaemonServes.ReachesTest` | supervisor.c:1599-1623 | a client whose streams open and that sends the code gets as far as the test of the flag |
| `DaemonServes.ServedEquipped` | supervisor.c:1537-1562 | a served client is connected, with both streams open on its own socket |
| `DaemonServes.FreeSlotsEmpty` | supervisor.c:1564-1583 | in every interleaving a slot without a socket has no open stream and is marked unconnected, so no client leaves anything behind |
| `DaemonServes.ServedStays` | supervisor.c:1685-1714 | a served client whose input works is not sent away unless the daemon is to end |
| `DaemonProofs.AllReleased` | supervisor.c:1771-1777 | once all clients are gone the mode, the streams, the lock, the slots and the counter are as at the start |
| `Params.ExactGrammar` | supervisor.c:277-398 | the splitter accepts exactly the documented texts and gives exactly their arguments |
| `Params.QuotedRoundTrip` | supervisor.h:275-286 | non-empty arguments without apostrophes, put in apostrophes and joined by spaces, come back |
| `Params.CleanArguments` | supervisor.c:277-398 | no argument is empty or contains an apostrophe |
| `Params.ParseParams` | supervisor.c:277-398 | the loop with its buffer and doubling array stays in bounds and computes Split |
| `Selection.ExactGrammar` | supervisor.c:592-661 | over unbounded numbers, accepted are exactly the legal selections |
| `Selection.SelectionMeaning` | supervisor.c:629-657 | the result has no repetitions, holds exactly the numbers between the bounds of some interval, and keeps the order of first mention |
| `Selection.DanglingAccepted` | supervisor.c:611-618 | "4-" at the end is accepted and selects nothing |
| `Selection.ParseExactly` | supervisor.c:592-661 | in 32-bit ints a legal selection is parsed with that meaning exactly if every bound is below INT_MAX, and overflows otherwise |
| `Selection.ParseGrammar` | supervisor.c:592-661 | of all texts exactly the legal selections within bounds are accepted; any other is rejected or overflows |
| `Selection.IllegalRejected` | supervisor.c:592-628 | an illegal text without large numbers is rejected |
| `Selection.LargestOverflows` | supervisor.c:637-637 | "2147483647" fits in an int and overflows the loop |
| `Selection.ParseSelection` | supervisor.c:564-673 | the loops, with 32-bit variables that never leave their range and a growing array, compute Parse |
| `Supervisor.Supervisor.constructor` | supervisor.c:3786-3842 | an empty table with its first slots allocated |
| `Supervisor.StartsFresh` | supervisor.c:3786-3842 | that state is one where runs begin, and a document may be loaded into it |
| `Supervisor.ReadyToReload` | supervisor.c:4785-4812 | every reachable table satisfies what the loading loops rely on |
| `Supervisor.Supervisor.CheckModulesStatus` | supervisor.c:1878-1915 | the loop is the Check pass and counts the running modules |
| `Supervisor.Supervisor.StartModule` | supervisor.c:1786-1862 | the new record, process and log entry of a start, successful or not |
| `Supervisor.Supervisor.UpdateModulesStatus` | supervisor.c:2006-2041 | the loop is the Update pass |
| `Supervisor.Supervisor.StopModulesSigint` | supervisor.c:1940-1957 | the loop is the Sigint pass |
| `Supervisor.Supervisor.StopModulesSigkill` | supervisor.c:1959-1975 | the loop is the Kill pass |
| `Supervisor.Supervisor.CleanAfterChildren` | supervisor.c:1917-1938 | the loop is the Reap pass |
| `Supervisor.Supervisor.RemoveModule` | supervisor.c:3430-3442 | shifting the later slots down removes exactly one module and blanks the last slot |
| `Supervisor.Supervisor.ServeModules` | supervisor.c:2185-2204 | the loop over a table that shrinks under it is the Serve pass |
| `Supervisor.Supervisor.CheckConnections` | supervisor.c:2044-2061 | the loop is the Connect pass |
| `Supervisor.Supervisor.ConnectToModule` | supervisor.c:2119-2151 | what an attempt, due or not, does to descriptor, flag and timer |
| `Supervisor.Supervisor.ServicePeriod` | supervisor.c:2162-2283 | the thirteen loops are one Period, and when the thread leaves its loop |
| `Supervisor.Supervisor.StopEverything` | supervisor.c:3444-3472 | whatever is pending and on every kernel, the thread ends at the second status check at the latest if the flag is set at once |
| `Supervisor.Supervisor.StopLater` | supervisor.c:2162-2174 | the disabling, k turns, then the turns until the thread ends: exactly what the theorems about stop-all speak of |
| `Supervisor.Supervisor.SetEnabled` | supervisor.c:2682-2798 | the loop over the selection is the command |
| `Supervisor.Supervisor.SetDisabled` | supervisor.c:2889-3007 | the same for disabling |
| `Supervisor.Supervisor.RestartModules` | supervisor.c:2812-2882 | the same for restarting |
| `Supervisor.Supervisor.SwitchConfiguration` | supervisor.c:2627-2653 | the same for start-all and stop-all |
| `Supervisor.Supervisor.FindLoadedModule` | supervisor.c:963-972 | the first loaded slot with the name, or the loaded count |
| `Supervisor.Supervisor.ReloadConfiguration` | supervisor.c:5184-5558 | the loops over slots, profiles, modules and attributes apply a document exactly if it is valid, with the result the reload theorems are about |
| `Supervisor.Supervisor.GenerateBackup` | supervisor.c:974-1067 | the loops write the tree the round trip is about |

## Findings

Properties one might expect that the code does not have. Each has an input and the exact condition.

- Three periods are not always enough for a module that waits for its restart: the removal pass
  skips the neighbour of each module it removes. Input: `Witness.ThreeTooFew`. Condition:
  `Deadline.ThreeExactly` for three periods; `Deadline.StubbornSettles`, `Deadline.PromptSettles`
  and `Deadline.SettlesExactly` for any number; `Settling.Converges` bounds all of them.
- Stop-all need not end if the service thread works on between the disabling and the flag, which is
  written after the lock is released: a module that was pending a restart is enabled again by then
  and, after enough periods, up for good. Input: `Witness.StopAllHangs`. Condition:
  `Termination.StopAllExactly`, `Termination.StubbornStops` and `Termination.PromptStops`. With at
  most one period between them it always ends (`StopAll.StopAllEnds`).
- A reload that rebuilds the interfaces of a known module loses the first one if no white space
  precedes it, because the cursor is set back to the first child and then moves on.
  Input: `Interfaces.ScanLoses`. Condition: `Interfaces.ScanFaithful`; for the next reload
  `Fixpoint.ReloadAgain`.
- A backup cannot be loaded if an interface has no attribute at all or if there is no profile.
  Input: `Losses.BackupRefused`. Condition: `RoundTrip.WrittenValid`; `RoundTrip.BackupRoundTrip`
  says what is left then.
- The backup does not keep the restart limits of modules. Input: `Losses.LimitLost`. Condition:
  `RoundTrip.LimitKept`.
- A slot that a load adds to the table gets the restart limit 0, not the default, unless the
  document gives one. Input: `Losses.GrownLimits`. Condition: `ReloadTheorem.LimitOfNew`.
- The PIDs of the first document are trusted: two modules may record one process.
  Input: `Losses.SamePidTwice`. Condition: `ReloadKeeps.InitialKeepsInv`.
- "2147483647" makes the selection parser count past the largest int.
  Input: `Selection.LargestOverflows`. Condition: `Selection.ParseExactly`.
- A dash at the end of a selection is accepted and selects nothing.
  Input: `Selection.DanglingAccepted`. Condition: `Selection.ExactGrammar`.

## Left out

- The text of documents: libxml2 parsing and escaping, and included files. Documents are trees.
- Numbers in documents are unbounded; overflow in `sscanf` and `atoi` is not modelled.
- Fork, exec, pipes, `/proc`, signal handlers and sockets, but for the outcomes the kernel chooses.
- JSON statistics, menus, status printing, log browsing, CPU and memory percentages, `prep_module_args`.
- Status reads that take no lock (supervisor information, shutdown info).
- Start-up of the daemon and of the NETCONF server, and the command-line client.
- The descriptors that `daemon_disconnect_client` closes twice; slots hold one descriptor each.
- The paths of the loading functions that only an invalid document could take; validation comes first.
- Aliasing and memory management: the table, the profile list and the interface arrays are sequences that methods reassign, with the sizes of the arrays kept beside them.
- Settling.Converges: assumes that no module without a profile is enabled, because the code never stops one that a user enabled.
- Restart.RestartBudget: assumes that the counter is not above the limit, which a reload that lowers the limit may break until the window ends, because the code tests equality.
