# Verified model of fraktor-rs

A Dafny model of the hardest parts of the fraktor-rs actor toolkit, with proofs that hold
for every input, every run or every reachable state. `dafny verify dfyconfig.toml` checks
the whole project.

- **Supervision, restart and death watch** (`ChildrenContainer.dfy`, `DeathWatch.dfy`,
  `ActorCell.dfy`, `Supervision.dfy`, `SuspendCoverage.dfy`, `TreeWatch.dfy`,
  `TreeWaits.dfy`, `LocalView.dfy`, `FailureLedger.dfy`, `UserWatch.dfy`,
  `RestartOutcome.dfy`, `Orphans.dfy`, `Histories.dfy`, `ResumeScope.dfy`,
  `ChainRuns.dfy`). The child registry and the cell are classes whose methods edit their
  fields as the code does; the code's debug assertions appear as preconditions of the
  steps they guard, so every call proves them. A tree of cells exchanging system messages
  through first-in first-out inboxes gives the theorems about whole runs: each suspend
  counter covers everything that will still take from it, so `fault_recreate` always finds
  its mailbox suspended; every failure is one report and one suspension, and every report
  has one answer; the death of a child always reaches the parent that supervises it, and
  everybody who asked to be told of it; a deferred restart or stop completes exactly once,
  when nobody it waits for is owed any more; everybody marked to die will stop, and so
  nobody who waits is stranded, exactly until a restart overrides a stop that somebody
  waits for; and a parent that ends leaves no running child behind, exactly until one of
  two kinds of move.
- **Stream plans** (`StageGraph.dfy`, `StreamPlan.dfy`). Port collection, edge resolution,
  degree checks and Kahn's sort with a stack of ready stages, as loops over vectors;
  the sort succeeds exactly on acyclic graphs.
- **Event sourcing** (`Retention.dfy`, `EventStore.dfy`, `Effector.dfy`,
  `EffectorProgress.dfy`, `EffectorBehavior.dfy`, `CrashSafety.dfy`, `SnapshotSafety.dfy`,
  `LogRetention.dfy`, `RetentionRuns.dfy`). The chain of waits in Persisted mode is run against a store that
  takes commands in order and may fail at any of them, interleaved with arriving user
  messages; it always comes to its end, and has then had the effect of the one-shot
  Ephemeral branch, or has failed. A crash at any point recovers the fold of all events
  stored, from the newest snapshot and from every other one above the deletion bound, and
  the log and the snapshots left are exactly those the criteria ask for.
- **Small protocols** (`PipeTasks.dfy`, `SelfEvents.dfy`, `EmbassyQueue.dfy`). Interleaved
  lock sections, with safety over all runs.
- **Stash replay and the cfg reader** (`Stash.dfy`, `CfgGate.dfy`). Conservation of
  messages with its exact condition, and a splitter that undoes printing.

## What the proofs found

- A stash replay onto a bounded deque is not all-or-nothing. `prepend_via_deque` inserts
  from the back and stops at the first rejection, and the caller then restores the whole
  stash, so the messages already inserted are there twice. `Stashing.MessagesConserved`
  gives the exact condition and `Stashing.HalfwayRepeats` a case for any three messages.
- `subscribe_self_removed` loses a removal seen last at the end of the replay when an Up
  event comes in before the claim (`SelfEvents.OvertakenIsLost`);
  `SelfEvents.RemovedDelivered` says exactly when it is delivered. `subscribe_self_up`
  loses an Up event of the replay when the state was read before it
  (`SelfEvents.ReplayedUpIsLost`, with the exact condition in `SelfEvents.UpDelivered`).
- A Resume directive under AllForOne, and a child added to a suspended parent, each lead to
  a restart on a mailbox that is not suspended (`ResumeScope.AllForOneResumeUncovers`,
  `ChainRuns.SpawnWhileSuspendedUncovers`, both whole runs from the root), and the late
  report of a child that was let go uncovers its counter (`ChainRuns.LateReportUncovers`).
  They are the conditions in the scope of the coverage theorem.
- A stopping parent still answers the failure of a child with a restart, and a Recreate
  replaces the reason of a stop under way. The child then restarts instead of stopping,
  and its parent waits for good (`ChainRuns.OverrideStrands`). Only a Recreate that
  overrides a stop which an open actor waits for, with no further Stop queued, does that,
  and each one does (`TreeWatch.MoveExact`, and `TreeWatch.PromiseKeptExactly` for whole
  runs).
- A parent that is stopping still accepts new children. Nobody stops those, and they run on
  after it has ended (`ChainRuns.SpawnWhileStoppingOrphans`). `Orphans.OwnedExactly` says
  which moves leave a child behind: these spawns, and a Recreate that turns back the stop
  of a child whose parent no longer keeps it.
- `finish_recreate` resumes the cell and not its children: a child that `pre_restart` kept
  stays suspended with nothing in flight (`ChainRuns.KeptChildStaysSuspended`). The children
  this happens to are exactly those neither stopped by the hook nor marked to die before,
  also when the restart is deferred (`RestartOutcome.SurvivorsExact`,
  `RestartOutcome.DeferredFinish`).
- Without its supervision watch a child's `unregister_child` swallows the deferred reason
  (`DeathWatch.UnsupervisedLosesReason`), which is what the comment in the code warns of.
  In no run of the tree is a child without it (`TreeWatch.DeathReachesParent`).
- A request to watch that is still queued when its target ends is dropped, and its sender is
  not told; whoever's request was handled is (`UserWatch.EndTellsWatchers`).
- The cfg gate refuses some expressions that do imply `test`, such as `any(test)`
  (`CfgGate.AnyTestRefused`); on conjunctions it is exact.

## Model

| member | source | states |
|---|---|---|
| `ChildRegistry.StepKeepsValid` | modules/actor-core-kernel/src/actor/children_container.rs:104-237 | every operation keeps unique pids, Normal non-empty, Terminating with a non-empty `to_die` inside the children, and Terminated absorbing |
| `ChildRegistry.TouchesOne` | modules/actor-core-kernel/src/actor/children_container.rs:277-298 | a failure sets the statistics of its own child, adding it if it is missing, and leaves those of every other child, the order and a wait under way alone |
| `ChildRegistry.RunKeepsValid` | modules/actor-core-kernel/src/actor/children_container.rs:104-237 | the same in every state of every run in which only registered children are marked to die |
| `ChildRegistry.LastRemovalReports` | modules/actor-core-kernel/src/actor/children_container.rs:201-237 | of any removals, exactly the one that empties `to_die` reports the reason |
| `ChildRegistry.SettlesOnLast` | modules/actor-core-kernel/src/actor/children_container.rs:201-237 | removing the whole `to_die` set ends in the settled container: Terminated for a stop, otherwise the other children |
| `ChildRegistry.RemovalOrderIrrelevant` | modules/actor-core-kernel/src/actor/children_container.rs:201-237 | any two orders of removal end in the same container |
| `ChildRegistry.ChildrenContainer.Add` | modules/actor-core-kernel/src/actor/children_container.rs:104-122 | the container afterwards, in each of the four variants |
| `ChildRegistry.ChildrenContainer.MarkDying` | modules/actor-core-kernel/src/actor/children_container.rs:132-155 | the container afterwards; marking twice changes nothing |
| `ChildRegistry.ChildrenContainer.SetTerminationReason` | modules/actor-core-kernel/src/actor/children_container.rs:167-176 | the reason is replaced exactly in Terminating, and the result says so |
| `ChildRegistry.ChildrenContainer.RemoveAndGetStateChange` | modules/actor-core-kernel/src/actor/children_container.rs:201-237 | the container afterwards and the reported reason |
| `ChildRegistry.ChildrenContainer.UpdateStats` | modules/actor-core-kernel/src/actor/children_container.rs:277-298 | a missing entry is created, its statistics are set, and Terminated refuses |
| `ChildRegistry.InsertChild` | modules/actor-core-kernel/src/actor/children_container.rs:344-350 | the loop inserts at the end unless the pid is there |
| `ChildRegistry.RetainChildren` | modules/actor-core-kernel/src/actor/children_container.rs:352-354 | the loop keeps exactly the other entries, in order |
| `DeathWatch.StepKeeps` | modules/actor-core-kernel/src/actor/actor_cell_death_watch.rs:179-212 | every event that reaches a cell, marks, stops, restarts, spawns and reports included, keeps the registry valid and every child under its supervision watch |
| `DeathWatch.CompletesAtLast` | modules/actor-core-kernel/src/actor/actor_cell_death_watch.rs:214-225 | in every run an event completes a deferred restart or stop exactly when it is the notification of the only pid left among those marked by then, with the reason then in force |
| `DeathWatch.WaitsForOwed` | modules/actor-core-kernel/src/actor/actor_cell_children.rs:155-171 | during a wait the cell waits exactly for those marked and not notified since, with the last reason set |
| `DeathWatch.CompletesExactlyOnce` | modules/actor-core-kernel/src/actor/actor_cell_death_watch.rs:179-236 | a wait completes at the first event after which nobody is owed, for any order, duplicates, and children stopped, spawned, failing or unregistered on the way; the reason is the last one set, be it by a stop or a restart |
| `DeathWatch.NewWaitBetween` | modules/actor-core-kernel/src/actor/actor_cell_death_watch.rs:179-236 | between two completions some event marked a child: one completion per wait |
| `DeathWatch.NoRestartUnlessSet` | modules/actor-core-kernel/src/actor/actor_cell_fault_handling.rs:130-146 | in no run does a notification complete a restart unless one was set, whoever was stopped on the way, as by a `pre_restart` that failed afterwards |
| `DeathWatch.AfterFailureExact` | modules/actor-core-kernel/src/actor/actor_cell_fault_handling.rs:371-396 | who is registered after a failure: the children there were and the failed one, without those a Stop directive removes, and nobody is removed during a wait |
| `DeathWatch.UnsupervisedLosesReason` | modules/actor-core-kernel/src/actor/actor_cell_children.rs:23-46 | without the supervision watch the reason is lost and nothing completes |
| `ActorCells.ActorCell.RegistrationKindOf` | modules/actor-core-kernel/src/actor/actor_cell_death_watch.rs:70-80 | NotWatched, Plain or WithMessage as the map of user watches says |
| `ActorCells.ActorCell.WatchUser` | modules/actor-core-kernel/src/actor/actor_context.rs:414-456 | adds the key to the map of user watches; says when it is a duplicate, leaves nothing behind when the send fails, and tells the cell itself of a closed target; counts one registration exactly when the key is new |
| `ActorCells.ActorCell.WatchWithMessage` | modules/actor-core-kernel/src/actor/actor_context.rs:534-563 | adds key and message, or changes nothing; a failed send is rolled back completely, and a closed target is told at once; counts one registration exactly when the key is new |
| `ActorCells.ActorCell.RegisterWatchWith` | modules/actor-core-kernel/src/actor/actor_cell_death_watch.rs:247-257 | its assertion is a precondition that every caller meets |
| `ActorCells.ActorCell.Unwatch` | modules/actor-core-kernel/src/actor/actor_context.rs:464-479 | removes the key and its message, and no supervision entry; registers and delivers nothing |
| `ActorCells.ActorCell.RegisterChild` | modules/actor-core-kernel/src/actor/actor_cell_death_watch.rs:104-106 | a child is added together with its supervision watch, and user watches stay |
| `ActorCells.ActorCell.UnregisterChild` | modules/actor-core-kernel/src/actor/actor_cell_children.rs:39-46 | removes the entry of a child nobody watches, and leaves a supervised registry as it is |
| `ActorCells.ActorCell.RollBackSpawn` | modules/actor-core-kernel/src/system/base.rs:810-831 | dropping the supervision watch and then unregistering takes a failed spawn back and keeps everything else |
| `ActorCells.ActorCell.StopAllChildren` | modules/actor-core-kernel/src/actor/actor_context.rs:337-362 | marks every child, drops its user watch and message, keeps supervision |
| `ActorCells.ActorCell.MarkChildrenForTermination` | modules/actor-core-kernel/src/actor/actor_cell_children.rs:155-171 | nobody to wait for, already stopping, or all children marked with reason Termination; its assertion holds |
| `ActorCells.ActorCell.HandleStop` | modules/actor-core-kernel/src/actor/actor_cell_lifecycle.rs:40-64 | stops at once exactly when there are no children, otherwise waits with reason Termination |
| `ActorCells.ActorCell.FinishTerminate` | modules/actor-core-kernel/src/actor/actor_cell_lifecycle.rs:66-107 | its assertion that no child is left is a precondition that every caller meets; every watch entry is to be notified once, and none stays |
| `ActorCells.ActorCell.HandleWatch` | modules/actor-core-kernel/src/actor/actor_cell_death_watch.rs:114-128 | registers the watcher once, or has it told at once when the cell has ended |
| `ActorCells.ActorCell.HandleUnwatch` | modules/actor-core-kernel/src/actor/actor_cell_death_watch.rs:130-132 | drops the user watcher and no supervision watcher |
| `ActorCells.ActorCell.FaultRecreate` | modules/actor-core-kernel/src/actor/actor_cell_fault_handling.rs:104-156 | changes nothing when fatally failed; after a failing `pre_restart` the stored cause is the old one, a wait under way keeps its reason, and one that begins is on user request for exactly the children there are; otherwise the registry and the map of user watches afterwards, and deferred with the cause stored or finished at once outside Terminating; registers and delivers nothing |
| `ActorCells.ActorCell.FinishRecreate` | modules/actor-core-kernel/src/actor/actor_cell_fault_handling.rs:161-182 | runs only outside the Terminating variant, and turns custom messages into plain watches |
| `ActorCells.ActorCell.HandleDeathWatchNotification` | modules/actor-core-kernel/src/actor/actor_cell_death_watch.rs:179-236 | registry, completion, user delivery and map of user watches afterwards; registers nothing, so deliveries never exceed registrations; the stored cause is the one delivered |
| `ActorCells.TakeNotice` | modules/actor-core-kernel/src/actor/actor_cell_death_watch.rs:264-273 | the message of the pid, and all other entries are kept by `swap_remove` |
| `ActorCells.DropBoth` | modules/actor-core-kernel/src/actor/actor_cell_death_watch.rs:187-208 | dropping a pid from both lists drops its key from the map and no other |
| `ActorCells.AddWithMessage` | modules/actor-core-kernel/src/actor/actor_cell_death_watch.rs:247-257 | both lists together stand for the map with one more key |
| `SuspendCoverage.ReportCell` | modules/actor-core-kernel/src/actor/actor_cell_fault_handling.rs:244-266 | a report suspends the cell, sends Suspend to its open children and one Failure to its parent, and nothing else |
| `SuspendCoverage.SuspendKeeps` | modules/actor-core-kernel/src/actor/actor_cell_dispatch.rs:118-124 | a suspend wave keeps every counter covering |
| `SuspendCoverage.ResumeKeeps` | modules/actor-core-kernel/src/actor/actor_cell_dispatch.rs:125-155 | so does a resume passed on to the children |
| `SuspendCoverage.ReportKeeps` | modules/actor-core-kernel/src/actor/actor_cell_fault_handling.rs:244-266 | so does a failure report, which suspends the cell and its children |
| `SuspendCoverage.RecreateKeeps` | modules/actor-core-kernel/src/actor/actor_cell_fault_handling.rs:104-156 | so does the first phase of a restart, deferred or not |
| `SuspendCoverage.PaidFinishKeeps` | modules/actor-core-kernel/src/actor/actor_cell_fault_handling.rs:161-219 | so does the second phase, also when `post_restart` fails |
| `SuspendCoverage.NotificationKeeps` | modules/actor-core-kernel/src/actor/actor_cell_death_watch.rs:179-236 | so does a notification, whatever it completes |
| `SuspendCoverage.FailureKeeps` | modules/actor-core-kernel/src/actor/actor_cell_fault_handling.rs:271-399 | so does the answer to a failure, for each directive and strategy; a Resume must reach the failed child alone |
| `SuspendCoverage.RestartAllKeeps` | modules/actor-core-kernel/src/actor/actor_cell_fault_handling.rs:288-322 | AllForOne siblings are suspended before they are told to restart |
| `SuspendCoverage.StopEases` | modules/actor-core-kernel/src/actor/actor_cell_lifecycle.rs:40-107 | a stop asks no counter for more |
| `SuspendCoverage.MoveKeeps` | modules/actor-core-kernel/src/actor/actor_cell_dispatch.rs:96-190 | every step in scope keeps the invariant |
| `SuspendCoverage.RunCovered` | modules/actor-core-kernel/src/actor/actor_cell_fault_handling.rs:104-355 | in every state of every run in scope each suspend counter covers unanswered reports, queued restarts and resumes, a deferred restart, and resumes still to come from above |
| `SuspendCoverage.RestartsFindSuspended` | modules/actor-core-kernel/src/actor/actor_cell_fault_handling.rs:139-142 | the assertion of `fault_recreate` never fires in such a run |
| `LocalView.MoveAt` | modules/actor-core-kernel/src/actor/actor_cell_dispatch.rs:96-190 | what a step, with all its loops over children, siblings and watchers, does to the cell of any one open actor: the messages it gets in order, its counter, its failure record, its watchers, its registry and its deferred cause |
| `LocalView.MoveEnds` | modules/actor-core-kernel/src/actor/actor_cell_lifecycle.rs:40-107 | a step ends an actor exactly when that actor handles a Stop without children or its last notification while stopping |
| `LocalView.MoveFinal` | modules/actor-core-kernel/src/actor/actor_cell_lifecycle.rs:66-107 | no step brings an ended actor back |
| `LocalView.SpawnBegins` | modules/actor-core-kernel/src/actor/actor_cell_death_watch.rs:104-106 | a new actor has its Create to handle, is watched by its parent and registered with it |
| `FailureLedger.EveryFailureAccounted` | modules/actor-core-kernel/src/actor/actor_cell_fault_handling.rs:271-399 | in every run, for each failure handled, the supervisor is suspended once more and its open parent has one more report of it for each of these: `on_child_failed` failed, it escalates, a child to restart is gone |
| `FailureLedger.EveryFailureAnswered` | modules/actor-core-kernel/src/actor/actor_cell_fault_handling.rs:288-353 | everybody the failure concerns gets exactly one of Recreate, Stop and Resume, the one the directive names, nobody else gets any, and the parent gets the reports in order |
| `FailureLedger.MoveReports` | modules/actor-core-kernel/src/actor/actor_cell_fault_handling.rs:244-266 | the reports between an open actor and its open parent grow by exactly the failures it incurs in the step and shrink by the one answered |
| `FailureLedger.ReportsConserved` | modules/actor-core-kernel/src/actor/actor_cell_fault_handling.rs:244-287 | over every run the failures an actor incurred are those its parent answered and those in the parent's inbox |
| `FailureLedger.OpenIsLive` | modules/actor-core-kernel/src/actor/actor_cell_fault_handling.rs:371-387 | in every run the registry of an open actor has not ended, so the defensive answer to a failure in a Terminated registry is never reached |
| `ResumeScope.AllForOneResumeUncovers` | modules/actor-core-kernel/src/actor/actor_cell_fault_handling.rs:346-353 | a run from the root, out of scope only at a Resume under AllForOne, that restarts an actor whose mailbox is not suspended |
| `ChainRuns.SpawnWhileSuspendedUncovers` | modules/actor-core-kernel/src/actor/actor_cell_children.rs:143-149 | such a run, out of scope only where a suspended actor spawns a child, which is resumed without having been suspended |
| `ChainRuns.LateReportUncovers` | modules/actor-core-kernel/src/actor/children_container.rs:277-298 | such a run, out of scope only where a suspended actor handles the report of a child it had let go, after which the counter of that child no longer covers |
| `ChainRuns.KeptChildStaysSuspended` | modules/actor-core-kernel/src/actor/actor_cell_fault_handling.rs:161-206 | a run in scope after which a child kept by `pre_restart` is suspended with nothing in flight |
| `RestartOutcome.SurvivorsExact` | modules/actor-core-kernel/src/actor/actor_cell_fault_handling.rs:104-156 | the children that survive the handling of a Recreate are exactly those not marked before and not stopped by the hook, in every registry it can find |
| `RestartOutcome.SurvivorsUntouched` | modules/actor-core-kernel/src/actor/actor_cell_fault_handling.rs:144-156 | a restart that stops no children changes no other cell, so nobody resumes the survivors |
| `RestartOutcome.DeferredFinish` | modules/actor-core-kernel/src/actor/actor_cell_death_watch.rs:214-225 | at the notification that finishes a deferred restart the children are exactly the survivors, the cell takes one suspension back and no other cell changes |
| `RestartOutcome.ImmediateFinish` | modules/actor-core-kernel/src/actor/actor_cell_fault_handling.rs:161-206 | so it is when the restart finishes at once |
| `RestartOutcome.IgnoredRecreate` | modules/actor-core-kernel/src/actor/actor_cell_fault_handling.rs:104-138 | a Recreate ignored by a fatally failed cell or after a failing `pre_restart` takes nothing from the counter, no report and no deferred restart |
| `TreeWatch.TerminateTied` | modules/actor-core-kernel/src/actor/actor_cell_lifecycle.rs:66-107 | the end of an actor leaves its parent a notification behind every report it still has from it |
| `TreeWatch.MoveKeepsTies` | modules/actor-core-kernel/src/actor/actor_cell_dispatch.rs:96-190 | every move keeps every lifeline, and keeps a Stop on its way to everybody marked to die unless it abandons a waiting actor |
| `TreeWatch.OnRecreateExact` | modules/actor-core-kernel/src/actor/actor_cell_fault_handling.rs:104-156 | handling a Recreate keeps the promise that everybody marked to die will stop exactly when it does not override a stop that an open actor waits for, with no further Stop queued |
| `TreeWatch.MoveExact` | modules/actor-core-kernel/src/actor/actor_cell_dispatch.rs:96-190 | no other move can break that promise |
| `TreeWatch.PromiseKeptExactly` | modules/actor-core-kernel/src/actor/actor_cell_fault_handling.rs:144-153 | over every run without forged messages the promise holds in all states exactly when no move abandons a waiting actor |
| `TreeWatch.DeathReachesParent` | modules/actor-core-kernel/src/actor/actor_cell_death_watch.rs:138-155 | in every run without forged messages an open actor has a valid registry and all its children under supervision watch, and each child lives with the actor to notify or its notification is in the inbox |
| `UserWatch.WatchersExact` | modules/actor-core-kernel/src/actor/actor_cell_death_watch.rs:114-132 | in every run an open actor lists exactly those whose last handled request asks to be told, each once |
| `UserWatch.EndTellsWatchers` | modules/actor-core-kernel/src/actor/actor_cell_death_watch.rs:138-155 | when an actor ends every open actor gets one notification if it asked for it and one if it is the parent, and none otherwise |
| `UserWatch.WatcherIsTold` | modules/actor-core-kernel/src/actor/actor_cell_death_watch.rs:114-155 | once a request to watch was handled and as long as it is not taken back, the watcher is listed or was told, unless it had ended before |
| `UserWatch.EndsOnce` | modules/actor-core-kernel/src/actor/actor_cell_lifecycle.rs:66-107 | an actor ends once, so nobody is told twice for one watch |
| `TreeWatch.NeverStranded` | modules/actor-core-kernel/src/actor/actor_cell_lifecycle.rs:40-64 | whoever waits for children to die has somebody below, or itself, with a message to handle, as long as no Recreate has overridden a stop that somebody waited for |
| `ChainRuns.OverrideStrands` | modules/actor-core-kernel/src/actor/actor_cell_fault_handling.rs:144-153 | a run from the root with one overriding Recreate, after which an actor waits for a child that restarted and nobody has a message |
| `Orphans.MoveOwned` | modules/actor-core-kernel/src/actor/actor_cell_lifecycle.rs:40-107 | a move leaves some open child neither kept by a parent that is not stopping nor facing its own end exactly when it spawns under a stopping parent or turns back the stop of a child nobody keeps |
| `Orphans.OwnedExactly` | modules/actor-core-kernel/src/actor/children_container.rs:104-237 | the same over every run without forged messages |
| `Orphans.EndedLeavesNobody` | modules/actor-core-kernel/src/actor/actor_cell_lifecycle.rs:66-107 | without such moves an actor that has ended leaves only children that are stopping or have their Stop to come |
| `Orphans.IdleHasNoOrphans` | modules/actor-core-kernel/src/actor/actor_cell_lifecycle.rs:40-107 | in an idle state of a run that leaves nobody behind and abandons nobody, nobody waits and every open actor has an open parent |
| `ChainRuns.SpawnWhileStoppingOrphans` | modules/actor-core-kernel/src/actor/children_container.rs:104-122 | a run from the root with one such spawn, after which the child of an ended parent is open, not stopping, and nobody has a message |
| `TreeWaits.MoveProjects` | modules/actor-core-kernel/src/actor/actor_cell_dispatch.rs:96-174 | what a move does to the registry of any actor is a sequence of registry events |
| `TreeWaits.RunProjects` | modules/actor-core-kernel/src/actor/actor_cell_dispatch.rs:96-174 | over any run the registry of an actor that stays open goes through a genuine run of events |
| `TreeWaits.TreeWaitCompletes` | modules/actor-core-kernel/src/actor/actor_cell_death_watch.rs:214-225 | so in every run of the tree a wait finishes at a notification exactly when that leaves nobody owed, for the last reason set |
| `StreamPlan.FromParts` | modules/stream-core-kernel/src/lib.rs:316-339 | accepts exactly non-empty parts with distinct ports, resolvable edges, sound degrees, a source, a sink and no cycle; the plan lists sources, sinks and flows as it should |
| `StreamPlan.CollectStagePorts` | modules/stream-core-kernel/src/lib.rs:369-401 | succeeds exactly when ports are distinct; tables and source and sink indices are complete |
| `StreamPlan.StageIndexForPort` | modules/stream-core-kernel/src/lib.rs:436-442 | the stage that owns the port, or none exactly when nobody does |
| `StreamPlan.BuildTopology` | modules/stream-core-kernel/src/lib.rs:410-434 | resolves every edge to its stages and counts its ends, or no resolution exists |
| `StreamPlan.ValidateDegrees` | modules/stream-core-kernel/src/lib.rs:444-492 | accepts exactly the degrees each kind of stage allows |
| `StreamPlan.TopologicalOrder` | modules/stream-core-kernel/src/lib.rs:494-511 | succeeds exactly on acyclic graphs, with a permutation of all stages in which every edge goes forward; counts never underflow and the loop ends |
| `StreamPlan.CollectReadyDownstream` | modules/stream-core-kernel/src/lib.rs:523-535 | decrements without underflow, parallel edges included, and keeps the sorting invariant |
| `StreamPlan.ReadyStages` | modules/stream-core-kernel/src/lib.rs:513-521 | exactly the stages without incoming edges, in order |
| `StreamPlan.StuckHasCycle` | modules/stream-core-kernel/src/lib.rs:494-511 | when the stack is empty too early there is a cycle |
| `StageGraph.OrderExcludesCycles` | modules/stream-core-kernel/src/lib.rs:494-511 | a graph with a topological order has no cycle, self-loops included |
| `StreamPlan.FlowsOrdered` | modules/stream-core-kernel/src/lib.rs:537-545 | the flow order holds each flow once and every path between flows goes forward |
| `StreamPlan.ReadyAreSources` | modules/stream-core-kernel/src/lib.rs:463-521 | in an accepted plan the stages that are ready at first are exactly the sources |
| `StreamPlan.StageBetweenSourceAndSink` | modules/stream-core-kernel/src/lib.rs:316-339 | every stage of an accepted plan lies on a path from a source to a sink |
| `Retention.BoundIsExact` | modules/persistence-core-typed/src/retention_criteria.rs:47-64 | for all 64-bit inputs the checked arithmetic gives `every * (seq / every - keep)` in unbounded integers when that is positive, and nothing otherwise |
| `Retention.BoundBelow` | modules/persistence-core-typed/src/retention_criteria.rs:47-64 | the bound lies strictly below the snapshot that asked for it |
| `Retention.BoundMonotone` | modules/persistence-core-typed/src/retention_criteria.rs:47-64 | later snapshots never ask for less |
| `Retention.SurvivorsAreLatest` | modules/persistence-core-typed/src/snapshot_criteria.rs:53-62 | with a snapshot at every multiple, exactly the latest `min(keep, seq / every)` are left after each step |
| `RetentionRuns.ScriptSurvivors` | modules/persistence-core-typed/src/event_sourced_effector.rs:298-369 | single events with a snapshot offer each leave the snapshots that the criteria leave of the numbers |
| `RetentionRuns.RunKeepsLatest` | modules/persistence-core-typed/src/retention_criteria.rs:47-64 | whenever the user's behaviour is back, the store of a run of such operations holds exactly the latest `min(keep, n / every)` snapshots |
| `LogRetention.LogExact` | modules/persistence-core-typed/src/event_sourced_effector.rs:566-600 | whenever the user's behaviour is back, the log without `deleteEvents` is the starting one and everything persisted since, and with it exactly the part above the largest bound that a snapshot of the run asked for |
| `LogRetention.SnapshotsExact` | modules/persistence-core-typed/src/internal/ephemeral_persistence_store.rs:132-161 | and the snapshots are those of the start and those taken since, above that bound, in order |
| `LogRetention.ScriptLeaves` | modules/persistence-core-typed/src/event_sourced_effector.rs:298-369 | the same for the one-shot form, with the snapshots taken told from the operations and the criteria alone |
| `EventStore.PersistSound` | modules/persistence-core-typed/src/internal/ephemeral_persistence_store.rs:104-130 | storing events keeps the log the end of the history with its numbers |
| `EventStore.SnapshotSound` | modules/persistence-core-typed/src/internal/ephemeral_persistence_store.rs:132-152 | an honest snapshot keeps the store sound and is then the newest |
| `EventStore.DeleteEventsSound` | modules/persistence-core-typed/src/event_sourced_effector.rs:566-600 | deleting events up to the newest snapshot keeps the store sound |
| `EventStore.DeleteSnapshotsSound` | modules/persistence-core-typed/src/internal/ephemeral_persistence_store.rs:154-161 | deleting snapshots below the newest keeps the store sound and never deletes the newest |
| `EventStore.AnySnapshotRecovers` | modules/persistence-core-typed/src/internal/ephemeral_persistence_store.rs:73-102 | from a snapshot that reaches the start of the log, replay gives the fold of the whole history and its length |
| `EventStore.RecoverIsFold` | modules/persistence-core-typed/src/internal/ephemeral_persistence_store.rs:167-207 | recovery from the newest snapshot does |
| `EventStore.SelectionRecoversPrefix` | modules/persistence-core-typed/src/internal/ephemeral_persistence_store.rs:167-207 | recovery by snapshot criteria, upper sequence number and replay limit gives the fold of exactly that prefix of the history |
| `EventStore.LatestIsWhole` | modules/persistence-core-typed/src/internal/ephemeral_persistence_store.rs:167-207 | the default selection recovers everything |
| `EventStore.PublishedAsStored` | modules/persistence-core-typed/src/event_sourced_effector.rs:387-407 | the in-memory branch publishes events under the numbers the log stored them with |
| `Effector.DeferredCallsAlike` | modules/persistence-core-typed/src/event_sourced_effector.rs:212-369 | Deferred mode stores nothing and runs the same callbacks with the same arguments as Ephemeral mode |
| `Effector.StartSettles` | modules/persistence-core-typed/src/event_sourced_effector.rs:212-369 | whatever operations user code starts from an idle effector, the waits lead to the world of the one-shot form |
| `Effector.SignalSettles` | modules/persistence-core-typed/src/event_sourced_effector.rs:440-700 | each acknowledgement is taken in the wait it is meant for and keeps that promise |
| `Effector.ReadyAsEphemeral` | modules/persistence-core-typed/src/event_sourced_effector.rs:161-700 | whenever the user's behaviour is back, store, sequence number and callbacks equal those of the one-shot form, nothing is in flight, and the messages handled are the first that arrived |
| `Effector.NeverStuck` | modules/persistence-core-typed/src/event_sourced_effector.rs:440-700 | a waiting effector always has an acknowledgement to come, and it fails only with a stash filled to its capacity or with the error of a failure that the store gave before |
| `Effector.StashBounded` | modules/persistence-core-typed/src/event_sourced_effector.rs:440-480 | in every state the stash is within its capacity, and an effector that failed for it has a full one |
| `Effector.StashedOrFull` | modules/persistence-core-typed/src/event_sourced_effector.rs:440-480 | a user message that meets a waiting effector ends it exactly when the stash is full, and otherwise goes to the back of the stash and changes nothing else |
| `Effector.FailureIsFinal` | modules/persistence-core-typed/src/event_sourced_effector.rs:724-763 | once the store has failed, whether or not the command had its effect, the user's behaviour never comes back and no callback runs |
| `Effector.CallbackAfterAcks` | modules/persistence-core-typed/src/event_sourced_effector.rs:449-700 | a callback of a wait runs only when the last acknowledgement of its operation is taken |
| `Effector.RunInvariant` | modules/persistence-core-typed/src/event_sourced_effector.rs:172-196 | in every state of every run the effector is on course, with handled, stashed and waiting user messages together the arrivals in order through any nesting of waits, or its stash was full, or the store has failed and its notice is the one thing to come |
| `EffectorProgress.StepsUseWork` | modules/persistence-core-typed/src/event_sourced_effector.rs:440-700 | every store step, failing or not, and every signal taken brings a waiting effector nearer to its end, and user messages that come in between cost nothing |
| `EffectorBehaviors.EffectorBehavior.HandleToEnd` | modules/persistence-core-typed/src/event_sourced_effector.rs:212-700 | a user message is handled to its end: whatever script it starts terminates, with the effect of the one-shot form |
| `EffectorBehaviors.EffectorBehavior.Receive` | modules/persistence-core-typed/src/event_sourced_effector.rs:172-196 | receiving a message in place is the delivery step of the protocol, in recovery and in every wait |
| `EffectorBehaviors.EffectorBehavior.EventsPersisted` | modules/persistence-core-typed/src/event_sourced_effector.rs:457-533 | sequence number, snapshot request or callback, and the stash given back |
| `EffectorBehaviors.EffectorBehavior.SnapshotPersisted` | modules/persistence-core-typed/src/event_sourced_effector.rs:566-606 | sequence number, deletion request or callback |
| `EffectorBehaviors.EffectorBehavior.DeletionAcked` | modules/persistence-core-typed/src/event_sourced_effector.rs:632-687 | the matching acknowledgement moves on; any other fails and runs nothing |
| `EffectorBehaviors.EffectorBehavior.StartOps` | modules/persistence-core-typed/src/event_sourced_effector.rs:212-369 | the persist operations send their command and install their wait, or run the callback at once |
| `CrashSafety.ServeSound` | modules/persistence-core-typed/src/event_sourced_effector.rs:566-648 | each command leaves a sound store and never lowers the newest snapshot |
| `CrashSafety.EveryCrashRecovers` | modules/persistence-core-typed/src/event_sourced_effector.rs:546-700 | in every state of every run, also between two deletions and after a failure of the effector or of the store, recovery gives the fold of all events stored and their number |
| `CrashSafety.RecoveryHandsFold` | modules/persistence-core-typed/src/event_sourced_effector.rs:161-196 | what recovery hands to the user at the start of a run is the fold of the whole history, with its length |
| `CrashSafety.EmptySound` | modules/persistence-core-typed/src/internal/ephemeral_persistence_store.rs:167-171 | a store that was never used is a place to start |
| `CrashSafety.ReadyLogged` | modules/persistence-core-typed/src/event_sourced_effector.rs:440-543 | a ready effector has logged exactly what its operations persisted |
| `SnapshotSafety.ServeKept` | modules/persistence-core-typed/src/event_sourced_effector.rs:566-600 | no command deletes an event above the bound of the newest snapshot |
| `SnapshotSafety.SnapshotsAboveBoundRecover` | modules/persistence-core-typed/src/retention_criteria.rs:47-64 | in every state of every run each stored snapshot above the deletion bound recovers the fold of all events stored |
| `SnapshotSafety.ReadySnapshotsRecover` | modules/persistence-core-typed/src/event_sourced_effector.rs:632-687 | whenever the user's behaviour is back a stored snapshot reaches the log exactly when it is not one that already fell short of it at the start of the run, and then recovers everything |
| `SnapshotSafety.CrashStartable` | modules/persistence-core-typed/src/event_sourced_effector.rs:161-196 | what a run leaves behind, wherever it stopped, is a store to start from again |
| `PipeTasks.PipeTaskTable.Spawn` | modules/actor-core-kernel/src/actor/actor_cell_pipe_tasks.rs:32-48 | a new id and a parked task, or refused when terminated |
| `PipeTasks.PipeTaskTable.TakeForPoll` | modules/actor-core-kernel/src/actor/actor_cell_pipe_tasks.rs:75-88 | takes the task exactly when it is parked, and otherwise remembers the wake of a task being polled |
| `PipeTasks.PipeTaskTable.FinishPoll` | modules/actor-core-kernel/src/actor/actor_cell_pipe_tasks.rs:90-100 | the lists afterwards, and a repoll exactly for a remembered wake |
| `PipeTasks.NoLostWake` | modules/actor-core-kernel/src/actor/actor_cell_pipe_tasks.rs:50-106 | a live task woken since its last poll began has a message, a thread or a remembered wake on its way to a poll, in every state of every run |
| `PipeTasks.QuietMeansPolled` | modules/actor-core-kernel/src/actor/actor_cell_pipe_tasks.rs:50-106 | when everything is drained each task was polled after its last wake |
| `PipeTasks.LiveInOnePlace` | modules/actor-core-kernel/src/actor/actor_cell_pipe_tasks.rs:75-100 | a live id is once in exactly one of parked and polling, and one thread holds a polled task |
| `PipeTasks.DeliveredOnce` | modules/actor-core-kernel/src/actor/actor_cell_pipe_tasks.rs:57-65 | a result is delivered at most once, and then the task is gone |
| `PipeTasks.EachResultDelivered` | modules/actor-core-kernel/src/actor/actor_cell_pipe_tasks.rs:57-65 | when no thread is about to deliver, every poll that ended with a message has led to exactly one delivery |
| `PipeTasks.PolledAfterWake` | modules/actor-core-kernel/src/actor/actor_cell_pipe_tasks.rs:50-106 | when everything is drained a task that still lives has begun a poll after each of its wakes, told by the steps alone |
| `PipeTasks.WakeRemembered` | modules/actor-core-kernel/src/actor/actor_cell_pipe_tasks.rs:75-88 | a wake handled while its task is polled is remembered |
| `PipeTasks.WakeAnswered` | modules/actor-core-kernel/src/actor/actor_cell_pipe_tasks.rs:66-72 | the end of a poll with a remembered wake sends a repoll, unless the task is done |
| `SelfEvents.SelfEventState.SeedFromCurrentState` | modules/cluster-core-typed/src/cluster.rs:179-193 | seeds Up only when nothing was seen before |
| `SelfEvents.SelfEventState.SetSubscriptionId` | modules/cluster-core-typed/src/cluster.rs:203-209 | ends the replay and tells whether the subscription completed before |
| `SelfEvents.SelfEventState.ClaimSelfUp` | modules/cluster-core-typed/src/cluster.rs:211-220 | succeeds exactly after the replay, once, with Up seen last |
| `SelfEvents.SelfEventState.ClaimSelfRemoved` | modules/cluster-core-typed/src/cluster.rs:222-230 | succeeds exactly after the replay, once, with Removed seen last |
| `SelfEvents.SelfEventState.Complete` | modules/cluster-core-typed/src/cluster.rs:232-241 | completes, and yields the id only the first time |
| `SelfEvents.AtMostOnce` | modules/cluster-core-typed/src/cluster.rs:78-140 | under every interleaving at most one tell, of the subscribed kind, and at most one unsubscribe, of the own id |
| `SelfEvents.UnsubscribedOnce` | modules/cluster-core-typed/src/cluster.rs:303-364 | when both threads are done there was one unsubscribe if the subscription completed and none otherwise |
| `SelfEvents.RemovedDelivered` | modules/cluster-core-typed/src/cluster.rs:337-364 | Removed is told once exactly when seen after the replay, or last at its end and not overtaken by an Up event |
| `SelfEvents.UpDelivered` | modules/cluster-core-typed/src/cluster.rs:303-336 | Up is told once exactly when it came in after the replay on an open subscription, or was seen last at its end by the state read or with the event in hand and no removal came before the claim |
| `SelfEvents.ReplayedUpIsLost` | modules/cluster-core-typed/src/cluster.rs:303-336 | a run in which an Up event of the replay is not told |
| `SelfEvents.OvertakenIsLost` | modules/cluster-core-typed/src/cluster.rs:350-362 | a run in which the overtaken removal is not told |
| `EmbassyQueue.EmbassyExecutor.Execute` | modules/actor-adaptor-embassy/src/dispatch/embassy_executor.rs:44-51 | shut down, rejected when full, or queued and signalled |
| `EmbassyQueue.EmbassyExecutor.Shutdown` | modules/actor-adaptor-embassy/src/dispatch/embassy_executor.rs:53-56 | refuses further tasks and wakes the driver |
| `EmbassyQueue.EmbassyExecutor.DrainReadyWithLimit` | modules/actor-adaptor-embassy/src/dispatch/embassy_executor_driver.rs:24-35 | runs the first tasks in order, as many as the limit and the queue allow |
| `EmbassyQueue.EmbassyExecutor.RunOnce` | modules/actor-adaptor-embassy/src/dispatch/embassy_executor_driver.rs:38-46 | one turn of at most 64 tasks, and the signal is set again when tasks are left |
| `EmbassyQueue.ParkedMeansEmpty` | modules/actor-adaptor-embassy/src/dispatch/embassy_executor_driver.rs:38-53 | parked with the signal clear and no submitter between send and signal, the queue is empty and everything accepted has run |
| `EmbassyQueue.RunInOrder` | modules/actor-adaptor-embassy/src/dispatch/embassy_executor_driver.rs:24-35 | tasks run once each in the order they were accepted |
| `EmbassyQueue.AcceptedExactly` | modules/actor-adaptor-embassy/src/dispatch/embassy_executor.rs:44-51 | over every run the tasks accepted are exactly those sent while the queue had room, in order |
| `EmbassyQueue.ShutdownIsFinal` | modules/actor-adaptor-embassy/src/dispatch/embassy_executor.rs:53-56 | after a shutdown only submitters admitted before it can still send |
| `EmbassyQueue.TurnCounted` | modules/actor-adaptor-embassy/src/dispatch/embassy_executor_driver.rs:13-46 | never more than 64 tasks between two waits |
| `Stashing.Stash.Prepend` | modules/actor-core-kernel/src/dispatch/mailbox/base.rs:678-729 | all of the messages in front of the queue, or as many of the last ones as fit |
| `Stashing.Stash.StashWithLimit` | modules/actor-core-kernel/src/actor/actor_cell_stash.rs:20-31 | appends below the limit, and otherwise changes nothing |
| `Stashing.Stash.ClearStashed` | modules/actor-core-kernel/src/actor/actor_cell_stash.rs:40-46 | empties the stash and counts what was dropped |
| `Stashing.Stash.UnstashMessage` | modules/actor-core-kernel/src/actor/actor_cell_stash.rs:53-85 | the replay of one message |
| `Stashing.Stash.UnstashMessages` | modules/actor-core-kernel/src/actor/actor_cell_stash.rs:92-113 | the replay of all messages |
| `Stashing.Stash.UnstashMessagesWithLimit` | modules/actor-core-kernel/src/actor/actor_cell_stash.rs:120-167 | the replay of up to `limit` wrapped messages |
| `Stashing.Stash.RestoreStashed` | modules/actor-core-kernel/src/actor/actor_cell_stash.rs:169-175 | the loop puts the messages back in front in their order |
| `Stashing.SuccessMovesPrefix` | modules/actor-core-kernel/src/actor/actor_cell_stash.rs:120-167 | success places the wrapped prefix in order before the old mailbox |
| `Stashing.FailureRestores` | modules/actor-core-kernel/src/actor/actor_cell_stash.rs:53-175 | failure restores the stash, and leaves the mailbox as it was exactly when the replay did not stop halfway |
| `Stashing.CountConserved` | modules/actor-core-kernel/src/actor/actor_cell_stash.rs:53-175 | the number of messages is conserved exactly when no replay stops halfway |
| `Stashing.MessagesConserved` | modules/actor-core-kernel/src/actor/actor_cell_stash.rs:53-113 | so is the multiset of messages |
| `Stashing.HalfwayRepeats` | modules/actor-core-kernel/src/dispatch/mailbox/bounded_deque_message_queue.rs:98-116 | one free place and two stashed messages: the second ends up in both |
| `Stashing.WithinLimit` | modules/actor-core-kernel/src/actor/actor_cell_stash.rs:20-31 | with a fixed limit no sequence of operations brings the stash above it |
| `CfgGate.SplitTopLevelCfgArgs` | lints/module-wiring-lint/src/lib.rs:381-414 | the loop yields the trimmed pieces between top-level commas |
| `CfgGate.PiecesJoin` | lints/module-wiring-lint/src/lib.rs:381-414 | the pieces joined by commas are the input, for every string |
| `CfgGate.SplitPrinted` | lints/module-wiring-lint/src/lib.rs:381-414 | splitting printed arguments gives back exactly them, despite parentheses, quoted commas and escapes |
| `CfgGate.SplitNothing` | lints/module-wiring-lint/src/lib.rs:381-414 | no argument is read as one empty argument |
| `CfgGate.GateReadsTree` | lints/module-wiring-lint/src/lib.rs:369-379 | the test on strings agrees with the test on trees, and terminates on every string |
| `CfgGate.GateReadsAttribute` | lints/module-wiring-lint/src/lib.rs:361-367 | so does the test on whole attributes |
| `CfgGate.AcceptedOnlyInTests` | lints/module-wiring-lint/src/lib.rs:361-379 | an accepted attribute implies `test` in every build |
| `CfgGate.ExactOnConjunctions` | lints/module-wiring-lint/src/lib.rs:369-379 | on conjunctions it accepts exactly those that do |
| `CfgGate.AnyTestRefused` | lints/module-wiring-lint/src/lib.rs:369-379 | `any(test)` implies `test` and is refused |

## Left out

- The tree of cells in `Supervision.dfy` and the interleaved protocols are state machines on values: a handler, or a lock section, is one step. Update in place and the loops over children are captured by the classes in `ActorCell.dfy`, `ChildrenContainer.dfy`, `PipeTasks.dfy`, `SelfEvents.dfy`, `EmbassyQueue.dfy` and `EffectorBehavior.dfy`, one thread at a time.
- SuspendCoverage.RunCovered: only for runs in which nobody outside sends Resume, Recreate or Failure, a Resume answer reaches the failed child alone, and children are added to a parent, by a spawn or by a late report, only while it is not suspended. A run for each of the last three shows it is needed; which runs outside this scope stay covered all the same is not characterised.
- SuspendCoverage.RunCovered: bounds the counters from below. How long an actor stays suspended is not bounded: survivors of a restart stay so (`ChainRuns.KeptChildStaysSuspended`), and an ignored Recreate takes nothing back (`RestartOutcome.IgnoredRecreate`).
- TreeWatch.NeverStranded: says somebody can always move, not that the messages are scheduled fairly.
- TreeWaits.TreeWaitCompletes: speaks of an actor from the state in which it waits on, while it stays open.
- User hooks are outcomes that do not change the set of children; supervision statistics, strategy decisions and causes are opaque values.
- The mailbox is a suspend counter and a queue; dispatchers, the trampoline, scheduling, metrics, lifecycle events, timers and receive timeouts are not part of the model.
- What remains after `drop_pipe_tasks`: a task being polled at that moment is parked again. The runs of `PipeTasks.dfy` have no stop, restart or failed send.
- PipeTasks.NoLostWake: runs end before the 64-bit id counter wraps around.
- First-in first-out order across repeated single unstash calls: each call prepends.
- CrashSafety.EveryCrashRecovers: the snapshots offered by user code are the state of the aggregate at that point, and sequence numbers stay within 64 bits (the store saturates there).
- EventStore.SelectionRecoversPrefix: asks that the selected snapshot reach the start of the log; snapshots at or below the deletion bound need not. Event adapters are the identity, and snapshot timestamps are not part of the model.
- The journal and snapshot actors behind Persisted mode are a store with the same log and snapshots as the in-memory one, which takes each command in order and acknowledges it or gives a failure, with or without effect; a command never has half its effect, and no answer is lost.
- Event tags, timestamps and the event stream that published events go to.
- Source text is a sequence of characters, so byte offsets do not appear.
- `from_raw_parts`, materialised value combination, attributes and kill switches of stream plans.
- Typed facades, builders and configurations, the state-sourced effector, remote deployment, tick drivers, Tokio adaptors, other lints: field copies, repeats of the above, or input and output.
