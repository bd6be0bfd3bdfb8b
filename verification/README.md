# Verification of the Compose core

This project models the algorithms at the heart of the Compose commands and
proves what they guarantee: the concurrent traversal of the dependency graph
that runs under `up`, `start`, `stop`, `down` and `restart`; the convergence
engine that reconciles containers with services; the protocol that starts a
service only after the conditions on its dependencies were seen; and a number
of self-contained algorithms (labels, build dependencies, paths, the event
monitor, tables and progress lines).

`dafny verify dfyconfig.toml` checks everything.

## How the models are made

- Loops that update variables are methods with invariants, objects whose fields
  are updated are classes (`Graph`, `Vertex`, `Engine`, `Convergence`,
  `UpListeners`), and the progress lines are an array changed in place.
- A map is ranged over by picking any key that is left, so every result holds for
  every order of enumeration.
- Goroutines are a transition system. In module `Scheduler` a coordinating
  goroutine, the launching goroutine and one worker per vertex interleave; its
  atomic steps are the operations on the status map, the set of consumed
  vertices, the channel, the slots of the errgroup and the context. A theorem
  about `Run` is one about all interleavings, with failing visitors and with a
  caller who cancels at any moment. `ApplyProtocol` and `StartRuns` let the
  visitors' own steps interleave with those of the traversal.
- The engine is a set of containers changed by calls that may fail. What it
  answers to inspections, and the events it sends, are inputs. Hashing is an
  unknown function that may fail.

| file | models |
|---|---|
| `Digraphs.dfy` | directed graphs: walks, cycles, reachability |
| `Dependencies.dfy`, `Projects.dfy` | the graph with its cycle detector, and how a project becomes one |
| `Scheduler.dfy`, `SchedulerInvariant.dfy`, `SchedulerTrace.dfy`, `SchedulerProgress.dfy`, `SchedulerLimits.dfy`, `SchedulerExcess.dfy`, `SchedulerTogether.dfy` | the concurrent traversal: steps, invariant, order, progress, what it does not guarantee after a cancellation, and what runs at once |
| `SelectiveDown.dfy` | `down` for selected services |
| `Containers.dfy`, `ReplicaOrder.dfy`, `References.dfy`, `Engines.dfy`, `Convergence.dfy`, `Replicas.dfy`, `Policies.dfy` | the convergence of one service, and of its replicas over many rounds and under each policy |
| `ApplyProtocol.dfy` | the convergence of a project |
| `StartProtocol.dfy`, `StartConditions.dfy`, `StartRuns.dfy` | waiting for dependencies, what each condition asks for, and starting a project |
| `DependsOnLabel.dfy` | container labels, printed and parsed |
| `BuildClosure.dfy`, `Paths.dfy`, `TopColumns.dfy`, `LineFitting.dfy` | build dependencies, minimal roots, the table of `top`, progress lines |
| `Monitoring.dfy` | the event monitor, and the exit code of `up` |
| `Collections.dfy`, `Texts.dfy`, `Wrappers.dfy` | sequences and sets, Go's string functions, options and results |

## What turned out not to hold

Each of these is an equivalence that says exactly when the property holds, with
instances that show it fail.

- A traversal whose caller cancels can return nil without having visited every
  service, unless no service depends on another
  (`SchedulerLimits.NilMeansAllIff`).
- `--parallel` k bounds the visitors by k only until the context is cancelled, by
  the caller or by a first error: the coordinator then gives up its slot, and
  k + 1 may run, exactly if the graph has k + 1 independent services one of which
  has no dependencies (`SchedulerExcess.LimitExceededIff`).
- A wait for dependencies that times out is no error: the service is started
  although conditions were not seen, exactly if one was still undecided when the
  time was up (`StartProtocol.RequiredMetIff`). The message "timeout waiting for
  dependencies" needs an inspection that fails.
- `running_or_healthy` is decided by the first container without a health check;
  it can be trusted exactly if no container but the last lacks one
  (`StartProtocol.TrustworthyIff`).
- A recreated replica keeps its number exactly if that number is positive, or the
  user labels the service with it: `prepareLabels` writes no other
  (`Replicas.RecreatedKeepsNumberIff`). A replica labelled `0` loses its number,
  and its replacement can never be recreated (`Replicas.ZeroIsLost`).
- The comparator that arranges replicas is a strict order exactly if at most one
  of them is obsolete (`ReplicaOrder.StrictlyOrdersIff`).
- A service that a user labels with an image digest is recreated by every round,
  exactly if Compose has no digest for it (`Replicas.CreatedIsObsoleteIff`).
- `addBuildDependencies` compares the size of a set with the length of a list, so
  repeated services hide new ones (`BuildClosure.AddBuildDependencies` and
  `BuildClosure.RepetitionHides`).
- With `--abort-on-container-failure`, `--exit-code-from` loses the code of its
  service exactly if the first failure of all comes later
  (`ExitCodes.UpListeners.FailAndSelect`).
- Progress lines can stay too wide although they would fit without details: the
  details of the first line are cut first, and the number of passes is limited.
  Lines fit in the end exactly if the smallest ones do and the passes, counted
  beforehand, are at most a hundred (`LineFitting.AdjustLineWidth`).
- The label of `depends_on` is parsed back if and only if no name and no
  condition contains `,` or `:` (`DependsOnLabel.RoundTripIff`).

## Model

| member | source | states |
|---|---|---|
| Dependencies.Vertex.GetParents | pkg/compose/dependencies.go:226-233 | the parents, each exactly once, in any order |
| Dependencies.Vertex.GetChildren | pkg/compose/dependencies.go:249-256 | the children, each exactly once, in any order |
| Dependencies.Graph.AddVertex | pkg/compose/dependencies.go:307-314 | adds one isolated vertex under a new key; the two link maps stay mirror images |
| Dependencies.Graph.AddEdge | pkg/compose/dependencies.go:316-340 | fails exactly if an end is unknown, and names it; otherwise adds just this edge in both directions, once |
| Dependencies.Graph.Leaves | pkg/compose/dependencies.go:346-359 | exactly the vertices without children, each once |
| Dependencies.Graph.Roots | pkg/compose/dependencies.go:365-377 | exactly the vertices without parents, each once |
| Dependencies.Graph.UpdateStatus | pkg/compose/dependencies.go:379-384 | changes one status and nothing else of the graph |
| Dependencies.Graph.FilterChildren | pkg/compose/dependencies.go:390-405 | exactly the children in the given status |
| Dependencies.Graph.FilterParents | pkg/compose/dependencies.go:411-426 | exactly the parents in the given status |
| Dependencies.Graph.GetAncestors | pkg/compose/dependencies.go:239-247 | on an acyclic graph the recursion ends, and yields exactly the transitive parents |
| Dependencies.Graph.HasCycles | pkg/compose/dependencies.go:428-447 | true if and only if the relation has a directed cycle; the error is a walk that comes back to itself |
| Dependencies.Graph.Visit | pkg/compose/dependencies.go:449-468 | no error means that no walk from the vertex repeats a vertex, although the lists of the callees are dropped; ends because the path cannot outgrow the graph |
| Digraphs.AcyclicIffNoLasso | pkg/compose/dependencies.go:449-468 | the search for a repetition along a walk is complete: a graph is acyclic if and only if it has none |
| Projects.NewGraph | pkg/compose/dependencies.go:258-294 | succeeds if and only if the dependencies are acyclic and none that is required is missing or disabled; yields exactly their graph, and an error that is true of the project |
| Projects.BuildableIff | pkg/compose/dependencies.go:269-290 | when that is so, by the dependencies and their required flags |
| Projects.DependencyEdges | pkg/compose/dependencies.go:265-270 | which graph that is |
| Projects.PrunedKeeps | pkg/compose/dependencies.go:271-275 | the project loses only dependencies on services that are missing |
| SchedulerInvariant.RunInv | pkg/compose/dependencies.go:132-205 | the invariant of status map, consumed set, channel, counter and errgroup holds in every reachable state |
| SchedulerInvariant.KeepsAwake | pkg/compose/dependencies.go:180-190 | whatever is ready is about to be looked at: every vertex not yet consumed waits for another, or for a message or a scan under way; it rests on the status being updated before the send |
| SchedulerTrace.OrderSafety | pkg/compose/dependencies.go:166-192 | in every run a visitor is called at most once, and only when all it transitively comes after has returned without error or is ignored |
| SchedulerTrace.NothingAfterFailure | pkg/compose/dependencies.go:166-192 | nothing that comes after a failed vertex is ever visited |
| SchedulerProgress.MeasureDrops | pkg/compose/dependencies.go:132-205 | every step of every goroutine decreases a measure |
| SchedulerProgress.Terminates | pkg/compose/dependencies.go:132-164 | no run, fair or not, has more than 3n² + 12n + 4 steps |
| SchedulerProgress.SendNeverBlocks | pkg/compose/dependencies.go:142-144 | a worker that wants to send finds room in the channel, and finds it open |
| SchedulerProgress.NothingForgotten | pkg/compose/dependencies.go:145-158 | no lost wake-up: the coordinator is not left waiting alone unless the context is done |
| SchedulerProgress.NeverStuck | pkg/compose/dependencies.go:132-192 | until visit has returned some goroutine can step, also when eg.Go waits for a slot that the coordinator's side holds |
| SchedulerProgress.MaximalRunReturns | pkg/compose/dependencies.go:160-163 | a run that cannot go on has returned from visit |
| SchedulerProgress.ReturnsError | pkg/compose/dependencies.go:163 | the error is that of a visitor that failed; nil means that none did; no visitor is still running |
| SchedulerProgress.VisitsEverything | pkg/compose/dependencies.go:132-164 | without error and cancellation every vertex is visited, all are received, and the channel ends empty |
| SchedulerProgress.DependencyOrder | pkg/compose/dependencies.go:78-89 | in dependency order: each service after all its transitive dependencies, and all of them, which are then marked as started, in an undisturbed run |
| SchedulerProgress.FirstErrorStays | pkg/compose/dependencies.go:137-163 | the first error that a goroutine returns is the one that visit returns, and it cancels the context |
| SchedulerProgress.BoundedConcurrency | pkg/compose/dependencies.go:138-141 | at most k visitors run at once, and at most one more once the context is cancelled |
| SchedulerExcess.LimitExceededIff | pkg/compose/dependencies.go:138-163 | more than k visitors can run at once if and only if the graph has k + 1 vertices to visit none of which comes after another, and one of which comes after none at all |
| SchedulerTogether.UpTogetherIff | pkg/compose/dependencies.go:78-89 | in dependency order with a limit of k, services are visited at once in some run that is not cancelled if and only if none depends on another, at any distance, and there are at most k of them; a k of zero or less is no limit |
| SchedulerTogether.UpLimit | pkg/compose/dependencies.go:138-141 | never more than k, and one more once the context is cancelled |
| SchedulerTogether.UpExceedsIff | pkg/compose/dependencies.go:138-163 | that one more can run if and only if there are k + 1 independent services, one of which depends on none |
| SchedulerTogether.DownTogetherIff | pkg/compose/dependencies.go:91-102 | in reverse order any services that are not ignored can be visited at once, if none depends on another |
| SchedulerExcess.CrowdExceeds | pkg/compose/dependencies.go:138-163 | any such vertices can all be visited at once |
| SchedulerExcess.ExcessIsCrowd | pkg/compose/dependencies.go:138-163 | whenever more than k visitors run, whoever cancelled, they are such vertices |
| SchedulerExcess.SinksAreApart | pkg/compose/dependencies.go:138-163 | for instance any k + 1 services without dependencies |
| SchedulerLimits.NilMeansAllIff | pkg/compose/dependencies.go:145-163 | a nil result means that all was visited, also if the caller cancels, if and only if nothing that is to be visited comes after another vertex |
| SchedulerLimits.SilentInterruption | pkg/compose/dependencies.go:147-149 | every vertex that comes after another is left out by some cancelled run that returns nil |
| SchedulerLimits.NilVisitsSinks | pkg/compose/dependencies.go:160-163 | every nil result means that the vertices that come after none were visited |
| SelectiveDown.Ignored | pkg/compose/dependencies.go:104-130 | ignores exactly what is neither selected nor a transitive dependent of a selected service |
| SelectiveDown.CheckSelectedServices | pkg/compose/down.go:127-142 | with an explicit file the first unknown service is an error, without one unknown services are dropped |
| SelectiveDown.PlanDown | pkg/compose/down.go:64-92 | when down refuses, does nothing, or traverses; a traversal spares exactly what is neither selected nor reaches a selected service, and nothing if none is selected |
| SelectiveDown.VisitsExactlyDependents | pkg/compose/down.go:80-92 | with what PlanDown spares, every run removes only selected services and their transitive dependents, each after all its dependents; an undisturbed one removes all of them and leaves them marked as stopped |
| Containers.CheckExpectedNetworks | pkg/compose/convergence.go:361-382 | true if and only if a network other than "swarm" is missing from the container |
| Containers.CheckExpectedVolumes | pkg/compose/convergence.go:384-410 | true if and only if a named volume is missing from the container |
| Containers.DecideRecreate | pkg/compose/convergence.go:329-359 | the policies, and for the diverged one: hash, digest, networks if it runs, or volumes differ |
| Containers.RecreatedIffChanged | pkg/compose/hash.go:27-38 | with an injective hash, a container is recreated for a changed service if and only if more than the erased fields changed: build, pull policy, scale, dependencies, profiles |
| Policies.NeverKeeps | pkg/compose/convergence.go:330-332 | without recreation every container stays that is not scaled away, and then the highest numbers go |
| Policies.NeverKeepsNewest | pkg/compose/convergence.go:149-150 | without number labels the oldest go |
| Policies.ForceReplaces | pkg/compose/convergence.go:333-335 | with forced recreation none of the observed containers is left |
| Policies.DivergedKeepsIff | pkg/compose/convergence.go:336-358 | else a container stays if and only if its hash and image digest are those of the service and no network, if it runs, and no volume is missing |
| Policies.DivergedNeedsHash | pkg/compose/convergence.go:336-339 | a round that has a container to look at ends without error only if the service can be hashed |
| Policies.ScaleUpNumbers | pkg/compose/convergence.go:202-222 | new replicas have the numbers that follow on the highest one |
| Policies.CreatedAsAsked | pkg/compose/convergence.go:202-222 | what is new belongs to the service and has its hash and digest |
| Policies.RoundKeepsService | pkg/compose/convergence.go:112-225 | replicas remain those of their service |
| Containers.NameParts | pkg/compose/convergence.go:412-422 | a default name is read back by splitting it; a custom name is used as it is |
| Containers.DefaultNamesDiffer | pkg/compose/convergence.go:420-422 | different numbers give different default names |
| Containers.NextContainerNumber | pkg/compose/convergence.go:578-595 | at least one, above every numeric label, and only one above the highest |
| Texts.AtoiIff | pkg/compose/convergence.go:580-587 | a number label counts if and only if it is digits after at most one sign |
| References.NameLessIff | pkg/compose/containers.go:175-180 | names are compared lexicographically |
| References.ResolveMode | pkg/compose/convergence.go:296-327 | "service:" and a name give "container:" and the ID of a first container of that service, and fail if and only if it has none; any other mode stays |
| References.VolumeIs | pkg/compose/convergence.go:276-294 | "container:" and an ID give the ID, a service that of a first container; a mode that follows is dropped |
| References.FirstByName | pkg/compose/containers.go:175-180 | a container whose name no other precedes |
| References.ResolveServiceReferences | pkg/compose/convergence.go:264-327 | every reference names a first container of its service, and nothing else of the service changes; an error names a service without containers, or a bare "container" entry, and occurs if and only if there is one |
| ReplicaOrder.Sort | pkg/compose/convergence.go:131-151 | sorting with a comparator that says "less" both ways for obsolete containers still puts them first, and the others by descending number if all labels are numeric; nothing is lost |
| ReplicaOrder.StrictlyOrdersIff | pkg/compose/convergence.go:131-151 | for distinct numbers, the comparator is a strict total order if and only if at most one container is obsolete |
| ReplicaOrder.SortedIsUnique | pkg/compose/convergence.go:131-151 | then two sorted slices of the same containers, however long, are equal |
| ReplicaOrder.AnySort | pkg/compose/convergence.go:131-151 | so whatever sort runs, the result is that of insertion sort |
| ReplicaOrder.ScaleDownSelection | pkg/compose/convergence.go:153-164 | the tail that is removed has exactly the surplus; no up-to-date container goes while an obsolete one stays; among up-to-date ones the highest numbers go |
| Engines.RecreateContainer | pkg/compose/convergence.go:617-679 | without error the replacement was created under the old number, which is its label if positive, and has the final name, recorded under its temporary one, and the old container is gone; whenever the old one is gone the new one exists |
| Engines.RunAll | pkg/compose/convergence.go:154-222 | for every order of the goroutines each slot holds what was planned for it, the engine gained the created containers, under IDs not used before, and lost exactly the dropped and replaced ones |
| Convergence.GroupByService | pkg/compose/convergence.go:78-93 | the observed state lists for every service its containers in order, and every named service |
| Convergence.OfServiceAre | pkg/compose/convergence.go:82-85 | those are all containers labelled with the service, in the order of the state |
| Convergence.StartsIff | pkg/compose/convergence.go:183-197 | a kept container is started only in a state other than running, created, restarting or exited |
| Convergence.Convergence.StopDependentContainers | pkg/compose/convergence.go:227-252 | all containers of the dependents are stopped, in the engine and in the observed state; nothing but states changes |
| Convergence.Convergence.PlanObserved | pkg/compose/convergence.go:154-200 | what is planned for each slot; dependents are stopped before a container is recreated |
| Convergence.Convergence.EnsureService | pkg/compose/convergence.go:112-225 | without error the service has converged: exactly the desired number of slots, each with an up-to-date container, a replacement created under the old number, or a new number; the engine holds these instead of the observed ones, the IDs of new ones are fresh, none is removed that was not stopped, other services only change states; a scale above one with a container name is an error, and an error says what is the case |
| Convergence.Settles | pkg/compose/convergence.go:154-220 | the outcomes of the planned tasks make up the converged state, with distinct IDs |
| Replicas.RoundKeepsNumbers | pkg/compose/convergence.go:112-225 | one round that recreates only replicas whose number lasts, in particular one for positive numbers: the exact count, numbers kept or fresh, numbers and default names pairwise distinct |
| Replicas.RecreatedKeepsNumberIff | pkg/compose/create.go:503-506 | a recreated replica keeps its number if and only if that is positive or the user's own number label |
| Replicas.SlotsKeepNumbersIff | pkg/compose/convergence.go:628-655 | a round gives every slot its number if and only if it recreates only replicas whose number lasts |
| Replicas.NonPositiveIsLost | pkg/compose/convergence.go:628-635 | without a label of the user, a number that is not positive is lost in a forced recreation, and the next one fails |
| Replicas.ZeroIsLost | pkg/compose/convergence.go:628-635 | for instance the label 0 |
| Replicas.ScaleDown | pkg/compose/convergence.go:131-164 | what a round removes, if the numbers of recreated replicas last: exactly the surplus, obsolete replicas first, then the highest numbers |
| Replicas.RoundsKeepNumbers | pkg/compose/convergence.go:112-225 | over any sequence of rounds with any scales, configurations and policies distinct positive numbers stay distinct and positive, and counts exact |
| Replicas.CreatedIsObsoleteIff | pkg/compose/convergence.go:336-344 | a container just created is found obsolete if and only if the user sets a digest label that Compose does not |
| Replicas.SecondRoundChangesNothing | pkg/compose/convergence.go:112-225 | idempotence: a second round keeps all containers and IDs |
| ApplyProtocol.ReferencesAreConverged | pkg/compose/convergence.go:95-110 | in every interleaving an ID substituted for a dependency belongs to its converged state and is not removed or replaced, then or later |
| ApplyProtocol.ReadAllowed | pkg/compose/convergence.go:296-327 | what a mode was replaced by is a reference that a visitor may read |
| ApplyProtocol.CommitAllowed | pkg/compose/convergence.go:222-224 | what EnsureService leaves as the observed state is what a visitor may commit |
| ApplyProtocol.TakeAwayAllowed | pkg/compose/convergence.go:155-182 | what the engine lost while it ran is what a visitor may take away |
| ApplyProtocol.HaltAllowed | pkg/compose/convergence.go:227-252 | what it does to the observed state of dependents is what a visitor may do |
| ApplyProtocol.DependentUntouched | pkg/compose/convergence.go:227-252 | when containers of a dependent are stopped, its own convergence has not begun |
| ApplyProtocol.KeepsSound | pkg/compose/convergence.go:264-327 | no step of any visitor invalidates a reference that was resolved before |
| StartProtocol.IsServiceHealthy | pkg/compose/convergence.go:806-840 | the first container that is not simply healthy decides |
| StartProtocol.BrokenIff | pkg/compose/convergence.go:806-840 | a check fails exactly if the first container that decides is gone, exited, unhealthy or lacks the health check asked for |
| StartProtocol.HealthyMeansAll | pkg/compose/convergence.go:806-840 | for service_healthy, yes means that all containers are healthy, and conversely |
| StartProtocol.FallbackIff | pkg/compose/convergence.go:819-823 | for running_or_healthy, yes means that all up to the first without a health check are running or healthy, and conversely |
| StartProtocol.TrustworthyIff | pkg/compose/convergence.go:819-823 | yes always means that all are running or healthy if and only if no container but the last lacks a health check |
| StartProtocol.OneExited | pkg/compose/convergence.go:819-823 | for any other service, yes is possible although the last container has exited |
| StartProtocol.IsServiceCompleted | pkg/compose/convergence.go:842-853 | yes if and only if some container has exited and those before it could be inspected, with the exit code of the first; an inspection that fails earlier breaks the check |
| StartProtocol.Check | pkg/compose/convergence.go:481-541 | one tick: shown, broken for good, broken but optional, or undecided |
| StartProtocol.WaitFor | pkg/compose/convergence.go:475-548 | the outcome is that of the first tick that shows or breaks the condition, whether the dependency is required, and which check failed; no such tick is no failure |
| StartProtocol.OneDecides | pkg/compose/convergence.go:475-548 | only one tick can be the first, so the outcome is determined |
| StartProtocol.WaitDependencies | pkg/compose/convergence.go:448-553 | fails if and only if a dependency is to blame: unknown, required without containers, or broken before it was shown; the error names one; otherwise every polled one has its outcome |
| StartConditions.OutcomeIs | pkg/compose/convergence.go:482-541 | by the text of the condition: the outcome is decided by the first tick that is not pending; for service_healthy all containers are healthy, for running_or_healthy all up to one that runs without a health check, for service_completed_successfully the first that exited did so with code 0 |
| StartConditions.UnsupportedIsNotChecked | pkg/compose/convergence.go:537-540 | under any other condition the wait is given up at the first tick |
| StartConditions.BlamesIff | pkg/compose/convergence.go:455-474 | who is to blame: not what only has to be started, is disabled, not scaled or run by a plugin; else what is unknown, required without containers, or failed |
| StartConditions.AwaitedIff | pkg/compose/convergence.go:554-576 | which dependencies are waited for |
| StartConditions.AccusesRightly | pkg/compose/convergence.go:448-553 | the error names a dependency of which its reason is true |
| StartConditions.OneTick | pkg/compose/convergence.go:482-541 | the outcomes for one container at the first tick |
| StartConditions.StartsUntil | pkg/compose/convergence.go:873-905 | containers are started up to the first that fails, or whose hook fails |
| StartProtocol.ToStartAre | pkg/compose/convergence.go:873-877 | all that are not running, each once, in order |
| StartProtocol.RequiredMetIff | pkg/compose/convergence.go:475-480 | without error all required conditions were shown if and only if none was still undecided when its context was done |
| StartProtocol.SilentTimeout | pkg/compose/convergence.go:475-480 | for instance a required dependency that stays starting: nobody is to blame, and its condition was never shown |
| StartProtocol.StartService | pkg/compose/convergence.go:855-908 | fails without starting anything if and only if a dependency is to blame, or there is no container although the scale is not zero; else starts, in order, exactly what is not running, up to the first container that cannot be started or whose hook fails, which has been started; that is the error |
| StartRuns.TraversalRuns | pkg/compose/start.go:61-68 | the start protocol runs on the traversal, whose theorems apply |
| StartRuns.VisitorAllowed | pkg/compose/start.go:61-68 | what StartService does is what a visitor of the protocol may do |
| StartRuns.StartedAfterDependencies | pkg/compose/start.go:61-68 | without timeout and cancellation, a started service comes after startService succeeded for all transitive dependencies, and every required condition of all of them was shown |
| StartRuns.StartedAfterAnswers | pkg/compose/start.go:61-68 | and what their conditions ask for was among the answers of the engine |
| DependsOnLabel.EntryText | pkg/compose/create.go:510-512 | an entry is the name, the condition and true or false, with colons |
| DependsOnLabel.ShortForms | pkg/compose/compose.go:382-402 | older labels: no condition means running_or_healthy, no flag means restart; the texts that are read as true |
| DependsOnLabel.PreparedThenRebuilt | pkg/compose/compose.go:356-405 | services rebuilt from containers that were given the label have the dependencies it was made of, and a container for each unit of their scale |
| DependsOnLabel.FirstDecides | pkg/compose/compose.go:364-380 | image and labels are those of the first container with the label of the service |
| DependsOnLabel.PrintDependencies | pkg/compose/create.go:509-513 | the label parses back to the dependencies if and only if they are free of separators |
| DependsOnLabel.PrepareLabels | pkg/compose/create.go:497-515 | hash, number and dependency labels can be read back; other labels stay |
| DependsOnLabel.RoundTripIff | pkg/compose/compose.go:382-405 | for every order of the map, parsing gives back names, conditions and restart flags, required set, if and only if no separator occurs |
| DependsOnLabel.ProjectFromName | pkg/compose/compose.go:356-406 | one service per name, whose scale is the number of its containers and whose labels are those of the first |
| BuildClosure.NeedsIff | pkg/compose/build.go:285-297 | a service needs another if a context of its build is "service:" and that name; a disabled service counts if none is enabled under its name |
| BuildClosure.AddNeeds | pkg/compose/build.go:285-297 | adds exactly the services that the contexts of one service refer to |
| BuildClosure.AddBuildDependencies | pkg/compose/build.go:283-303 | ends, and yields the least closed set without repetitions, if and only if the guard of the recursion holds or nothing is missing |
| BuildClosure.DistinctIsComplete | pkg/compose/build.go:299-301 | that is so for every list without repetitions |
| BuildClosure.RepetitionHides | pkg/compose/build.go:299-301 | a list with a repetition for which a service is missed |
| Paths.CoversIff | internal/paths/paths.go:25-78 | component by component is: the root, the same path, or a prefix followed by a slash |
| Paths.DirDropsLast | internal/paths/paths.go:72-77 | going to the parent directory drops the last component and shortens the path |
| Paths.CoversLonger | internal/paths/paths.go:68-70 | a directory is shorter than what it contains, so the cut-off by length loses nothing |
| Paths.IsChild | internal/paths/paths.go:25-78 | the walk over strings decides whether one path is a component prefix of the other |
| Paths.Include | internal/paths/paths.go:87-117 | blanking and rebuilding leaves the result as it is if it covers the path, and else replaces what is below the path |
| Paths.EncompassingPaths | internal/paths/paths.go:84-120 | exactly the minimal paths, each once, in the order of their first occurrence; they cover all paths, and none covers another |
| Monitoring.Watch | pkg/compose/monitor.go:57-164 | the set always holds the containers that were there or came and have not gone since; listeners are told each event in order; it ends as empty exactly when no container is live for the first time before any error |
| Monitoring.Handle | pkg/compose/monitor.go:92-162 | one event keeps the live set, the restarting set and what was told in step |
| Monitoring.ToldIs | pkg/compose/monitor.go:100-160 | which event each message leads to, with its container, service and exit code |
| Monitoring.BreaksIff | pkg/compose/monitor.go:95-139 | which messages end the watch as an error |
| Monitoring.ListenersKnow | pkg/compose/monitor.go:100-160 | a listener that follows the events knows at any time which containers are live |
| ExitCodes.UpListeners.IgnoreAndSelect | pkg/compose/up.go:224-235 | without abort: the first exit code of the selected service, and no stop |
| ExitCodes.UpListeners.NobodyExits | pkg/compose/up.go:202-235 | without an exit: code zero, and no stop |
| ExitCodes.UpListeners.HandleEvent | pkg/compose/up.go:202-235 | stop is requested at most once, and the later of the two writes of the exit code wins |
| ExitCodes.UpListeners.StopAndSelect | pkg/compose/up.go:202-235 | abort on exit with a selected service: its first exit code, and one stop |
| ExitCodes.UpListeners.StopWithoutSelected | pkg/compose/up.go:202-224 | without an exit of the selected service: the code of the first exit that stops the project |
| ExitCodes.UpListeners.FailAndSelect | pkg/compose/up.go:202-235 | abort on failure: the code of the selected service survives if and only if the first failure does not come later |
| TopColumns.CollectTop | cmd/compose/top.go:81-120 | the header numbers the columns bijectively from 0, in the order of their appearance but CMD last; each row holds its process |
| TopColumns.RowHolds | cmd/compose/top.go:92-101 | what a row holds for each title, for the service and for the replica |
| TopColumns.RowsAre | cmd/compose/top.go:90-103 | one row for each process, container by container |
| TopColumns.HeaderIs | cmd/compose/top.go:81-120 | SERVICE and # are the first columns, CMD the last if there is one |
| TopColumns.ColumnsGrow | cmd/compose/top.go:94-98 | containers that come later add their columns behind |
| TopColumns.NotedGrows | cmd/compose/top.go:94-98 | the titles of a container get theirs in order |
| TopColumns.MoveCmd | cmd/compose/top.go:106-117 | the rotation in place, for every order of the map, moves CMD to the end and keeps the others in order |
| TopColumns.ColumnsIff | cmd/compose/top.go:84-100 | which columns there are |
| TopColumns.NotedAgain | cmd/compose/top.go:90-103 | a further process of a container adds no column |
| TopColumns.FilledAt | cmd/compose/top.go:92-101 | a row holds the last value given for each title of its container |
| TopColumns.FilledElsewhere | cmd/compose/top.go:92-101 | and the service and the replica, if no title overrides them |
| TopColumns.TopPrint | cmd/compose/top.go:122-147 | every slot of every line is filled, within bounds, under its title |
| LineFitting.TextLayout | cmd/display/tty.go:567-586 | where status and timer stand in the printed text, and its width |
| LineFitting.TextParts | cmd/display/tty.go:567-586 | the other parts of the printed text, and the blanks between them |
| LineFitting.CutTexts | cmd/display/tty.go:470-500 | what is left of a cut text is its beginning and three dots |
| LineFitting.ComputeOverflow | cmd/display/tty.go:446-462 | the excess of the widest aligned line, or zero |
| LineFitting.TruncateDetails | cmd/display/tty.go:466-479 | cuts the first line with details, or there is none |
| LineFitting.TruncateLongestTaskID | cmd/display/tty.go:483-504 | cuts the first of the longest task IDs above ten characters, or there is none |
| LineFitting.CutShrinks | cmd/display/tty.go:470-476 | a cut takes away the overflow, but leaves three characters of details or ten of a task ID |
| LineFitting.StepShrinks | cmd/display/tty.go:404-416 | every pass takes at least one character away, and keeps seven of a task ID |
| LineFitting.AdjustLineWidth | cmd/display/tty.go:399-417 | at most a hundred passes, each made because the lines did not fit; the lines fit in the end if and only if the smallest ones do and the passes spent on details and then on task IDs, both counted beforehand, are at most a hundred |
| LineFitting.IDPassesAtMost | cmd/display/tty.go:483-504 | the passes spent on task IDs are at most the characters that can be taken from them |
| LineFitting.DetailCutCounts | cmd/display/tty.go:466-479 | each cut of details is one of the passes counted |
| LineFitting.LinePassesOf | cmd/display/tty.go:466-479 | what one line's details cost: two passes if they are short compared to what the others lack, else their length divided by that |
| LineFitting.LimitReached | cmd/display/tty.go:404-416 | details of a line that is not the widest, more than a hundred times longer than what the others lack, use up all passes |
| LineFitting.OneColumnLacking | cmd/display/tty.go:404-416 | for instance any two lines with equally long details, for lack of one column |
| LineFitting.ApplyPadding | cmd/display/tty.go:371-397 | one column for all statuses, and the timer as far right as it goes |
| LineFitting.Layout | cmd/display/tty.go:322-346 | the printed lines: statuses aligned; if the adjusted lines fit, that is if the smallest do and the passes suffice, timers aligned at the right and no line wider than the terminal |

## Left out

- SchedulerProgress.BoundedConcurrency: the slot of a worker is released together with the end of its goroutine, and recording an error and cancelling are one step.
- ReplicaOrder.Sort: `sort.Slice` is modelled as the insertion sort that Go runs on at most twelve elements. With at most one obsolete container and distinct numbers every sort gives the same result (`ReplicaOrder.AnySort`). On more than twelve containers, several of them obsolete, Go partitions with a comparator that is inconsistent; nothing is claimed of that, and what is stated here holds of insertion sort only.
- Engines.RunAll: the goroutines of one service run one after the other, in any order; in the program the engine calls of different slots also interleave. They concern different containers, and new IDs differ in any case, as `ApplyProtocol` models for different services.
- Convergence.Convergence.EnsureService: an error found while planning returns at once, as in the code, but the goroutines started by then have ended in the model and run on in the program. Observed IDs are distinct and exist in the engine. Starting kept containers is part of their task, and what the engine does later with them is not followed.
- Engines.Engine.Create: networks and volumes that the engine attaches are arbitrary; idempotence assumes that they are what was requested. IDs are not reused. A short ID shorter than twelve characters, which would panic, does not occur.
- Engines.Engine.Remove: a container that is being removed already counts as removed. That a container was stopped before is recorded in a history of the model.
- Containers.DefaultName: the separator is a dash; the compatibility mode that uses an underscore is not modelled.
- Replicas.SecondRoundChangesNothing: resolved references are the same in both rounds. A recreated container is recorded under its temporary name, so the first container by name of a scaled dependency may differ between runs.
- References.ResolveVolumesFrom: the code writes into a slice shared with the project; the model returns a new one.
- Containers.RecreatedIffChanged: `ServiceHash` clears the replicas through a shared reference; in the model scale is read before, and hashing has no effect.
- ApplyProtocol.ReferencesAreConverged: provider services are run by plugins and have no containers of their own. Which recreate strategy a service gets is an input.
- StartProtocol.WaitDependencies: returning early for an unknown or missing dependency leaves polling goroutines running in the program. The wait after start (`--wait`), with the condition chosen for each service, is not modelled.
- StartProtocol.StartService: injecting secrets and configs and starting the container are one call that may fail, and so are the post-start hooks. Which of them fail is an input.
- Paths.IsChild: relative paths, paths that are not clean, and names that differ in case only, for which the file system is asked, are outside its precondition.
- LineFitting.Layout: every character takes one column; colours, spinners and the choice of how many lines to show are not modelled.
- LineFitting.AdjustLineWidth: the passes spent on task IDs are counted by following the cuts; in closed form they are only bounded (`LineFitting.IDPassesAtMost`).
- Monitoring.Watch: names and times of events are not modelled, nor the log printer among the listeners. A container once seen restarting is reported as restarting at every later start, as in the code.
- DependsOnLabel.ProjectFromName: the selection of services from the rebuilt project belongs to compose-go.
- Integers are unbounded.
- compose-go (dependencies of a service, scale, service selection, JSON) is an input; SHA-256 is an unknown function.
- Docker Engine, registry, build, plugin, file system, signal and keyboard calls, and the command line, are not modelled.
- Orphans, images, networks and volumes removed by down, image pulling, configuration merging, filters and validation are not modelled.
- The names of bake targets and the recursion over extends files in publish are not modelled: nothing in the code makes the names unique or the recursion end.
