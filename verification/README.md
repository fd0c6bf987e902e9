# Verified models of the terminal client's algorithms and protocols

These Dafny modules model the parts of the desktop client that carry an algorithm or a protocol, and prove what they
promise over every input, every interleaving or every run. Loops and in-place updates of the Go source are methods with
loops, or classes whose fields the methods update; expressions are functions; goroutines are transition systems whose
steps interleave freely. What the Go code calls but does not define (tools, models, the Docker daemon, clocks, regular
expressions, JSON, hashes, random identifiers) appears as a parameter, as a nondeterministic step that takes effect or
fails, or as a fresh value.

**Plan execution** (`agent/executor`). `PlanDag` and `KahnLayering` index the steps of a plan and layer its dependency
graph; `DependencyGraph` holds the reference notions of chain, cycle and longest chain. `RepeatedIds` says what happens
to plans whose identifiers repeat. `LayerOrder` is about the order inside the layers: that of the first one is free, and
it decides the others. `Rendering` substitutes `{{step.output.key}}` placeholders and `JsonSplicing` says what that does
to a JSON template; `StepRetry` is the bounded retry loop. `PlanExecution` runs the layers with goroutines that wait for
a slot, take a snapshot of the outputs, try the step and store the result, in any interleaving and with cancellation at
any point. `PlanProgress` shows that no run gets stuck and every run ends. `PlanConfluence` shows that complete runs
over one order of the layers agree, `PlanReordering` what executions have in common whatever order each of them gives
the steps of a layer, and `PlanErrors` when they report the same error.

**Docker Compose** (`docker/docker_compose_engine.go`). `ServiceSort` is the recursive topological sort and
`Interpolation` the three rewriting passes over a template. `ContainerDaemon` is the daemon: maps of containers and
networks, and calls that may fail at will. `ComposeEngine` and `Compose` are the reconciliation with orphan removal and
rollback, `Reconciliation` its loop invariant.

**Chat** (`agent/agent.go`). `ThinkTags` and `ThinkStream` split a stream of chunks at think tags; `History` compresses
a history and converts it for the model; `ReplyMatching` says when a history is well-formed; `ToolCalls` assembles
streamed tool calls; `ChatLoop` is the turn loop.

**Smaller protocols and parsers.** `TerminalBuffer` and `TerminalAttach` (early terminal output), `Crontab`,
`SqlSplitting` and `SqlExport` (statement splitters and the literal printer), `ImportScan`, `ImportBlocks`, `SqlImport`
and `ImportFile` (when the importer reads the export back), `CircuitBreaker`, `Approval`, `ConfigStore` and
`ConfigImport`. `GoStrings`, `Sequences` and `Options` are shared helpers.

Where the code does not do what its comments or a standard suggest, the model follows the code:

- A failed `UpComposeStack` leaves no new container behind, but what it has cleared away is not restored. The containers
  gone are those of services that are not in the file, those of cleared services and the holders of their names, and no
  other (`Compose.TakesAway`). Cleared are the services that cannot stay and come before the one the call stopped at, in
  the topological order, and that one if the call broke off at it (`Compose.ClearedBy`). So nothing is lost exactly when
  there was nothing of these kinds (`Compose.ErrorLosesNothingIff`).
- On a brand-new project a failure also removes project networks that existed before the call, because a found network is
  recorded as created (`Compose.FoundIsRecorded`); after a dependency cycle the new networks stay.
  `Compose.NetworksAfter` lists what happens to which network.
- `${NAME:?text}` and `${NAME?text}` yield the text where the Compose Specification (section Interpolation) asks for an
  error (`Interpolation.MissingYieldsMessage`). The passes do what the specification asks for exactly when no required
  variable is missing (`Interpolation.InterpolationIsSpecifiedIff`).
- A plan with a repeated identifier can run a step before its dependency (`RepeatedIds.RepeatedIdRunsEarly`). When the
  identifiers are trimmed, the order is kept exactly when no step whose identifier an earlier step bears refers to
  anything (`RepeatedIds.OrderIsKeptIff`).
- A reference to an object inside a JSON string literal breaks the literal (`JsonSplicing.ObjectBreaksString` is the
  smallest template); texts and plain values do not (`JsonSplicing.RenderingKeepsStructure`). For values printed without
  escapes the structure is kept exactly when no such print holds a quote (`JsonSplicing.StructureIsKeptIff`).
- The plan's error names the first failed step of a layer. The order of the steps without dependencies comes from a map
  and decides that of every later layer, so executions of one plan may report different steps.
  `PlanErrors.ErrorIsDeterminedIff` is the exact condition, for any layer, under which they do not: every failing step
  with another name has one with the reported name before it, whichever of its roots in the first layer comes last.
  In the first layer that means one failing name (`PlanErrors.ErrorInFirstLayer`; `PlanErrors.OrderDecidesError` is an
  instance with two); in the second, that the reported step is listed before the others and refers to nothing that they
  do not (`PlanErrors.ErrorInSecondLayer`); in any later layer it is enough that the failing steps refer to the same
  steps (`PlanErrors.CommonReferencesDecide`).
- The importer of `db/mysqlx.go` gives a backslash no meaning and drops lines that look like comments, also inside a
  text. It reads an export back exactly when no line is dropped and every statement is scanned without a cut
  (`SqlImport.ImportReadsExport`); for a text without other quote characters the second means an even number of quotes
  and no semicolon after an odd number (`SqlImport.TextByParity`). `SqlImport.ImporterCutsQuotedText` and
  `SqlImport.ImporterSkipsDashedLine` are exports that are not read back. In the whole text nothing but a comment may be
  left of the line in front, which a table name with a line end can spoil (`ImportFile.ImportReadsExportFile`,
  `ImportFile.SplitNameSpoilsImport`).
- A second opening think tag inside a chunk is not seen as a tag; `ThinkTags.ChunkIsWholeIffSafe` gives the exact
  condition under which one chunk is split as a whole-text parser would. The open-block flag survives from one model
  turn to the next. A chunk of an incremental provider that happens to extend the text so far loses its beginning
  (`ThinkStream.IncrementsAreChunks`).
- A `$NAME` in front of a `${...}` whose value continues the name is read as one longer name
  (`Interpolation.BareTakesMore`).
- Tool calls numbered with gaps can be lost: `ToolCalls.AllCollectedIffDense` gives the exact condition and
  `ToolCalls.GapLosesACall` an instance. Fragments without an index all belong to call 0.
- Approval: a decision can be reported as accepted although it has no effect. With one resolving call and no
  cancellation it never happens (`Approval.LoneAcceptanceCounts`); with a second call or with a cancellation it can,
  from every state in which the request waits undecided (`Approval.SecondCanBeAccepted`,
  `Approval.CancelledCanBeAccepted`).
- Import: a new group keeps its name with surrounding spaces, while later imports look for the trimmed name.
  `ConfigImport.ImportGroupsTwice` says exactly when a second import of a file adds no group, and
  `ConfigImport.PaddedNameIsAddedAgain` is a file where it does.

## Model

| member | source | states |
|---|---|---|
| PlanDag.IndexSteps | agent/executor/dag.go:15-32 | every step is indexed with in-degree 0; with distinct, trimmed, non-empty ids the index maps exactly each id to its step |
| PlanDag.KeysAreNamed | agent/executor/dag.go:15-32 | a step is indexed under its trimmed id, under its number when that is blank, and under both its numbers when the key is taken; the stored step bears the key it was given |
| PlanDag.LinkDependencies | agent/executor/dag.go:34-49 | refuses only a self-dependency or a reference to an unknown step, naming the step and the reference; otherwise in-degrees and successor lists are those of the plan's edges |
| PlanDag.BuildDAG | agent/executor/dag.go:10-90 | succeeds, on normal ids, exactly when all references exist and the graph is acyclic; the layers partition the steps, each at the length of its longest dependency chain; for any plan the layers are those that an order of the steps without dependencies gives |
| RepeatedIds.RenamedRunsFirst | agent/executor/dag.go:20-32 | for any plan: a step indexed under an id that no step bears is in the first layer, whatever it depends on |
| RepeatedIds.OrderIsKeptIff | agent/executor/dag.go:15-82 | with trimmed ids that may repeat: what a step refers to is in an earlier layer than the step, for every step, exactly when no step whose id an earlier step bears refers to anything |
| RepeatedIds.RepeatedIdRunsEarly | agent/executor/dag.go:20-49 | a plan with a repeated id whose third step is in the same layer as the step it depends on |
| KahnLayering.LayerGraph | agent/executor/dag.go:51-82 | draining in-degrees in any map order yields a layering in which each layer holds exactly the nodes whose dependencies lie before it, until none is left; the order of the first layer is that of the map, and every later layer is the queue that draining the one before fills |
| KahnLayering.LayeringIsMaximal | agent/executor/dag.go:51-82 | whatever the order of the free nodes, that queue discipline gives a maximal layering |
| LayerOrder.LayeringFollows | agent/executor/dag.go:62-77 | with edges listed by their targets: of two nodes of a later layer the one whose last dependency in the layer before comes earlier is first, and the list decides when that is the same |
| LayerOrder.AheadIsBefore | agent/executor/dag.go:54-77 | a node that is ahead of another for its last root in the first layer comes before it in the layer, in every layering with this last root |
| LayerOrder.BeforeIsAhead | agent/executor/dag.go:54-77 | conversely, when the roots of a node are the first nodes of the first layer, only nodes that are ahead come before it |
| KahnLayering.LayerIsLongestChain | agent/executor/dag.go:62-82 | a node of layer k ends a dependency chain of k+1 nodes and no longer one |
| KahnLayering.MaximalLayering | agent/executor/dag.go:84-87 | a maximal layering reaches every node exactly when the graph has no cycle |
| DependencyGraph.StuckSetHasCycle | agent/executor/dag.go:84-87 | steps that can never be freed contain a cycle |
| Rendering.RenderStepArgs | agent/executor/executor.go:71-133 | blank arguments become an empty object; any other text is read from the left as a template, a reference wherever one starts, and each reference becomes the value at its path, or stays when there is none |
| Rendering.FollowPath | agent/executor/executor.go:92-112 | finds a value exactly when a chain of objects leads to it, each with the next name of the path as a field, after a leading `output`; and that value |
| Rendering.FollowDenotes | agent/executor/executor.go:92-112 | the loop's result is the one value a path denotes, or none when it denotes none |
| Rendering.PlaceholderIsReference | agent/executor/executor.go:68-71 | a placeholder is found exactly where two braces, a name of letters, digits, underscores, hyphens and dots, and two braces stand |
| Rendering.RenderingIsMeaning | agent/executor/executor.go:80-130 | on a template of text and references, each reference becomes the value that the chain of its names leads to (itself when there is none) and all text, JSON braces included, is kept |
| Rendering.UnresolvedIsIdentity | agent/executor/executor.go:86-90 | placeholders of steps without output stay as they are |
| Rendering.RenderingIsLocal | agent/executor/executor.go:71-133 | rendering depends only on the outputs of the steps it mentions |
| JsonSplicing.RenderingKeepsStructure | agent/executor/executor.go:86-130 | a JSON template with its references inside string literals keeps its lexical structure when rendered, and its literals mean the template's with each reference replaced by its text, whatever characters that holds |
| JsonSplicing.StructureIsKeptIff | agent/executor/executor.go:86-130 | for values printed without escapes: a template with its references inside string literals keeps its lexical structure exactly when no reference resolves to a value, other than a text, whose print holds a quote |
| JsonSplicing.ObjectBreaksString | agent/executor/executor.go:123-128 | in the template of one reference to a step between two quotes, a non-empty object ends the literal early, whatever its fields hold |
| StepRetry.ExecuteStepWithRetry | agent/executor/retry.go:47-123 | the loop follows the retry policy, with cancellation at any poll: which failure is followed by another attempt, on which arguments, and what a step that ends reports |
| StepRetry.RetryIsBounded | agent/executor/retry.go:61-122 | at most three attempts; each renders the current arguments and calls the tool once; only a failure that is not fatal is followed by another; success is the last attempt's |
| StepRetry.FailuresAreRetried | agent/executor/retry.go:61-122 | without cancellation: before the third attempt a failure that may pass is tried again on the same arguments and one with a suggestion on rewritten ones; a step fails only at its third attempt or at a failure that is neither |
| StepRetry.RunFollows | agent/executor/retry.go:61-122 | the same from any point of the loop and for any pattern of cancellations |
| StepRetry.ProgramClassifies | agent/executor/retry.go:20-43 | an unclassified failure may pass when its error mentions a timeout, a refused or reset connection or something temporary, is final when it mentions a cancelled context, a kill or something forbidden, in any letter case, and permanent otherwise |
| StepRetry.RunIsLocal | agent/executor/retry.go:61-122 | two snapshots that agree on what the attempts mention give the same attempts and result |
| StepRetry.ProgramRenderingIsLocal | agent/executor/executor.go:286 | the program's rendering is local in this sense |
| PlanExecution.GoroutineKeepsSlots | agent/executor/executor.go:181-184 | the semaphore's count is the number of goroutines between acquire and release |
| PlanExecution.RunsAreSafe | agent/executor/executor.go:168-245 | in every interleaving: earlier layers are done and OK, slots are counted, snapshots hold all earlier outputs, stored outputs are the steps' own |
| PlanExecution.StartsAfterDependencies | agent/executor/executor.go:168-224 | a step starts only after each dependency finished OK, its snapshot holds their outputs, and at most `maxParallel` steps hold a slot |
| PlanProgress.NeverStuck | agent/executor/executor.go:173-224 | whenever the run has not ended, some step other than a cancellation is possible |
| PlanProgress.EventsUseWork | agent/executor/executor.go:168-245 | every event uses up a measure of remaining work |
| PlanProgress.EveryRunEnds | agent/executor/executor.go:168-248 | every schedule has bounded length, and a run that cannot go on has ended |
| PlanConfluence.CompleteRun | agent/executor/executor.go:168-248 | a complete, uncancelled run produces exactly the results of the sequential reference execution |
| PlanConfluence.CompleteRunsAgree | agent/executor/executor.go:181-248 | for one order inside the layers: all complete runs have the same error, outputs, results in order, rendered arguments and attempts, at most three attempts a step, whatever the schedule |
| PlanConfluence.PlainArgumentsSuffice | agent/executor/retry.go:102-117 | without fix suggestions it is enough that the plan's arguments mention no step of the same or a later layer |
| PlanReordering.LayersAreSame | agent/executor/dag.go:51-82 | two layerings of one plan have the same layers, each up to its order |
| PlanReordering.ExecutionsAgree | agent/executor/executor.go:156-248 | whatever order each execution's layering gives, with whatever schedule and number of slots: same outputs, records and layer reached, same results up to order, failure in both or in neither |
| PlanErrors.BuiltIsLayering | agent/executor/dag.go:51-90 | the layers of a plan are a layering of its graph in which each layer but the first is sorted by the one before |
| PlanErrors.AnyOrderIsBuilt | agent/executor/dag.go:54-90 | a plan that can be layered from one order of its sources can be layered from every order of them |
| PlanErrors.ErrorIsDeterminedIff | agent/executor/executor.go:225-245 | all executions of a failing plan, each with its own order of the sources, schedule and slots, report the same step exactly when in the failing layer every failing step with another name has one with the reported name ahead of it for each of its roots |
| PlanErrors.ErrorInFirstLayer | agent/executor/executor.go:225-245 | for a failure in the first layer: exactly when all failures of the layer name one step |
| PlanErrors.ErrorInSecondLayer | agent/executor/executor.go:225-245 | for a failure in the second layer, when results carry their step's id: exactly when the reported step is listed before every other failing one and refers to nothing that the other does not |
| PlanErrors.CommonReferencesDecide | agent/executor/executor.go:225-245 | in any later layer, when all failing steps refer to the same steps: every execution reports the one listed first |
| PlanErrors.OneErrorIsOneFailure | agent/executor/executor.go:225-245 | when results carry their step's id, one failing name means at most one failing step in the layer |
| PlanErrors.OrderDecidesError | agent/executor/dag.go:54-58 | two independent failing steps: both orders can be built, and executions over them report different steps |
| ServiceSort.Sorter.Visit | docker/docker_compose_engine.go:968-993 | a visit succeeds with the service and its dependencies placed, or finds a cycle |
| ServiceSort.SortServicesByDependencies | docker/docker_compose_engine.go:962-1004 | for every map order: fails exactly when the in-file dependency graph has a cycle, else returns each service once, after its dependencies |
| ServiceSort.TopologicalIsAcyclic | docker/docker_compose_engine.go:962-1004 | a graph that has such an order has no cycle |
| Interpolation.InterpolationIsOnePass | docker/docker_compose_engine.go:862-960 | on templates of text, stray dollar signs included, and of `$$`, `$NAME` and `${...}` tokens the three passes are the concatenation of the tokens' meanings, for all operators as coded, as long as no value continues the name of a `$NAME` in front of it |
| Interpolation.InterpolationIsSpecifiedIff | docker/docker_compose_engine.go:862-960 | the result is that of the Compose Specification's one-pass meaning exactly when no required variable is missing |
| Interpolation.MissingYieldsMessage | docker/docker_compose_engine.go:907-924 | for an unset required variable the specification reports an error and the passes yield the message |
| Interpolation.BareTakesMore | docker/docker_compose_engine.go:940-960 | a value that continues the name: `$A${B}` yields the value of the name `A` with the value of `B` behind it, where the specification puts the two values one after the other |
| Interpolation.BareReads | docker/docker_compose_engine.go:940-960 | a name without braces is read up to the first character that cannot be part of it and replaced by its value |
| Interpolation.PassesMeanOnePass | docker/docker_compose_engine.go:874-959 | the same for any placeholder mark that starts with NUL and has no dollar sign |
| Interpolation.MatchParts | docker/docker_compose_engine.go:878-890 | the pattern reads name, operator and operand of a written reference back |
| ContainerDaemon.Daemon.Create | docker/docker_compose_engine.go:533-538 | a creation adds one stopped container under a fresh id, refuses a taken name, or has no effect |
| ContainerDaemon.Daemon.FindByName | docker/docker_compose_engine.go:733-747 | finds a container of the name, or, if the listing succeeded, there is none |
| ContainerDaemon.Daemon.EnsureNetwork | docker/docker_compose_engine.go:706-726 | returns a network of exactly this name, adding at most that one |
| ComposeEngine.Discover | docker/docker_compose_engine.go:300-324 | lists exactly the project's containers and, per service, the last one listed |
| ComposeEngine.RemoveOrphans | docker/docker_compose_engine.go:326-339 | removes the listed containers of services that are not in the file and no other |
| ComposeEngine.ClearService | docker/docker_compose_engine.go:384-396 | clears the service's old container and the holder of its name, and no foreign container besides |
| ComposeEngine.RecreateOne | docker/docker_compose_engine.go:377-558 | success leaves exactly the new running container in place of the old one; failure leaves at most one new container |
| ComposeEngine.UpServices | docker/docker_compose_engine.go:341-559 | success over all services means one good running container for each; on every return, errors included, services that can be kept have their container as it was, and the containers lost are those a cleared service laid claim to; the error names the service it stopped at |
| ComposeEngine.Rollback | docker/docker_compose_engine.go:179-185 | removes the recorded new containers and no other |
| ComposeEngine.RemoveNetworks | docker/docker_compose_engine.go:186-190 | removes the recorded networks unless the daemon refuses, and no other |
| ComposeEngine.Reconcile | docker/docker_compose_engine.go:175-559 | convergence, rollback, no effect on a converged project, foreign containers spared; exactly the orphans, the containers of cleared services and the holders of their names are lost; the service an error stopped at is named and cleared exactly if the call broke off |
| Reconciliation.KeepService | docker/docker_compose_engine.go:360-375 | keeping an up-to-date service keeps the loop invariant |
| Reconciliation.RecreateService | docker/docker_compose_engine.go:377-558 | recreating a service keeps the loop invariant |
| Compose.NewLabelsRead | docker/docker_compose_engine.go:426-442 | the labels written on a container are read back as its project, service, hash and id, when the file leaves reserved labels alone |
| Compose.DeployedIsConverged | docker/docker_compose_engine.go:300-371 | the engine's view is converged exactly when the containers are those of the file |
| Compose.EngineNamesAsHashed | docker/docker_compose_engine.go:352-358 | with a collision-free hash a container created for any service specification has the name of a service whose hash it carries |
| Compose.BuiltIsInDomain | docker/docker_compose_engine.go:352-371 | whatever the engine built for a project, from any file, is in the domain of convergence of every clean later file |
| Compose.EditedFileIsInDomain | docker/docker_compose_engine.go:341-375 | deploy a file, edit it, deploy again: the second request is in its domain |
| Compose.PromiseKeepsBuilt | docker/docker_compose_engine.go:169-562 | every return, errors included, keeps the project's containers such that the engine built them, unless a removal or, on success, a listing failed during the call |
| Compose.HistoryStaysBuilt | docker/docker_compose_engine.go:169-562 | over every history of deployments, edits and failed deployments of a project, made of calls in which no removal and no listing failed: each state was built by the engine, each clean file finds itself in its domain, each success has deployed its file |
| Compose.EnsureNetworks | docker/docker_compose_engine.go:211-263 | the default network and the file's own networks exist afterwards, no network is lost, and each of them, found or new, is recorded |
| Compose.FoundIsRecorded | docker/docker_compose_engine.go:211-263 | of the networks that were there under a name of the request one is recorded as if created, the only one if there is just one |
| Compose.UndoNetworks | docker/docker_compose_engine.go:186-190 | after a failure on a new project no recorded network is left unless the daemon refuses, for each own name one found before the call included; other networks stay |
| Compose.Prepare | docker/docker_compose_engine.go:170-298 | refuses exactly empty projects, undecodable files and files without services; reports a cycle only when there is one; else returns a topological order and the ensured networks |
| Compose.OrderIsDependenciesFirst | docker/docker_compose_engine.go:294-298 | the order has every service of the file once, after the services it depends on |
| Compose.CyclicHasCycle | docker/docker_compose_engine.go:294-298 | a cycle of the graph is a circle of services that depend on one another |
| Compose.OwnNamesAre | docker/docker_compose_engine.go:211-248 | the networks of a request are the default one and those of the file that are not external, under their name or project and key |
| Compose.AccountsKeep | docker/docker_compose_engine.go:360-396 | whatever the outcome, every up-to-date container of a service that need not be recreated is still there, as it was |
| Compose.StaysUnlessNeeded | docker/docker_compose_engine.go:360-371 | a service can stay exactly when nothing asks for new containers and one runs with its project, service, hash and id on the labels |
| Compose.SuccessBringsUp | docker/docker_compose_engine.go:341-559 | after success each service runs; the cleared services are exactly those that need a new container, and each has a new running one with the labels of the engine and of the file |
| Compose.ErrorLosesNothingIff | docker/docker_compose_engine.go:326-396 | a failed call leaves the containers of before exactly when none was an orphan, of a cleared service or a holder of its name; the cleared services are those that cannot stay and precede the one it stopped at in the topological order, and that one if it broke off there |
| Compose.BrokenHasNone | docker/docker_compose_engine.go:384-558 | the service a call broke off at has no container afterwards |
| Compose.UpComposeStack | docker/docker_compose_engine.go:169-562 | success brings the project up, label by label: each service has one container, running, under its name and with its project, service, hash and id, new ones exactly for services without such a container, and no orphan; a repeated request changes nothing; on every return, errors included, unchanged services keep their containers, what is lost is accounted for exactly, and what the engine built stays so; an error leaves a subset of the containers before; unrelated containers and networks are untouched; every error has its reason and its service; the topological order the services were visited in is returned with the account; with a forced pull, success has pulled an image for every service |
| ThinkTags.PiecesRebuildInput | agent/agent.go:603-682 | for every chunking, pieces and consumed tags rebuild the input |
| ThinkTags.ChunkIsWholeIffSafe | agent/agent.go:610-681 | one chunk is split as the whole-text parser does exactly when its opening tag comes outside a block and no second one follows its closing tag |
| ThinkTags.ThinkChunkIsWholeIffSafe | agent/agent.go:610-681 | the same for the chat loop's own tags |
| ThinkTags.ChunksAreWhole | agent/agent.go:603-682 | with safe chunks and no tag across chunks, both channels and the block state are those of the whole text |
| ThinkTags.ThinkChunksAreWhole | agent/agent.go:603-682 | the same for the chat loop's own tags |
| ThinkTags.ChunkingDoesNotMatter | agent/agent.go:603-682 | two such chunkings of the same text give the same result |
| ThinkStream.CumulativeStreamRebuilds | agent/agent.go:449-454 | a provider that repeats everything sent so far is reduced to increments that rebuild its last chunk |
| ThinkStream.IncrementsAreChunks | agent/agent.go:449-454 | an incremental provider's chunks are kept as they are exactly when none of them extends the text so far |
| ThinkStream.Receiver.OnChunk | agent/agent.go:603-682 | the turn's buffers are the split of its increments, and the reply's buffers extend them |
| ThinkStream.Receiver.Handle | agent/agent.go:609-681 | one increment adds exactly its content and reasoning parts and moves the block state |
| ThinkStream.Receiver.OnReasoning | agent/agent.go:577-600 | separate reasoning text is reduced to its increment and added to both reasoning buffers |
| ThinkStream.Receiver.NewTurn | agent/agent.go:547-551 | a turn starts with empty turn buffers, keeping the reply and an open block |
| ReplyMatching.MatchedIsWellFormed | agent/agent.go:754-795 | reading from the left accepts exactly the histories in which each call is answered at once and in order and no other reply occurs |
| History.AlignCutToUserMessage | agent/agent.go:362-370 | the result is the last user message at or before the cut, or 0 |
| History.ApplyContextCompression | agent/agent.go:372-433 | unchanged within the budget or up to four messages; else the aligned suffix, with the summary in front when there is one |
| History.FitsIffShort | agent/agent.go:372-395 | nothing is cut when that is switched off, up to four messages, or while the text stays below three characters for each token and three more, the tokens being configured, a share of the model's, or 52428 |
| History.CutIsCut | agent/agent.go:397-432 | what is kept is the end from the last user message at or before the third message from the end (the fourth when sliding), behind a system message with the trimmed summary when there is one |
| History.CompressionKeepsWellFormed | agent/agent.go:395-432 | compression keeps a well-formed history well-formed |
| History.CompressionKeepsRecent | agent/agent.go:395-432 | the last three messages stay; what is kept is everything or starts at a user message, behind at most one summary |
| History.BuildSchemaMessages | agent/agent.go:305-359 | after the prompt, unless that is blank, the request has one message for each message of a known role, in order: under its role, with its content, the calls of an assistant, the id of a reply, and the text and images of a user message |
| History.ConversionKeepsShapes | agent/agent.go:309-358 | conversion drops unknown roles and keeps calls and replies in order |
| History.RequestIsWellFormed | agent/agent.go:305-359 | a well-formed history becomes a well-formed request |
| ToolCalls.AccumulateToolCalls | agent/agent.go:684-709 | however fragments interleave, call i has the joined names and arguments and the last id of its own fragments |
| ToolCalls.CollectToolCalls | agent/agent.go:725-744 | named calls in index order, or in map order if there are none below the count; each has a name and an id; all are collected exactly when the named indices are dense or none is below the count |
| ToolCalls.IndexOrderPicks | agent/agent.go:727-734 | the index loop keeps name and arguments of each named call below the count, in order, with its id or a given one |
| ToolCalls.GivenIdsDiffer | agent/agent.go:729-731 | given ids differ from turn to turn and from call to call |
| ToolCalls.AllCollectedIffDense | agent/agent.go:727-734 | the index loop collects all named calls exactly when their indices are below the number of calls |
| ToolCalls.GapLosesACall | agent/agent.go:727-734 | calls numbered 1 and 2 lose the second |
| ChatLoop.ExecuteTools | agent/agent.go:764-795 | one reply to each call, in order, with its id and clipped output, unless cancelled before one of them |
| ChatLoop.RoundIsWellFormed | agent/agent.go:754-795 | a completed turn keeps the history well-formed |
| ChatLoop.RequestsAreWellFormed | agent/agent.go:506-796 | every request of a chat is well-formed if the first is |
| ChatLoop.StreamChat | agent/agent.go:494-803 | the first request presents the prompt and the whole compressed history, message by message with role, content, calls, ids and images; at most 50 requests, each well-formed if the history is, each extending the last by the model's message and the replies to its calls; the end has its reason |
| TerminalBuffer.Session.Pump | ssh/ssh.go:424-440 | a chunk before Attach is kept unless the buffer has reached 512 KiB; afterwards it is live |
| TerminalBuffer.Session.Attach | ssh/ssh.go:449-462 | attaches, replays the whole buffer and empties it |
| TerminalBuffer.Session.FireTimer | ssh/ssh.go:326-337 | the same, or nothing when already attached |
| TerminalAttach.RunsAreSafe | ssh/ssh.go:424-463 | in every interleaving nothing is sent while anything is buffered, and every byte is delivered, buffered, in a reader's hands or lost at the full buffer |
| TerminalAttach.DeliveredInOrder | ssh/ssh.go:424-463 | without a close, once settled, a stream's bytes have arrived once and in order exactly when each of its chunks from before Attach came below 512 KiB stored; that holds while at most 512 KiB arrived before Attach |
| TerminalAttach.ReplayComesFirst | ssh/ssh.go:424-463 | replayed data is the first emission and the buffer stays below 544 KiB, a close included |
| TerminalAttach.AttachSection | ssh/ssh.go:449-462 | an Attach without interference does what the critical section promises |
| Crontab.GetCronList | ssh/ssh_cron.go:69-118 | the items are exactly the lines with a five-word schedule and a command, commented out or not, in order, each with its line number and the remark on the line above |
| Crontab.SaveCronList | ssh/ssh_cron.go:120-138 | the text is each entry's comment line, if any, and its job line, commented out when disabled, unless a part of it is missing |
| Crontab.ParsedIsNormal | ssh/ssh_cron.go:69-118 | every parsed entry has a five-field expression, a single-spaced command and a trimmed comment that is not cron-shaped |
| Crontab.RoundTripIffNormal | ssh/ssh_cron.go:69-138 | printing and parsing returns the entries exactly when all are of that form |
| Crontab.ParsePrintParse | ssh/ssh_cron.go:69-138 | for every text, parsing its printed parse gives the same entries |
| SqlSplitting.SplitStatements | agent/guard/sql_ast.go:419-464 | the guard's loop computes the scan with escapes and three quote kinds |
| SqlSplitting.SplitSqlStatements | db/mysqlx.go:1196-1236 | the importer's nested loop computes the scan line by line |
| SqlSplitting.CommentLineReads | db/mysqlx.go:1205-1208 | a line is skipped exactly when, white space aside, it starts with two dashes or opens and closes a block comment |
| SqlSplitting.SplittersAgree | db/mysqlx.go:1196-1236 | both splitters return the same list on every text without backslash and without a line skipped as a comment |
| SqlSplitting.PiecesAreStable | agent/guard/sql_ast.go:419-464 | every piece splits to itself |
| SqlExport.TextRoundTrip | db/mysqlx.go:1162-1170 | a printed string decodes to itself under the string-literal rules of section 9.1.1 of the MySQL Reference Manual |
| SqlExport.ValueMeans | db/mysqlx.go:1162-1181 | MySQL reads a printed text or moment as itself and a flag as one or zero |
| SqlExport.StatementInserts | db/mysqlx.go:1139-1157 | MySQL reads an exported statement as one that inserts the row's values, column by column, into the table, quoted identifiers included |
| SqlExport.ValuePasses | db/mysqlx.go:1162-1181 | a printed value scans as closed text |
| SqlExport.ExportSplitsBack | db/mysqlx.go:1151-1157 | splitting any exported INSERT lines returns exactly those statements, for identifiers without backslash |
| SqlImport.ImportReadsExport | db/mysqlx.go:1196-1236 | the importer returns exactly the exported statements if and only if it drops no line of the export and scans every statement without a cut |
| SqlImport.ImportReadsOneLiners | db/mysqlx.go:1196-1236 | for statements without line ends the second condition alone decides |
| SqlImport.StatementByValues | db/mysqlx.go:1151-1157 | a statement is scanned without a cut exactly when its list of values is |
| SqlImport.TextByScan | db/mysqlx.go:1162-1170 | a printed text is exactly when the text is, read from inside the quotation |
| SqlImport.TextByParity | db/mysqlx.go:1209-1227 | a text without other quote characters is exactly when its quotes are even in number and no semicolon follows an odd number of them |
| SqlImport.OneTextDecides | db/mysqlx.go:1209-1227 | a row of one text is exactly when the text is |
| SqlImport.BalancedRowsAreRead | db/mysqlx.go:1196-1236 | rows of nulls, flags, balanced texts and other values that scan without a cut, without line ends, are read back |
| ImportBlocks.BlocksDecide | db/mysqlx.go:1196-1236 | the importer finds exactly the written statements when each is readable, and never otherwise |
| SqlImport.ImporterCutsQuotedText | db/mysqlx.go:1209-1227 | the export of a text with a quote and a semicolon is not read back |
| SqlImport.ImporterSkipsDashedLine | db/mysqlx.go:1203-1208 | nor is the export of a text with a line that starts with two dashes |
| ImportFile.MysqlExportSQL | db/mysqlx.go:1126-1160 | the export's loop writes the comment, the opening statement, the rows and the closing statement, for the trimmed table name or a default when that is blank |
| ImportFile.ImportReadsExportFile | db/mysqlx.go:1146-1236 | for the whole text: the importer returns exactly the statements if and only if nothing is left of the comment, no line of the rows is dropped and every row is scanned without a cut |
| ImportFile.SplitNameSpoilsImport | db/mysqlx.go:1148 | a table name of two plain lines spoils the import of every export |
| CircuitBreaker.Breaker.constructor | redis/redis.go:45-56 | non-positive settings become threshold 5 and cooldown ten seconds |
| CircuitBreaker.Breaker.Allow | redis/redis.go:58-68 | refuses exactly within the cooldown after the last of enough failures in a row |
| CircuitBreaker.Breaker.OnFailure | redis/redis.go:76-83 | the fields remain functions of the call history |
| CircuitBreaker.Breaker.State | redis/redis.go:85-94 | closed, open and half-open in terms of the call history |
| CircuitBreaker.Breaker.Do | redis/redis.go:233-244 | the function is called exactly when not in a cooldown; a missing key counts as success; a refused call changes nothing |
| CircuitBreaker.RunAll | redis/redis.go:233-244 | after any sequential run `failures` is the trailing run of failures and `openUntil` the last failure plus cooldown if tripped, else 0 |
| CircuitBreaker.TrippedIffRow | redis/redis.go:76-83 | the breaker has tripped exactly when the last calls that ran, as many as the threshold, have all failed |
| CircuitBreaker.CooldownIsQuiet | redis/redis.go:58-83 | in every run, a call after a trip starts only once the full cooldown has passed |
| CircuitBreaker.ProbesAreSingle | redis/redis.go:58-83 | one failed probe re-opens for a full cooldown, a successful one closes |
| CircuitBreaker.HealthyRunIsNotRefused | redis/redis.go:58-83 | a run without that many failures in a row is never refused |
| Approval.RunsAreExplained | agent/guard/guard.go:91-151 | in every interleaving the accepted decisions on a request are the one it took and the one left in its channel |
| Approval.ReturnsFirstAccepted | agent/guard/guard.go:91-151 | a request that returns a decision returns the first accepted one; at most two are accepted; after return it is not pending |
| Approval.DecisionsAreCalled | agent/guard/guard.go:134-151 | in every interleaving each accepted or returned decision was given to a resolving call for this request, approval as it is and reason trimmed |
| Approval.CallsAreAnswered | agent/guard/guard.go:134-151 | every resolving call is answered once or still on its way |
| Approval.CallIsRefusedIff | agent/guard/guard.go:134-143 | a call fails at once exactly when nobody has asked or the request has returned |
| Approval.AtMostTwoAccepted | agent/guard/guard.go:134-151 | no id ever has more than two accepted decisions |
| Approval.LoneAcceptanceCounts | agent/guard/guard.go:91-151 | in every interleaving, a returned request with at most one resolving call and no cancellation returned exactly what was accepted |
| Approval.LoneCallDecides | agent/guard/guard.go:124-151 | with one resolving call and no cancellation a returned request is approved exactly when that call approved it, with its trimmed reason |
| Approval.CallCanDecide | agent/guard/guard.go:124-151 | from every such wait a call can be accepted and decide |
| Approval.SecondCanBeAccepted | agent/guard/guard.go:134-151 | from every reachable state in which a request waits undecided, two calls can both be accepted while the approval and reason of the first alone are returned |
| Approval.CancelledCanBeAccepted | agent/guard/guard.go:124-151 | from every such state one call can be accepted although the request, cancelled, returns no decision |
| ConfigStore.Upsert | core/config.go:841-853 | the search loop replaces the first entry with the id or appends one |
| ConfigStore.PutKeepsUnique | core/config.go:838-853 | saving keeps identifiers unique and adds at most its own |
| ConfigStore.PutChangesOne | core/config.go:838-853 | saving changes only the entry with its identifier |
| ConfigStore.PutUpdatesFirst | core/config.go:841-848 | the first entry with the identifier gets the new value |
| ConfigStore.Store.Save | core/config.go:776-858 | an invalid connection changes nothing; otherwise memory changes even if writing fails |
| ConfigStore.Store.SaveGroup | core/config.go:883-910 | an existing group gets the trimmed name, a new one its name as given; blank names are refused |
| ConfigImport.ImportGroup | services/system_service.go:271-298 | a group is skipped when blank, merged with its namesake, or saved under its own id unless that is taken |
| ConfigImport.ImportGroups | services/system_service.go:260-298 | groups of before are untouched, ids stay unique, and mapped ids lead to groups of the same name |
| ConfigImport.ImportGroupsTwice | services/system_service.go:260-298 | with successful writes a second import of the same file adds no group exactly when each name the first one added is, trimmed, the name of a stored group; names without surrounding spaces suffice |
| ConfigImport.PaddedNameIsAddedAgain | services/system_service.go:271-298 | a file with one padded name adds it twice |
| ConfigImport.ImportServer | services/system_service.go:301-329 | a connection keeps its id unless that is taken and is stored with its group placed and its name filled in |
| ConfigImport.PlacementIsAGroup | services/system_service.go:307-315 | a connection's group is none, its own, or the namesake of the file's group, and always exists |
| ConfigImport.ImportServersConfig | services/system_service.go:251-336 | what was stored stays as it was, ids stay unique, added connections come from the file, each with no group or one that exists, and with successful writes the reported counts are the numbers added |

## Left out

- Tool dispatch, guard checks and verification inside one attempt (agent/executor/executor.go:289 and after): an
  attempt is one tool call with an outcome that depends on the step and the rendered arguments.
- Order in which goroutines are spawned, progress callbacks and status fields of the plan: they do not influence scheduling or results.
- Clocks, back-off waits, health polling, logging and events.
- Foreign clients and parsers: YAML, JSON, HTTP, SSH, SQL drivers, Docker calls other than those listed; the regular
  expressions are modelled by hand-written matchers of the same language.
- Container details besides name, labels and state (ports, mounts, networks joined, health checks): they enter through the configuration hash.
- Volumes, external networks, secondary network connections and project-name clean-up.
- Interpolation of values that contain `$` or NUL, and of malformed references: outside the stated templates.
- Bytes versus characters: strings are sequences of characters, so byte counts of the Go code are character counts here; lower-casing covers ASCII letters only.
- Machine integers: counters and times are unbounded, and times are non-negative.
- Concurrent calls of the circuit breaker: the model covers sequential runs.
- Listing order of the store, defaults filled in on save (an abstract function), and persistence: a write succeeds or fails.
- The system prompt's text, the tool catalogue and the summary prompt; a summary is an outcome with or without text.
- PlanDag.BuildDAG: for blank, padded or repeated ids only the layering of the index is promised, not the order of dependencies, because the code renames such steps in its index only, not in the plan whose steps it then links.
- RepeatedIds.OrderIsKeptIff: asks for non-empty trimmed ids none of which is a name the index would give, because otherwise renamed steps can take over the edges of others.
- JsonSplicing.StructureIsKeptIff: speaks of values printed without escapes; an escaped quote in a print that stands inside a literal also opens or closes one, so what follows it in the template is read the other way round.
- PlanReordering.ExecutionsAgree: asks that outcomes depend only on step and rendered arguments and that arguments mention no step of the same or a later layer, without which runs do differ.
- Compose.UpComposeStack: convergence and the account of losses are promised for calls during which no removal and no listing fails, and for files edited in between with a hash that tells container names apart; repetition for calls during which no listing fails.
- JsonSplicing.RenderingKeepsStructure: assumes that the encoder prints a text as a JSON string that spells it, and speaks of lexical structure; the grammar above it sees only that.
- ImportFile.ImportReadsExportFile: does not cover table names that hold both a line end and a semicolon.
- SqlImport.TextByParity: covers texts without double quotes and backticks; with them `SqlImport.TextByScan` is the condition.
- TerminalAttach.DeliveredInOrder: does not cover runs with a close, which empties the buffer.
- ChatLoop.StreamChat: does not model the text shown to the user, which `ThinkStream` covers.
