# GeoNexus: a verified model

This project models the parts of GeoNexus in which order, concurrency and
arithmetic matter, and proves what the code and its documentation promise of
them, for all inputs, all schedules and all runs. Everything is Dafny 4.11;
`dafny verify dfyconfig.toml` checks the whole project.

| files | what they model |
|---|---|
| `Wrappers`, `Text`, `Filters`, `StableSort` | options and results, character runs and numerals, filtering, stable sorting by falling key |
| `Templates`, `Topo`, `TaskGraph` | output templates in step parameters; the planner's depth-first order; the task graph's counting sort |
| `Plan`, `Outcome`, `ReadySet`, `Executor`, `Execution` | the serial meaning of a plan; what it leaves of each step; its execution as a concurrent machine; the runner and its workers; the whole call and its refusals |
| `Reflective`, `ReflectiveRuns` | the repair loop after a first pass, and every run of it |
| `Resource`, `Routing`, `Dispatching`, `Central` | capacity matching; the routing rule; what a dispatch does, and every run of marks and leases; the central server itself |
| `Replay`, `Events` | one subscriber as a small-step machine; the event bus with live lists and bounded queues |
| `Validator`, `Contracts` | the contract checks of a card; the fail-closed report |
| `Json`, `Registry` | documents and the removal of nulls; the registry and its table, top-k search |
| `Embed`, `EmbedCounts` | the token embedding and cosine similarity; when repeated tokens show |
| `StacText`, `Stac` | publishing a card as a STAC item and reading it back |
| `Wetland`, `ChiSquare` | coastal and inland labelling against published totals; the two chi-square statistics |

Code that changes objects step by step is modelled by classes and arrays
changed in place (the runner, the repair loop, the server, the event bus, the
registry, the card builder, the labelling, the embedding sums), each method
proved against a specification function or machine, about which the main
results are proved. Code made of expressions is modelled by functions.

## Main results

- **Confluence.** Every schedule of the ready-set executor, with any number of
  workers, ends in the state of the serial run in topological order
  (`ReadySet.Confluence`), no run deadlocks or exceeds four events a step, no
  step runs twice, and the runner's own loop is such a run
  (`Executor.PlanExecutor.Run`). The result rests on template inference and
  resolution agreeing exactly (`Templates.DepsExact`). What each step needs and
  is left with is told without the steps of the execution
  (`Outcomes.EdgeExactly`, `Outcomes.SerialOutcomes`).
- **Repair loop.** What each round leaves (`Reflective.RoundIsLeaving`), what every
  run keeps and what holds when it ends (`ReflectiveRuns.EndOfRun`,
  `RunRecordsRounds`, `SettledStays`, `LastAnswerCounts`).
- **Routing and dispatch.** The exact partition, choice and order of `route`; each
  dispatch call goes to the best untried worker, nobody is called twice, and a
  retryable failure without limit means nobody is left
  (`Central.CentralServer.Dispatch`); leases and health marks over every run.
- **Replay.** What a subscriber gets under every interleaving, with and without
  overflow (`Replay.SeenExactly`, `Replay.MissedExactly`), and what a client gets
  that reconnects (`Replay.AgainExactly`).
- **Contracts.** A valid report is one combined check, when exactly it is valid
  (`Contracts.ValidExactly`) and what it means (`Contracts.ValidMeans`).
- **Retrieval.** Cauchy-Schwarz for the computed similarity, the multiset of
  tokens as the only thing embedded, and 32 of the 64 components as enough.
- **Registry.** After any run the table loads as the contracts in memory, up to
  nulls that storing drops (`Registry.GaagRegistry.RunAll`).
- **STAC.** Export then import is a projection onto a normal form, and each
  field survives under an exact condition, and so does the whole card
  (`Stac.TripIsIdentityExactly`).
- **Wetlands.** Totals are met, sections are kept whenever they can be.

## Where the code and its documentation part

The model follows the code. In each case below one lemma says exactly when the
documented promise holds, and another gives an input for which it fails.

- A client that reconnects is promised no repetition and no gap. The code
  replays the whole history instead: everything seen before comes again, and so
  does what is pushed during the new replay (`Replay.ReconnectRepeatsExactly`,
  `Replay.OneEventTwice`). Of the stream it comes back to, a client misses only
  what a full queue refuses (`Replay.ReconnectMissesExactly`); what was pushed
  before a clear that happens while it is away, and not sent to it, is lost
  (`Replay.ClearForgets`, `Replay.ClearLosesOne`).
- The pipeline goal check is said to guarantee an acyclic plan: it looks at
  `depends_on` only, and templates can close a cycle
  (`Execution.ExecuteReadySet`, `Execution.PipelineCheckMissesTemplates`).
- The repair loop is said to skip steps blocked by a failed dependency: it
  looks at explicit dependencies only (`ReflectiveRuns.AllRepairsSeeSettled`,
  whose proof builds the failing node for any plan with a forward template).
- A resource failure is said to list every unsatisfied requirement: lines with
  the word "unknown" are dropped (`Resource.ExplainedExactly`,
  `Resource.UnknownCpuHidden`).
- A box that cannot be compared passes the extent check
  (`Contracts.ExtentPassesExactly`, `Contracts.EmptyBoxPasses`). The JSON schema
  of cards asks for at least four values and the model class does not, so only
  cards built without schema validation get there.
- A failed dispatch can carry the reason of a routing that found a worker, if a
  mark runs out between two readings of the clock
  (`Central.CentralServer.Dispatch`, `Central.FailsWithGoodReason`).
- A task that lists a dependency twice is reported as a cycle
  (`TaskGraph.TopologicalOrder`, `TaskGraph.RepeatingIsStuck`).
- The embedding is said to take each distinct token once: it counts every
  occurrence, which shows unless all tokens occur equally often
  (`EmbedCounts.CountsShowExactly`), and for two given tokens unless their
  digests agree (`EmbedCounts.RepetitionShows`).
- Section labels are said to be used directly: if the published total cannot be
  met with them, the whole country is ranked again, while the recorded source
  still names the section (`Wetland.SectionsSurviveExactly`,
  `Wetland.SectionLost`).
- Persisting a contract drops nulls anywhere in its card, not only unset fields
  (`Registry.GaagRegistry.Reopen`, `Registry.NullIsLost`).

The plan executor's documentation also says that templates are resolved on
submission; a worker resolves them when it takes the step. The result is the
same (`ReadySet.ResolvedNow`).

## Model

| member | source | states |
|---|---|---|
| ReadySet.Confluence | src/geonexus/agent/planner.py:530-562 | Every schedule of submissions, starts, finishes and collections, for any number of workers, that comes to rest leaves each step with the status, result and error of the serial run in topological order. |
| ReadySet.QuiescentIsTerminal | src/geonexus/agent/planner.py:530-562 | No deadlock: a run that can go no further has every task succeeded, skipped or failed. |
| ReadySet.RunsAreBounded | src/geonexus/agent/planner.py:530-562 | Every run stops: it has at most four events a step, whatever the schedule. |
| ReadySet.EveryRunEnds | src/geonexus/agent/planner.py:530-562 | Every reachable run can be carried on to one that ends, hence to the serial result. |
| ReadySet.ExecutedOnce | src/geonexus/agent/planner.py:530-562 | No run executes a step twice; a run that ends executed exactly the steps that were not settled before and have no failed effective dependency, each once. |
| Execution.ExecutedExactly | src/geonexus/agent/planner.py:530-562 | In every run no two events start the same step, and a run that ends has started exactly the steps that were not done or skipped before and need no failed one. |
| ReadySet.NeverTooBusy | src/geonexus/agent/planner.py:506-524 | At no point of any run are more steps being executed than there are workers. |
| ReadySet.WorkersBounded | src/geonexus/agent/planner.py:506-524 | The same from the start of every run, as a count of the tasks in execution. |
| ReadySet.RunInv | src/geonexus/agent/planner.py:530-562 | Every event of every run keeps the agreement between each task state and the serial result, failure cascades included. |
| ReadySet.ResolvedNow | src/geonexus/agent/planner.py:579-586 | The parameters a worker resolves when it takes a step are those the serial run sends, whatever has finished in between. |
| ReadySet.ChainFails | src/geonexus/geotask/graph.py:305-322 | Everything downstream of a failed task through unsatisfied tasks fails in the serial run too, and none of it was ever submitted. |
| ReadySet.CollectErrorInv | src/geonexus/geotask/graph.py:305-322 | The cascade of a failed task gives its dependents the state and the error text of the serial run. |
| ReadySet.CascadeHitsCreated | src/geonexus/geotask/graph.py:305-322 | A cascade never overtakes a task that is queued or executing. |
| ReadySet.RunKeepsSettled | src/geonexus/agent/planner.py:411-422 | Steps that enter done or skipped count as satisfied and keep status and result through every run. |
| ReadySet.TerminalIsFinal | src/geonexus/agent/planner.py:425-460 | Projecting a finished task back onto its step gives the serial record, including an error message kept from before. |
| Plans.FinalEquation | src/geonexus/agent/planner.py:530-562 | The serial result is a fixed point: the final state of a step is its turn on the final states of its effective dependencies. |
| Plans.FinalStatus | src/geonexus/agent/planner.py:425-460 | After the serial run nothing is pending, settled steps are as they were, and a step with a failed dependency failed because of it. |
| Plans.OrderIrrelevant | src/geonexus/agent/planner.py:530-562 | The serial result is the same for every topological order of the effective graph. |
| Plans.ParamsFrame | src/geonexus/agent/planner.py:392-396 | The resolved parameters of a step depend on the results of its effective dependencies only. |
| Outcomes.EdgeExactly | src/geonexus/agent/planner.py:367-396 | The graph that is executed has an edge exactly where a step names another step of the plan in depends_on, or where changing the outputs of that other step alone can change what the parameters resolve to. |
| Outcomes.SerialOutcomes | src/geonexus/agent/planner.py:439-460 | What the serial run leaves of each step, in terms of the node calls alone: done or skipped steps as they were; a step that needs a failed one failed, with its old result and its earlier error or "a dependency step failed"; any other step with the answer of the call made with its parameters resolved on the final outputs of the steps it needs: the outputs, or the error text. |
| Outcomes.InputsAlike | src/geonexus/agent/planner.py:464-485 | Any account of the outputs of the steps that a step needs gives the same parameters. |
| Templates.DepsExact | src/geonexus/agent/planner.py:367-389 | Inference and resolution agree exactly: a step is inferred from a value if and only if some change of that step's outputs alone changes what the value resolves to. |
| Templates.ResolveFrame | src/geonexus/agent/planner.py:464-485 | Two states of the plan that agree on the inferred steps resolve a nested value alike. |
| Templates.ResolveNeedsDep | src/geonexus/agent/planner.py:367-389 | No step is inferred in vain: for each one there are outputs that show in the resolved value. |
| Templates.ResolveEverywhere | src/geonexus/agent/planner.py:464-485 | At every place of a nested value, at any depth, a string is substituted and everything else is as it was, keys, lengths and order included. |
| Templates.ScanFindsAll | src/geonexus/agent/planner.py:378-380 | The left-to-right scan finds a step exactly if a template naming it stands somewhere in the string. |
| Templates.MatchSound | src/geonexus/agent/planner.py:352 | What the greedy matcher accepts is a text of the template pattern, with the step number and key it names. |
| Templates.MatchComplete | src/geonexus/agent/planner.py:352 | Every text of the pattern is accepted where it stands, so greedy matching without backtracking misses none. |
| Templates.SubstituteFirst | src/geonexus/agent/planner.py:472-480 | Substitution copies the text before the first template, stray dollar signs included, replaces exactly that template by the named output, or keeps its text if there is none, and goes on behind it. |
| Topo.TopoOrder | src/geonexus/agent/planner.py:327-349 | Succeeds exactly on acyclic input, with every step once and its in-plan dependencies before it; an input already in dependency order is returned as it stands. |
| Topo.Sorter.Visit | src/geonexus/agent/planner.py:334-345 | A visit extends the order by whole dependency closures only, and raises only if the graph has a cycle. |
| Topo.CheckPipeline | src/geonexus/agent/planner.py:266-281 | A goal is accepted exactly if it has steps and all references point backward; then the order is 1..n and the cycle error cannot occur. The first bad step and its bad references are reported. |
| Topo.ForwardIsAcyclic | src/geonexus/agent/planner.py:268-274 | Backward references rule out a cycle. |
| TaskGraph.TopologicalOrder | src/geonexus/geotask/graph.py:107-123 | The counting sort orders a task graph exactly if it has no cycle and no task lists a dependency twice; a repeated dependency is reported as a cycle. |
| TaskGraph.RepeatingIsStuck | src/geonexus/geotask/graph.py:56-123 | Two tasks without a cycle, of which one lists the other twice, are reported as a cycle. |
| TaskGraph.FromTasks | src/geonexus/geotask/graph.py:56-75 | A graph is built exactly from distinct tasks with known, distinct, foreign dependencies and no cycle; repeated ids are reported before anything else. |
| Executor.PlanExecutor.Run | src/geonexus/geotask/runner.py:89-147 | The runner's loop over submissions and completions terminates and leaves the plan as the serial run does, whatever the workers do before each admission, while it waits, and before each settlement. |
| Executor.PlanExecutor.SubmitReady | src/geonexus/geotask/runner.py:102-126 | One admission round leaves nothing ready unsubmitted. |
| Executor.PlanExecutor.WaitAny | src/geonexus/geotask/runner.py:214-228 | With tasks in flight, some task returns, after any number of moves of the workers. |
| Executor.PlanExecutor.BeginStep | src/geonexus/agent/planner.py:579-586 | Taking a step is the start event: parameters are resolved at that moment. |
| Executor.PlanExecutor.FinishStep | src/geonexus/agent/planner.py:587-609 | Ending a step is the finish event: an answer writes its outputs and the status; an accepted exception writes the status and its text and is passed on under the name of a step failure; any other exception leaves the step alone and is passed on with its kind. |
| Executor.PlanExecutor.Settle | src/geonexus/geotask/runner.py:230-261 | Applying an outcome is the collect event, with its cascade on failure. |
| Executor.PlanExecutor.FailDownstream | src/geonexus/geotask/graph.py:305-322 | The queue of dependents fails exactly the unfinished tasks reached through unsatisfied ones. |
| Executor.SweepIsCascade | src/geonexus/geotask/graph.py:305-322 | A finished breadth-first search has failed the tasks of the declarative cascade and no others. |
| Executor.PlanExecutor.ProjectBack | src/geonexus/agent/planner.py:439-460 | Writing the task states back step by step gives the projection of the whole configuration. |
| Execution.ExecuteReadySet | src/geonexus/agent/planner.py:530-562 | Execution is refused exactly for repeated step ids or a cyclic effective graph; otherwise the plan ends as the serial run in any topological order would leave it, and each step is left with the outcome told by Outcomes.SerialOutcomes. |
| Execution.AcceptableTasks | src/geonexus/agent/planner.py:399-408 | For effective dependencies the graph constructor's other checks never fire. |
| Execution.BackwardPlansRun | src/geonexus/agent/planner.py:268-274 | Backward depends_on together with backward templates guarantee an acyclic effective graph. |
| Execution.PipelineCheckMissesTemplates | src/geonexus/agent/planner.py:268-281 | The pipeline check alone does not: it accepts a two-step goal whose template makes the effective graph cyclic, so that execution is refused. |
| ReflectiveRuns.EndOfRun | src/geonexus/agent/reflective.py:247-282 | When the loop ends no step is failed, or the budget is used up, or the last advice was to abort; it never takes more rounds than the budget. |
| Reflective.FailureIsRepairable | src/geonexus/agent/reflective.py:248-255 | With acyclic explicit dependencies a failed step always implies a failed step without failed explicit dependency: the candidates run out only when the failures do. |
| ReflectiveRuns.RoundTouchesOne | src/geonexus/agent/reflective.py:256-282 | Each round writes one step only, a failed one without failed explicit dependency, and leaves of it what Reflective.RoundIsLeaving says. |
| ReflectiveRuns.RunRecordsRounds | src/geonexus/agent/reflective.py:259-260 | The recorded rounds are exactly 1..used, each on one step. |
| ReflectiveRuns.SettledStays | src/geonexus/agent/reflective.py:247-282 | Done and skipped steps keep status, result and parameters through every run of the loop. |
| ReflectiveRuns.FirstFailedIsPicked | src/geonexus/agent/reflective.py:248-256 | With backward depends_on the loop works on the first failed step of the plan. |
| ReflectiveRuns.RepairSeesSettled | src/geonexus/agent/reflective.py:248-252 | Because candidates are judged by explicit dependencies only, the first repaired step sees all its effective dependencies settled, whatever the nodes answer, if and only if no template names a later step. |
| ReflectiveRuns.LaterRepairsSeeSettled | src/geonexus/agent/reflective.py:247-282 | That stays true in every later round, with parameters rewritten by advice, as long as no parameter advised for the step of a round names a later step: the step sees all its dependencies settled when it is run again. |
| ReflectiveRuns.AllRepairsSeeSettled | src/geonexus/agent/reflective.py:247-282 | Over whole runs, whatever the nodes answer and whatever is advised that names no later step: every repair sees all its inputs settled if and only if no template of the plan names a later step. |
| ReflectiveRuns.LastAnswerCounts | src/geonexus/agent/reflective.py:275-282 | Over every run, a step is never called again after an answered call, and it is repaired exactly by that answer, whose outputs are its result. |
| ReflectiveRuns.Run | src/geonexus/agent/reflective.py:229-284 | A whole run, first pass and loop: refused exactly like execution, within budget, with the exit conditions above, and nothing the pass settled is changed. It goes through states of which the first has the outcomes of the pass, each next one follows by a round on the first failed step without failed explicit dependency, and only the last round may be told to abort. |
| Reflective.ReflectiveExecutor.Reflect | src/geonexus/agent/reflective.py:247-282 | The loop over the fields of the plan computes the rounds of the specification. |
| Reflective.ReflectiveExecutor.OneRound | src/geonexus/agent/reflective.py:256-282 | One turn of the loop leaves what Reflective.RoundIsLeaving says; it reports whether the advice was to abort. |
| Reflective.RoundIsLeaving | src/geonexus/agent/reflective.py:258-282 | What one round leaves, effect by effect: the reflection is recorded; abort and skip leave their text and call nothing, a failing adviser aborting with its own text; otherwise the step is called once, with the advised skill exactly on replace with a non-empty skill, the description that goes with it, and its parameters resolved on the results present, and is left with the answer. |
| Reflective.MergeLookup | src/geonexus/agent/reflective.py:279-280 | An advised parameter overrides the one of the same key, and every other key keeps its value. |
| Resource.MatchResource | src/geonexus/resource.py:138-223 | Matches exactly if some node suits: it has what is needed as far as it tells, and in strict mode tells it. The first such node is picked; with no declared runtime, the first node. Each rejected node has its line. |
| Resource.Judge | src/geonexus/resource.py:174-209 | A node passes exactly if no declared cpu, memory or GPU requirement is unmet. |
| Resource.MeetsExactly | src/geonexus/resource.py:172-209 | The verdict on a node, dimension by dimension, in lenient and in strict mode. |
| Resource.GpuSatisfiedExactly | src/geonexus/resource.py:100-135 | A requirement of no GPU is met by anything; two real GPUs go together exactly if the name of one continues that of the other. |
| Resource.GpusAreSymmetric | src/geonexus/resource.py:100-135 | Among real GPUs it does not matter which one is required. |
| Resource.GpuExamples | src/geonexus/resource.py:100-135 | A requirement of cuda is met by CUDA-12 and the other way round, and by neither mps nor a cpu. |
| Resource.NormIs | src/geonexus/resource.py:100-135 | Names are compared without the blanks around them and in lower case. |
| Resource.StrictThenLenient | src/geonexus/resource.py:153-156 | A strict match at one place implies a lenient match there or earlier. |
| Resource.RaisingKeepsMatch | src/geonexus/resource.py:146-156 | Raising known capacities, of any nodes at once, never loses a match nor moves it to a later node. |
| Resource.LearningMayLose | src/geonexus/resource.py:153-156 | Learning an unknown cpu count is different: the node is lost exactly if the count is too small. |
| Resource.ExplainedExactly | src/geonexus/resource.py:217-220 | The promise that a failure lists every unsatisfied requirement holds exactly without strict rejections of unknown capacities and GPU names with the word unknown in them: the filter drops those lines. |
| Resource.UnknownCpuHidden | src/geonexus/resource.py:159-220 | A node of unknown cpu count fails a strict match of two cores, and no line says so. |
| Central.CentralServer.Route | src/geonexus/cafe/central.py:190-255 | A worker is a candidate exactly if it takes the payload, has no mark that lasts beyond the reading of the clock, and has the capacity as far as it tells; otherwise it is excluded for what keeps it out. Chosen is the first with the most inputs among its assets if any holds one, else the first of the requested region, else the first; the reason and its number say which. The candidates stand in that order of preference. Only expired marks of checked workers are dropped. |
| Routing.Choose | src/geonexus/cafe/central.py:235-255 | The stable sort and the two fallbacks give the preferred worker and all candidates in the order of preference. |
| Routing.RoutedIsRight | src/geonexus/cafe/central.py:190-255 | The decision in terms of the table of workers, the request and the marks alone. |
| Routing.RankedInTurn | src/geonexus/cafe/central.py:235-255 | The candidates stand by falling number of local inputs if there are any, otherwise those of the region first, and otherwise as in the table, which also decides between equals. |
| Central.CentralServer.CountInputs | src/geonexus/cafe/central.py:223-225 | The loop counts the inputs that name an asset of the worker. |
| Routing.NoRegionHint | src/geonexus/cafe/central.py:243-255 | Without region hint an absent tag equals the absent hint: the first fit worker is chosen exactly if it is untagged or every fit worker is tagged. |
| Central.CentralServer.FilterWorkers | src/geonexus/cafe/central.py:203-212 | The first pass keeps exactly the workers that accept the payload and are healthy. |
| Central.CentralServer.ScoreWorkers | src/geonexus/cafe/central.py:221-230 | The second pass scores exactly the capable workers with enough capacity by the number of their local inputs. |
| Central.CentralServer.RouteExcluding | src/geonexus/cafe/central.py:320-328 | Popping the tried workers and putting them back keeps the contents of the table and the order of the untried ones; the decision is about the untried ones. |
| Central.CentralServer.Dispatch | src/geonexus/cafe/central.py:260-318 | No worker is called twice; with a retry limit k at most max(0, k) + 1 calls are made. All calls but the last failed retryably and the last decides; under a clock that does not go back each call goes to the worker the routing rule chooses among those not called, by the marks from before. A retryable failure comes back only when the retries are used up or no uncalled worker is eligible. Nobody is called exactly if nobody is eligible at the first reading of the clock, and the error then names a reason for that exactly if nobody is at the second reading either. Each retryable failure leaves its mark; the task has a lease afterwards exactly if the last call raised, and that of this call. |
| Central.FailsWithGoodReason | src/geonexus/cafe/central.py:260-318 | With one worker whose mark ends between the first two readings of the clock, dispatch calls nobody and fails with the reason of a routing that found the worker. |
| Central.CentralServer.TryWorkers | src/geonexus/cafe/central.py:275-306 | The loop stops with the first answer that is final, or leaves retryable failures only; it ends early exactly when no untried worker fits. |
| Central.CentralServer.GiveUp | src/geonexus/cafe/central.py:312-318 | With no worker at all the error is the reason of a second routing, which names a missing worker exactly if by the marks from before none fits at that reading of the clock. |
| Central.CentralServer.MarkUnhealthy | src/geonexus/cafe/central.py:148-156 | A marked worker is answered as unhealthy exactly until the mark ends, whatever mark it had; no answer about another worker changes. |
| Central.CentralServer.IsHealthy | src/geonexus/cafe/central.py:158-165 | The answer is by the mark; exactly an expired mark is dropped. |
| Dispatching.DroppingIsInvisible | src/geonexus/cafe/central.py:158-165 | In every run of marks and questions under a clock that does not go back, dropping expired marks changes no answer. |
| Dispatching.DropShowsExactly | src/geonexus/cafe/central.py:158-165 | With a clock that goes back the drop shows exactly if the mark ends between the two readings. |
| Central.CentralServer.RegisterWorker | src/geonexus/cafe/central.py:135-143 | A known id is replaced where it stands, a new one added at the end. |
| Central.CentralServer.ReclaimExpired | src/geonexus/cafe/central.py:347-359 | The lease table is split exactly at the readings of the clock: leases that end by then are returned, each once, and those that end later stay. |
| Dispatching.AlwaysKeyed | src/geonexus/cafe/central.py:287-294 | In every run of the lease table each lease stands under its own task. |
| Dispatching.LeaseLeaves | src/geonexus/cafe/central.py:287-294 | In every run a lease leaves the table only by release, by a sweep at a reading not before its end, or by another dispatch of its own task. |
| Dispatching.DispatchIsRun | src/geonexus/cafe/central.py:287-294 | What a dispatch does to the table is the run of its acquisitions and releases. |
| Replay.SubscriberGets | src/geonexus/cafe/events.py:48-80 | Under every interleaving of pushes and deliveries without a clear the replay is the stream from its first event without gap, and the live part what the queue accepted, in rising order. |
| Replay.LiveIsComplete | src/geonexus/cafe/events.py:70-76 | Without overflow the live part is h+1, h+2, ... in order, nothing missing. |
| Replay.SeenExactly | src/geonexus/cafe/events.py:59-76 | Without overflow nothing is lost, and exactly the events h+1..m, pushed during the replay of a non-empty history, come twice. |
| Replay.NoRepetitionExactly | src/geonexus/cafe/events.py:43-76 | Within one subscription without a clear nothing comes twice exactly if the history was empty or nothing was pushed during the replay, whatever overflows. |
| Replay.ReconnectRepeatsExactly | src/geonexus/cafe/events.py:90-92 | The promise of no repetition on reconnecting, for sessions that see no clear: it holds exactly if the client was sent nothing before or the stream was cleared while it was away, and the history was empty or nothing was pushed during the new replay. |
| Replay.AgainExactly | src/geonexus/cafe/events.py:59-76 | A client that reconnects, after sessions that see no clear, gets again exactly what it was sent before, unless the stream was cleared while it was away, and what its queue accepts during the new replay of a non-empty history. |
| Replay.ReconnectMissesExactly | src/geonexus/cafe/events.py:90-92 | The promise of no gap on reconnecting, for sessions that see no clear: of the stream it comes back to, a client misses over both sessions exactly what was pushed after the new replay and refused by the full queue. |
| Replay.ClearForgets | src/geonexus/cafe/events.py:83-92 | After a clear while the client is away the stream holds exactly what was pushed since, numbered from 1, and the second session gets nothing else: what was pushed before and not sent is lost without any overflow. |
| Replay.ClearLosesOne | src/geonexus/cafe/events.py:83-92 | One event is pushed and the stream cleared while the client is away: it never gets the event. |
| Replay.OneEventTwice | src/geonexus/cafe/events.py:90-92 | A client that saw the one event and reconnects while nothing happens gets it again. |
| Replay.MissedExactly | src/geonexus/cafe/events.py:43-45 | With overflow an event is never seen exactly if the full queue refused it and it was pushed after the replay had ended. |
| Replay.HundredFit | src/geonexus/cafe/events.py:43-61 | A run in which at most a hundred events wait or are pushed never overflows. |
| Replay.HundredFitExactly | src/geonexus/cafe/events.py:43-61 | While nothing is taken from the queue, a run of pushes overflows exactly if those and what waits are more than a hundred. |
| Replay.RunInv | src/geonexus/cafe/events.py:30-80 | The invariant of history, replay position, queue and deliveries holds after every run. |
| Replay.ClearedGetsNothing | src/geonexus/cafe/events.py:83-87 | After a clear no push reaches the subscriber; it goes on with the old list. |
| Events.EventBus.PushEvent | src/geonexus/cafe/events.py:30-45 | In place: the number grows by one, the history and each queue of the stream with fewer than a hundred events get the event with that number, and this is the push step of every subscriber of the stream and touches no other. |
| Events.EventBus.SubscribeEvents | src/geonexus/cafe/events.py:59-64 | Joining picks up the live history list, or a private empty one if there is none yet. |
| Events.EventBus.Resume | src/geonexus/cafe/events.py:64-76 | Resuming the generator is the next step of that subscriber alone. |
| Events.EventBus.ClearEvents | src/geonexus/cafe/events.py:83-87 | Clearing is the clear step of every subscriber of the stream; numbers start again. |
| Events.EventBus.Close | src/geonexus/cafe/events.py:77-80 | Closing raises exactly if the stream was cleared since, and then leaves an empty stream behind. |
| Contracts.ValidateContract | src/geonexus/geocard/contracts.py:59-119 | The report is valid exactly if one combined check is satisfied without warnings, every unit is the declared one and the policy allows the request, that is, for a request that exists, if the card accepts it as Contracts.ValidExactly says; the findings are the statuses of the separate checks. |
| Contracts.SeparateIsCombined | src/geonexus/geocard/contracts.py:67-82 | The separate checks all pass exactly if the combined one is satisfied without warnings. |
| Contracts.ValidMeans | src/geonexus/geocard/contracts.py:59-119 | A valid report means: systems agree, boxes and windows share a point exactly if the card's own box and window are in order, every band is there, and the resolution is fine enough. |
| Contracts.ValidExactly | src/geonexus/geocard/contracts.py:59-119 | When a report is valid, in terms of card and request alone: the systems agree and the boxes meet, or the box is too short to compare; the windows meet; every band is there; the resolution is as fine as required up to a billionth; the units are declared; the policy lets the request through; and no name or time has a verdict word in it. |
| Contracts.UnitsPassExactly | src/geonexus/geocard/contracts.py:83-99 | Units pass exactly if the last band of that name, up to letter case, declares exactly them, and stay unknown exactly if it declares none or there is no such band. |
| Contracts.ExtentPassesExactly | src/geonexus/geocard/validator.py:228-325 | A card box of fewer than four values passes the extent check uncompared, because the message starts with a capital and the verdict is read in lower case; otherwise it passes exactly on overlap of agreeing systems without verdict words in their names. |
| Contracts.EmptyBoxPasses | src/geonexus/geocard/validator.py:234-236 | A card with an empty box passes the extent check of every request in its reference system. |
| Contracts.BoxPassesExactly | src/geonexus/geocard/validator.py:228-261 | The box passes without warning exactly if it overlaps and needs no reprojection, or is too short to compare. |
| Contracts.TimePassesExactly | src/geonexus/geocard/validator.py:263-287 | For windows in order, time passes without warning exactly if all times can be read, some instant serves both windows, open ends included, and no time has a verdict word in it. |
| Contracts.BandsPassExactly | src/geonexus/geocard/validator.py:289-304 | Bands pass without warning exactly if the card provides each one up to letter case and no quoted name holds a verdict word. |
| Contracts.AskingLessStaysValid | src/geonexus/geocard/contracts.py:59-119 | Dropping bands or units, widening the box, or asking for coarser resolution keeps a valid report valid. |
| Contracts.OverlapSharesExactly | src/geonexus/geocard/validator.py:172-174 | Overlapping closed boxes share a point exactly if both are in order. |
| Contracts.WindowsShareExactly | src/geonexus/geocard/validator.py:263-287 | Overlapping windows share an instant exactly if both are in order. |
| Contracts.CheckRequest | src/geonexus/geocard/contracts.py:31-43 | A request exists exactly with an increasing box, readable times of one zone convention, and a start not after the end. |
| Contracts.PolicyStatus | src/geonexus/geocard/contracts.py:100-116 | The policy passes exactly for the card's own jurisdiction, no forbidden export and no restriction that needs an outside decision. |
| Validator.Check | src/geonexus/geocard/validator.py:196-326 | The five checks leave their reasons and warnings in order; satisfied exactly if no reason reads as a failure, which Validator.SatisfiedExactly spells out. |
| Validator.SatisfiedExactly | src/geonexus/geocard/validator.py:196-326 | A check is satisfied exactly if each part that is asked for and declared holds: equivalent systems, a box that meets the wanted one, where needed by its moved corners, windows that meet, bands that are there, a resolution that is fine enough, and no verdict words in names. |
| Validator.Reproject | src/geonexus/geocard/validator.py:149-169 | A reprojected box is in order whatever the projection does. |
| Registry.GaagRegistry.RunAll | src/geonexus/gaag/registry.py:72-114 | After any run of registrations and removals, refused ones included, the map is that of the run, and the table loads as that map up to nulls that storing drops; a table that registries wrote loads exactly as what is stored of it. |
| Registry.GaagRegistry.Register | src/geonexus/gaag/registry.py:72-86 | A known id is refused and nothing changes; otherwise map and table gain the contract, each column with its own field, the card without nulls. |
| Registry.GaagRegistry.Remove | src/geonexus/gaag/registry.py:107-114 | Map and table lose the id; an unknown id changes nothing. |
| Registry.GaagRegistry.Reopen | src/geonexus/gaag/registry.py:180-200 | A registry opened on the table holds the same contracts up to nulls that storing drops; if registries wrote the table, the same contracts exactly if no null stands in a card. |
| Registry.NullIsLost | src/geonexus/gaag/registry.py:159-178 | A card that offers null among the values of a parameter does not come back. |
| Registry.RowBack | src/geonexus/gaag/registry.py:159-199 | A contract is read back from its row as it was stored, and unchanged exactly if no null stands in its card. |
| Registry.WrittenExactly | src/geonexus/gaag/registry.py:159-199 | The rows that a registry writes are exactly those that reading and writing again leaves as they are. |
| Registry.GaagRegistry.constructor | src/geonexus/gaag/registry.py:41-54 | Opening loads every readable row once, in whatever order the rows come. |
| Registry.GaagRegistry.SearchSemantic | src/geonexus/gaag/registry.py:130-151 | The hits are contracts that the box does not rule out, each with its similarity to the query or zero without an embedding, by falling score and then by table order, and a contract left out has k hits ahead of it; the search raises exactly if the box is too short to be compared with some contract that its first values do not rule out. |
| Registry.AgainstMeans | src/geonexus/gaag/registry.py:142-148 | A box of four values or more rules out exactly the boxes that do not overlap and never raises; a shorter one rules out or raises for every contract with a box. |
| Registry.NothingBetterLeft | src/geonexus/gaag/registry.py:150-151 | Hits come by falling score and nothing better is left out. |
| Registry.BestAnswers | src/geonexus/gaag/registry.py:130-151 | The stable sort cut at k is the answer described at the search itself. |
| Json.StripEntryAnywhere | src/geonexus/gaag/registry.py:159-178 | Storing drops an entry that is null and leaves every other where it is, with its own value stripped. |
| Registry.BestUnique | src/geonexus/gaag/registry.py:150-151 | Ties go by table order, so that the answer is determined. |
| StableSort.SortUnique | src/geonexus/gaag/registry.py:150 | Order and stability alone determine the sorted list. |
| Embed.CosineBounded | src/geonexus/gaag/embed.py:83-91 | The similarity of any two vectors lies in [-1, 1]. |
| Embed.CauchySchwarz | src/geonexus/gaag/embed.py:88-91 | The product of two vectors is bounded by that of their norms, a zero norm read as one. |
| Embed.CosineExactly | src/geonexus/gaag/embed.py:83-91 | The similarity without a root: its square times both squared norms is the squared product, its sign is that of the product, and vectors of different length or none have none. |
| Embed.OrderIrrelevant | src/geonexus/gaag/embed.py:47-57 | The embedding depends only on which tokens occur how often. |
| EmbedCounts.SumsShowExactly | src/geonexus/gaag/embed.py:24-57 | The sum of directions takes each distinct token once, whatever the digests, exactly if no token occurs twice. |
| EmbedCounts.CountsShowExactly | src/geonexus/gaag/embed.py:24-57 | The embedding takes each distinct token once, whatever the digests, exactly if all tokens occur equally often. |
| EmbedCounts.RepetitionShows | src/geonexus/gaag/embed.py:24-57 | For any given digest the text "a a b" embeds as its distinct tokens exactly if the digests of the two tokens agree in every bit that is read. |
| Embed.FirstHalfSuffices | src/geonexus/gaag/embed.py:38-45 | At dimension 64 the similarity is that of the first 32 components. |
| Embed.NormalisingKeepsCosine | src/geonexus/gaag/embed.py:56-57 | The similarity of two embeddings is that of their plain token sums. |
| Embed.CosineScales | src/geonexus/gaag/embed.py:83-91 | Scaling vectors does not change their similarity, zero vectors included. |
| Embed.OddNeverZero | src/geonexus/gaag/embed.py:52-55 | Components have the parity of the number of tokens, so that an odd number never cancels out. |
| Embed.EmbedText | src/geonexus/gaag/embed.py:47-57 | The in-place sums and the division give the embedding; a text without tokens gives zeros. |
| Embed.SumUnits | src/geonexus/gaag/embed.py:51-55 | Adding the directions in place gives the component sums. |
| Embed.TokenUnit | src/geonexus/gaag/embed.py:38-45 | A token's list holds the signs of its digest bits. |
| Embed.SignOfBit | src/geonexus/gaag/embed.py:38-45 | An entry is positive exactly if bit i mod 8 of byte i mod 32 is set. |
| Embed.WordsOfPhrases | src/geonexus/gaag/embed.py:48 | Every character but small letters, digits and underscores separates words. |
| Stac.SecondTrip | src/geonexus/adapters/stac_write.py:68-167 | Export and import give the normal form; a second trip changes nothing exactly if the card has no box or one of at least four values, and raises otherwise. |
| Stac.TripIsNormal | src/geonexus/adapters/stac.py:105-187 | A card that can be exported comes back in its normal form, field by field. |
| Stac.TextsKeptExactly | src/geonexus/adapters/stac_write.py:74-105 | Id, name, description, start and end come back exactly under: allowed characters, non-empty texts, an end wherever there is a start. |
| Stac.TripIsIdentityExactly | src/geonexus/adapters/stac_write.py:68-167 | Publishing a card and reading it back gives the card itself exactly if it is like one imported from that collection: every field in the form an import gives it. |
| Stac.DataKeptExactly | src/geonexus/adapters/stac_write.py:78-138 | Box, reference system, resolution and bands come back exactly under: one to four box values, canonical non-zero code, resolution not zero, distinct named clean bands. |
| Stac.BandsKeptExactly | src/geonexus/adapters/stac_write.py:125-138 | A band list survives the dictionary of assets exactly if its names are distinct and not empty and its fields clean. |
| Stac.Export | src/geonexus/adapters/stac_write.py:68-167 | The writer fills the item of the specification, which shows the card as Stac.ExportedSays tells, or raises for a box of fewer than four values without readable geometry. |
| Stac.Import | src/geonexus/adapters/stac.py:105-187 | The reader drives the builder to the card of the specification, which tells of the item what Stac.ImportedSays says. |
| Stac.ExportedSays | src/geonexus/adapters/stac_write.py:68-167 | The exported item, field by field: id, box, geometry declared or drawn through the four corners, times, code, texts, links, and one asset for each band name in the order of first appearance, which shows the last band of the name. |
| Stac.ImportedSays | src/geonexus/adapters/stac.py:105-187 | The imported card, field by field: texts with their defaults, box cut to four values, code, resolution, times, the named bands, media types, provenance and licence. |
| StacText.SanitizeRun | src/geonexus/adapters/stac_write.py:40-42 | After a stretch of id characters a whole run of others becomes one hyphen, and the rest is treated likewise. |
| StacText.CodeIsFirst | src/geonexus/adapters/stac_write.py:45-49 | The code is the number of all digits after the first place that has the word, in any letter case, before a digit. |
| StacText.SmallLettersCode | src/geonexus/adapters/stac_write.py:45-49 | A code in small letters within a longer text is found. |
| StacText.SanitizeKeepsExactly | src/geonexus/adapters/stac_write.py:40-42 | Exactly the ids of allowed characters stay as they are. |
| StacText.CanonicalCode | src/geonexus/adapters/stac_write.py:45-49 | The code of a canonical reference system is read back. |
| Wetland.TotalMet | examples/flightway_wetland/extract_supp_table3.py:386-420 | Every country of the table gets its published number of coastal sites, none if that is negative, or all its sites if they are fewer. |
| Wetland.InferWetlandType | examples/flightway_wetland/extract_supp_table3.py:386-420 | Every country of the table is labelled by its ranking, with the labels Wetland.LabelledAre describes, and sites of other countries are untouched. |
| Wetland.LabelCountry | examples/flightway_wetland/extract_supp_table3.py:396-418 | One country's turn, with the fallback taken exactly if the sections cannot be kept. |
| Wetland.KeepableIsNecessary | examples/flightway_wetland/extract_supp_table3.py:405-413 | No labelling that keeps the sections meets the total outside the range in which the algorithm keeps them. |
| Wetland.SectionsSurviveExactly | examples/flightway_wetland/extract_supp_table3.py:396-418 | Section labels survive exactly if the total can be met with them, or lies outside the group and all decided sites already have the one kind then given to all. |
| Wetland.SectionLost | examples/flightway_wetland/extract_supp_table3.py:412-418 | One site inland by its section and a total of one: the site ends as coastal, with the section as its recorded source. |
| Wetland.InferredInOrder | examples/flightway_wetland/extract_supp_table3.py:409-411 | When the sections are kept, an inferred coastal site comes before any inferred inland one: names with a word of the coast alone first, then with words of both, without any, and of the inland alone, and the earlier site among equals. |
| Wetland.LabelledAre | examples/flightway_wetland/extract_supp_table3.py:386-420 | The labels in terms of the sites alone: as many coastal as published, within the group; every site labelled and told where from; sections kept if they leave room for the total; and coastal sites taken in the order of their names and places. |
| Wetland.RankingIs | examples/flightway_wetland/extract_supp_table3.py:409 | The ranking is by falling score, ties by place, and names every ranked site once. |
| ChiSquare.GofClosedForm | examples/flightway_wetland/rfi_skills.py:82-94 | The statistic is k times the sum of squares over the total, less the total; zero for a zero total. |
| ChiSquare.GofSign | examples/flightway_wetland/rfi_skills.py:82-94 | With a positive total the statistic is not negative, and zero exactly if all counts are equal. |
| ChiSquare.PublishedFigures | examples/flightway_wetland/rfi_skills.py:83-87 | The published figures 8.33, 32.39 and 72.53 come out for the totals of the published table. |
| ChiSquare.TwoByTwoClosedForm | examples/flightway_wetland/rfi_skills.py:97-110 | The statistic of a table is n (ad - bc)^2 over the product of its margins, and zero without total or margin. |
| ChiSquare.TwoByTwoSign | examples/flightway_wetland/rfi_skills.py:97-110 | With positive margins the statistic is not negative, and zero exactly for proportional rows. |

## Left out

- ReadySet.Confluence: a node call is a function of the step and its resolved parameters, so that answers that change with time or with other calls are not covered; a plan whose node output is not a dictionary of texts is not either.
- Executor.PlanExecutor.Run: moves of the workers within one cascade of a failure, which concern other tasks; the runner's stop callback, capacity scheduler, cancellation, retries with back-off and failing submissions, none of which the plan executor uses.
- Executor.PlanExecutor.SubmitReady: tasks ready at the same time are submitted one by one in list order, and the event machine allows every order.
- Templates.MatchSound: digits and letters are ASCII; the pattern also accepts other Unicode decimal digits.
- Templates.SubstituteFirst: output values are texts already; converting numbers and lists to text is not modelled, and neither is a dictionary key that occurs twice.
- Plans.FinalStatus: plan steps are values in maps instead of objects shared by plan and tasks; the identifiers of skills, cards, extents and nodes are part of the node call.
- Reflective.ReflectiveExecutor.Reflect: the adviser is an arbitrary answer or failure for each round; prompts and skill discovery are not modelled.
- Resource.MatchResource: memory is a number; the unit suffixes of memory texts (where MB is not divided although the documentation says so) and unreadable cpu texts are left to the caller. White space and case of GPU names are ASCII.
- Central.CentralServer.Dispatch: other threads do not change the server while a worker executes; the lease machine covers interleaved dispatches of leases. What a worker does is a given answer or exception for each worker, and the wording of reasons is a tag.
- Central.CentralServer.RegisterWorker: replacing a worker does not touch its marks; workers with tags of other types than declared raise in the original.
- Central.CentralServer.ReclaimExpired: the order of the returned leases.
- Replay.ReconnectRepeatsExactly: sessions during which the stream is cleared; Replay.ClearedGetsNothing covers those.
- Replay.SubscriberGets: heartbeats and the initial greeting carry no event and are not recorded; the text of a server-sent event, which has no number in it, is not modelled.
- Events.EventBus.PushEvent: time stamps, and the checkpoint, completion and error wrappers.
- Validator.Check: the comparison of reference systems, the projection of a point, reading times, lower-casing and quoting are given functions; two names that form a verdict word only together with the text around them are not considered.
- Contracts.BoxPassesExactly: six-value boxes are cut to their first four values as the code does, although section 5 of RFC 7946 orders them by axis.
- Contracts.CheckRequest: numbers are finite; requests and the validator read times alike.
- Registry.RowBack: a JSON column holds the document its text denotes, so that printing and reading texts (floating-point digits, keys that are not texts) is not modelled; that a card is built again from its fields, and that fields left out are unset, is taken from the model class.
- Registry.GaagRegistry.constructor: tables with rows that cannot be read, for which opening raises; SQLite is a table by primary key, the in-memory database path and the PostgreSQL backend are not modelled.
- Registry.GaagRegistry.SearchSemantic: a box in the metadata that is not a list of numbers, and a negative k.
- EmbedCounts.CountsShowExactly: an embedding of one component is only a sign; the functions of the module use 64.
- Embed.EmbedText: SHA-256 is any function to 32 bytes, the square root is exact, lower-casing is ASCII; rounding is not modelled.
- StacText.CanonicalCode: letters and digits are ASCII; the code pattern also accepts other Unicode digits and case pairs.
- Stac.Export: properties in the geonexus name space, roles and descriptions of assets, which the reader ignores.
- Stac.Import: items that are not dictionaries or carry explicit nulls, several media types joined with commas, and an explicit node address.
- Wetland.InferWetlandType: the transient score is kept beside the sites instead of in them; names are read by two given word patterns.
- ChiSquare.GofClosedForm: rounding to two places.
- ChiSquare.PublishedFigures: the fourth published figure, 6.46, is of a table that the repository does not have.
- Not modelled at all: the HTTP and MCP surfaces, the sandboxes, the LLM clients, the catalogue and map adapters, the command line, the report pages, PDF extraction, visibility levels and JSON-RPC envelopes.
