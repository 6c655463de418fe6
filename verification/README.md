# A verified model of preCICE

preCICE couples independent solvers. This project models its core algorithms and protocols and proves what they
promise, for all inputs, all runs and all interleavings. `dafny verify dfyconfig.toml` checks everything.

## Coupling protocol

Serial, parallel and multi coupling schemes are one state machine. A scheme is a star: the hub is the second
participant or the controller, which takes the implicit decisions, and the spokes are the first or the other
participants. A participant runs the program text of its exchanges (`Scheme`): `initialize`, then
`addComputedTime`, `firstExchange`, `secondExchange` while coupling is ongoing. The system (`Star`) steps any
participant at any time; channels are FIFO queues and a receive from an empty queue blocks. Whatever the solvers
decide (whether a measure holds, how long a dictated window is) is an arbitrary function of the round, so a theorem
for every such function is a theorem for every sequence of decisions. Time is counted in integer ticks.

- `Choreography` defines the infinite stream of messages of a link and shows that both ends perform it; `Places`,
  `Lockstep` and `Turns` tie the state of a participant to its place in the stream.
- `StarSafety`, `StarSteps` and `StarLiveness` keep the invariant of the whole star; `StarTheorems` and `StarResults`
  hold the results over whole runs. `StarWork` and `StarProgress` show that runs can always go on, `StarFairness` that
  fair schedulers let them, and `StarStamps` and `StarLookAhead` under which times data is stored. `StarLaws` says with the
  configuration, the decisions and the clock alone when a window is completed, which time steps are allowed, what a
  participant tells its solver and when the simulation ends.
- `Execution` executes a whole exchange in one go, and `CouplingSchemeObject` is the imperative object, method by
  method, proved to do exactly that. `ExecutionInStar` and `CallsInStar` show that its calls are consecutive steps of the star,
  so the results over whole runs hold for it: a call
  from a reachable state ends in a reachable one.
- `Composition` and `CompositionObject` compose one implicit scheme with explicit ones.

What the proofs found:

- The serial second participant receives data for the end of its next window with its clock advanced by the full
  window size, also when the maximum time cuts that window short. The data is then stored under a time that nobody
  ever reaches (`StarResults.LookAheadOvershoots`). `StarStamps.StampsAgree` says for every round when the times agree,
  and `StarLookAhead.AllStampsAgreeIff` for which configurations they always do.
- A strict convergence measure in a scheme without an iteration limit ends the simulation at its first violation,
  because the comparison with the limit is then always true (`StarResults.StrictEndsRoundIff`). The model follows
  the check; the assertion in front of it fails as well.
- An implicit scheme without convergence measures and without a limit of the iterations is meant to be refused
  (`src/cplscheme/config/CouplingSchemeConfiguration.cpp:984-986`), but the missing limit is replaced by "infinite"
  before the check looks for it, so the configuration is accepted and repeats its first window for ever
  (`StarLookAhead.AcceptedButEndless`).
- A serial second participant waits for data at initialization without asking whether coupling is ongoing. The
  configuration demands a positive maximum time and number of windows
  (`src/cplscheme/config/CouplingSchemeConfiguration.cpp:203-209`), and so does `Scheme.ValidConfig`.

## Quasi-Newton acceleration

`QuasiNewton` is the bookkeeping of the columns of V, W and the QR decomposition as a state machine, and
`QuasiNewtonColumns` ties the decomposition and the counters to them. `QuasiNewtonDifferences` says over every run which
differences they hold: the newest ones, as many as the limits allow. `QuasiNewtonObject` is the object with the deque of counters.
`Jacobian`, `PseudoInverse` and `JacobianUpdates` are the algebra of the multi-vector method, `JacobianRuns` its runs,
`JacobianObject` the object, and `JacobianOverRuns`, `JacobianFreshness` and `JacobianDefault` say over every run when the
steps with stored or factored previous Jacobian, and the Jacobian kept for the next window, are the explicit ones.

- At the end of a window restart mode pushes Wtil without asking whether it is marked as outdated
  (`src/acceleration/IQNIMVJAcceleration.cpp:684-691`). A window that took no quasi-Newton step then pushes the factors of
  the window before again, and the factored Jacobian counts them twice
  (`JacobianExamples.OutdatedFactorsArePushedAgain`); `JacobianFreshness.RestartIsExplicitIff` is the exact condition.
- Without reuse of past windows and without forced relaxation, which is the default, nothing marks Wtil as outdated
  although the previous Jacobian changes, so the first efficient step of every later window adds the last update a
  second time (`JacobianExamples.DefaultStepCountsTwice`); `JacobianDefault.DefaultIsExplicitIff` is the exact condition.
- `always-build-jacobian` takes explicit steps only, but keeps the Jacobian of the last step for the next window, without
  the column that is added at convergence (`JacobianExamples.LastColumnIsForgotten`);
  `JacobianOverRuns.KeptIsExplicitIff` says when this makes no difference. Its filter violates an assertion on Wtil
  exactly if the last step had at most one column (`JacobianOverRuns.FilterAssertionIff`,
  `JacobianExamples.FilterMeetsOneColumn`).
- A shift deletes the last column of the QR decomposition even if that is empty, because dependent columns were refused
  (`QuasiNewtonColumns.ShiftAssertedIff`, `QuasiNewtonColumns.DependentColumnsEmptyIt`).
- The limit `overdetermined` compares with "at most", so V may get one column more than there are unknowns, which the
  QR decomposition refuses. `QuasiNewtonColumns.UpdateAligned` gives the exact condition under which V and the
  decomposition stay aligned, and `QuasiNewtonColumns.SquareSystemOverflows` a run in which they do not.
- The branch that restores matrices from the backup is never taken (`QuasiNewton.NothingToRestore`).
- A filter that removes the only column of the current window removes its counter too, so later columns are counted
  for an older window (`QuasiNewtonColumns.FilterKeepsEncoding`).

## Data exchange between parallel participants

`CommunicationMaps` builds the maps from sorted intersections, `Blocks` adds and picks blocks of values, and `MToN`
proves that direct exchange and exchange through a global array deliver the same sums. `SerializedStamples` stacks time
steps and commutes with both.

- A rank that shares no vertex keeps its receive buffer instead of zeros (`MToN.WithoutMapping`).
- The gradient buffer of vector data is allocated larger than what is exchanged (`SerializedStamples.GradientBuffer`).
  Direct exchange uses its beginning only. Through the primary ranks the exchange then fails, unless no secondary rank
  has vertices: a secondary rank sends more than the primary rank reads (`SerializedStamples.GradientMessagesFit`).

## Linear algebra, ring, wire formats, mapping

`Sums` and `Matrices` are the common ground. `TriangularInverse` and `BlockInversion` are the blocked inversion of a
lower triangular matrix, on arrays and for every block size. `Ring` is the ring connection with accept and request as
rendezvous. `OrderedMaps`, `SerializedPartitioning`, `SerializedBoundingBoxes`, `SerializedMesh` and
`SerializedMeshObject` are the wire formats. `Mapping` and `MappingMethods` show that conservative mapping is the transpose
of consistent mapping.

## Model

| member | source | states |
|---|---|---|
| `StarTheorems.NoProtocolError` | src/cplscheme/SerialCouplingScheme.cpp:91-200 | in every reachable state of every interleaving over FIFO channels a waiting receive finds at the head of its channel exactly the message it is made for: right kind, right round, right payload; no assertion of a scheme fails |
| `StarTheorems.DeadlockFree` | src/cplscheme/ParallelCouplingScheme.cpp:35-109 | every reachable state is one where all have finished, or the second participant (controller) has stopped with an error, or some participant can take a step |
| `StarTheorems.NoDeadlock` | src/cplscheme/MultiCouplingScheme.cpp:80-171 | names a participant that can step, from any state that satisfies the invariant |
| `StarTheorems.QuietEnd` | src/cplscheme/BaseCouplingScheme.cpp:543-547 | when all have finished they did so after the same number of rounds and all channels are empty |
| `StarTheorems.RunKeeps` | src/cplscheme/BaseCouplingScheme.cpp:348-429 | every reachable state satisfies the invariant of the whole star |
| `StarTheorems.SomeStepIsLegal` | src/cplscheme/BaseCouplingScheme.cpp:530-541 | an unfinished participant between two exchanges always has a legal time step |
| `StarSteps.StepKeeps` | src/cplscheme/BaseCouplingScheme.cpp:348-429 | one step of any participant (operation, decision or time step) keeps the invariant of the whole star |
| `StarResults.LockstepOverRuns` | src/cplscheme/BaseCouplingScheme.cpp:371-429 | participants that have completed the same number of window-end exchanges agree on window, iteration, window start, verdict and on whether coupling goes on |
| `StarResults.CheckpointsAreSound` | src/cplscheme/BaseCouplingScheme.cpp:385-404 | required actions form write, read*, write, ...; over every run of an implicit scheme a participant has to write a checkpoint exactly before the first time step of a new window that is still to be computed, and to read one exactly before the first time step of a repeated iteration, at the time of the latest required write; in all other states nothing is required; the reads since the write count the iterations |
| `StarLaws.WindowGrowsIff` | src/cplscheme/BaseCouplingScheme.cpp:715-774 | round by round: an explicit scheme completes a window; an implicit one does so in the last allowed iteration, and from the minimal iteration on if and only if there are measures and either all hold or one that suffices holds and no strict one fails; otherwise the window is repeated in the next iteration |
| `StarLaws.StrictFailureIff` | src/cplscheme/BaseCouplingScheme.cpp:744-755 | a round reports the strict failure if and only if a strict measure fails and the iteration has reached the limit |
| `StarLaws.BadRoundIff` | src/cplscheme/BaseCouplingScheme.cpp:744-755 | a round ends with an error if and only if the scheme is implicit and a strict measure fails at the limit, or the window is repeated with another dictated size |
| `StarLaws.WindowLength` | src/cplscheme/impl/TimeHandler.cpp:116-123 | every ongoing window has a positive length, ends at the maximum time at the latest, and has the configured size unless the maximum time cuts it short |
| `StarLaws.EverySizeIsPossible` | src/cplscheme/SerialCouplingScheme.cpp:61-70 | a participant that dictates the size may choose any positive number of ticks up to the maximum time in any round, with the same decisions before |
| `StarLaws.StandsAt` | src/cplscheme/BaseCouplingScheme.cpp:371-429 | every participant between two exchanges has the window, the iteration and the window start to which the rounds it has completed have led, and a progress within the window |
| `StarLaws.FlagsAtRest` | src/cplscheme/BaseCouplingScheme.cpp:489-503 | over every run a window is reported as complete, and the verdict is converged, if and only if the last round completed one; data is reported as received exactly before the first step, and for the serial second participant only while coupling goes on |
| `StarLaws.StepIsLegalIff` | src/cplscheme/BaseCouplingScheme.cpp:530-541 | over every run a time step is legal if and only if it is positive, coupling goes on, and it exceeds neither the maximum time nor the end of the window; a participant that dictates the size has only the maximum time to respect |
| `StarLaws.SimulationEnds` | src/cplscheme/BaseCouplingScheme.cpp:543-547 | over every run no time exceeds the maximum time and no window follows the last one, and coupling is over exactly after the last window or at the maximum time |
| `StarStamps.StampsAgree` | src/cplscheme/BaseCouplingScheme.cpp:204-227 | data received without look-ahead is stored under the time at which it was sent; data of look-ahead for a round was sent at the end of that round, and is stored under this time if and only if there is no maximum time, the window size is dictated, or the start of the window plus the window size does not exceed the maximum time |
| `StarLookAhead.AllStampsAgreeIff` | src/cplscheme/BaseCouplingScheme.cpp:216-227 | a serial configuration with a fixed window size stores all data of all runs under the time at which it was sent if and only if there is no maximum time, it is a multiple of the window size, the window it cuts short lies beyond the maximum number of windows, or it is not the first one and no window can ever be completed |
| `StarLookAhead.SomeRunPasses` | src/cplscheme/BaseCouplingScheme.cpp:216-227 | in every other such configuration a run exists in which data is stored under another time |
| `StarLookAhead.RunCovers` | src/cplscheme/SerialCouplingScheme.cpp:186-200 | over every run the serial second participant has looked ahead once for every window it has begun |
| `StarLookAhead.WindowStarts` | src/cplscheme/impl/TimeHandler.cpp:77-90 | in every round the window starts at a multiple of the window size given by the number of the window, or at the maximum time |
| `StarLookAhead.WindowsCompleteIff` | src/cplscheme/BaseCouplingScheme.cpp:884-898 | an implicit scheme can complete a window if and only if it has a convergence measure or a limit of the iterations |
| `StarLookAhead.AcceptedButEndless` | src/cplscheme/config/CouplingSchemeConfiguration.cpp:974-992 | a configuration without measures and without a limit passes the check that forbids it, because the missing limit has been replaced before, and its first window is repeated for ever |
| `StarResults.LookAheadOvershoots` | src/cplscheme/BaseCouplingScheme.cpp:216-227 | a concrete run in which the look-ahead of a serial second participant stores data under a time beyond the maximum time |
| `StarResults.IterationsAreBounded` | src/cplscheme/BaseCouplingScheme.cpp:409-414 | in every round the iteration is between one and the limit, and a round that completes a window has at least the minimal iteration |
| `StarResults.ParticipantsIterate` | src/cplscheme/BaseCouplingScheme.cpp:409-414 | every participant of every reachable state works in an iteration between one and the limit, and every window it has completed took at least the minimal number of iterations |
| `StarResults.FailsExactlyInBadRounds` | src/cplscheme/BaseCouplingScheme.cpp:744-755 | only the second participant (controller) ever stops, only in a round in which a strict measure is violated or a dictated size changes, and it never passes such a round |
| `StarResults.StrictMeasuresHeld` | src/cplscheme/BaseCouplingScheme.cpp:744-755 | for every window that was completed without error each strict measure held in its last iteration |
| `StarResults.StrictEndsRoundIff` | src/cplscheme/BaseCouplingScheme.cpp:744-755 | a violated strict measure ends a round with the error if and only if the iteration has reached the limit or there is none |
| `StarResults.StopsInFirstBadRound` | src/cplscheme/BaseCouplingScheme.cpp:749-752 | in the first round that ends with an error some run stops there with the error of the hub, and no run gets beyond it |
| `StarResults.RoundsDecrease` | src/cplscheme/BaseCouplingScheme.cpp:884-898 | with limited windows or time and limited iterations a bound on the remaining rounds falls with every round |
| `StarResults.EveryScheduleEnds` | src/cplscheme/BaseCouplingScheme.cpp:381-428 | under those limits every scheduler reaches an end: either the hub has stopped with an error in a round that ends with one, or all participants have finished after the same round and all channels are empty |
| `StarProgress.RunsGoOn` | src/cplscheme/BaseCouplingScheme.cpp:348-429 | every run can be continued until all participants have completed any given number of rounds, as long as these rounds are ongoing, or until the hub stops with an error |
| `StarProgress.AwaitedIsNear` | src/cplscheme/BaseCouplingScheme.cpp:178-214 | a participant waits at an empty channel only for one that has not completed the round of the awaited message |
| `StarFairness.FairSchedulesArrive` | src/cplscheme/BaseCouplingScheme.cpp:348-429 | under every scheduler that gives each participant its turn again and again, with or without limits, all participants complete every ongoing round, so nobody waits for ever; the hub stops in the first round that ends with an error |
| `StarFairness.RoundRobinIsFair` | src/cplscheme/BaseCouplingScheme.cpp:348-429 | the scheduler that lets all participants take turns is fair |
| `StarFairness.StaysEnabled` | src/cplscheme/BaseCouplingScheme.cpp:178-214 | a step of one participant never takes a possible step of another one away |
| `StarLiveness.FinishedLog` | src/cplscheme/BaseCouplingScheme.cpp:543-547 | a participant that has finished has sent and received exactly all messages of its rounds |
| `StarLiveness.NotForEachOther` | src/cplscheme/SerialCouplingScheme.cpp:91-118 | two participants never wait for each other at the two ends of a link |
| `StarLiveness.NotForFinished` | src/cplscheme/SerialCouplingScheme.cpp:186-198 | nobody waits for a participant that has finished |
| `StarSafety.ReceivesExpected` | src/cplscheme/BaseCouplingScheme.cpp:178-214 | the next message of a link is the next event of the choreography that both ends follow |
| `Choreography.PlansPerformProtocol` | src/cplscheme/SerialCouplingScheme.cpp:91-200 | seen from one link, the exchanges of the two participants perform the same sequence of messages, in serial, parallel and multi schemes |
| `Turns.LookAheadDecision` | src/cplscheme/SerialCouplingScheme.cpp:186-198 | the serial second participant waits for further data exactly when the first one will do another window or iteration, although it decides before it has completed its own window |
| `Turns.AdvanceKeeps` | src/cplscheme/BaseCouplingScheme.cpp:460-479 | adding a legal time step and beginning the exchange keeps the invariant of a participant |
| `Turns.FinishKeeps` | src/cplscheme/BaseCouplingScheme.cpp:381-428 | completing or repeating a window keeps the invariant of a participant and none of its assertions fails |
| `Turns.FirstTurnKeeps` | src/cplscheme/BaseCouplingScheme.cpp:371-381 | going from the first to the second exchange of a window end keeps the invariant of a participant |
| `StarResults.WindowsAgreeOverRuns` | src/cplscheme/SerialCouplingScheme.cpp:61-89 | in the same round all participants at the end of a window have the same window start and the same length, also when the first participant dictates it |
| `StarResults.WaitsExactlyForNextRound` | src/cplscheme/SerialCouplingScheme.cpp:186-198 | over every run the serial second participant waits for data, before completing its window, if and only if the first participant, having completed it, goes on |
| `ExecutionInStar.StepIsOperation` | src/cplscheme/BaseCouplingScheme.cpp:117-227 | what an operation does to one participant and its connections is what the step of the whole star does |
| `ExecutionInStar.PlanIsSteps` | src/cplscheme/BaseCouplingScheme.cpp:117-227 | executing the operations left in an exchange has the effect of as many consecutive steps of the participant, or stops where these steps wait for a message or fail |
| `ExecutionInStar.AloneContinues` | src/cplscheme/BaseCouplingScheme.cpp:286-429 | consecutive steps of one participant continue a run of the star |
| `CallsInStar.ExchangeIsSteps` | src/cplscheme/BaseCouplingScheme.cpp:286-429 | executing a whole exchange is taking the steps of its plan, one for each operation; it blocks exactly where these steps wait |
| `CallsInStar.InitializeIsSteps` | src/cplscheme/BaseCouplingScheme.cpp:286-314 | the call `initialize` has the effect of consecutive steps of the participant |
| `CallsInStar.FirstExchangeIsSteps` | src/cplscheme/BaseCouplingScheme.cpp:348-364 | after the step of the solver, `firstExchange` has the effect of consecutive steps of the participant |
| `CallsInStar.SecondExchangeIsSteps` | src/cplscheme/BaseCouplingScheme.cpp:371-429 | `secondExchange` with the look-ahead and the end of the round has the effect of consecutive steps of the participant |
| `CallsInStar.SecondExchangeMidWindow` | src/cplscheme/BaseCouplingScheme.cpp:371-381 | in the middle of a window `secondExchange` changes nothing |
| `CallsInStar.CallKeeps` | src/cplscheme/BaseCouplingScheme.cpp:286-429 | a call from a state with the invariant ends in a state with the invariant, waits in front of a receive if it blocks, and fails no assertion of the scheme |
| `CallsInStar.CallContinues` | src/cplscheme/BaseCouplingScheme.cpp:286-429 | a call from a reachable state ends in a reachable state, whose participant has what the call leaves |
| `Execution.FinishIsCountAndClose` | src/cplscheme/BaseCouplingScheme.cpp:385-428 | the end of the second exchange splits into counting and updating the time, with the assertions in between |
| `CouplingSchemeObject.CouplingScheme.constructor` | src/cplscheme/BaseCouplingScheme.cpp:286-301 | the object starts in the initial state of the state machine; the write checkpoint is required in implicit mode, nothing in explicit mode |
| `CouplingSchemeObject.CouplingScheme.SendTimeWindowSize` | src/cplscheme/SerialCouplingScheme.cpp:61-70 | sends the computed size, makes it the current size and forgets the next one |
| `CouplingSchemeObject.CouplingScheme.ReceiveAndSetTimeWindowSize` | src/cplscheme/SerialCouplingScheme.cpp:72-89 | takes the dictated size; a changed size while a window is repeated is an error |
| `CouplingSchemeObject.CouplingScheme.SendConvergence` | src/cplscheme/BaseCouplingScheme.cpp:924-930 | sends the verdict on one link |
| `CouplingSchemeObject.CouplingScheme.ReceiveConvergence` | src/cplscheme/BaseCouplingScheme.cpp:932-938 | takes over the verdict |
| `CouplingSchemeObject.CouplingScheme.SendData` | src/cplscheme/BaseCouplingScheme.cpp:117-157 | sends data with the current time on one link |
| `CouplingSchemeObject.CouplingScheme.ReceiveData` | src/cplscheme/BaseCouplingScheme.cpp:178-214 | stores data under the current time |
| `CouplingSchemeObject.CouplingScheme.ReceiveDataForWindowEnd` | src/cplscheme/BaseCouplingScheme.cpp:216-227 | stores data under the time of the next window end and restores the clock |
| `CouplingSchemeObject.CouplingScheme.ReceiveDataForRepeatedWindow` | src/cplscheme/SerialCouplingScheme.cpp:190-196 | stores data for a repeated window without moving the clock |
| `CouplingSchemeObject.CouplingScheme.NotifyDataHasBeenReceived` | src/cplscheme/BaseCouplingScheme.cpp:499-503 | a second notification in one exchange, and no other, violates the assertion |
| `CouplingSchemeObject.CouplingScheme.MeasureConvergence` | src/cplscheme/BaseCouplingScheme.cpp:715-774 | converged if and only if there are measures, the minimal iteration is reached, and all measures hold or one that suffices holds and no strict one fails; a strict failure is reported if and only if a strict measure fails and the iteration has reached the limit |
| `CouplingSchemeObject.CouplingScheme.DoImplicitStep` | src/cplscheme/BaseCouplingScheme.cpp:884-898 | the verdict, with the last allowed iteration counting as converged |
| `CouplingSchemeObject.CouplingScheme.ExchangeInitialData` | src/cplscheme/SerialCouplingScheme.cpp:91-118 | executes exactly the initial exchange of the scheme and role |
| `CouplingSchemeObject.CouplingScheme.SerialInitialDataOfSecond` | src/cplscheme/SerialCouplingScheme.cpp:101-117 | sends, receives, takes the dictated size and looks ahead to the first window end |
| `CouplingSchemeObject.CouplingScheme.ParallelInitialData` | src/cplscheme/ParallelCouplingScheme.cpp:35-59 | sends then receives, or the other way round |
| `CouplingSchemeObject.CouplingScheme.MultiInitialData` | src/cplscheme/MultiCouplingScheme.cpp:80-114 | the controller receives from all before it sends to all |
| `CouplingSchemeObject.CouplingScheme.ReceiveFromAll` | src/cplscheme/MultiCouplingScheme.cpp:132-136 | the loop over all partners executes all receives in order |
| `CouplingSchemeObject.CouplingScheme.SendToAll` | src/cplscheme/MultiCouplingScheme.cpp:161-163 | the loop over all partners executes all sends in order |
| `CouplingSchemeObject.CouplingScheme.ExchangeFirstData` | src/cplscheme/SerialCouplingScheme.cpp:120-147 | executes exactly the first exchange of the scheme and role |
| `CouplingSchemeObject.CouplingScheme.StarFirstData` | src/cplscheme/ParallelCouplingScheme.cpp:61-71 | others send to the second participant or the controller |
| `CouplingSchemeObject.CouplingScheme.StarSecondData` | src/cplscheme/MultiCouplingScheme.cpp:145-164 | the controller decides, tells everybody and sends; the others receive |
| `CouplingSchemeObject.CouplingScheme.ExchangeSecondData` | src/cplscheme/SerialCouplingScheme.cpp:149-200 | executes the second exchange and, for the serial second participant, the look-ahead if more data is wanted |
| `CouplingSchemeObject.CouplingScheme.CheckCompletenessRequiredActions` | src/cplscheme/BaseCouplingScheme.cpp:639-660 | an unfulfilled required action is an error; otherwise both sets are cleared |
| `CouplingSchemeObject.CouplingScheme.MarkActionFulfilled` | src/cplscheme/BaseCouplingScheme.cpp:566-571 | records the action |
| `CouplingSchemeObject.CouplingScheme.AddComputedTime` | src/cplscheme/BaseCouplingScheme.cpp:460-479 | a step is accepted if and only if it exceeds neither the window, if it has a size, nor the maximum time; then the clock moves by it, never beyond the maximum time, and the result tells whether the window or the simulation ends there or the window has no size |
| `CouplingSchemeObject.CouplingScheme.GetNextTimeStepMaxSize` | src/cplscheme/BaseCouplingScheme.cpp:530-541 | the answer allows exactly the steps that exceed neither the window, if it has a size, nor the maximum time; none after the end |
| `CouplingSchemeObject.CouplingScheme.InitializeScheme` | src/cplscheme/BaseCouplingScheme.cpp:286-314 | the call has the effect of the initial phase of the state machine |
| `CouplingSchemeObject.CouplingScheme.FirstExchangeCall` | src/cplscheme/BaseCouplingScheme.cpp:348-364 | the call reports unfulfilled actions and otherwise has the effect of the first phase |
| `CouplingSchemeObject.CouplingScheme.SecondExchangeCall` | src/cplscheme/BaseCouplingScheme.cpp:371-429 | the call, at the end or in the middle of a window, reports unfulfilled actions and otherwise has the effect of the second phase, with the same error as outcome |
| `CouplingSchemeObject.CouplingScheme.CountWindowOrIteration` | src/cplscheme/BaseCouplingScheme.cpp:385-418 | counts the window or the iteration and requires the checkpoint action |
| `CouplingSchemeObject.CouplingScheme.UpdateTime` | src/cplscheme/BaseCouplingScheme.cpp:423-428 | the next window starts where the completed one ended, a repeated one where it started; the next size is taken |
| `CouplingSchemeObject.CouplingScheme.CheckClosing` | src/cplscheme/BaseCouplingScheme.cpp:419-421 | fails if and only if coupling goes on without received data, or a window is complete that neither has its full size nor ends at the maximum time |
| `Composition.StepKeeps` | src/cplscheme/CompositionalCouplingScheme.cpp:104-142 | every legal step keeps the clocks in order and the explicit schemes are on hold afterwards exactly while the implicit window is not converged |
| `Composition.ClocksAgree` | src/cplscheme/CompositionalCouplingScheme.cpp:192-230 | over every run: on hold means that every explicit clock shows the end of the current implicit window and that this is later than the implicit time; otherwise all clocks agree |
| `Composition.ClocksTellIterating` | src/cplscheme/CompositionalCouplingScheme.cpp:203-214 | the comparison of two clocks is true if and only if the explicit schemes are on hold and the implicit window has not just converged |
| `Composition.AssertionsHold` | src/cplscheme/CompositionalCouplingScheme.cpp:212-212 | over every run a step allowed by the composed scheme is legal for every scheme that receives it, and the assertion of the second exchange holds |
| `Composition.LegalForAll` | src/cplscheme/CompositionalCouplingScheme.cpp:333-357 | the smallest limit of the active schemes is legal for each of them |
| `Composition.SmallestIsAttained` | src/cplscheme/CompositionalCouplingScheme.cpp:333-357 | the smallest limit is the limit of some active scheme |
| `Composition.LimitIsRestOfWindow` | src/cplscheme/CompositionalCouplingScheme.cpp:333-357 | with compatible sizes the composed scheme allows exactly the positive steps up to the end of the implicit window |
| `Composition.SchemesEndTogether` | src/cplscheme/CompositionalCouplingScheme.cpp:360-368 | over every run coupling goes on while windows and time are left, and all schemes that are not on hold end together |
| `Composition.NoStepAfterTheEnd` | src/cplscheme/CompositionalCouplingScheme.cpp:333-357 | when coupling is over no step is allowed any more |
| `Composition.CompleteIff` | src/cplscheme/CompositionalCouplingScheme.cpp:370-378 | a step completes a window if and only if it ends the implicit window and that converges |
| `Composition.ExchangesOncePerWindow` | src/cplscheme/CompositionalCouplingScheme.cpp:157-230 | over every run an explicit scheme has made both exchanges once per window that is over: after k exchanges it starts at k times its size, or at the maximum time |
| `Composition.ExplicitMoves` | src/cplscheme/CompositionalCouplingScheme.cpp:171-177 | in the middle of an implicit window an explicit scheme exchanges nothing although it is asked twice |
| `Composition.ExplicitCatchesUp` | src/cplscheme/CompositionalCouplingScheme.cpp:217-229 | after convergence an explicit scheme that waited is in step again: its window is over exactly if the simulation or as many implicit windows are |
| `Composition.WindowEndingInsideExchangesTwice` | src/cplscheme/CompositionalCouplingScheme.cpp:157-178 | an explicit window that ends inside an implicit one makes its first exchange twice, so compatible sizes are needed |
| `Composition.RunKeeps` | src/cplscheme/CompositionalCouplingScheme.cpp:71-79 | every run from initialization keeps the invariant |
| `CompositionObject.CompositionalCouplingScheme.AddComputedTime` | src/cplscheme/CompositionalCouplingScheme.cpp:104-142 | advances the schemes that are not on hold and reports whether one reached its window end |
| `CompositionObject.CompositionalCouplingScheme.FirstExchange` | src/cplscheme/CompositionalCouplingScheme.cpp:157-178 | forwards to the explicit schemes unless they are on hold |
| `CompositionObject.CompositionalCouplingScheme.SecondExchange` | src/cplscheme/CompositionalCouplingScheme.cpp:192-230 | lets the explicit schemes catch up when the implicit one is not behind |
| `CompositionObject.CompositionalCouplingScheme.UpdateActiveSchemes` | src/cplscheme/CompositionalCouplingScheme.cpp:446-470 | lists the implicit scheme, and the explicit ones unless on hold |
| `CompositionObject.CompositionalCouplingScheme.GetNextTimeStepMaxSize` | src/cplscheme/CompositionalCouplingScheme.cpp:333-357 | the result is a lower bound of the limits of the active schemes and the limit of one of them |
| `CompositionObject.CompositionalCouplingScheme.IsTimeWindowComplete` | src/cplscheme/CompositionalCouplingScheme.cpp:370-378 | true if and only if some active scheme has completed its window |
| `BlockInversion.InvertLowerTriangularBlockwise` | src/mapping/MathHelper.hpp:13-68 | for every size, also zero and with a ragged last block, and every non-zero diagonal: the result is lower triangular and, for a lower triangular matrix, the inverse on both sides; each entry is that of forward substitution |
| `BlockInversion.InvertWithBlocks` | src/mapping/MathHelper.hpp:33-66 | the same entries for every positive block size |
| `BlockInversion.ChooseBlockSize` | src/mapping/MathHelper.hpp:17-25 | the heuristic yields 8 below 128 rows, 128 from 1024 rows on and 16 for each full 128 rows between |
| `BlockInversion.SolveInPlace` | src/mapping/MathHelper.hpp:38-41 | the diagonal block of the identity becomes the inverse of the diagonal block; nothing else changes |
| `BlockInversion.AddBlockProduct` | src/mapping/MathHelper.hpp:50-61 | extends the accumulated block by one more block column |
| `BlockInversion.Accumulate` | src/mapping/MathHelper.hpp:52-61 | the loop over the blocks between adds up all of them |
| `BlockInversion.StoreOffDiagonal` | src/mapping/MathHelper.hpp:63-65 | the stored block is that of the inverse; nothing else changes |
| `TriangularInverse.BlockFormula` | src/mapping/MathHelper.hpp:63-65 | forward substitution over a block row equals minus the inverted diagonal block times the accumulated block |
| `TriangularInverse.RightInverse` | src/mapping/MathHelper.hpp:13-13 | the entries of forward substitution form a right inverse |
| `TriangularInverse.LeftInverse` | src/mapping/MathHelper.hpp:13-13 | a right inverse of a lower triangular matrix is also a left inverse |
| `CommunicationMaps.SetIntersectionIndices` | src/utils/algorithm.hpp:33-47 | the merging loop yields exactly the positions of the common elements in order |
| `CommunicationMaps.BuildCommunicationMap` | src/m2n/PointToPointCommunication.cpp:261-306 | the map holds exactly the non-empty intersections, whatever the early exit skips |
| `CommunicationMaps.Apart` | src/m2n/PointToPointCommunication.cpp:286-292 | the comparison of the bounds never drops a shared vertex |
| `CommunicationMaps.MapsAreSymmetric` | src/m2n/PointToPointCommunication.cpp:261-306 | a rank lists another if and only if it is listed by it; the lists are equally long and their k-th entries name the same vertex |
| `CommunicationMaps.ClientsMatch` | src/m2n/PointToPointCommunication.cpp:400-410 | an acceptor waits for exactly as many clients as request a connection from it |
| `Blocks.AddToIndirectBlocks` | src/m2n/GatherScatterCommunication.cpp:67-80 | every entry grows by the sum over all blocks of its index |
| `Blocks.CopyFromIndirectBlocks` | src/m2n/GatherScatterCommunication.cpp:83-96 | the beginning of the target holds the picked blocks, the rest is unchanged |
| `Blocks.PushBlocks` | src/m2n/PointToPointCommunication.cpp:617-624 | the pushed buffer holds the picked blocks |
| `MToN.PointToPoint.Connect` | src/m2n/PointToPointCommunication.cpp:391-419 | one mapping per entry of the communication map in the order of the ranks |
| `MToN.PointToPoint.Send` | src/m2n/PointToPointCommunication.cpp:610-629 | one buffer per mapping with the picked blocks, nothing without items |
| `MToN.PointToPoint.Receive` | src/m2n/PointToPointCommunication.cpp:631-655 | with a mapping the buffer holds the sum of what arrived, otherwise it is left as it was |
| `MToN.PairAgrees` | src/m2n/PointToPointCommunication.cpp:610-655 | what one pair of ranks exchanges is the sender's share of the global array |
| `MToN.PointToPointReceives` | src/m2n/PointToPointCommunication.cpp:631-655 | the sum over the mappings is the sum over all ranks that hold the vertex |
| `MToN.PointToPointExchange` | src/m2n/PointToPointCommunication.cpp:327-655 | connecting, sending and receiving delivers to a rank with a mapping the sum over all sender ranks that hold each of its vertices |
| `MToN.Gather` | src/m2n/GatherScatterCommunication.cpp:100-150 | the messages of all secondary ranks have the size the primary rank reads if and only if each has exactly the blocks of its vertices; then the global array holds for each vertex the sum over all ranks, also with a longer buffer of the primary rank |
| `MToN.Scatter` | src/m2n/GatherScatterCommunication.cpp:152-207 | each rank with vertices gets the blocks of its vertices; the primary rank keeps the rest of a longer buffer |
| `MToN.GatherScatterExchange` | src/m2n/GatherScatterCommunication.cpp:100-207 | if and only if the messages fit, nothing is read with another size than it was sent with; then gathering and scattering delivers the same sums to every rank |
| `MToN.BothExchangesAgree` | src/m2n/PointToPointCommunication.cpp:610-655 | two results that were delivered are equal: point-to-point refines gather/scatter |
| `MToN.OwnerDelivers` | src/m2n/PointToPointCommunication.cpp:610-655 | a vertex that exactly one sender rank holds arrives with the values of that rank |
| `MToN.NobodyDelivers` | src/m2n/GatherScatterCommunication.cpp:120-126 | a vertex that no sender rank holds arrives as zero |
| `MToN.WithoutMapping` | src/m2n/PointToPointCommunication.cpp:631-635 | a rank without a mapping keeps its buffer, which agrees with gather/scatter if and only if the buffer was zero |
| `SerializedStamples.Serialize` | src/com/SerializedStamples.cpp:47-72 | entry v of time step t ends up at position v times the number of steps plus t |
| `SerializedStamples.Storage.Deserialize` | src/com/SerializedStamples.cpp:74-102 | the storage holds one sample per time whose values are those of the buffer |
| `SerializedStamples.Storage.SetSampleAtTime` | src/time/Storage.cpp:27-50 | a new time is appended, an existing one overwritten |
| `SerializedStamples.RoundTrip` | src/com/SerializedStamples.cpp:47-102 | deserializing what was serialized returns the samples |
| `SerializedStamples.StepsAreDelivered` | src/cplscheme/BaseCouplingScheme.cpp:132-144 | exchanging all time steps in one buffer delivers at every time step what exchanging that step alone delivers, for values and for gradients |
| `SerializedStamples.GlobalOfStep` | src/cplscheme/BaseCouplingScheme.cpp:186-202 | stacking time steps commutes with the sum over all ranks |
| `SerializedStamples.GradientBuffer` | src/com/SerializedStamples.cpp:38-45 | the gradient buffer has the size that is exchanged if and only if the data is scalar; otherwise it is larger by the factor of the data dimension |
| `SerializedStamples.GradientMessagesFit` | src/m2n/GatherScatterCommunication.cpp:104-144 | with gradient buffers as allocated the primary rank reads what the secondary ranks send if and only if the data is scalar or no secondary rank has vertices; the buffer of the primary rank is always long enough |
| `SerializedStamples.ExchangeGradients` | src/cplscheme/BaseCouplingScheme.cpp:136-144 | exchanging stacked gradients through the primary ranks delivers the sums exactly in these cases |
| `Jacobian.EfficientIsExplicit` | src/acceleration/IQNIMVJAcceleration.cpp:293-388 | multiplying the factors one after another with a vector equals multiplying the updated Jacobian with it |
| `Jacobian.ChunksRepresentJacobian` | src/acceleration/IQNIMVJAcceleration.cpp:362-374 | the stored factors, applied one pair after another, represent the sum of their products |
| `Jacobian.SecantEquations` | src/acceleration/IQNIMVJAcceleration.cpp:254-290 | the updated Jacobian maps every column of V to its column of W |
| `Jacobian.WtilOfFront` | src/acceleration/IQNIMVJAcceleration.cpp:136-142 | a new first column or a shift of V and W changes Wtil by the one new column |
| `PseudoInverse.PseudoInverseIsLeftInverse` | src/acceleration/IQNIMVJAcceleration.cpp:175-209 | back substitution with a QR decomposition yields a left inverse of V |
| `Jacobian.PseudoInverseQualifies` | src/acceleration/IQNIMVJAcceleration.cpp:175-209 | the pseudo inverse satisfies the premise of the secant equations |
| `Jacobian.StepObeysSecantLaw` | src/acceleration/IQNIMVJAcceleration.cpp:293-426 | if the residuals are a combination of the columns of V plus a rest that the pseudo inverse maps to zero, the explicit step is minus the same combination of the columns of W and minus the previous Jacobian times the rest; for residuals that are a column of V it is minus the column of W next to it |
| `JacobianOverRuns.AddTakesNewest` | src/acceleration/IQNIMVJAcceleration.cpp:136-142 | the newest difference comes first in V and W; behind it all columns remain if there is room, all but the last otherwise |
| `JacobianOverRuns.RemoveAllRemoves` | src/acceleration/IQNIMVJAcceleration.cpp:722-734 | a filter removes exactly the reported columns from V, from W and from a Wtil that is kept up to date |
| `JacobianOverRuns.SystemColumns` | src/acceleration/BaseQNAcceleration.cpp:212-258 | a step works with the newest difference in front of the columns before, except in the first iteration of a window, without the columns the filter reports; nothing is filtered when the iteration relaxes |
| `JacobianObject.IMVJ.PreviousTimes` | src/acceleration/IQNIMVJAcceleration.cpp:108-134 | the product with the previous Jacobian, stored or factored |
| `JacobianObject.IMVJ.UpdateDifferenceMatrices` | src/acceleration/IQNIMVJAcceleration.cpp:73-145 | nothing in the first iteration; otherwise appends or shifts a column of V and W and, unless the Jacobian is always built, the one of W - J V; a Wtil that is W - J V, or marked as outdated, stays so |
| `JacobianObject.IMVJ.RemoveMatrixColumn` | src/acceleration/IQNIMVJAcceleration.cpp:722-734 | the assertion that Wtil has more than one column holds if and only if the Jacobian is not always built or the last step had more than one column; then a column of V and W is removed, and of Wtil unless it is marked as outdated or never used |
| `JacobianObject.IMVJ.ApplyFilter` | src/acceleration/BaseQNAcceleration.cpp:364-384 | removes all reported columns, the last one first; succeeds if and only if the assertion holds at every removal |
| `JacobianObject.IMVJ.RemoveOldColumns` | src/acceleration/BaseQNAcceleration.cpp:485-515 | the loop keeps the first columns: all but those of windows that are not reused any longer, or none with forced relaxation and no reuse |
| `JacobianObject.IMVJ.TakeStep` | src/acceleration/BaseQNAcceleration.cpp:313-346 | the step in the mode that is set, which obeys the secant law whenever Wtil is current; the columns that only served the first iteration are forgotten, all others kept |
| `JacobianObject.IMVJ.BuildWtil` | src/acceleration/IQNIMVJAcceleration.cpp:212-251 | the loop establishes Wtil = W - J V and clears the mark |
| `JacobianObject.IMVJ.ComputeNewtonUpdateEfficient` | src/acceleration/IQNIMVJAcceleration.cpp:293-388 | the efficient step, with stored or factored Jacobian, is the step with the Wtil at hand, rebuilt if it is marked as outdated, and so the explicit step whenever Wtil is current; it then obeys the secant law for every left inverse of V; with a pending deletion Wtil is dropped |
| `JacobianObject.IMVJ.FactoredStep` | src/acceleration/IQNIMVJAcceleration.cpp:341-380 | multiplying the factors one after another gives the step with Wtil Z + J |
| `JacobianObject.IMVJ.ComputeNewtonUpdate` | src/acceleration/IQNIMVJAcceleration.cpp:391-426 | the explicit step, which obeys the secant law for every left inverse of V: a combination of the columns of V in the residuals becomes minus the same combination of the columns of W |
| `JacobianObject.IMVJ.BuildJacobian` | src/acceleration/IQNIMVJAcceleration.cpp:254-290 | the stored matrix is Wtil Z + J |
| `JacobianObject.IMVJ.StoreJacobian` | src/acceleration/IQNIMVJAcceleration.cpp:652-719 | always-build: the Jacobian of the last step is kept; efficient: a Wtil marked as outdated is rebuilt and the updated Jacobian stored; restart: Wtil is pushed as it is. What is stored is the explicit update if and only if the Wtil that was used is W - J V, which is so for a current Wtil that was rebuilt or is not marked |
| `JacobianObject.IMVJ.PushFactors` | src/acceleration/IQNIMVJAcceleration.cpp:684-691 | pushes Wtil without asking whether it is marked as outdated; the chunk is well-formed if and only if both factors have the same width |
| `JacobianObject.IMVJ.BuildAndKeep` | src/acceleration/IQNIMVJAcceleration.cpp:700-718 | rebuilds a Wtil that is marked as outdated, multiplies out and stores |
| `JacobianObject.IMVJ.PerformAcceleration` | src/acceleration/BaseQNAcceleration.cpp:212-362 | the whole iteration: nothing changes if it relaxes, which it does in the first iteration of a window if that is forced or no window before had columns; otherwise new columns, filter and a step that obeys the secant law whenever Wtil is current; succeeds if and only if nothing is removed, the Jacobian is not always built, or the last step had more than one column |
| `JacobianObject.IMVJ.IterationsConverged` | src/acceleration/BaseQNAcceleration.cpp:423-519 | the whole end of a window: new columns, filter, the Jacobian for the next window, columns no longer reused |
| `JacobianOverRuns.FilterAssertionIff` | src/acceleration/IQNIMVJAcceleration.cpp:722-730 | over every run: the assertion on the columns of Wtil holds at all removals of a call if and only if nothing is removed, the Jacobian is not always built, or V had more than one column in the last step |
| `JacobianOverRuns.AlwaysBuiltStepsAreExplicit` | src/acceleration/IQNIMVJAcceleration.cpp:391-426 | over every run in always-build mode every step is the explicit one, for all residuals |
| `JacobianOverRuns.KeptIsExplicitIff` | src/acceleration/IQNIMVJAcceleration.cpp:714-718 | always-build: what is kept at a convergence right after a step is the explicit Jacobian if and only if it already maps the newest difference of the residuals to that of the values |
| `JacobianOverRuns.RunShaped` | src/acceleration/IQNIMVJAcceleration.cpp:73-145 | over every run V and W are equally wide, and Wtil as wide unless it is marked as outdated, and never narrower |
| `JacobianFreshness.EfficientIsAlwaysExplicit` | src/acceleration/IQNIMVJAcceleration.cpp:293-388 | with reuse or forced relaxation and no restart every step and every stored Jacobian of every run is the explicit one |
| `JacobianFreshness.RestartIsExplicitIff` | src/acceleration/IQNIMVJAcceleration.cpp:667-712 | restart mode, with reuse or forced relaxation: every step of every run is the explicit one, and a stored Jacobian is if and only if no window has converged before, its window has taken a quasi-Newton step, or Wtil happens to be W - J V |
| `JacobianFreshness.RestartRunsAreExplicitIff` | src/acceleration/IQNIMVJAcceleration.cpp:667-712 | so a whole run is explicit if and only if each later window takes a quasi-Newton step or happens to find such a Wtil |
| `JacobianFreshness.NextWindowAtOnce` | src/acceleration/IQNIMVJAcceleration.cpp:684-691 | a window that converges at once after another one, with all columns kept, finds such a Wtil if and only if Wtil is zero |
| `JacobianFreshness.OutdatedIff` | src/acceleration/IQNIMVJAcceleration.cpp:704-712 | over every run Wtil is marked as outdated if and only if a window has converged and no quasi-Newton step was taken since |
| `JacobianDefault.DefaultIsExplicitIff` | src/acceleration/IQNIMVJAcceleration.cpp:383-387 | default setting: over every run all steps and stored Jacobians are the explicit ones, except in the first iteration of later windows, where a step that does not rebuild Wtil, or a stored Jacobian, is if and only if Wtil is zero; without restart none of these steps rebuilds it |
| `JacobianUpdates.UpdateIsExplicitIff` | src/acceleration/IQNIMVJAcceleration.cpp:667-697 | for any Wtil: adding Wtil Z to the previous Jacobian is the explicit update if and only if Wtil is W - J V |
| `JacobianUpdates.StepIsExplicitIff` | src/acceleration/IQNIMVJAcceleration.cpp:331-388 | for any Wtil: the efficient step is the explicit one for all residuals if and only if Wtil is W - J V |
| `JacobianUpdates.RepeatedUpdate` | src/acceleration/IQNIMVJAcceleration.cpp:680-710 | using the Wtil of the window before once more, with unchanged V and W, is the explicit update if and only if Wtil is zero |
| `JacobianUpdates.RepeatedChunkCountsTwice` | src/acceleration/IQNIMVJAcceleration.cpp:680-710 | one unknown: the factors of the first window are pushed again by a second window of one iteration, and the factored Jacobian is 2 where the explicit one is 1 |
| `JacobianExamples.OutdatedFactorsArePushedAgain` | src/acceleration/IQNIMVJAcceleration.cpp:667-712 | the calls of the object that lead there in restart mode |
| `JacobianExamples.LastColumnIsForgotten` | src/acceleration/IQNIMVJAcceleration.cpp:714-718 | always-build: calls after which the kept Jacobian is 0 where the explicit one is 1 |
| `JacobianExamples.DefaultStepCountsTwice` | src/acceleration/IQNIMVJAcceleration.cpp:331-388 | default setting: calls after which the first step of the second window is 2 where the explicit one is 1 |
| `JacobianUpdates.EarlierJacobianIsExplicitIff` | src/acceleration/IQNIMVJAcceleration.cpp:714-718 | always-build: a Jacobian built from columns that are still there is the explicit one with all columns if and only if it already maps every column of V to its column of W |
| `JacobianUpdates.NewestDifferenceIff` | src/acceleration/IQNIMVJAcceleration.cpp:714-718 | with one column more than in the last step it is if and only if it already maps that column |
| `JacobianExamples.FilterMeetsOneColumn` | src/acceleration/IQNIMVJAcceleration.cpp:722-730 | always-build: calls in which the filter's first removal meets a Wtil of one column and the assertion fails |
| `QuasiNewton.BookkeepingOverRuns` | src/acceleration/BaseQNAcceleration.cpp:114-204 | over every run the counters add up to the columns of V and W, which are the same differences and never too many; only the front counter can be zero; the assertions hold; every quasi-Newton step has a column; nothing is ever restored |
| `QuasiNewton.StepKeeps` | src/acceleration/BaseQNAcceleration.cpp:212-362 | every iteration and every convergence keeps the invariant |
| `QuasiNewton.NothingToRestore` | src/acceleration/BaseQNAcceleration.cpp:269-286 | the matrices are never empty when a quasi-Newton step begins, so the branch that restores the backup is never taken |
| `QuasiNewton.AssertionsHold` | src/acceleration/BaseQNAcceleration.cpp:500-506 | the assertions on equal width, the limit, the columns to remove and those that remain hold |
| `QuasiNewton.ReuseLimit` | src/acceleration/BaseQNAcceleration.cpp:498-518 | after convergence at most as many past windows remain as shall be reused |
| `QuasiNewton.RemoveColumnsKeeps` | src/acceleration/BaseQNAcceleration.cpp:364-384 | the columns a filter reports, removed last one first, keep counters and columns in agreement |
| `QuasiNewtonColumns.UpdateAligned` | src/acceleration/BaseQNAcceleration.cpp:168-194 | an update keeps the QR decomposition aligned with V if and only if the new column is independent and the system not yet square |
| `QuasiNewtonColumns.AlignedOverRunsIff` | src/acceleration/BaseQNAcceleration.cpp:168-194 | the QR decomposition decomposes V before and after every update of a run if and only if every column finds room and is independent |
| `QuasiNewtonColumns.SystemAligned` | src/acceleration/impl/QRFactorization.cpp:143-158 | the second filter, or a new decomposition, restores the alignment in every quasi-Newton step |
| `QuasiNewtonColumns.SquareSystemOverflows` | src/acceleration/BaseQNAcceleration.cpp:168-180 | with as many columns as unknowns one more column is appended to V but refused by the QR decomposition |
| `QuasiNewtonColumns.ShiftAssertedIff` | src/acceleration/BaseQNAcceleration.cpp:181-194 | the assertion that the decomposition has a column to delete after a shift fails if and only if it is empty and refuses the new column as well |
| `QuasiNewtonColumns.DeletionsOverRuns` | src/acceleration/BaseQNAcceleration.cpp:498-518 | over a run in which every column finds room and is independent, the decomposition has every column that a shift or a dropped window deletes |
| `QuasiNewtonColumns.DependentColumnsEmptyIt` | src/acceleration/impl/QRFactorization.cpp:165-171 | with one column allowed, two dependent columns in a row make the second shift delete from an empty decomposition |
| `QuasiNewtonColumns.EncodingOverRuns` | src/acceleration/BaseQNAcceleration.cpp:179-194 | without a filter the counters are the run-length encoding of the windows of the columns |
| `QuasiNewtonColumns.FilterKeepsEncoding` | src/acceleration/BaseQNAcceleration.cpp:538-552 | after a removal the counters still encode the windows if and only if it was not the only column of the current window |
| `QuasiNewtonColumns.ShortenedRuns` | src/acceleration/BaseQNAcceleration.cpp:507-518 | removing the last columns shortens or removes the oldest run |
| `QuasiNewtonDifferences.UpdateTakesNewest` | src/acceleration/BaseQNAcceleration.cpp:168-194 | after every update the newest difference is the first column of V and W; behind it all columns remain if there is room, all but the last otherwise |
| `QuasiNewtonDifferences.KeepsTheNewest` | src/acceleration/BaseQNAcceleration.cpp:114-204 | over every run without a filter V and W are the longest list of newest differences that respects the column limit, has at most one column more than unknowns, and comes from the current window and as many past windows as are reused; without reuse the last window stays for the first iteration of the next one, unless relaxation is forced |
| `QuasiNewtonDifferences.NothingIsDropped` | src/acceleration/BaseQNAcceleration.cpp:423-519 | as long as all differences of the run respect these limits V and W hold all of them |
| `QuasiNewtonDifferences.DifferencesDescend` | src/acceleration/BaseQNAcceleration.cpp:114-204 | the differences of a run are strictly ordered by window and iteration, the newest first |
| `QuasiNewtonDifferences.OnlyDifferences` | src/acceleration/BaseQNAcceleration.cpp:114-204 | with any filter V, W and the decomposition hold only differences of the run, each at most once and in the same order |
| `QuasiNewtonObject.QNAcceleration.constructor` | src/acceleration/BaseQNAcceleration.cpp:101-105 | one empty counter and no columns |
| `QuasiNewtonObject.QNAcceleration.GetLSSystemCols` | src/acceleration/BaseQNAcceleration.cpp:575-587 | the sum of the counters |
| `QuasiNewtonObject.QNAcceleration.UpdateDifferenceMatrices` | src/acceleration/BaseQNAcceleration.cpp:114-204 | nothing in the first iteration of a window; otherwise the newest difference becomes the first column of V and W, behind which all columns remain if there is room and all but the last if not; the decomposition and the counters follow |
| `QuasiNewtonObject.QNAcceleration.CountRemoval` | src/acceleration/BaseQNAcceleration.cpp:538-552 | finds the counter of the group that holds the column |
| `QuasiNewtonObject.QNAcceleration.RemoveMatrixColumn` | src/acceleration/BaseQNAcceleration.cpp:527-553 | removes one column of V and W and counts it |
| `QuasiNewtonObject.QNAcceleration.ApplyFilter` | src/acceleration/BaseQNAcceleration.cpp:364-384 | removes exactly the reported columns from V and W, and from the decomposition with the first filter; with the second one the decomposition is that of V without them |
| `QuasiNewtonObject.QNAcceleration.PerformAcceleration` | src/acceleration/BaseQNAcceleration.cpp:212-362 | relaxes, or steps with a non-empty system, and deletes what is pending |
| `QuasiNewtonObject.QNAcceleration.IterationsConverged` | src/acceleration/BaseQNAcceleration.cpp:423-519 | adds the last difference, drops windows beyond the reuse limit and opens a new counter |
| `QuasiNewtonObject.QNAcceleration.RemoveEmptyFront` | src/acceleration/IQNILSAcceleration.cpp:117-128 | a window without columns loses its counter |
| `ColumnMatrices.AppendFront` | src/utils/EigenHelperFunctions.cpp:22-36 | a new first column |
| `ColumnMatrices.ShiftSetFirst` | src/utils/EigenHelperFunctions.cpp:12-20 | a new first column and the last one dropped |
| `ColumnMatrices.RemoveColumnFromMatrix` | src/utils/EigenHelperFunctions.cpp:38-46 | one column removed |
| `ColumnMatrices.OthersRemain` | src/acceleration/BaseQNAcceleration.cpp:364-384 | removing ascending positions, the last one first, removes exactly these: every other column moves forward by the number of removed ones before it |
| `Ring.RingConnects` | src/com/Communication.cpp:359-394 | for every size from two on and every order of meetings: two ranks can meet until all calls have returned, and that is after exactly `size` meetings |
| `Ring.NeighboursAgree` | src/com/Communication.cpp:374-375 | the rank that is requested from accepts from the requester |
| `Ring.MeetKeeps` | src/com/Communication.cpp:380-393 | both ends of every connection agree whether it is established |
| `SerializedPartitioning.ConnectionMapRoundTrip` | src/com/SerializedPartitioning.cpp:15-65 | decoding an encoded connection map returns it; its encoding is valid if and only if it is not empty |
| `SerializedPartitioning.ConnectionMapCanonical` | src/com/SerializedPartitioning.cpp:40-94 | valid content is what its map encodes to if and only if its ranks ascend |
| `SerializedPartitioning.EntryLayout` | src/com/SerializedPartitioning.cpp:15-38 | the content is the number of entries and for each entry its rank, the number of its vertices and the vertices |
| `SerializedPartitioning.ValidIff` | src/com/SerializedPartitioning.cpp:67-94 | content is valid if and only if it is what at least one entry is written as, with ranks that are not negative and distinct vertices in each entry |
| `SerializedPartitioning.DecodeTakesFirst` | src/com/SerializedPartitioning.cpp:40-65 | of entries with the same rank the decoder keeps the first |
| `SerializedPartitioning.Serialize` | src/com/SerializedPartitioning.cpp:15-38 | the encoder pushes exactly the format |
| `SerializedPartitioning.ToConnectionMap` | src/com/SerializedPartitioning.cpp:40-65 | the decoder returns the map of the entries |
| `SerializedPartitioning.CheckValid` | src/com/SerializedPartitioning.cpp:67-94 | the checks accept exactly the valid contents |
| `SerializedBoundingBoxes.RoundTrip` | src/com/SerializedPartitioning.cpp:186-250 | every bounding box map, also the empty one, encodes to valid content that decodes to it |
| `SerializedBoundingBoxes.Canonical` | src/com/SerializedPartitioning.cpp:186-270 | valid content is what its map encodes to if and only if its ranks ascend and it does not announce a dimension for no boxes |
| `SerializedBoundingBoxes.CornerLayout` | src/com/SerializedPartitioning.cpp:186-216 | the coordinates are, box after box, all minima and then all maxima |
| `SerializedBoundingBoxes.ValidIff` | src/com/SerializedPartitioning.cpp:252-270 | content is valid if and only if it is what boxes of two or three dimensions with ranks that are not negative are written as, or that of an empty map |
| `SerializedBoundingBoxes.DecodeTakesFirst` | src/com/SerializedPartitioning.cpp:218-250 | of boxes with the same rank the decoder keeps the first |
| `SerializedBoundingBoxes.Serialize` | src/com/SerializedPartitioning.cpp:186-216 | the encoder pushes exactly the format |
| `SerializedBoundingBoxes.ToBoundingBoxMap` | src/com/SerializedPartitioning.cpp:218-250 | the decoder returns the map of the entries |
| `SerializedBoundingBoxes.ReadBox` | src/com/SerializedPartitioning.cpp:234-243 | interleaving the corners and taking every other bound returns the corners |
| `SerializedMesh.RoundTrip` | src/com/SerializedMesh.cpp:97-233 | an encoded mesh is valid and decodes to an isomorphic copy with every vertex of every element renumbered by the vertices already present plus its position |
| `SerializedMesh.EncodedIsValid` | src/com/SerializedMesh.cpp:12-48 | encodings pass the checks |
| `SerializedMesh.CoordinateLayout` | src/com/SerializedMesh.cpp:170-198 | the sizes are the dimension and the four counts; the coordinates of each vertex are together |
| `SerializedMesh.IdLayout` | src/com/SerializedMesh.cpp:184-210 | with connectivity the global index of each vertex is followed by its ID, otherwise only the global indices are written |
| `SerializedMesh.ElementLayout` | src/com/SerializedMesh.cpp:212-226 | behind the vertices follow the edges, the triangles and the tetrahedra with the IDs of their vertices |
| `SerializedMesh.ElementsReferToCopies` | src/com/SerializedMesh.cpp:97-155 | when an encoded mesh is added behind other vertices each of its elements connects the copies of the vertices it connected |
| `SerializedMesh.OrderedSorts` | src/com/SerializedMesh.cpp:138-154 | a created element holds its vertices in ascending order |
| `SerializedMeshObject.Serialize` | src/com/SerializedMesh.cpp:157-233 | the encoder produces exactly the format |
| `SerializedMeshObject.AddToMesh` | src/com/SerializedMesh.cpp:97-155 | a valid message is appended: old contents first, new elements with the vertices that their local IDs became |
| `SerializedMeshObject.AddVertices` | src/com/SerializedMesh.cpp:114-128 | creates the vertices and remembers which local ID became which vertex |
| `SerializedMeshObject.CreateElements` | src/com/SerializedMesh.cpp:138-154 | creates the elements with renumbered vertices |
| `Mapping.Duality` | src/mapping/BarycentricBaseMapping.cpp:37-91 | for the same weights the inner product of the consistent mapping of x with y is that of x with the conservative mapping of y |
| `Mapping.ConservativeKeepsTotals` | src/mapping/BarycentricBaseMapping.cpp:37-63 | with weights that sum to one the conservative mapping keeps the total of every component |
| `Mapping.ConsistentKeepsConstants` | src/mapping/BarycentricBaseMapping.cpp:65-91 | with weights that sum to one the consistent mapping keeps constants |
| `MappingMethods.MapConsistent` | src/mapping/BarycentricBaseMapping.cpp:65-91 | the loops add the linear combination of the input to every output entry |
| `MappingMethods.MapConservative` | src/mapping/BarycentricBaseMapping.cpp:37-63 | the loops add the weighted inputs to every output entry |
| `MappingMethods.MapNearestConsistent` | src/mapping/NearestNeighborMapping.cpp:56-81 | copies the value of the nearest vertex |
| `MappingMethods.MapNearestConservative` | src/mapping/NearestNeighborMapping.cpp:29-54 | adds every input to the value of its nearest vertex |
| `MappingMethods.FromZeros` | src/mapping/BarycentricBaseMapping.cpp:37-91 | from zeroed outputs the two loops satisfy the duality |
| `MappingMethods.NearestNormalized` | src/mapping/NearestNeighborMapping.cpp:29-81 | the weights of a nearest-neighbour mapping sum to one, so totals and constants are kept as well |

## Left out

- Floating point: reals are exact, equality up to a tolerance is equality, and the order of summation does not matter.
- Time in the coupling schemes is counted in integer ticks, so positive steps are at least one tick.
- Sockets, MPI, ports, request objects and profiling: channels are FIFO queues or rendezvous.
- Data of one exchange on a link travels as one message that carries the sender's time; several data sets, substeps and gradients on a link are not told apart there, and a link without data carries no data message. Substeps are treated in `SerializedStamples`.
- The values that are accelerated and compared for convergence: verdicts of measures are arbitrary in the coupling protocol.
- In the whole-run theorems the solver fulfils every required action before it advances; the error of a missing action is in `CouplingSchemeObject.CouplingScheme.FirstExchangeCall`.
- CouplingSchemeObject.CouplingScheme.FirstExchangeCall: requires that the messages it will receive are there, because a blocking receive does not return without them.
- CouplingSchemeObject.CouplingScheme.SecondExchangeCall: after an error it promises the kind of error but not the rest of the state, because the simulation ends there.
- Remeshing, two-level initialization with pre-connections, and `reinitialize`.
- Composition.StepKeeps: fixed window sizes, all explicit ones multiples of the implicit one, and a common end; other sizes are only warned about in the code. Compositions without an implicit scheme forward every call to all schemes.
- Composition: of a sub-scheme only its clock, counters and number of exchanges are modelled; its messages are those of the coupling protocol.
- BlockInversion.SolveInPlace: the triangular solve of the linear algebra library is modelled as forward substitution.
- MToN.PointToPointExchange: asks for strictly ascending vertex IDs per rank, as partitions provide them.
- MToN.GatherScatterExchange: asks for an entry of the primary rank and for buffers of the primary ranks that are long enough, as the code asserts; what happens after a message was read with another size than it was sent with depends on the communication and is not modelled.
- QuasiNewtonColumns.AlignedOverRunsIff: whether a column is independent is an input, because the orthogonalization of the QR decomposition is not modelled; a reset of the decomposition keeps all columns, as its assertion demands.
- QuasiNewton: one process with vertices; preconditioners do not change which columns there are.
- JacobianObject.IMVJ.StoreJacobian: the restarts after a full chunk (SVD, least squares, slide, zero) are not modelled; the representation of the previous Jacobian is shown up to a restart.
- JacobianObject: the distribution over ranks, and preconditioners, which are applied and reverted around each use. The pseudo inverse, the positions a filter reports and the number of columns that are no longer reused are inputs; the pseudo inverse is a left inverse of V.
- JacobianObject.IMVJ.PerformAcceleration: after a failed assertion it promises nothing about the matrices.
- SerializedMesh: negative element counts, which containers never have, are not valid here; the ID of a vertex is its position.
- SerializedPartitioning: an ordered map is the sequence of its entries; the format of a single bounding box is that of one map entry and not modelled on its own.
- Ring.RingConnects: the names and tags of the connections and what a connection does afterwards; a single rank returns at once.
- Scaled-consistent mapping, radial basis functions, geometric search, exporters, logging and configuration parsing.
- Texts of messages: an error is an outcome without its text.
