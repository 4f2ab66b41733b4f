# Project pamphlet content: presentation logic

A model of the view model behind the project pamphlet screen of the Kickstarter iOS app. The view model
turns lifecycle calls (`viewDidLoad`, `viewWillAppear`, `viewDidAppear`), the screen's configuration
(a project and its live-stream events) and taps (comments, updates, a live stream, a reward tier or
the user's backing, "pledge any amount") into two data-source load signals and six navigation
signals.

The model has four modules:

- `Domain` (`domain.dfy`): the fields of `Project`, `Reward`, `Backing` and `LiveStreamEvent` that
  the logic reads, `Either`, and the `NoReward` sentinel. `Project` and `LiveStreamEvent` also carry
  an `id`, which no line of the logic reads. It is kept only so that distinct projects and events
  stay distinct values in the outputs.
- `RoutingPolicy` (`routing_policy.dfy`): the four private decision functions. These are reward resolution
  for a backing, live-stream versus countdown, the pledge route and the backing route.
- `PamphletMachine` (`screen_machine.dfy`): the event graph built in the initializer, as a pure
  state machine. `Step` takes one input and returns the next state and the outputs emitted, in
  order. `Run` folds a sequence of inputs. The lemmas about the one-shot load triggers and the gating
  on configuration and view loading hold over whole runs. The lemmas about routing hold per step.
- `PamphletViewModel` (`view_model.dfy`): the view model as a class. Its fields are the remembered
  state, and each input is a method that returns what it emits. Every input method is proved to
  behave as one `Step`. The two helpers `FullLoad` and `FireLoadTrigger` are proved equal to
  `FullLoadEmission` and `FireFullLoad`.

The remembered state is what the reactive combinators keep implicitly:

- the latest configuration;
- whether `viewDidLoad` has fired;
- whether an animated `viewDidAppear` has queued its zero-delay deferred load;
- the one-shot "time to load" trigger;
- the one-shot minimal-load decision.

A project is *available* once both a configuration and `viewDidLoad` have arrived. That is when the
combined project signal first emits. Taps before that emit nothing.

Two behaviours of the code worth noting:

- `loadProjectAndLiveStreamsIntoDataSource` combines the latest project pair with the one-shot
  trigger (`ProjectPamphletContentViewModel.swift:65-69`). Once the trigger has fired, every later
  `configureWith` or `viewDidLoad` emits the new pair again. It is not "exactly once". The trigger
  itself fires at most once.
- A backing tap on a project that is not live emits `goToBacking` only. `goToRewardPledgeData`
  returns nothing for every project that is not live (line 184).

## Model

| member | source | states |
|---|---|---|
| RoutingPolicy.RewardsWithId | Library/ViewModels/ProjectPamphletContentViewModel.swift:172 | the filtered rewards are exactly the project's rewards carrying the backing's reward id, and no more of them than the project has |
| RoutingPolicy.FirstMatchHeadsFilter | Library/ViewModels/ProjectPamphletContentViewModel.swift:172 | `.first` of the filtered list is the first reward, by position, whose id matches |
| RoutingPolicy.RewardForBacking | Library/ViewModels/ProjectPamphletContentViewModel.swift:169-174 | resolution never yields nil; an embedded reward wins; otherwise the result is a project reward with the backing's id, or the no-reward sentinel |
| RoutingPolicy.ResolvesToFirstMatchingReward | Library/ViewModels/ProjectPamphletContentViewModel.swift:171-173 | with no embedded reward, the first project reward whose id is the backing's reward id is chosen |
| RoutingPolicy.ResolvesToNoReward | Library/ViewModels/ProjectPamphletContentViewModel.swift:171-173 | with no embedded reward and no project reward with that id, the result is the no-reward sentinel |
| RoutingPolicy.ShouldGoToLiveStream | Library/ViewModels/ProjectPamphletContentViewModel.swift:176-179 | the stream can be joined exactly when `liveNow` holds or `startDate` is strictly before `now` |
| RoutingPolicy.LiveStreamRoutingInTime | Library/ViewModels/ProjectPamphletContentViewModel.swift:176-179 | a stream that can be joined at some time can still be joined at any later time |
| RoutingPolicy.RewardPledgeData | Library/ViewModels/ProjectPamphletContentViewModel.swift:181-196 | nil whenever the project is not live; a reward tap on a live project yields (project, reward) exactly when remaining is not `Some(0)`, so an unlimited tier is accepted; a backing tap on a live project always yields (project, resolved reward) |
| RoutingPolicy.BackingData | Library/ViewModels/ProjectPamphletContentViewModel.swift:198-206 | yields the project exactly when the project is not live and the tap is a backing |
| RoutingPolicy.PledgeAndBackingRoutesExclusive | Library/ViewModels/ProjectPamphletContentViewModel.swift:184-201 | for any project and tap, the pledge route and the backing route are never both taken |
| RoutingPolicy.BackingTapRoutesExactlyOnce | Library/ViewModels/ProjectPamphletContentViewModel.swift:191-205 | a backing tap always takes exactly one of the two routes |
| PamphletMachine.Step | Library/ViewModels/ProjectPamphletContentViewModel.swift:38-108 | one input emits at most one output, and the state invariant (no queued swipe load once triggered; minimal-load decision only after a project is available) is preserved |
| PamphletMachine.RunPreservesInv | Library/ViewModels/ProjectPamphletContentViewModel.swift:47-75 | the state invariant holds after any sequence of inputs |
| PamphletMachine.FullLoadTriggerRule | Library/ViewModels/ProjectPamphletContentViewModel.swift:47-63 | the load trigger fires on whichever comes first: `viewWillAppear(false)`, or the deferred work of `viewDidAppear(true)`; the deferred work is queued only by an animated `viewDidAppear` before the trigger fires |
| PamphletMachine.FullLoadTriggerIsSticky | Library/ViewModels/ProjectPamphletContentViewModel.swift:59-63 | once the trigger has fired it stays fired over any run: it fires at most once |
| PamphletMachine.FullLoadRule | Library/ViewModels/ProjectPamphletContentViewModel.swift:65-69 | the full pair is loaded by the step that fires the trigger while a project is available, and again by every `configureWith` or `viewDidLoad` after the trigger; no other input loads it |
| PamphletMachine.ReconfiguringReloads | Library/ViewModels/ProjectPamphletContentViewModel.swift:65-69 | after any run that fired the trigger and loaded the view, a further `configureWith` emits exactly the new pair, after the run's earlier outputs |
| PamphletMachine.FullLoadCarriesLatestConfig | Library/ViewModels/ProjectPamphletContentViewModel.swift:65-69 | every full load carries the latest configured pair and happens only with the trigger fired |
| PamphletMachine.NoFullLoadBeforeTrigger | Library/ViewModels/ProjectPamphletContentViewModel.swift:65-69 | over any run that ends with the trigger not fired, no full load is emitted |
| PamphletMachine.MinimalLoadRule | Library/ViewModels/ProjectPamphletContentViewModel.swift:71-75 | a step emits the minimal load exactly when it is `viewWillAppear(true)`, a project is available and no `viewWillAppear` has been sampled yet; the load carries the latest configured project; the decision is taken by the first `viewWillAppear` after a project is available |
| PamphletMachine.MinimalLoadAtMostOnce | Library/ViewModels/ProjectPamphletContentViewModel.swift:71-75 | over any run the minimal load is emitted at most once, and never after the decision was taken (a first non-animated `viewWillAppear` suppresses it for good) |
| PamphletMachine.AnimatedAppearanceLoadsMinimalThenFull | Library/ViewModels/ProjectPamphletContentViewModel.swift:47-75 | configure, load, animated appearance and the deferred work emit the minimal project and then the full pair |
| PamphletMachine.PlainAppearanceLoadsFullOnly | Library/ViewModels/ProjectPamphletContentViewModel.swift:55-75 | a non-animated appearance emits the full pair at once, and a later animated `viewWillAppear` emits no minimal load |
| PamphletMachine.StepAvailability | Library/ViewModels/ProjectPamphletContentViewModel.swift:39-45 | a step marks the view loaded exactly when it is `viewDidLoad` (or it already was), and replaces the configuration exactly when it is `configureWith` |
| PamphletMachine.AvailabilityOverRuns | Library/ViewModels/ProjectPamphletContentViewModel.swift:39-45 | after any run, the view is loaded exactly when some `viewDidLoad` arrived, a configuration is present exactly when some `configureWith` arrived, and the remembered configuration is the last one given, so a project is available once both have happened |
| PamphletMachine.SilentUntilConfigured | Library/ViewModels/ProjectPamphletContentViewModel.swift:39-45 | no output at all is emitted until `configureWith` has been called |
| PamphletMachine.SilentUntilViewDidLoad | Library/ViewModels/ProjectPamphletContentViewModel.swift:39-45 | no output at all is emitted until `viewDidLoad` has fired |
| PamphletMachine.TapsNeedProject | Library/ViewModels/ProjectPamphletContentViewModel.swift:82-108 | navigation is emitted only in response to a tap with a project available; taps change no state, and taps before a project is available are dropped |
| PamphletMachine.CommentsAndUpdatesTaps | Library/ViewModels/ProjectPamphletContentViewModel.swift:92-96 | each comments or updates tap emits exactly one navigation carrying the latest project |
| PamphletMachine.LiveStreamTapPartition | Library/ViewModels/ProjectPamphletContentViewModel.swift:98-108 | each live-stream tap emits exactly one output, to the stream when `shouldGoToLiveStream` holds and to the countdown otherwise, carrying the latest project and the tapped event |
| PamphletMachine.RewardTapRoutes | Library/ViewModels/ProjectPamphletContentViewModel.swift:82-90 | a reward tap emits the pledge navigation for that reward on a live project with the tier not exhausted, and nothing otherwise; never the backing navigation |
| PamphletMachine.BackingTapRoutes | Library/ViewModels/ProjectPamphletContentViewModel.swift:82-90 | a backing tap emits the pledge navigation with the resolved reward on a live project and the backing navigation otherwise |
| PamphletMachine.PledgeAnyAmountIsNoRewardTap | Library/ViewModels/ProjectPamphletContentViewModel.swift:77-80 | "pledge any amount" routes exactly like tapping the no-reward sentinel, reaching the pledge screen on a live project |
| PamphletViewModel.ProjectPamphletContentViewModel.constructor | Library/ViewModels/ProjectPamphletContentViewModel.swift:111-154 | a new view model has no configuration, no loaded view, and neither one-shot fired |
| PamphletViewModel.ProjectPamphletContentViewModel.ConfigureWith | Library/ViewModels/ProjectPamphletContentViewModel.swift:111-114 | replaces the configuration and emits what one `ConfigureWith` step emits, keeping the invariant |
| PamphletViewModel.ProjectPamphletContentViewModel.ViewDidLoad | Library/ViewModels/ProjectPamphletContentViewModel.swift:146-149 | marks the view loaded and emits what one `ViewDidLoad` step emits |
| PamphletViewModel.ProjectPamphletContentViewModel.ViewWillAppear | Library/ViewModels/ProjectPamphletContentViewModel.swift:151-154 | updates both one-shots and emits what one `ViewWillAppear` step emits |
| PamphletViewModel.ProjectPamphletContentViewModel.ViewDidAppear | Library/ViewModels/ProjectPamphletContentViewModel.swift:141-144 | queues the deferred load as one `ViewDidAppear` step does |
| PamphletViewModel.ProjectPamphletContentViewModel.DeferredLoadFires | Library/ViewModels/ProjectPamphletContentViewModel.swift:47-53 | runs the deferred swipe load as one `DeferredLoadFires` step does |
| PamphletViewModel.ProjectPamphletContentViewModel.TappedComments | Library/ViewModels/ProjectPamphletContentViewModel.swift:116-119 | emits what a comments tap emits in the current state |
| PamphletViewModel.ProjectPamphletContentViewModel.TappedUpdates | Library/ViewModels/ProjectPamphletContentViewModel.swift:136-139 | emits what an updates tap emits in the current state |
| PamphletViewModel.ProjectPamphletContentViewModel.TappedLiveStream | Library/ViewModels/ProjectPamphletContentViewModel.swift:121-124 | emits what a live-stream tap emits in the current state |
| PamphletViewModel.ProjectPamphletContentViewModel.TappedRewardOrBacking | Library/ViewModels/ProjectPamphletContentViewModel.swift:131-134 | emits what a reward-or-backing tap emits in the current state |
| PamphletViewModel.ProjectPamphletContentViewModel.TappedPledgeAnyAmount | Library/ViewModels/ProjectPamphletContentViewModel.swift:126-129 | emits what a "pledge any amount" tap emits in the current state |

## Left out

- The reactive library (signals, properties, `combineLatest`, `merge`, `takePairWhen`, `take(first:)`) is not modelled. Only the latest-value and one-shot behaviour it gives this graph is modelled, as explicit state.
- The zero-delay deferral on the environment's scheduler (line 52) is an explicit input, `DeferredLoadFires`. The model has no timing or run loop. The environment chooses when that input arrives relative to other inputs.
- The clock (line 178) is a parameter: an integer `now` passed with each live-stream tap. The source reads the clock separately in each of the two filters. The model uses one reading for both.
- PamphletMachine.LiveStreamTapPartition: its "exactly one output" rests on the single clock reading. In the source the two filters (lines 101 and 107) each read the clock. A tap whose `startDate` falls between the two readings can reach neither screen, or both, depending on the order the observers run in.
- `Date` is modelled as an integer timestamp; its floating-point nature is not modelled.
- Of the domain types, only the fields the logic reads are modelled, plus the two ids described above. The rest of `KsApi` and `LiveStream` is not part of this model.
- `Reward.noReward` is taken to have id 0 and unlimited remaining. Its definition lives in `KsApi`, which is not part of this model.
- The latest tapped values kept by the tap and appearance properties are not modelled. Nothing in the graph reads them back, beyond the emission each set causes.
- The `inputs` and `outputs` accessors (lines 165-166) are not modelled. They only return the object itself.
- The UI, navigation and data-source consumers of the outputs are external collaborators and are not modelled.
