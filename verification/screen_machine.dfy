/** The event graph built in the view model's initializer, as a sequential state machine.
    Each input of the screen is one step: it updates the latest-value and one-shot state the
    reactive combinators keep, and yields the outputs emitted in response, in order. */
module PamphletMachine {
  import opened Domain
  import opened RoutingPolicy

  /** What the combinators remember between inputs.
      - `config`: the latest `configureWith` pair.
      - `viewLoaded`: `viewDidLoad` has fired; with `config` it makes the project available.
      - `swipeLoadPending`: an animated `viewDidAppear` queued its zero-delay deferred work.
      - `fullLoadTriggered`: the one-shot "time to load the data source" has fired.
      - `minimalLoadDecided`: the one-shot minimal load has consumed its first sample. */
  datatype Screen = Screen(
    config: Option<(Project, seq<LiveStreamEvent>)>,
    viewLoaded: bool,
    swipeLoadPending: bool,
    fullLoadTriggered: bool,
    minimalLoadDecided: bool)

  const Initial: Screen := Screen(None, false, false, false, false)

  /** The combined project signal has emitted: both `configureWith` and `viewDidLoad` happened. */
  predicate ProjectAvailable(s: Screen)
  {
    s.config.Some? && s.viewLoaded
  }

  /** Once the load trigger has fired no deferred swipe load is outstanding, and the minimal-load
      decision is only ever taken once a project is available. The second conjunct is a fact about
      reachable states (kept by every step, see `RunPreservesInv`); no other proof depends on it. */
  predicate Inv(s: Screen)
  {
    && (s.fullLoadTriggered ==> !s.swipeLoadPending)
    && (s.minimalLoadDecided ==> ProjectAvailable(s))
  }

  datatype Input =
    | ConfigureWith(project: Project, liveStreamEvents: seq<LiveStreamEvent>)
    | ViewDidLoad
    | ViewWillAppear(animated: bool)
    | ViewDidAppear(animated: bool)
      /** The scheduler runs the zero-delay work an animated `viewDidAppear` queued. */
    | DeferredLoadFires
    | TappedComments
    | TappedUpdates
      /** A live-stream tap, with the clock's reading when it is routed. */
    | TappedLiveStream(liveStreamEvent: LiveStreamEvent, now: int)
    | TappedRewardOrBacking(rewardOrBacking: Either<Reward, Backing>)
    | TappedPledgeAnyAmount
  {
    predicate IsTap()
    {
      TappedComments? || TappedUpdates? || TappedLiveStream? || TappedRewardOrBacking? || TappedPledgeAnyAmount?
    }
  }

  datatype Output =
    | LoadMinimalProject(project: Project)
    | LoadProjectAndLiveStreams(project: Project, liveStreamEvents: seq<LiveStreamEvent>)
    | GoToBacking(project: Project)
    | GoToComments(project: Project)
    | GoToLiveStream(project: Project, liveStreamEvent: LiveStreamEvent)
    | GoToLiveStreamCountdown(project: Project, liveStreamEvent: LiveStreamEvent)
    | GoToRewardPledge(project: Project, reward: Reward)
    | GoToUpdates(project: Project)
  {
    predicate IsNavigation()
    {
      !LoadMinimalProject? && !LoadProjectAndLiveStreams?
    }
  }

  datatype Transition = Transition(next: Screen, emitted: seq<Output>)

  /** `loadProjectAndLiveStreamsIntoDataSource` combines the latest pair with the one-shot trigger:
      once both have emitted, every new pair is emitted again. */
  function FullLoadEmission(s: Screen): (loads: seq<Output>)
  {
    if ProjectAvailable(s) && s.fullLoadTriggered
    then [LoadProjectAndLiveStreams(s.config.value.0, s.config.value.1)]
    else []
  }

  /** The merged appearance signal reaches `take(first: 1)`: only its first value gets through. */
  function FireFullLoad(s: Screen): (t: Transition)
  {
    if s.fullLoadTriggered then Transition(s, [])
    else
      var fired := s.(fullLoadTriggered := true, swipeLoadPending := false);
      Transition(fired, FullLoadEmission(fired))
  }

  /** Both routes of a reward-or-backing tap, pledge first, once a project is available. */
  function RewardOrBackingRoutes(s: Screen, rewardOrBacking: Either<Reward, Backing>): (routes: seq<Output>)
  {
    if !ProjectAvailable(s) then []
    else
      var project := s.config.value.0;
      (match RewardPledgeData(project, rewardOrBacking)
       case Some(pledge) => [GoToRewardPledge(pledge.0, pledge.1)]
       case None => [])
      + (match BackingData(project, rewardOrBacking)
         case Some(backed) => [GoToBacking(backed)]
         case None => [])
  }

  /** One input of the screen. No input produces more than one output, and the invariant holds. */
  function Step(s: Screen, input: Input): (t: Transition)
    ensures |t.emitted| <= 1
    ensures Inv(s) ==> Inv(t.next)
  {
    match input
    case ConfigureWith(project, events) =>
      var configured := s.(config := Some((project, events)));
      Transition(configured, FullLoadEmission(configured))
    case ViewDidLoad =>
      var loaded := s.(viewLoaded := true);
      Transition(loaded, FullLoadEmission(loaded))
    case ViewWillAppear(animated) =>
      var modal := if animated then Transition(s, []) else FireFullLoad(s);
      var m := modal.next;
      if ProjectAvailable(m) && !m.minimalLoadDecided then
        Transition(m.(minimalLoadDecided := true),
                   modal.emitted + (if animated then [LoadMinimalProject(m.config.value.0)] else []))
      else modal
    case ViewDidAppear(animated) =>
      if animated && !s.fullLoadTriggered then Transition(s.(swipeLoadPending := true), [])
      else Transition(s, [])
    case DeferredLoadFires =>
      if s.swipeLoadPending then FireFullLoad(s) else Transition(s, [])
    case TappedComments =>
      Transition(s, if ProjectAvailable(s) then [GoToComments(s.config.value.0)] else [])
    case TappedUpdates =>
      Transition(s, if ProjectAvailable(s) then [GoToUpdates(s.config.value.0)] else [])
    case TappedLiveStream(event, now) =>
      Transition(s,
        if !ProjectAvailable(s) then []
        else if ShouldGoToLiveStream(event, now) then [GoToLiveStream(s.config.value.0, event)]
        else [GoToLiveStreamCountdown(s.config.value.0, event)])
    case TappedRewardOrBacking(rewardOrBacking) =>
      Transition(s, RewardOrBackingRoutes(s, rewardOrBacking))
    case TappedPledgeAnyAmount =>
      Transition(s, RewardOrBackingRoutes(s, Left(NoReward)))
  }

  /** A sequence of inputs, applied in order; the outputs are concatenated in emission order. */
  function Run(s: Screen, inputs: seq<Input>): (t: Transition)
    decreases |inputs|
  {
    if inputs == [] then Transition(s, [])
    else
      var first := Step(s, inputs[0]);
      var rest := Run(first.next, inputs[1..]);
      Transition(rest.next, first.emitted + rest.emitted)
  }

  /** Running two input sequences one after the other is running their concatenation. */
  lemma {:induction false} RunComposes(s: Screen, a: seq<Input>, b: seq<Input>)
    ensures Run(s, a + b).next == Run(Run(s, a).next, b).next
    ensures Run(s, a + b).emitted == Run(s, a).emitted + Run(Run(s, a).next, b).emitted
    decreases |a|
  {
    if a != [] {
      assert (a + b)[0] == a[0];
      assert (a + b)[1..] == a[1..] + b;
      RunComposes(Step(s, a[0]).next, a[1..], b);
    } else {
      assert a + b == b;
    }
  }

  /** The invariant holds after any sequence of inputs. */
  lemma {:induction false} RunPreservesInv(s: Screen, inputs: seq<Input>)
    requires Inv(s)
    ensures Inv(Run(s, inputs).next)
    decreases |inputs|
  {
    if inputs != [] {
      RunPreservesInv(Step(s, inputs[0]).next, inputs[1..]);
    }
  }

  // ---------------------------------------------------------------------------------------------
  // Loading the data source

  /** The full-load trigger fires on whichever comes first: a non-animated `viewWillAppear`, or the
      deferred work of an animated `viewDidAppear`; it is queued only by an animated `viewDidAppear`
      while the trigger has not fired. */
  lemma FullLoadTriggerRule(s: Screen, input: Input)
    requires Inv(s)
    ensures Step(s, input).next.fullLoadTriggered <==>
              s.fullLoadTriggered || input == ViewWillAppear(false)
              || (input == DeferredLoadFires && s.swipeLoadPending)
    ensures Step(s, input).next.swipeLoadPending <==>
              !Step(s, input).next.fullLoadTriggered && (s.swipeLoadPending || input == ViewDidAppear(true))
  {
  }

  /** Once fired, the full-load trigger stays fired whatever follows: it fires at most once. */
  lemma {:induction false} FullLoadTriggerIsSticky(s: Screen, inputs: seq<Input>)
    requires s.fullLoadTriggered
    ensures Run(s, inputs).next.fullLoadTriggered
    decreases |inputs|
  {
    if inputs != [] {
      FullLoadTriggerIsSticky(Step(s, inputs[0]).next, inputs[1..]);
    }
  }

  /** The full pair is loaded by the step that fires the trigger when a project is available, and
      again by every later `configureWith` or `viewDidLoad`; by no other step. */
  lemma FullLoadRule(s: Screen, input: Input)
    requires Inv(s)
    ensures var t := Step(s, input);
      (input.ConfigureWith? || input == ViewDidLoad || input == ViewWillAppear(false) || input == DeferredLoadFires)
      ==> t.emitted == if ProjectAvailable(t.next) && t.next.fullLoadTriggered
                          && (input.ConfigureWith? || input == ViewDidLoad || !s.fullLoadTriggered)
                       then [LoadProjectAndLiveStreams(t.next.config.value.0, t.next.config.value.1)]
                       else []
    ensures var t := Step(s, input);
      !(input.ConfigureWith? || input == ViewDidLoad || input == ViewWillAppear(false) || input == DeferredLoadFires)
      ==> forall o :: o in t.emitted ==> !o.LoadProjectAndLiveStreams?
  {
  }

  /** Over whole runs: once the trigger has fired and the view has loaded, appending a new
      configuration reloads the data source with exactly that pair, after whatever came before. */
  lemma {:induction false} ReconfiguringReloads(s: Screen, inputs: seq<Input>, project: Project,
                                                events: seq<LiveStreamEvent>)
    requires Run(s, inputs).next.fullLoadTriggered && Run(s, inputs).next.viewLoaded
    ensures Run(s, inputs + [ConfigureWith(project, events)]).emitted
            == Run(s, inputs).emitted + [LoadProjectAndLiveStreams(project, events)]
    ensures Run(s, inputs + [ConfigureWith(project, events)]).next.config == Some((project, events))
  {
    var before := Run(s, inputs).next;
    RunComposes(s, inputs, [ConfigureWith(project, events)]);
    assert Run(before, [ConfigureWith(project, events)]).emitted == [LoadProjectAndLiveStreams(project, events)];
  }

  /** Every full load carries the latest configuration, and happens only once the trigger fired. */
  lemma FullLoadCarriesLatestConfig(s: Screen, input: Input, o: Output)
    requires o in Step(s, input).emitted && o.LoadProjectAndLiveStreams?
    ensures Step(s, input).next.fullLoadTriggered
    ensures Step(s, input).next.config == Some((o.project, o.liveStreamEvents))
  {
  }

  /** Until the trigger has fired, the data source is never fully loaded. */
  lemma {:induction false} NoFullLoadBeforeTrigger(s: Screen, inputs: seq<Input>)
    requires !Run(s, inputs).next.fullLoadTriggered
    ensures forall o :: o in Run(s, inputs).emitted ==> !o.LoadProjectAndLiveStreams?
    decreases |inputs|
  {
    if inputs != [] {
      var first := Step(s, inputs[0]);
      assert !first.next.fullLoadTriggered by {
        if first.next.fullLoadTriggered {
          FullLoadTriggerIsSticky(first.next, inputs[1..]);
        }
      }
      NoFullLoadBeforeTrigger(first.next, inputs[1..]);
    }
  }

  /** The number of minimal loads among some outputs. */
  function MinimalLoadCount(outputs: seq<Output>): (count: nat)
  {
    if outputs == [] then 0
    else (if outputs[0].LoadMinimalProject? then 1 else 0) + MinimalLoadCount(outputs[1..])
  }

  lemma {:induction false} MinimalLoadCountAppend(a: seq<Output>, b: seq<Output>)
    ensures MinimalLoadCount(a + b) == MinimalLoadCount(a) + MinimalLoadCount(b)
  {
    if a == [] {
      assert a + b == b;
    } else {
      assert (a + b)[1..] == a[1..] + b;
      MinimalLoadCountAppend(a[1..], b);
    }
  }

  /** The minimal load samples only the first `viewWillAppear` after a project is available; it
      emits exactly when that first sample is animated. */
  lemma MinimalLoadRule(s: Screen, input: Input)
    ensures MinimalLoadCount(Step(s, input).emitted) ==
              if input == ViewWillAppear(true) && ProjectAvailable(s) && !s.minimalLoadDecided then 1 else 0
    ensures Step(s, input).next.minimalLoadDecided <==>
              s.minimalLoadDecided || (input.ViewWillAppear? && ProjectAvailable(s))
    ensures forall o :: o in Step(s, input).emitted && o.LoadMinimalProject? ==>
              ProjectAvailable(s) && o.project == s.config.value.0
  {
  }

  /** Over any run the minimal load happens at most once, and never once the decision was taken:
      a first non-animated `viewWillAppear` suppresses it for good. */
  lemma {:induction false} MinimalLoadAtMostOnce(s: Screen, inputs: seq<Input>)
    ensures MinimalLoadCount(Run(s, inputs).emitted) <= if s.minimalLoadDecided then 0 else 1
    decreases |inputs|
  {
    if inputs != [] {
      var first := Step(s, inputs[0]);
      MinimalLoadRule(s, inputs[0]);
      MinimalLoadAtMostOnce(first.next, inputs[1..]);
      MinimalLoadCountAppend(first.emitted, Run(first.next, inputs[1..]).emitted);
    }
  }

  /** An animated push: the minimal project is loaded as the view appears, and the full pair once
      the deferred work after the appearance runs. */
  lemma AnimatedAppearanceLoadsMinimalThenFull(project: Project, events: seq<LiveStreamEvent>)
    ensures Run(Initial, [ConfigureWith(project, events), ViewDidLoad, ViewWillAppear(true),
                          ViewDidAppear(true), DeferredLoadFires]).emitted
            == [LoadMinimalProject(project), LoadProjectAndLiveStreams(project, events)]
  {
    var configured := Screen(Some((project, events)), false, false, false, false);
    var loaded := configured.(viewLoaded := true);
    var appearing := loaded.(minimalLoadDecided := true);
    var pending := appearing.(swipeLoadPending := true);
    assert Run(pending, [DeferredLoadFires]).emitted == [LoadProjectAndLiveStreams(project, events)];
    assert Run(appearing, [ViewDidAppear(true), DeferredLoadFires]).emitted
        == [LoadProjectAndLiveStreams(project, events)];
    assert Run(loaded, [ViewWillAppear(true), ViewDidAppear(true), DeferredLoadFires]).emitted
        == [LoadMinimalProject(project), LoadProjectAndLiveStreams(project, events)];
    assert Run(configured, [ViewDidLoad, ViewWillAppear(true), ViewDidAppear(true), DeferredLoadFires]).emitted
        == [LoadMinimalProject(project), LoadProjectAndLiveStreams(project, events)];
  }

  /** A presentation without animation: the full pair is loaded as the view appears, and the
      minimal load never happens. */
  lemma PlainAppearanceLoadsFullOnly(project: Project, events: seq<LiveStreamEvent>)
    ensures Run(Initial, [ConfigureWith(project, events), ViewDidLoad, ViewWillAppear(false),
                          ViewDidAppear(false), ViewWillAppear(true)]).emitted
            == [LoadProjectAndLiveStreams(project, events)]
  {
    var configured := Screen(Some((project, events)), false, false, false, false);
    var loaded := configured.(viewLoaded := true);
    var appeared := loaded.(fullLoadTriggered := true, minimalLoadDecided := true);
    assert Run(appeared, [ViewWillAppear(true)]).emitted == [];
    assert Run(appeared, [ViewDidAppear(false), ViewWillAppear(true)]).emitted == [];
    assert Run(loaded, [ViewWillAppear(false), ViewDidAppear(false), ViewWillAppear(true)]).emitted
        == [LoadProjectAndLiveStreams(project, events)];
    assert Run(configured, [ViewDidLoad, ViewWillAppear(false), ViewDidAppear(false), ViewWillAppear(true)]).emitted
        == [LoadProjectAndLiveStreams(project, events)];
  }

  // ---------------------------------------------------------------------------------------------
  // Gating on configuration and view loading

  /** One step records a view load or a configuration, and changes neither otherwise. */
  lemma StepAvailability(s: Screen, input: Input)
    ensures Step(s, input).next.viewLoaded <==> s.viewLoaded || input == ViewDidLoad
    ensures Step(s, input).next.config ==
              if input.ConfigureWith? then Some((input.project, input.liveStreamEvents)) else s.config
  {
  }

  lemma {:induction false} ViewLoadedOverRuns(s: Screen, inputs: seq<Input>)
    decreases |inputs|
    ensures Run(s, inputs).next.viewLoaded <==>
              s.viewLoaded || exists i :: 0 <= i < |inputs| && inputs[i] == ViewDidLoad
  {
    if inputs != [] {
      var rest := inputs[1..];
      StepAvailability(s, inputs[0]);
      ViewLoadedOverRuns(Step(s, inputs[0]).next, rest);
      forall i | 0 < i < |inputs| ensures inputs[i] == rest[i - 1] { }
      if exists i :: 0 <= i < |rest| && rest[i] == ViewDidLoad {
        var i :| 0 <= i < |rest| && rest[i] == ViewDidLoad;
        assert inputs[i + 1] == ViewDidLoad;
      }
    }
  }

  lemma {:induction false} ConfigOverRuns(s: Screen, inputs: seq<Input>)
    decreases |inputs|
    ensures Run(s, inputs).next.config.Some? <==>
              s.config.Some? || exists i :: 0 <= i < |inputs| && inputs[i].ConfigureWith?
    ensures (forall j :: 0 <= j < |inputs| ==> !inputs[j].ConfigureWith?) ==>
              Run(s, inputs).next.config == s.config
    ensures forall i :: 0 <= i < |inputs| && inputs[i].ConfigureWith?
                        && (forall j :: i < j < |inputs| ==> !inputs[j].ConfigureWith?) ==>
              Run(s, inputs).next.config == Some((inputs[i].project, inputs[i].liveStreamEvents))
  {
    if inputs != [] {
      var rest := inputs[1..];
      StepAvailability(s, inputs[0]);
      ConfigOverRuns(Step(s, inputs[0]).next, rest);
      forall i | 0 < i < |inputs| ensures inputs[i] == rest[i - 1] { }
      if exists i :: 0 <= i < |rest| && rest[i].ConfigureWith? {
        var i :| 0 <= i < |rest| && rest[i].ConfigureWith?;
        assert inputs[i + 1].ConfigureWith?;
      }
      forall i | 0 <= i < |inputs| && inputs[i].ConfigureWith?
                 && (forall j :: i < j < |inputs| ==> !inputs[j].ConfigureWith?)
        ensures Run(s, inputs).next.config == Some((inputs[i].project, inputs[i].liveStreamEvents))
      {
        if i > 0 {
          assert rest[i - 1] == inputs[i];
          assert forall j :: i - 1 < j < |rest| ==> !rest[j].ConfigureWith?;
        } else {
          assert forall j :: 0 <= j < |rest| ==> !rest[j].ConfigureWith?;
        }
      }
    }
  }

  /** The converse of the two lemmas below: the view counts as loaded once any `viewDidLoad` has
      arrived, a configuration is present once any `configureWith` has arrived, and the remembered
      configuration is the one given last. */
  lemma AvailabilityOverRuns(s: Screen, inputs: seq<Input>)
    ensures Run(s, inputs).next.viewLoaded <==>
              s.viewLoaded || exists i :: 0 <= i < |inputs| && inputs[i] == ViewDidLoad
    ensures Run(s, inputs).next.config.Some? <==>
              s.config.Some? || exists i :: 0 <= i < |inputs| && inputs[i].ConfigureWith?
    ensures (forall j :: 0 <= j < |inputs| ==> !inputs[j].ConfigureWith?) ==>
              Run(s, inputs).next.config == s.config
    ensures forall i :: 0 <= i < |inputs| && inputs[i].ConfigureWith?
                        && (forall j :: i < j < |inputs| ==> !inputs[j].ConfigureWith?) ==>
              Run(s, inputs).next.config == Some((inputs[i].project, inputs[i].liveStreamEvents))
  {
    ViewLoadedOverRuns(s, inputs);
    ConfigOverRuns(s, inputs);
  }

  /** Nothing at all is emitted while no configuration has been given. */
  lemma {:induction false} SilentUntilConfigured(s: Screen, inputs: seq<Input>)
    requires s.config.None?
    requires forall i :: 0 <= i < |inputs| ==> !inputs[i].ConfigureWith?
    ensures Run(s, inputs).emitted == []
    decreases |inputs|
  {
    if inputs != [] {
      SilentUntilConfigured(Step(s, inputs[0]).next, inputs[1..]);
    }
  }

  /** Nothing at all is emitted while the view has not loaded. */
  lemma {:induction false} SilentUntilViewDidLoad(s: Screen, inputs: seq<Input>)
    requires !s.viewLoaded
    requires forall i :: 0 <= i < |inputs| ==> inputs[i] != ViewDidLoad
    ensures Run(s, inputs).emitted == []
    decreases |inputs|
  {
    if inputs != [] {
      SilentUntilViewDidLoad(Step(s, inputs[0]).next, inputs[1..]);
    }
  }

  /** A navigation output is only ever emitted in response to a tap, and a tap only counts once a
      project is available; taps change no state. */
  lemma TapsNeedProject(s: Screen, input: Input)
    ensures (exists o :: o in Step(s, input).emitted && o.IsNavigation()) ==>
              ProjectAvailable(s) && input.IsTap()
    ensures input.IsTap() ==> Step(s, input).next == s
    ensures input.IsTap() && !ProjectAvailable(s) ==> Step(s, input).emitted == []
  {
  }

  // ---------------------------------------------------------------------------------------------
  // Navigation

  /** Comments and updates taps are forwarded with the latest project, one output per tap. */
  lemma CommentsAndUpdatesTaps(s: Screen)
    requires ProjectAvailable(s)
    ensures Step(s, TappedComments).emitted == [GoToComments(s.config.value.0)]
    ensures Step(s, TappedUpdates).emitted == [GoToUpdates(s.config.value.0)]
  {
  }

  /** Each live-stream tap goes to exactly one of the stream and its countdown. */
  lemma LiveStreamTapPartition(s: Screen, event: LiveStreamEvent, now: int)
    requires ProjectAvailable(s)
    ensures |Step(s, TappedLiveStream(event, now)).emitted| == 1
    ensures Step(s, TappedLiveStream(event, now)).emitted[0].GoToLiveStream? <==> ShouldGoToLiveStream(event, now)
    ensures Step(s, TappedLiveStream(event, now)).emitted[0].GoToLiveStreamCountdown? <==> !ShouldGoToLiveStream(event, now)
    ensures Step(s, TappedLiveStream(event, now)).emitted[0].liveStreamEvent == event
    ensures Step(s, TappedLiveStream(event, now)).emitted[0].project == s.config.value.0
  {
  }

  /** Routing of a reward tap: nothing when the project is not live or the tier is exhausted;
      otherwise the pledge screen for that tier. Never the backing screen. */
  lemma RewardTapRoutes(s: Screen, reward: Reward)
    requires ProjectAvailable(s)
    ensures Step(s, TappedRewardOrBacking(Left(reward))).emitted ==
              if s.config.value.0.state == Live && reward.remaining != Some(0)
              then [GoToRewardPledge(s.config.value.0, reward)]
              else []
  {
  }

  /** Routing of a backing tap: the pledge screen with the resolved reward while the project is
      live, the backing screen otherwise; never dropped. */
  lemma BackingTapRoutes(s: Screen, backing: Backing)
    requires ProjectAvailable(s)
    ensures Step(s, TappedRewardOrBacking(Right(backing))).emitted ==
              if s.config.value.0.state == Live
              then [GoToRewardPledge(s.config.value.0, RewardForBacking(backing, s.config.value.0).value)]
              else [GoToBacking(s.config.value.0)]
  {
  }

  /** "Pledge any amount" routes exactly like tapping the no-reward sentinel, which on a live
      project always reaches the pledge screen. */
  lemma PledgeAnyAmountIsNoRewardTap(s: Screen)
    ensures Step(s, TappedPledgeAnyAmount) == Step(s, TappedRewardOrBacking(Left(NoReward)))
    ensures ProjectAvailable(s) && s.config.value.0.state == Live ==>
              Step(s, TappedPledgeAnyAmount).emitted == [GoToRewardPledge(s.config.value.0, NoReward)]
  {
  }
}
