/** The view model object: one mutable cell per piece of remembered state, one method per input.
    Each method returns the outputs it emits and is proved to behave as one `Step` of the
    state machine in `PamphletMachine`. */
module PamphletViewModel {
  import opened Domain
  import opened RoutingPolicy
  import opened PamphletMachine

  class ProjectPamphletContentViewModel {
    var configData: Option<(Project, seq<LiveStreamEvent>)>
    var viewLoaded: bool
    var swipeLoadPending: bool
    var fullLoadTriggered: bool
    var minimalLoadDecided: bool

    /** The abstract state of the object. */
    function Snapshot(): Screen
      reads this
    {
      Screen(configData, viewLoaded, swipeLoadPending, fullLoadTriggered, minimalLoadDecided)
    }

    ghost predicate Valid()
      reads this
    {
      Inv(Snapshot())
    }

    constructor ()
      ensures Valid() && Snapshot() == Initial
    {
      configData := None;
      viewLoaded := false;
      swipeLoadPending := false;
      fullLoadTriggered := false;
      minimalLoadDecided := false;
    }

    /** The latest pair to load, once the trigger has fired and a project is available. */
    method FullLoad() returns (emitted: seq<Output>)
      ensures emitted == FullLoadEmission(Snapshot())
    {
      emitted := [];
      if configData.Some? && viewLoaded && fullLoadTriggered {
        emitted := [LoadProjectAndLiveStreams(configData.value.0, configData.value.1)];
      }
    }

    /** Lets the first appearance signal through the one-shot load trigger. */
    method FireLoadTrigger() returns (emitted: seq<Output>)
      requires Valid()
      modifies this
      ensures Valid()
      ensures Snapshot() == FireFullLoad(old(Snapshot())).next
      ensures emitted == FireFullLoad(old(Snapshot())).emitted
    {
      emitted := [];
      if !fullLoadTriggered {
        fullLoadTriggered := true;
        swipeLoadPending := false;
        emitted := FullLoad();
      }
    }

    method ConfigureWith(project: Project, liveStreamEvents: seq<LiveStreamEvent>) returns (emitted: seq<Output>)
      requires Valid()
      modifies this
      ensures Valid()
      ensures Snapshot() == Step(old(Snapshot()), Input.ConfigureWith(project, liveStreamEvents)).next
      ensures emitted == Step(old(Snapshot()), Input.ConfigureWith(project, liveStreamEvents)).emitted
    {
      configData := Some((project, liveStreamEvents));
      emitted := FullLoad();
    }

    method ViewDidLoad() returns (emitted: seq<Output>)
      requires Valid()
      modifies this
      ensures Valid()
      ensures Snapshot() == Step(old(Snapshot()), Input.ViewDidLoad).next
      ensures emitted == Step(old(Snapshot()), Input.ViewDidLoad).emitted
    {
      viewLoaded := true;
      emitted := FullLoad();
    }

    method ViewWillAppear(animated: bool) returns (emitted: seq<Output>)
      requires Valid()
      modifies this
      ensures Valid()
      ensures Snapshot() == Step(old(Snapshot()), Input.ViewWillAppear(animated)).next
      ensures emitted == Step(old(Snapshot()), Input.ViewWillAppear(animated)).emitted
    {
      emitted := [];
      if !animated {
        emitted := FireLoadTrigger();
      }
      if configData.Some? && viewLoaded && !minimalLoadDecided {
        minimalLoadDecided := true;
        if animated {
          emitted := emitted + [LoadMinimalProject(configData.value.0)];
        }
      }
    }

    method ViewDidAppear(animated: bool) returns (emitted: seq<Output>)
      requires Valid()
      modifies this
      ensures Valid()
      ensures Snapshot() == Step(old(Snapshot()), Input.ViewDidAppear(animated)).next
      ensures emitted == Step(old(Snapshot()), Input.ViewDidAppear(animated)).emitted
    {
      emitted := [];
      if animated && !fullLoadTriggered {
        swipeLoadPending := true;
      }
    }

    /** The scheduler runs the deferred work queued by an animated `viewDidAppear`. */
    method DeferredLoadFires() returns (emitted: seq<Output>)
      requires Valid()
      modifies this
      ensures Valid()
      ensures Snapshot() == Step(old(Snapshot()), Input.DeferredLoadFires).next
      ensures emitted == Step(old(Snapshot()), Input.DeferredLoadFires).emitted
    {
      emitted := [];
      if swipeLoadPending {
        emitted := FireLoadTrigger();
      }
    }

    method TappedComments() returns (emitted: seq<Output>)
      ensures emitted == Step(Snapshot(), Input.TappedComments).emitted
    {
      emitted := [];
      if configData.Some? && viewLoaded {
        emitted := [GoToComments(configData.value.0)];
      }
    }

    method TappedUpdates() returns (emitted: seq<Output>)
      ensures emitted == Step(Snapshot(), Input.TappedUpdates).emitted
    {
      emitted := [];
      if configData.Some? && viewLoaded {
        emitted := [GoToUpdates(configData.value.0)];
      }
    }

    /** A live-stream tap; `now` is the clock's reading when the tap is routed. */
    method TappedLiveStream(liveStreamEvent: LiveStreamEvent, now: int) returns (emitted: seq<Output>)
      ensures emitted == Step(Snapshot(), Input.TappedLiveStream(liveStreamEvent, now)).emitted
    {
      emitted := [];
      if configData.Some? && viewLoaded {
        var project := configData.value.0;
        if ShouldGoToLiveStream(liveStreamEvent, now) {
          emitted := [GoToLiveStream(project, liveStreamEvent)];
        } else {
          emitted := [GoToLiveStreamCountdown(project, liveStreamEvent)];
        }
      }
    }

    method TappedRewardOrBacking(rewardOrBacking: Either<Reward, Backing>) returns (emitted: seq<Output>)
      ensures emitted == Step(Snapshot(), Input.TappedRewardOrBacking(rewardOrBacking)).emitted
    {
      emitted := [];
      if configData.Some? && viewLoaded {
        var project := configData.value.0;
        var pledge := RewardPledgeData(project, rewardOrBacking);
        if pledge.Some? {
          emitted := emitted + [GoToRewardPledge(pledge.value.0, pledge.value.1)];
        }
        var backed := BackingData(project, rewardOrBacking);
        if backed.Some? {
          emitted := emitted + [GoToBacking(backed.value)];
        }
      }
    }

    method TappedPledgeAnyAmount() returns (emitted: seq<Output>)
      ensures emitted == Step(Snapshot(), Input.TappedPledgeAnyAmount).emitted
    {
      emitted := TappedRewardOrBacking(Left(NoReward));
    }
  }
}
