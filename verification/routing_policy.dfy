/** The four pure decision functions the screen's navigation outputs are built from. */
module RoutingPolicy {
  import opened Domain

  /** The rewards whose id equals `rewardId`, in their original order (Swift's `filter`).
      A `None` id matches nothing. */
  function RewardsWithId(rewards: seq<Reward>, rewardId: Option<int>): (matching: seq<Reward>)
    ensures |matching| <= |rewards|
    ensures forall r :: r in matching ==> r in rewards && Some(r.id) == rewardId
    ensures forall r :: r in rewards && Some(r.id) == rewardId ==> r in matching
  {
    if rewards == [] then []
    else if Some(rewards[0].id) == rewardId then [rewards[0]] + RewardsWithId(rewards[1..], rewardId)
    else RewardsWithId(rewards[1..], rewardId)
  }

  /** The head of the filtered list is the first reward, by position, that carries the id. */
  lemma {:induction false} FirstMatchHeadsFilter(rewards: seq<Reward>, rewardId: Option<int>, k: nat)
    requires k < |rewards| && Some(rewards[k].id) == rewardId
    requires forall j :: 0 <= j < k ==> Some(rewards[j].id) != rewardId
    ensures RewardsWithId(rewards, rewardId) != []
    ensures RewardsWithId(rewards, rewardId)[0] == rewards[k]
  {
    if k > 0 {
      FirstMatchHeadsFilter(rewards[1..], rewardId, k - 1);
    }
  }

  /** `reward(forBacking:inProject:)`: the embedded reward, else the first project reward with the
      backing's reward id, else the no-reward sentinel. The result type is optional, as in the
      source, but the result is never absent. */
  function RewardForBacking(backing: Backing, project: Project): (r: Option<Reward>)
    ensures r.Some?
    ensures backing.reward.Some? ==> r == backing.reward
    ensures backing.reward.None? && r.value != NoReward ==>
              r.value in project.rewards && Some(r.value.id) == backing.rewardId
  {
    match backing.reward
    case Some(embedded) => Some(embedded)
    case None =>
      var matching := RewardsWithId(project.rewards, backing.rewardId);
      if matching != [] then Some(matching[0]) else Some(NoReward)
  }

  /** Second step of the fallback chain: with no embedded reward, the first reward of the project
      whose id is the backing's reward id is chosen. */
  lemma ResolvesToFirstMatchingReward(backing: Backing, project: Project, k: nat)
    requires backing.reward.None?
    requires k < |project.rewards| && Some(project.rewards[k].id) == backing.rewardId
    requires forall j :: 0 <= j < k ==> Some(project.rewards[j].id) != backing.rewardId
    ensures RewardForBacking(backing, project) == Some(project.rewards[k])
  {
    FirstMatchHeadsFilter(project.rewards, backing.rewardId, k);
  }

  /** Last step of the fallback chain: a backing whose reward is neither embedded nor listed in the
      project resolves to the no-reward sentinel. */
  lemma ResolvesToNoReward(backing: Backing, project: Project)
    requires backing.reward.None?
    requires forall j :: 0 <= j < |project.rewards| ==> Some(project.rewards[j].id) != backing.rewardId
    ensures RewardForBacking(backing, project) == Some(NoReward)
  {
  }

  /** `shouldGoToLiveStream`: the stream can be joined when it is live now or its start is past. */
  predicate ShouldGoToLiveStream(event: LiveStreamEvent, now: int): (joinable: bool)
    ensures event.liveNow ==> joinable
    ensures !event.liveNow ==> (joinable <==> event.startDate < now)
  {
    event.liveNow || event.startDate < now
  }

  /** A stream that can be joined at `now` can still be joined at any later time. (A stream that is
      not live and starts at or after `now` routes to the countdown, by the predicate's contract.) */
  lemma LiveStreamRoutingInTime(event: LiveStreamEvent, now: int, later: int)
    requires now <= later
    ensures ShouldGoToLiveStream(event, now) ==> ShouldGoToLiveStream(event, later)
  {
  }

  /** `goToRewardPledgeData`: where a reward-or-backing tap leads on the pledge side. */
  function RewardPledgeData(project: Project, rewardOrBacking: Either<Reward, Backing>)
    : (r: Option<(Project, Reward)>)
    ensures project.state != Live ==> r.None?
    ensures r.Some? ==> r.value.0 == project
    ensures rewardOrBacking.Left? ==>
              (r.Some? <==> project.state == Live && rewardOrBacking.left.remaining != Some(0))
    ensures rewardOrBacking.Left? && r.Some? ==> r.value.1 == rewardOrBacking.left
    ensures rewardOrBacking.Right? ==> (r.Some? <==> project.state == Live)
    ensures rewardOrBacking.Right? && r.Some? ==>
              Some(r.value.1) == RewardForBacking(rewardOrBacking.right, project)
  {
    if project.state != Live then None
    else
      match rewardOrBacking
      case Left(reward) =>
        if reward.remaining == Some(0) then None else Some((project, reward))
      case Right(backing) =>
        match RewardForBacking(backing, project)
        case None => None
        case Some(reward) => Some((project, reward))
  }

  /** `goToBackingData`: a backing tap on a project that is no longer live shows the backing. */
  function BackingData(project: Project, rewardOrBacking: Either<Reward, Backing>): (r: Option<Project>)
    ensures r.Some? <==> project.state != Live && rewardOrBacking.Right?
    ensures r.Some? ==> r.value == project
  {
    if project.state != Live && rewardOrBacking.Right? then Some(project) else None
  }

  /** The pledge route and the backing route never both fire for one tap. */
  lemma PledgeAndBackingRoutesExclusive(project: Project, rewardOrBacking: Either<Reward, Backing>)
    ensures !(RewardPledgeData(project, rewardOrBacking).Some? && BackingData(project, rewardOrBacking).Some?)
  {
  }

  /** A backing tap is never dropped: exactly one of the two routes fires for it. */
  lemma BackingTapRoutesExactlyOnce(project: Project, backing: Backing)
    ensures RewardPledgeData(project, Right(backing)).Some? != BackingData(project, Right(backing)).Some?
  {
  }
}
