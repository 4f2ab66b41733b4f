/** The values the pamphlet screen reads: only the fields its routing logic looks at. */
module Domain {

  datatype Option<+T> = None | Some(value: T)

  /** Swift's `Either<Reward, Backing>`: a tapped reward tier (left) or the user's backing (right). */
  datatype Either<+L, +R> = Left(left: L) | Right(right: R)

  /** The states a project can be in; only `Live` is distinguished by the routing logic. */
  datatype ProjectState =
    | Canceled | Failed | Live | Purged | Started | Submitted | Successful | Suspended

  /** A reward tier. `remaining == None` is an unlimited tier; `Some(0)` is an exhausted one. */
  datatype Reward = Reward(id: int, remaining: Option<int>)

  /** The sentinel reward used to pledge without choosing a tier. */
  const NoReward: Reward := Reward(0, None)

  /** An existing pledge: it embeds its reward, or names it by id, or both, or neither. */
  datatype Backing = Backing(reward: Option<Reward>, rewardId: Option<int>)

  datatype Project = Project(id: int, state: ProjectState, rewards: seq<Reward>)

  /** A live-stream event; `startDate` is a timestamp on the same scale as the clock's `now`. */
  datatype LiveStreamEvent = LiveStreamEvent(id: int, liveNow: bool, startDate: int)
}
