/**
 The control panel shown on each idea: whether it renders, whether the
 remove icon is offered, whether a vote counter is included and disabled,
 and the event each icon sends to the session channel when activated.
 The current time is a parameter in milliseconds, never a clock read.
 */
module IdeaControls {
  import opened Types
  import opened Votes

  /** How long after its insertion an idea may still be removed by its
      author, in milliseconds. */
  const RemoveWindowMs: int := 5000

  /** The vote counter sub-element and whether its button is disabled. */
  datatype VoteCounterState = VoteCounter(buttonDisabled: bool)

  /** What the panel shows: nothing at all, or the panel with the remove
      icon on or off and an optional vote counter. */
  datatype ControlState =
    | NotRendered
    | Panel(removeShown: bool, voteCounter: Option<VoteCounterState>)

  /** The icons of the panel that send an event when activated. */
  datatype Action = Remove | Edit | Announce | Ban

  /** Events pushed to the session channel. */
  datatype Event =
    | DeleteIdea(ideaId: int)
    | EnableEditState(idea: Idea, editorToken: Option<string>)
    | HighlightIdea(ideaId: int, isHighlighted: bool)

  /** The channel's name for each event; each kind of event has its own. */
  function EventName(e: Event): (name: string)
    ensures name == "delete_idea" <==> e.DeleteIdea?
    ensures name == "enable_edit_state" <==> e.EnableEditState?
    ensures name == "highlight_idea" <==> e.HighlightIdea?
  {
    match e
    case DeleteIdea(_) => "delete_idea"
    case EnableEditState(_, _) => "enable_edit_state"
    case HighlightIdea(_, _) => "highlight_idea"
  }

  /** The id of the idea an event is about, wherever the payload keeps it. */
  function TargetId(e: Event): int {
    match e
    case DeleteIdea(id) => id
    case EnableEditState(idea, _) => idea.id
    case HighlightIdea(id, _) => id
  }

  /** An idea counts as recent while fewer than `RemoveWindowMs` have
      passed since its insertion; one not yet persisted counts as just
      created. */
  predicate InsertedRecently(idea: Idea, nowMs: int) {
    match idea.insertedAtMs
    case None => true
    case Some(t) => nowMs - t < RemoveWindowMs
  }

  /** Facilitators may remove any idea; others only their own, recent ones. */
  function CanRemove(idea: Idea, user: User, nowMs: int): (ok: bool)
    ensures user.isFacilitator ==> ok
    ensures ok ==> user.isFacilitator || idea.userId == user.id
    ensures idea.userId == user.id && idea.insertedAtMs.Some? && nowMs - idea.insertedAtMs.value <= 4000 ==> ok
  {
    user.isFacilitator || (idea.userId == user.id && InsertedRecently(idea, nowMs))
  }

  /** The vote counter of an open panel, by stage and category. Action
      items never get one. */
  function VoteCounterFor(idea: Idea, user: User, stage: Stage, votes: seq<Vote>): (c: Option<VoteCounterState>)
    ensures c.Some? ==> (stage == Voting || stage == ActionItems) && !idea.IsActionItem()
    ensures c.Some? && !c.value.buttonDisabled ==> stage == Voting && VoteCount(user.id, votes) < VoteLimit
  {
    match stage
    case IdeaGeneration => None
    case Voting =>
      if idea.IsActionItem() then None
      else Some(VoteCounter(IsExhausted(user.id, votes)))
    case ActionItems =>
      if idea.IsActionItem() then None
      else Some(VoteCounter(true))
    case Closed => None
  }

  /** The control panel of `idea` as seen by `user`. */
  function Controls(idea: Idea, user: User, stage: Stage, votes: seq<Vote>, nowMs: int): (r: ControlState)
    ensures r.NotRendered? <==> stage == Closed
    ensures r.Panel? && r.voteCounter.Some? ==> stage != IdeaGeneration && !idea.IsActionItem()
  {
    if stage == Closed then NotRendered
    else Panel(CanRemove(idea, user, nowMs), VoteCounterFor(idea, user, stage, votes))
  }

  /** The event an icon sends. The highlight icons send the idea's current
      flag, not its negation. */
  function EventFor(action: Action, idea: Idea, user: User): (e: Event)
    ensures TargetId(e) == idea.id
    ensures e.DeleteIdea? <==> action == Remove
    ensures e.EnableEditState? <==> action == Edit
    ensures e.HighlightIdea? <==> action == Announce || action == Ban
  {
    match action
    case Remove => DeleteIdea(idea.id)
    case Edit => EnableEditState(idea, user.token)
    case Announce => HighlightIdea(idea.id, idea.Highlighted())
    case Ban => HighlightIdea(idea.id, idea.Highlighted())
  }

  /** A closed session shows no controls, whatever the idea, user, votes
      or time. */
  lemma ClosedRendersNothing(idea: Idea, user: User, votes: seq<Vote>, nowMs: int)
    ensures Controls(idea, user, Closed, votes, nowMs) == NotRendered
  {
  }

  /** Removing sends `delete_idea` with the bare idea id. */
  lemma RemoveSendsBareId(idea: Idea, user: User)
    ensures EventFor(Remove, idea, user) == DeleteIdea(idea.id)
    ensures EventName(EventFor(Remove, idea, user)) == "delete_idea"
  {
  }

  /** Editing sends `enable_edit_state` carrying the whole idea unchanged
      and the user's editor token, absent when the user has none. */
  lemma EditForwardsIdeaAndToken(idea: Idea, user: User)
    ensures EventFor(Edit, idea, user) == EnableEditState(idea, user.token)
    ensures EventName(EventFor(Edit, idea, user)) == "enable_edit_state"
    ensures user.token.None? ==> EventFor(Edit, idea, user).editorToken.None?
  {
  }

  /** Both highlight icons send `highlight_idea` with the idea's current
      flag, an absent flag being sent as `false`. */
  lemma HighlightSendsCurrentFlag(idea: Idea, user: User, action: Action)
    requires action == Announce || action == Ban
    ensures EventFor(action, idea, user) == HighlightIdea(idea.id, idea.Highlighted())
    ensures EventName(EventFor(action, idea, user)) == "highlight_idea"
    ensures idea.isHighlighted.None? ==> !EventFor(action, idea, user).isHighlighted
    ensures idea.isHighlighted == Some(true) ==> EventFor(action, idea, user).isHighlighted
  {
  }

  /** A facilitator is offered removal of every idea in an open session,
      their own or not, however old. */
  lemma FacilitatorMayRemoveAnyIdea(idea: Idea, user: User, stage: Stage, votes: seq<Vote>, nowMs: int)
    requires stage != Closed
    requires user.isFacilitator
    ensures Controls(idea, user, stage, votes, nowMs).removeShown
  {
  }

  /** Someone other than a facilitator is never offered removal of an
      idea written by another user. */
  lemma NonOwnerMayNotRemove(idea: Idea, user: User, stage: Stage, votes: seq<Vote>, nowMs: int)
    requires stage != Closed
    requires !user.isFacilitator && idea.userId != user.id
    ensures !Controls(idea, user, stage, votes, nowMs).removeShown
  {
  }

  /** The author of an idea inserted at most four seconds ago is offered
      its removal. */
  lemma OwnerMayRemoveFreshIdea(idea: Idea, user: User, stage: Stage, votes: seq<Vote>, nowMs: int, insertedMs: int)
    requires stage != Closed
    requires idea.userId == user.id
    requires idea.insertedAtMs == Some(insertedMs)
    requires nowMs - insertedMs <= 4000
    ensures Controls(idea, user, stage, votes, nowMs).removeShown
  {
  }

  /** The removal window only closes: if removal is not offered at some
      instant it is not offered at any later one. */
  lemma RemoveWindowOnlyCloses(idea: Idea, user: User, stage: Stage, votes: seq<Vote>, nowMs: int, laterMs: int)
    requires stage != Closed
    requires nowMs <= laterMs
    requires !Controls(idea, user, stage, votes, nowMs).removeShown
    ensures !Controls(idea, user, stage, votes, laterMs).removeShown
  {
  }

  /** Whether removal is offered depends neither on the votes nor on which
      open stage the session is in. */
  lemma RemoveIgnoresStageAndVotes(idea: Idea, user: User, s1: Stage, s2: Stage, v1: seq<Vote>, v2: seq<Vote>, nowMs: int)
    requires s1 != Closed && s2 != Closed
    ensures Controls(idea, user, s1, v1, nowMs).removeShown == Controls(idea, user, s2, v2, nowMs).removeShown
  {
  }

  /** The vote counter table: none while ideas are generated, none on an
      action item in any later stage, one on other ideas while voting that
      is disabled exactly when the user has used up their votes, and a
      disabled, display-only one on them once action items are discussed. */
  lemma VoteCounterTable(idea: Idea, user: User, votes: seq<Vote>, nowMs: int)
    ensures Controls(idea, user, IdeaGeneration, votes, nowMs).voteCounter.None?
    ensures idea.category == "action-item" ==> Controls(idea, user, Voting, votes, nowMs).voteCounter.None?
    ensures idea.category != "action-item" ==>
      Controls(idea, user, Voting, votes, nowMs).voteCounter == Some(VoteCounter(VoteCount(user.id, votes) >= 5))
    ensures idea.category == "action-item" ==> Controls(idea, user, ActionItems, votes, nowMs).voteCounter.None?
    ensures idea.category != "action-item" ==>
      Controls(idea, user, ActionItems, votes, nowMs).voteCounter == Some(VoteCounter(true))
  {
  }

  /** While voting on an idea that is not an action item, the counter is
      disabled after five votes of the user's own and enabled with none. */
  lemma VoteCounterDisabledAfterFiveVotes(idea: Idea, user: User, nowMs: int)
    requires !idea.IsActionItem()
    ensures Controls(idea, user, Voting, VotesBy(user.id, 5), nowMs).voteCounter == Some(VoteCounter(true))
    ensures Controls(idea, user, Voting, VotesBy(user.id, 4), nowMs).voteCounter == Some(VoteCounter(false))
    ensures Controls(idea, user, Voting, [], nowMs).voteCounter == Some(VoteCounter(false))
  {
  }

  /** Once disabled, a vote counter stays disabled as more votes arrive. */
  lemma VoteCounterStaysDisabled(idea: Idea, user: User, stage: Stage, votes: seq<Vote>, more: seq<Vote>, nowMs: int)
    requires Controls(idea, user, stage, votes, nowMs).Panel?
    requires Controls(idea, user, stage, votes, nowMs).voteCounter == Some(VoteCounter(true))
    ensures Controls(idea, user, stage, votes + more, nowMs).voteCounter == Some(VoteCounter(true))
  {
    ExhaustionIsPermanent(user.id, votes, more);
  }
}
