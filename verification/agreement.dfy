/**
 Both view components read the same vote tally, so while voting they
 agree: a participant's roster entry turns opaque exactly when the vote
 counters on that participant's panels become disabled.
 */
module Agreement {
  import opened Types
  import opened Votes
  import opened IdeaControls
  import opened UserListItem

  /** On any idea that is not an action item, the user's vote counter is
      disabled exactly when their roster entry is opaque. */
  lemma RosterAgreesWithVoteCounter(idea: Idea, user: User, votes: seq<Vote>, nowMs: int)
    requires !idea.IsActionItem()
    ensures Controls(idea, user, Voting, votes, nowMs).voteCounter.Some?
    ensures Controls(idea, user, Voting, votes, nowMs).voteCounter.value.buttonDisabled
      <==> Present(user, Voting, votes).votingStatus.value.isOpaque
  {
  }
}
