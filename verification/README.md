# Retrospective idea controls and roster entry, modelled in Dafny

This project models the decision logic of two view components of a
real-time retrospective tool. Participants post ideas (sticky notes) and
vote on them. A facilitator moves the session through four stages:
idea generation, voting, action items, closed.

- **Idea controls** is the panel on each idea. It decides whether the
  panel renders at all. It decides whether the remove icon is offered:
  always to a facilitator, and to the idea's author only shortly after
  insertion. It decides whether a vote counter is included and whether
  it is disabled. It also decides which event each icon sends to the
  session channel: `delete_idea`, `enable_edit_state` or
  `highlight_idea`.
- **User list item** is one participant's roster entry. It holds the
  name, annotated " (facilitator)" for facilitators, and the avatar URL
  with its `sz` value rewritten to `200`. It holds the three-glyph typing
  indicator outside voting. While voting it holds the "all votes in"
  status, which is opaque once the participant has cast five votes.
- **Vote eligibility** counts a user's votes and compares the count with
  the cap of five. Both components use it.

The component implementations themselves
(`web/static/js/components/idea_controls`, `user_list_item`,
`vote_counter`, `configs/stages`) are not part of this model. The model
states what their tests assert. Where the tests are silent, the model
picks a rule, and "## Left out" names each such choice. Everything is a
pure function of immutable values. The current time is an integer parameter in
milliseconds. An emitted event is a returned value, not a push on a
channel.

Files, one module each:

- `types.dfy`: `Types`, holding `Option`, `Stage`, `Vote`, `Idea` and `User`.
- `votes.dfy`: `Votes`, the tally and the cap.
- `idea_controls.dfy`: `IdeaControls`, the panel policy and its events.
- `avatar.dfy`: `Avatar`, the `sz=200` rewrite.
- `user_list_item.dfy`: `UserListItem`, the roster entry.
- `agreement.dfy`: `Agreement`, showing that the two components agree on
  vote exhaustion.

Defaults of absent fields are explicit. An idea's `isHighlighted` is
`Option<bool>`, and an absent value reads as `false`. An idea's
`insertedAtMs` is `Option<int>`, and an absent value reads as "just
created". A user's editor `token` is `Option<string>`, and an absent
token is passed on as absent.

## Model

| member | source | states |
|---|---|---|
| Votes.VoteCount | test/components/idea_controls_test.js:259-296 | a user's tally never exceeds the number of votes; it is zero exactly when no vote is theirs and equals the length exactly when every vote is theirs |
| Votes.CountVotes | test/components/idea_controls_test.js:263-276 | the loop over the vote list yields exactly the user's tally |
| Votes.VoteCountIsMultiplicity | test/components/user_list_item_test.js:100-134 | the tally equals how many times `Vote(uid)` occurs in the vote list |
| Votes.VoteCountIgnoresOrder | test/components/user_list_item_test.js:100-134 | two vote lists with the same votes in any order give every user the same tally |
| Votes.VoteCountOfVotesBy | test/components/user_list_item_test.js:101-103 | n votes carrying a user's id count n for that user and 0 for any other user |
| Votes.ExhaustedFromFifthVote | test/components/user_list_item_test.js:100-134 | a user is exhausted by their own votes exactly when there are five or more |
| Votes.ExhaustionIsPermanent | test/components/idea_controls_test.js:259-278 | extra votes never lower a tally, so an exhausted user stays exhausted |
| Votes.IsExhausted | test/components/idea_controls_test.js:259-296 | a user is exhausted exactly when `Vote(uid)` occurs at least 5 times in the vote list, which needs at least 5 votes in all |
| Votes.OthersVotesDoNotCount | test/components/user_list_item_test.js:101-103 | appending other users' votes changes neither the tally nor exhaustion |
| IdeaControls.Controls | test/components/idea_controls_test.js:15-27 | the panel renders nothing exactly in the closed stage, and a rendered panel has a vote counter only outside idea generation and only on an idea that is not an action item |
| IdeaControls.CanRemove | test/components/idea_controls_test.js:111-178 | a facilitator may always remove; anyone else only their own idea; an author may remove their idea inserted at most 4000 ms ago |
| IdeaControls.VoteCounterFor | test/components/idea_controls_test.js:183-296 | a counter exists only while voting or in action items and never on an action item; an enabled one exists only while voting and only for a user under the cap |
| IdeaControls.EventName | test/components/idea_controls_test.js:30-108 | the channel name is `delete_idea`, `enable_edit_state` or `highlight_idea` exactly for a delete, edit-state or highlight event |
| IdeaControls.EventFor | test/components/idea_controls_test.js:30-108 | every event names the idea it came from; remove gives `DeleteIdea`, edit gives `EnableEditState`, and announce or ban gives `HighlightIdea` |
| IdeaControls.ClosedRendersNothing | test/components/idea_controls_test.js:15-27 | in the closed stage nothing renders, whatever the idea, user, votes or time |
| IdeaControls.RemoveSendsBareId | test/components/idea_controls_test.js:30-47 | remove sends `delete_idea` with the bare idea id |
| IdeaControls.EditForwardsIdeaAndToken | test/components/idea_controls_test.js:50-67 | edit sends `enable_edit_state` with the whole idea unchanged and the user's token, and an absent token stays absent |
| IdeaControls.HighlightSendsCurrentFlag | test/components/idea_controls_test.js:70-108 | announce and ban both send `highlight_idea` with the idea's id and its current flag, not its negation; an unflagged idea sends false and a flagged one sends true |
| IdeaControls.FacilitatorMayRemoveAnyIdea | test/components/idea_controls_test.js:111-127 | a facilitator is offered removal in every open stage, on any idea, at any time |
| IdeaControls.NonOwnerMayNotRemove | test/components/idea_controls_test.js:133-149 | a non-facilitator is never offered removal of someone else's idea |
| IdeaControls.OwnerMayRemoveFreshIdea | test/components/idea_controls_test.js:151-178 | an author is offered removal of their idea when it was inserted at most 4000 ms ago |
| IdeaControls.RemoveWindowOnlyCloses | test/components/idea_controls_test.js:160-178 | once removal is not offered, it is not offered at any later time |
| IdeaControls.RemoveIgnoresStageAndVotes | test/components/idea_controls_test.js:111-178 | whether removal is offered does not depend on the votes or on which open stage the session is in |
| IdeaControls.VoteCounterTable | test/components/idea_controls_test.js:183-257 | idea generation has no counter; voting and action items have none on an action item; voting has a counter on other ideas that is disabled iff the user has at least 5 votes; action items have a disabled counter on other ideas |
| IdeaControls.VoteCounterDisabledAfterFiveVotes | test/components/idea_controls_test.js:259-296 | while voting, five of the user's own votes disable the counter, and four or none leave it enabled |
| IdeaControls.VoteCounterStaysDisabled | test/components/idea_controls_test.js:259-278 | a disabled counter stays disabled when more votes arrive |
| Avatar.FindSizeParam | test/components/user_list_item_test.js:82-87 | returns the first index holding `sz=` followed by a digit, or none when no such index exists |
| Avatar.DigitRunEnd | test/components/user_list_item_test.js:82-87 | returns the end of the maximal run of digits, so the whole `sz` value is replaced |
| Avatar.SizeValue | test/components/user_list_item_test.js:82-87 | the extracted `sz` value, when present, is a non-empty run of digits |
| Avatar.SizedAvatarUrl | test/components/user_list_item_test.js:82-87 | everything up to and including `sz=` is kept, the value becomes `200`, and the rest after the old value is kept; a URL without a size parameter is returned unchanged |
| Avatar.RewriteSetsSize | test/components/user_list_item_test.js:82-87 | after the rewrite, the size value read back is exactly `200` |
| Avatar.RewriteIsIdempotent | test/components/user_list_item_test.js:82-87 | applying the rewrite to its own result returns that result unchanged, for every URL |
| Avatar.SizeAlreadyRequestedIsKept | test/components/user_list_item_test.js:14 | a URL already asking for `sz=200` is returned unchanged |
| Avatar.FixtureUrlRewrite | test/components/user_list_item_test.js:82-87 | `http://some/image.jpg?sz=50` becomes `http://some/image.jpg?sz=200` |
| UserListItem.Label | test/components/user_list_item_test.js:27-47 | the text always starts with the given name, and a non-facilitator's text is the name alone |
| UserListItem.TypingGlyphs | test/components/user_list_item_test.js:49-80 | glyphs appear only for a typing user outside voting |
| UserListItem.VotingStatusFor | test/components/user_list_item_test.js:89-98 | the "all votes in" status is present exactly in the voting stage |
| UserListItem.Present | test/components/user_list_item_test.js:82-98 | the status is present exactly while voting; no typing glyphs appear while voting; when the picture has a size value it reads back as `200`, otherwise the picture is unchanged |
| UserListItem.FacilitatorIsLabelled | test/components/user_list_item_test.js:38-47 | a facilitator's text contains "name (facilitator)", ignoring case |
| UserListItem.OnlyFacilitatorsAreLabelled | test/components/user_list_item_test.js:27-47 | for a name not itself containing "facilitator", the text contains "facilitator" (ignoring case) iff the user is a facilitator |
| UserListItem.DylanFixtureLabels | test/components/user_list_item_test.js:27-47 | the fixture "dylan" reads "dylan (facilitator)" as a facilitator and mentions no "facilitator" otherwise |
| UserListItem.TypingIndicatorGlyphs | test/components/user_list_item_test.js:49-80 | outside voting, a typing user gets 3 glyphs; a user who is not typing gets 0 in every stage; no glyphs appear while voting |
| UserListItem.VotingStatusOpacity | test/components/user_list_item_test.js:95-134 | while voting, the status is always present and is opaque iff the user has at least 5 votes |
| UserListItem.FifthVoteMakesStatusOpaque | test/components/user_list_item_test.js:100-134 | five of the user's own votes make the status opaque, and four do not |
| Agreement.RosterAgreesWithVoteCounter | test/components/idea_controls_test.js:259-296 | while voting, on any idea that is not an action item, the user's vote counter is disabled exactly when their roster status is opaque |

## Left out

- Rendering: markup, CSS classes, icons and image elements are not modelled. Only the booleans, counts and strings they expose are.
- The channel transport is not modelled. Activating an icon returns an `Event` value instead of pushing it.
- Clocks and date parsing are not modelled. Times are integer milliseconds, and the fixture's `toUTCString` round trip is not represented.
- The `VoteCounter` component's internals and the `stages` configuration are not part of this model. `Stage` is a plain four-value enumeration, so a malformed stage cannot occur and has no error path.
- When the edit, announce and ban icons are hidden is not modelled. The tests only show a facilitator in idea generation being offered them: edit on an unhighlighted idea written by another user, announce on an unhighlighted idea, ban on a highlighted one. Only the events they send are modelled.
- IdeaControls.OwnerMayRemoveFreshIdea: proves removal only for ideas at most 4000 ms old, because no test pins the boundary. `InsertedRecently` takes the author's window to be `elapsed < 5000` ms, the "less than 5 seconds ago" the test's description names.
- IdeaControls.InsertedRecently: an idea not yet persisted has no insertion time and counts as just created, so its author may remove it. No test covers that case, and nothing is proved about it.
- IdeaControls.RemoveIgnoresStageAndVotes: the tests show the remove icon only in idea generation. The model applies the same remove rule in every open stage, so this lemma, `FacilitatorMayRemoveAnyIdea` and `NonOwnerMayNotRemove` state the rule for voting and action items as the model's choice.
- UserListItem.VotingStatusFor: the tests show only that the status is present while voting. Its absence in every other stage is the model's choice, matching its role as a voting indicator.
- UserListItem.TypingGlyphs: the typing indicator belongs to the stages before and after voting, so no glyphs are shown while voting. The voting test renders the default user, who is not typing, so no test shows a typing user while voting; showing no glyphs then is the model's choice.
- Avatar.SizedAvatarUrl: rewrites the first `sz=` followed by a digit, wherever it occurs. The tests show only a URL whose single query parameter is `sz`; the rule for other URLs is the model's choice.
- User ids are always present in the model. The roster fixture's default user has none and no votes, so its tally is 0 either way.
- The `online_at` field of a user plays no part in the tested behaviour and is not modelled.
