/**
 The roster entry of one participant: the label with its facilitator
 annotation, the avatar at size 200, the typing indicator outside voting,
 and, while voting, the status element that turns opaque once the
 participant has cast all their votes.
 */
module UserListItem {
  import opened Types
  import opened Votes
  import opened Avatar

  /** Appended to a facilitator's name. */
  const FacilitatorSuffix: string := " (facilitator)"

  /** The number of glyphs in the animated typing indicator. */
  const EllipsisGlyphs: nat := 3

  /** The status element shown while voting. */
  datatype VotingStatus = AllVotesIn(isOpaque: bool)

  /** What the roster entry exposes. */
  datatype Presentation = Presentation(
    text: string,
    picture: string,
    typingGlyphs: nat,
    votingStatus: Option<VotingStatus>)

  /** ASCII lower-casing, for case-insensitive matching. */
  function Lower(c: char): char {
    if 'A' <= c <= 'Z' then (c as int + 32) as char else c
  }

  /** `pat` occurs in `s` at index `i`, ignoring case. */
  predicate MatchesAt(s: string, pat: string, i: int) {
    0 <= i && i + |pat| <= |s|
    && forall k :: 0 <= k < |pat| ==> Lower(s[i + k]) == Lower(pat[k])
  }

  /** `pat` occurs somewhere in `s`, ignoring case. */
  predicate ContainsIgnoringCase(s: string, pat: string) {
    exists i :: 0 <= i <= |s| - |pat| && MatchesAt(s, pat, i)
  }

  /** The text of the entry: the given name, annotated for facilitators. */
  function Label(user: User): (r: string)
    ensures |r| >= |user.givenName| && r[..|user.givenName|] == user.givenName
    ensures !user.isFacilitator ==> r == user.givenName
  {
    if user.isFacilitator then user.givenName + FacilitatorSuffix else user.givenName
  }

  /** Glyphs of the typing indicator: three while a user types outside
      voting, none otherwise. */
  function TypingGlyphs(user: User, stage: Stage): (n: nat)
    ensures n > 0 ==> user.isTyping && stage != Voting
  {
    if stage != Voting && user.isTyping then EllipsisGlyphs else 0
  }

  /** The voting status element: present only while voting, opaque once
      the user has no votes left. */
  function VotingStatusFor(user: User, stage: Stage, votes: seq<Vote>): (s: Option<VotingStatus>)
    ensures s.Some? <==> stage == Voting
  {
    if stage == Voting then Some(AllVotesIn(IsExhausted(user.id, votes))) else None
  }

  /** The whole roster entry of `user`. */
  function Present(user: User, stage: Stage, votes: seq<Vote>): (r: Presentation)
    ensures r.votingStatus.Some? <==> stage == Voting
    ensures stage == Voting ==> r.typingGlyphs == 0
    ensures SizeValue(user.picture).Some? ==> SizeValue(r.picture) == Some(AvatarSize)
    ensures SizeValue(user.picture).None? ==> r.picture == user.picture
  {
    RewriteSetsSize(user.picture);
    Presentation(
      Label(user),
      SizedAvatarUrl(user.picture),
      TypingGlyphs(user, stage),
      VotingStatusFor(user, stage, votes))
  }

  /** A facilitator's entry reads "<name> (facilitator)", in any case. */
  lemma FacilitatorIsLabelled(user: User)
    requires user.isFacilitator
    ensures ContainsIgnoringCase(Label(user), user.givenName + " (facilitator)")
  {
    var pat := user.givenName + " (facilitator)";
    assert Label(user) == pat;
    assert MatchesAt(Label(user), pat, 0);
  }

  /** For a name that does not itself contain "facilitator", the entry
      contains "facilitator" exactly when the user is a facilitator. */
  lemma OnlyFacilitatorsAreLabelled(user: User)
    requires !ContainsIgnoringCase(user.givenName, "facilitator")
    ensures ContainsIgnoringCase(Label(user), "facilitator") <==> user.isFacilitator
  {
    if user.isFacilitator {
      var i := |user.givenName| + 2;
      assert Label(user)[i..] == "facilitator)";
      assert MatchesAt(Label(user), "facilitator", i);
    }
  }

  /** The roster fixture named "dylan": annotated as a facilitator, and
      without any mention of "facilitator" otherwise. */
  lemma DylanFixtureLabels(user: User)
    requires user.givenName == "dylan"
    ensures user.isFacilitator ==> ContainsIgnoringCase(Label(user), "dylan (facilitator)")
    ensures !user.isFacilitator ==> !ContainsIgnoringCase(Label(user), "facilitator")
  {
    var pat := "dylan (facilitator)";
    if user.isFacilitator {
      assert Label(user) == pat;
      assert MatchesAt(Label(user), pat, 0);
    } else {
      assert |Label(user)| - |"facilitator"| < 0;
    }
  }

  /** Outside voting the indicator has three glyphs for a typing user and
      none for one who is not typing; while voting it has none. */
  lemma TypingIndicatorGlyphs(user: User, stage: Stage)
    ensures stage != Voting && user.isTyping ==> TypingGlyphs(user, stage) == 3
    ensures !user.isTyping ==> TypingGlyphs(user, stage) == 0
    ensures stage == Voting ==> TypingGlyphs(user, stage) == 0
  {
  }

  /** While voting the status element is always there, and it is opaque
      exactly when the user has cast five or more votes. */
  lemma VotingStatusOpacity(user: User, votes: seq<Vote>)
    ensures VotingStatusFor(user, Voting, votes) == Some(AllVotesIn(VoteCount(user.id, votes) >= 5))
  {
  }

  /** Five votes of the user's own make the status opaque; four do not. */
  lemma FifthVoteMakesStatusOpaque(user: User)
    ensures VotingStatusFor(user, Voting, VotesBy(user.id, 5)) == Some(AllVotesIn(true))
    ensures VotingStatusFor(user, Voting, VotesBy(user.id, 4)) == Some(AllVotesIn(false))
  {
  }
}
