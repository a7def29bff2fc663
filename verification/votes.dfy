/**
 Vote eligibility: how many votes a user has cast, and whether that
 reaches the per-user cap. Both view components consult it.
 */
module Votes {
  import opened Types

  /** The fixed number of votes a user may cast in a session. */
  const VoteLimit: nat := 5

  /** The number of votes in `votes` cast by the user with id `uid`. */
  function VoteCount(uid: int, votes: seq<Vote>): (n: nat)
    ensures n <= |votes|
    ensures n == 0 <==> forall i :: 0 <= i < |votes| ==> votes[i].userId != uid
    ensures n == |votes| <==> forall i :: 0 <= i < |votes| ==> votes[i].userId == uid
  {
    if |votes| == 0 then 0
    else (if votes[0].userId == uid then 1 else 0) + VoteCount(uid, votes[1..])
  }

  /** A user whose votes have reached the cap can vote no more: the list
      holds `Vote(uid)` at least `VoteLimit` times. */
  function IsExhausted(uid: int, votes: seq<Vote>): (b: bool)
    ensures b <==> multiset(votes)[Vote(uid)] >= VoteLimit
    ensures b ==> |votes| >= VoteLimit
  {
    VoteCountIsMultiplicity(uid, votes);
    VoteCount(uid, votes) >= VoteLimit
  }

  /** `n` votes, all cast by `uid`. */
  function VotesBy(uid: int, n: nat): (vs: seq<Vote>)
    ensures |vs| == n
    ensures forall i :: 0 <= i < n ==> vs[i] == Vote(uid)
  {
    seq(n, _ => Vote(uid))
  }

  /** The tally computed by a loop over the votes. */
  method CountVotes(uid: int, votes: seq<Vote>) returns (count: nat)
    ensures count == VoteCount(uid, votes)
  {
    count := 0;
    var i := 0;
    while i < |votes|
      invariant 0 <= i <= |votes|
      invariant count == VoteCount(uid, votes[..i])
    {
      VoteCountAppend(uid, votes[..i], [votes[i]]);
      assert votes[..i + 1] == votes[..i] + [votes[i]];
      if votes[i].userId == uid {
        count := count + 1;
      }
      i := i + 1;
    }
    assert votes[..i] == votes;
  }

  /** The tally of two vote lists together is the sum of their tallies. */
  lemma {:induction false} VoteCountAppend(uid: int, a: seq<Vote>, b: seq<Vote>)
    ensures VoteCount(uid, a + b) == VoteCount(uid, a) + VoteCount(uid, b)
  {
    if |a| == 0 {
      assert a + b == b;
    } else {
      assert (a + b)[1..] == a[1..] + b;
      VoteCountAppend(uid, a[1..], b);
    }
  }

  /** The tally is the multiplicity of `Vote(uid)` in the vote list: it
      depends on which votes there are, not on their order. */
  lemma {:induction false} VoteCountIsMultiplicity(uid: int, votes: seq<Vote>)
    ensures VoteCount(uid, votes) == multiset(votes)[Vote(uid)]
  {
    if |votes| > 0 {
      assert votes == [votes[0]] + votes[1..];
      VoteCountIsMultiplicity(uid, votes[1..]);
    }
  }

  /** Reordering the votes does not change anyone's tally. */
  lemma VoteCountIgnoresOrder(uid: int, a: seq<Vote>, b: seq<Vote>)
    requires multiset(a) == multiset(b)
    ensures VoteCount(uid, a) == VoteCount(uid, b)
  {
    VoteCountIsMultiplicity(uid, a);
    VoteCountIsMultiplicity(uid, b);
  }

  /** `n` votes by `uid` tally to exactly `n` for `uid` and to nothing for
      anyone else. */
  lemma VoteCountOfVotesBy(uid: int, other: int, n: nat)
    requires other != uid
    ensures VoteCount(uid, VotesBy(uid, n)) == n
    ensures VoteCount(other, VotesBy(uid, n)) == 0
  {
  }

  /** A user is exhausted by their own votes exactly from the fifth one on. */
  lemma ExhaustedFromFifthVote(uid: int, n: nat)
    ensures IsExhausted(uid, VotesBy(uid, n)) <==> n >= 5
  {
  }

  /** Votes only accumulate: more votes never lower a tally, so a user
      who is exhausted stays exhausted. */
  lemma ExhaustionIsPermanent(uid: int, votes: seq<Vote>, more: seq<Vote>)
    ensures VoteCount(uid, votes) <= VoteCount(uid, votes + more)
    ensures IsExhausted(uid, votes) ==> IsExhausted(uid, votes + more)
  {
    VoteCountAppend(uid, votes, more);
  }

  /** Votes cast by other users leave a user's tally unchanged. */
  lemma OthersVotesDoNotCount(uid: int, votes: seq<Vote>, others: seq<Vote>)
    requires forall i :: 0 <= i < |others| ==> others[i].userId != uid
    ensures VoteCount(uid, votes + others) == VoteCount(uid, votes)
    ensures IsExhausted(uid, votes + others) <==> IsExhausted(uid, votes)
  {
    VoteCountAppend(uid, votes, others);
  }
}
