/**
 The records a retrospective session hands to its view components: the
 session stage, ideas (sticky notes), participants and their votes. The
 components only read these values; they never change them.
 */
module Types {

  /** An optional field of a record, absent or present. */
  datatype Option<+T> = None | Some(value: T) {

    /** The value if present, otherwise `default`. */
    function GetOr(default: T): T {
      match this
      case Some(v) => v
      case None => default
    }
  }

  /** The session-wide phase of a retrospective, in the order a facilitator
      drives it through them. An unknown stage cannot be expressed. */
  datatype Stage = IdeaGeneration | Voting | ActionItems | Closed

  /** The category tag of ideas that are action items rather than feedback. */
  const ActionItemCategory: string := "action-item"

  /** A vote refers only to the user who cast it. */
  datatype Vote = Vote(userId: int)

  /** A sticky note. `insertedAtMs` is absent while the idea is not yet
      persisted; an absent `isHighlighted` means the same as `false`. */
  datatype Idea = Idea(
    id: int,
    category: string,
    body: string,
    userId: int,
    insertedAtMs: Option<int>,
    isHighlighted: Option<bool>)
  {
    /** The highlight flag with its default resolved. */
    predicate Highlighted() {
      isHighlighted.GetOr(false)
    }

    predicate IsActionItem() {
      category == ActionItemCategory
    }
  }

  /** A participant. `token` is the per-session editor token, which a user
      may not have. */
  datatype User = User(
    id: int,
    givenName: string,
    isFacilitator: bool,
    isTyping: bool,
    picture: string,
    token: Option<string>)
}
