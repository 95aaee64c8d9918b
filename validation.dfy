/** The update validator the service hands to the store: `validateUpdate(currentItem, proposedItem)`. */
module Validation {
  import opened TodoTypes

  /** Position of a state on the path TODO -> ONGOING -> DONE. */
  function Rank(s: TodoState): int {
    match s
    case TODO => 0
    case ONGOING => 1
    case DONE => 2
  }

  /** Reference policy, independent of the validator's own test: a move keeps the state or steps to a neighbour on the path. */
  predicate StepAllowed(from: TodoState, to: TodoState) {
    -1 <= Rank(to) - Rank(from) <= 1
  }

  function CreatorChangeMessage(from: string, to: string): string {
    "Illegal attempt to change property 'createdByUser' from '" + from + "' to '" + to + "'"
  }

  function StateChangeMessage(from: TodoState, to: TodoState): string {
    "Illegal attempt to change state from '" + StateName(from) + "' to '" + StateName(to) + "'"
  }

  /**
   * Returns an error message when the proposed data may not replace the current data,
   * and nothing when the update is acceptable. A change of creator is reported before
   * any state problem; a state move that skips ONGOING is refused; the title never matters.
   */
  function ValidateUpdate(currentItem: ItemData, proposedItem: ItemData): (r: Option<string>)
    ensures r.None? <==>
      currentItem.createdByUser == proposedItem.createdByUser && StepAllowed(currentItem.state, proposedItem.state)
    ensures currentItem.createdByUser != proposedItem.createdByUser ==>
      r == Some(CreatorChangeMessage(currentItem.createdByUser, proposedItem.createdByUser))
    ensures currentItem.createdByUser == proposedItem.createdByUser && r.Some? ==>
      r == Some(StateChangeMessage(currentItem.state, proposedItem.state))
    ensures r.Some? ==> |r.value| > 0
  {
    if currentItem.createdByUser != proposedItem.createdByUser then
      Some(CreatorChangeMessage(currentItem.createdByUser, proposedItem.createdByUser))
    else if (currentItem.state == TODO && proposedItem.state == DONE)
         || (currentItem.state == DONE && proposedItem.state == TODO) then
      Some(StateChangeMessage(currentItem.state, proposedItem.state))
    else
      None
  }

  /** The two refused state moves are exactly TODO -> DONE and DONE -> TODO. */
  lemma RefusedStateMoves(currentItem: ItemData, proposedItem: ItemData)
    requires currentItem.createdByUser == proposedItem.createdByUser
    ensures ValidateUpdate(currentItem, proposedItem).Some? <==>
      (currentItem.state, proposedItem.state) == (TODO, DONE) || (currentItem.state, proposedItem.state) == (DONE, TODO)
  {
  }

  /** With equal creators, a move is refused exactly when the reverse move is refused. */
  lemma ValidateUpdateSymmetric(currentItem: ItemData, proposedItem: ItemData)
    requires currentItem.createdByUser == proposedItem.createdByUser
    ensures ValidateUpdate(currentItem, proposedItem).Some? <==> ValidateUpdate(proposedItem, currentItem).Some?
  {
  }

  /** Titles play no part in the verdict or in its message. */
  lemma ValidateUpdateIgnoresTitle(currentItem: ItemData, proposedItem: ItemData, t1: string, t2: string)
    ensures ValidateUpdate(currentItem.(title := t1), proposedItem.(title := t2)) == ValidateUpdate(currentItem, proposedItem)
  {
  }
}
