/** The state filter's checkbox handler: toggles one state in the ordered list of selected states. */
module StateFilter {
  import opened TodoTypes
  import opened Seqs

  /**
   * The list handed to `onChange` (once) when the checkbox of `state` is clicked: a
   * selected state is removed everywhere it occurs, an unselected one is appended.
   */
  function HandleCheckboxChange(selected: seq<TodoState>, state: TodoState): (r: seq<TodoState>)
    ensures state in r <==> state !in selected
    ensures forall t :: t != state ==> (t in r <==> t in selected)
    ensures state in selected ==> r == RemoveAll(selected, state)
    ensures state !in selected ==> r == selected + [state]
  {
    if state in selected then RemoveAll(selected, state) else selected + [state]
  }

  /** Unchecking keeps the other selected states in their order: toggling commutes with concatenation. */
  lemma {:induction false} UncheckKeepsOrder(a: seq<TodoState>, b: seq<TodoState>, state: TodoState)
    requires state in a + b
    ensures HandleCheckboxChange(a + b, state) == RemoveAll(a, state) + RemoveAll(b, state)
  {
    RemoveAllAppend(a, b, state);
  }

  /** Checking an unselected state and then unchecking it gives back the original list. */
  lemma {:induction false} ToggleTwiceRestores(selected: seq<TodoState>, state: TodoState)
    requires state !in selected
    ensures HandleCheckboxChange(HandleCheckboxChange(selected, state), state) == selected
  {
    RemoveAllAppend(selected, [state], state);
    RemoveAllAbsent(selected, state);
    assert [state][1..] == [];
    assert RemoveAll([state], state) == [];
    assert selected + [] == selected;
  }

  /** A selection without repeats stays without repeats. */
  lemma {:induction false} ToggleKeepsNoDuplicates(selected: seq<TodoState>, state: TodoState)
    requires NoDuplicates(selected)
    ensures NoDuplicates(HandleCheckboxChange(selected, state))
  {
    if state in selected {
      RemoveAllNoDuplicates(selected, state);
    } else {
      AppendFreshNoDuplicates(selected, state);
    }
  }
}
