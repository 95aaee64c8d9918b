/**
 * The list selector's state updaters: how the known list names and the selected list
 * react to list-created and list-deleted events and to the user choosing a list. Each
 * updater returns the new state and the value `onSelect` is called with, if it is called.
 */
module ListSelector {
  import opened TodoTypes
  import opened Seqs

  datatype ListState = ListState(listNames: seq<string>, selectedList: string)

  /** The two list-lifecycle events the selector listens to. */
  datatype ListEvent = ListCreated(list: string) | ListDeleted(list: string)

  /** The state the component starts with. */
  const Initial := ListState([], "")

  /** Names are unique and the selection is either nothing (`''`) or one of the names. */
  predicate Coherent(s: ListState) {
    NoDuplicates(s.listNames) && (s.selectedList == "" || s.selectedList in s.listNames)
  }

  /** JavaScript's `name || ''` for a string: the empty string is falsy. */
  function OrEmpty(name: string): string {
    if name != "" then name else ""
  }

  /**
   * A list was created: a known name leaves everything as it was; a new name goes to the
   * end, and becomes the selection (announced to `onSelect`) when nothing was selected.
   */
  function HandleListCreated(prev: ListState, listName: string): (out: (ListState, Option<string>))
    ensures listName in prev.listNames ==> out == (prev, None)
    ensures listName !in prev.listNames ==> out.0.listNames == prev.listNames + [listName]
    ensures listName !in prev.listNames && prev.selectedList == "" ==>
      out.0.selectedList == listName && out.1 == Some(listName)
    ensures listName !in prev.listNames && prev.selectedList != "" ==>
      out.0.selectedList == prev.selectedList && out.1 == None
    ensures Coherent(prev) ==> Coherent(out.0)
  {
    if listName in prev.listNames then
      (prev, None)
    else
      var newListNames := prev.listNames + [listName];
      var aListWasAlreadySelected := prev.selectedList != "";
      var newSelectedList := if aListWasAlreadySelected then prev.selectedList else listName;
      AppendFreshNoDuplicates(prev.listNames, listName);
      (ListState(newListNames, newSelectedList), if aListWasAlreadySelected then None else Some(listName))
  }

  /**
   * A list was deleted: every occurrence of the name goes, the rest keep their order.
   * Deleting the selected list selects the first remaining name, or `''` when none is
   * left, and announces it; deleting another list leaves the selection alone.
   */
  function HandleListDeleted(prev: ListState, listName: string): (out: (ListState, Option<string>))
    ensures out.0.listNames == RemoveAll(prev.listNames, listName)
    ensures forall n :: n in out.0.listNames <==> n in prev.listNames && n != listName
    ensures prev.selectedList == listName ==>
      out.0.selectedList == (if out.0.listNames == [] then "" else out.0.listNames[0])
      && out.1 == Some(out.0.selectedList)
    ensures prev.selectedList != listName ==> out.0.selectedList == prev.selectedList && out.1 == None
    ensures Coherent(prev) ==> Coherent(out.0)
  {
    var newListNames := RemoveAll(prev.listNames, listName);
    var selectedListWasDeleted := prev.selectedList == listName;
    var newSelectedList :=
      if selectedListWasDeleted then (if |newListNames| > 0 then OrEmpty(newListNames[0]) else "")
      else prev.selectedList;
    RemoveAllNoDuplicates(prev.listNames, listName);
    (ListState(newListNames, newSelectedList), if selectedListWasDeleted then Some(newSelectedList) else None)
  }

  /** The user chose a list: it becomes the selection, the names stay, and `onSelect` hears of it. */
  function HandleChange(prev: ListState, chosenList: string): (out: (ListState, Option<string>))
    ensures out.0.listNames == prev.listNames
    ensures out.0.selectedList == chosenList && out.1 == Some(chosenList)
    ensures Coherent(prev) && chosenList in prev.listNames ==> Coherent(out.0)
  {
    (prev.(selectedList := chosenList), Some(chosenList))
  }

  /** The event dispatch of the component: each event goes to its updater. */
  function HandleListEvent(prev: ListState, e: ListEvent): (ListState, Option<string>) {
    match e
    case ListCreated(name) => HandleListCreated(prev, name)
    case ListDeleted(name) => HandleListDeleted(prev, name)
  }

  /** Applies a stream of events in order; returns the final state and every `onSelect` argument, in order. */
  function Replay(s: ListState, events: seq<ListEvent>): (ListState, seq<string>)
    decreases |events|
  {
    if events == [] then (s, [])
    else
      var (next, announced) := HandleListEvent(s, events[0]);
      var (last, rest) := Replay(next, events[1..]);
      (last, if announced.Some? then [announced.value] + rest else rest)
  }

  /** Any stream of list events keeps a coherent state coherent. */
  lemma {:induction false} ReplayKeepsCoherent(s: ListState, events: seq<ListEvent>)
    requires Coherent(s)
    ensures Coherent(Replay(s, events).0)
    decreases |events|
  {
    if events != [] {
      ReplayKeepsCoherent(HandleListEvent(s, events[0]).0, events[1..]);
    }
  }

  /** From the initial state the first created list is selected and announced once; later ones are not. */
  lemma FirstCreatedIsSelected(a: string, b: string)
    requires a != "" && a != b
    ensures Replay(Initial, [ListCreated(a), ListCreated(b)]) == (ListState([a, b], a), [a])
  {
    assert [] + [a] == [a] && [a] + [b] == [a, b];
    var s1 := HandleListCreated(Initial, a);
    assert s1 == (ListState([a], a), Some(a));
    var s2 := HandleListCreated(s1.0, b);
    assert s2 == (ListState([a, b], a), None);
    assert [ListCreated(a), ListCreated(b)][1..] == [ListCreated(b)];
    assert [ListCreated(b)][1..] == [];
    assert HandleListEvent(Initial, ListCreated(a)) == s1;
    assert HandleListEvent(s1.0, ListCreated(b)) == s2;
    assert Replay(s2.0, []) == (s2.0, []);
    assert Replay(s1.0, [ListCreated(b)]) == (ListState([a, b], a), []);
    assert [a] + [] == [a];
  }

  /** Deleting the selected first of two lists selects and announces the other; deleting the last one clears the selection. */
  lemma DeletingSelectedMovesSelection(a: string, b: string)
    requires a != "" && b != "" && a != b
    ensures HandleListDeleted(ListState([a, b], a), a) == (ListState([b], b), Some(b))
    ensures HandleListDeleted(ListState([b], b), b) == (ListState([], ""), Some(""))
  {
    assert RemoveAll([a, b], a) == [b] by {
      assert [a, b][1..] == [b];
      assert [b][1..] == [];
      assert [b] + [] == [b];
    }
    assert RemoveAll([b], b) == [] by {
      assert [b][1..] == [];
    }
  }
}
