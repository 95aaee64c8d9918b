/**
 * The in-memory TODO store: a table from list name to the ordered items of that list,
 * revision-checked (compare-and-swap) updates and deletes, and per-list listeners that
 * are called synchronously, in registration order, after every successful mutation.
 */
module TodoStore {
  import opened TodoTypes
  import opened Seqs
  import Validation

  /** A registered listener, compared by identity as the source compares callbacks with `!==`. */
  type ListenerId = nat

  /** Which of the two lookups failed: the field `missing` of a not-found result. */
  datatype Missing = MissingList | MissingTodo

  datatype CreateResult =
    | Created(todo: StoredItem)
    | CreateNotFound(missing: Missing)

  datatype UpdateResult =
    | Updated(todo: StoredItem)
    | UpdateNotFound(missing: Missing)
    | UpdateConflict(currentItem: StoredItem)
    | ValidationFailure(validationError: string)

  datatype DeleteResult =
    | Deleted
    | DeleteNotFound(missing: Missing)
    | DeleteConflict(currentItem: StoredItem)

  /** What `addListener` hands back: enough to run its `remove` later. */
  datatype ListenerHandle = ListenerHandle(listName: string, listener: ListenerId)

  /** `addListener` either registers the listener or throws. */
  datatype AddListenerResult =
    | Added(handle: ListenerHandle)
    | AddListenerThrew(message: string)

  /** One call of a listener with an event, on behalf of a list. */
  datatype Delivery = Delivery(listName: string, listener: ListenerId, event: StoreEvent)

  /** A caller-supplied check `(currentData, proposedData) => error | undefined`. */
  type Validator = (ItemData, ItemData) -> Option<string>

  /** `findIndex(todo => todo.meta.id === id)`: the first position holding that id, if any. */
  function FindIndex(items: seq<StoredItem>, id: string): (r: Option<nat>)
    ensures r.Some? ==> r.value < |items| && items[r.value].meta.id == id
    ensures r.Some? ==> forall j :: 0 <= j < r.value ==> items[j].meta.id != id
    ensures r.None? ==> forall j :: 0 <= j < |items| ==> items[j].meta.id != id
  {
    if items == [] then None
    else if items[0].meta.id == id then Some(0)
    else
      match FindIndex(items[1..], id)
      case None => None
      case Some(k) => Some(k + 1)
  }

  /** An item appended under an id no earlier item carries is what a later lookup of that id finds. */
  lemma {:induction false} FindIndexAppendFresh(items: seq<StoredItem>, x: StoredItem)
    requires forall j :: 0 <= j < |items| ==> items[j].meta.id != x.meta.id
    ensures FindIndex(items + [x], x.meta.id) == Some(|items|)
  {
    if items != [] {
      assert (items + [x])[1..] == items[1..] + [x];
      FindIndexAppendFresh(items[1..], x);
    }
  }

  /** Replacing the found item by one with the same id leaves it the first match. */
  lemma FindIndexAfterReplace(items: seq<StoredItem>, id: string, x: StoredItem)
    requires FindIndex(items, id).Some? && x.meta.id == id
    ensures FindIndex(items[FindIndex(items, id).value := x], id) == FindIndex(items, id)
  {
    var i := FindIndex(items, id).value;
    assert items[i := x][i].meta.id == id;
  }

  /** The calls `bucket.forEach(listener => listener(event))` makes, in order. */
  function Deliveries(bucket: seq<ListenerId>, listName: string, event: StoreEvent): (r: seq<Delivery>)
    ensures |r| == |bucket|
    ensures forall i :: 0 <= i < |r| ==> r[i] == Delivery(listName, bucket[i], event)
  {
    if bucket == [] then []
    else [Delivery(listName, bucket[0], event)] + Deliveries(bucket[1..], listName, event)
  }

  /** The calls one notification of `listName` makes: none when no bucket is registered for it. */
  function Fanout(listeners: map<string, seq<ListenerId>>, listName: string, event: StoreEvent): seq<Delivery> {
    if listName in listeners then Deliveries(listeners[listName], listName, event) else []
  }

  /**
   * Whether a validator stops an update. The source tests the returned value for
   * truthiness, so an empty message does not veto.
   */
  predicate Vetoes(validation: Option<Validator>, current: ItemData, proposed: ItemData) {
    validation.Some? && validation.value(current, proposed).Some? && validation.value(current, proposed).value != ""
  }

  /** Handed to the store, the service's validator vetoes exactly the updates it reports. */
  lemma ValidateUpdateVetoes(current: ItemData, proposed: ItemData)
    ensures Vetoes(Some(Validation.ValidateUpdate), current, proposed) <==>
      !(current.createdByUser == proposed.createdByUser && Validation.StepAllowed(current.state, proposed.state))
  {
  }

  class EphemeralTodoStore {
    /** List name to that list's items, in insertion order. */
    var todoLists: map<string, seq<StoredItem>>
    /** List name to the listeners registered for it, in registration order. */
    var listeners: map<string, seq<ListenerId>>
    /** Every listener call made so far, in call order. */
    var delivered: seq<Delivery>

    /** A registered bucket is never empty: `remove` deletes a bucket once its last listener goes. */
    ghost predicate Valid()
      reads this
    {
      forall n :: n in listeners ==> listeners[n] != []
    }

    constructor ()
      ensures Valid()
      ensures todoLists == map[] && listeners == map[] && delivered == []
    {
      todoLists := map[];
      listeners := map[];
      delivered := [];
    }

    /** Calls every listener of `listName`, in registration order; does nothing when it has none. */
    method UpdateListeners(listName: string, event: StoreEvent)
      modifies this`delivered
      ensures delivered == old(delivered) + Fanout(listeners, listName, event)
    {
      if listName !in listeners {
        return;
      }
      var bucket := listeners[listName];
      var i := 0;
      while i < |bucket|
        invariant 0 <= i <= |bucket|
        invariant delivered == old(delivered) + Deliveries(bucket[..i], listName, event)
      {
        assert Deliveries(bucket[..i + 1], listName, event)
          == Deliveries(bucket[..i], listName, event) + [Delivery(listName, bucket[i], event)];
        delivered := delivered + [Delivery(listName, bucket[i], event)];
        i := i + 1;
      }
      assert bucket[..i] == bucket;
    }

    /** Sets `listName` to an empty list, discarding any items it held. */
    method CreateList(listName: string)
      modifies this`todoLists
      ensures todoLists == old(todoLists)[listName := []]
    {
      todoLists := todoLists[listName := []];
    }

    /** The names of the current lists, each exactly once. */
    method GetLists() returns (names: seq<string>)
      ensures forall n :: n in names <==> n in todoLists
      ensures NoDuplicates(names)
    {
      var keys := todoLists.Keys;
      names := [];
      while keys != {}
        invariant keys <= todoLists.Keys
        invariant forall n :: n in names <==> n in todoLists && n !in keys
        invariant NoDuplicates(names)
        decreases |keys|
      {
        var k :| k in keys;
        AppendFreshNoDuplicates(names, k);
        names := names + [k];
        keys := keys - {k};
      }
    }

    /**
     * Appends a new item with revision 1 to an existing list and notifies its listeners;
     * on a missing list reports it and changes nothing. The fresh id and the current time
     * are parameters.
     */
    method Create(listName: string, todo: ItemData, id: string, now: string) returns (r: CreateResult)
      modifies this`todoLists, this`delivered
      ensures listName !in old(todoLists) ==>
        r == CreateNotFound(MissingList) && todoLists == old(todoLists) && delivered == old(delivered)
      ensures listName in old(todoLists) ==>
        r == Created(StoredItem(todo, Metadata(id, 1, now)))
        && todoLists == old(todoLists)[listName := old(todoLists)[listName] + [r.todo]]
        && delivered == old(delivered) + Fanout(listeners, listName, UpdateEvent(r.todo))
    {
      if listName !in todoLists {
        return CreateNotFound(MissingList);
      }
      var storedTodo := StoredItem(todo, Metadata(id, 1, now));
      todoLists := todoLists[listName := todoLists[listName] + [storedTodo]];
      UpdateListeners(listName, UpdateEvent(storedTodo));
      r := Created(storedTodo);
    }

    /** The first item of `listName` carrying `todoId`; nothing when the list or the id is absent. */
    function GetById(listName: string, todoId: string): (r: Option<StoredItem>)
      reads this
      ensures r.None? <==>
        listName !in todoLists || forall j :: 0 <= j < |todoLists[listName]| ==> todoLists[listName][j].meta.id != todoId
      ensures r.Some? ==>
        && listName in todoLists
        && r.value.meta.id == todoId
        && (exists j :: 0 <= j < |todoLists[listName]| && todoLists[listName][j] == r.value
             && forall k :: 0 <= k < j ==> todoLists[listName][k].meta.id != todoId)
    {
      if listName !in todoLists then None
      else
        match FindIndex(todoLists[listName], todoId)
        case None => None
        case Some(i) => Some(todoLists[listName][i])
    }

    /** The items of `listName` in order; nothing (not an empty list) when the list is absent. */
    function List(listName: string): (r: Option<seq<StoredItem>>)
      reads this
      ensures r.Some? <==> listName in todoLists
      ensures r.Some? ==> r.value == todoLists[listName]
    {
      if listName in todoLists then Some(todoLists[listName]) else None
    }

    /**
     * Replaces an item whose stored revision equals `revision` and that the validator does
     * not veto: same id, `revision + 1`, the new data and time. The checks run in a fixed
     * order (list, item, revision, validator) and a failed check changes nothing.
     */
    method Update(listName: string, todoId: string, revision: int, todo: ItemData,
                  validation: Option<Validator>, now: string) returns (r: UpdateResult)
      modifies this`todoLists, this`delivered
      ensures listName !in old(todoLists) ==> r == UpdateNotFound(MissingList)
      ensures listName in old(todoLists) && FindIndex(old(todoLists)[listName], todoId).None? ==>
        r == UpdateNotFound(MissingTodo)
      ensures listName in old(todoLists) && FindIndex(old(todoLists)[listName], todoId).Some? ==>
        var current := old(todoLists)[listName][FindIndex(old(todoLists)[listName], todoId).value];
        if current.meta.revision != revision then r == UpdateConflict(current)
        else if Vetoes(validation, current.data, todo) then
          r == ValidationFailure(validation.value(current.data, todo).value)
        else r == Updated(StoredItem(todo, Metadata(current.meta.id, current.meta.revision + 1, now)))
      ensures !r.Updated? ==> todoLists == old(todoLists) && delivered == old(delivered)
      ensures r.Updated? ==>
        listName in old(todoLists) && FindIndex(old(todoLists)[listName], todoId).Some?
        && todoLists == old(todoLists)[listName :=
             old(todoLists)[listName][FindIndex(old(todoLists)[listName], todoId).value := r.todo]]
        && delivered == old(delivered) + Fanout(listeners, listName, UpdateEvent(r.todo))
    {
      if listName !in todoLists {
        return UpdateNotFound(MissingList);
      }
      var list := todoLists[listName];
      var index := FindIndex(list, todoId);
      if index.None? {
        return UpdateNotFound(MissingTodo);
      }
      var current := list[index.value];
      if current.meta.revision != revision {
        return UpdateConflict(current);
      }
      if validation.Some? {
        var validationError := validation.value(current.data, todo);
        if validationError.Some? && validationError.value != "" {
          return ValidationFailure(validationError.value);
        }
      }
      var updatedItem := StoredItem(todo, Metadata(current.meta.id, current.meta.revision + 1, now));
      todoLists := todoLists[listName := list[index.value := updatedItem]];
      UpdateListeners(listName, UpdateEvent(updatedItem));
      r := Updated(updatedItem);
    }

    /**
     * Removes the item whose stored revision equals `revision`, keeping the others in order,
     * and notifies the list's listeners with its id. The checks run in the order list, item,
     * revision, and a failed check changes nothing.
     */
    method Delete(listName: string, todoId: string, revision: int) returns (r: DeleteResult)
      modifies this`todoLists, this`delivered
      ensures listName !in old(todoLists) ==> r == DeleteNotFound(MissingList)
      ensures listName in old(todoLists) && FindIndex(old(todoLists)[listName], todoId).None? ==>
        r == DeleteNotFound(MissingTodo)
      ensures listName in old(todoLists) && FindIndex(old(todoLists)[listName], todoId).Some? ==>
        var current := old(todoLists)[listName][FindIndex(old(todoLists)[listName], todoId).value];
        r == if current.meta.revision != revision then DeleteConflict(current) else Deleted
      ensures !r.Deleted? ==> todoLists == old(todoLists) && delivered == old(delivered)
      ensures r.Deleted? ==>
        listName in old(todoLists) && FindIndex(old(todoLists)[listName], todoId).Some?
        && var items, i := old(todoLists)[listName], FindIndex(old(todoLists)[listName], todoId).value;
           todoLists == old(todoLists)[listName := items[..i] + items[i + 1..]]
           && delivered == old(delivered) + Fanout(listeners, listName, DeleteEvent(todoId))
    {
      if listName !in todoLists {
        return DeleteNotFound(MissingList);
      }
      var list := todoLists[listName];
      var index := FindIndex(list, todoId);
      if index.None? {
        return DeleteNotFound(MissingTodo);
      }
      var current := list[index.value];
      if current.meta.revision != revision {
        return DeleteConflict(current);
      }
      todoLists := todoLists[listName := list[..index.value] + list[index.value + 1..]];
      UpdateListeners(listName, DeleteEvent(todoId));
      r := Deleted;
    }

    /** Replaces the whole table with `data`; listeners are kept and nobody is notified. */
    method ImportStore(data: map<string, seq<StoredItem>>)
      modifies this`todoLists
      ensures todoLists == data
    {
      todoLists := data;
    }

    /** A value copy of the whole table: the same lists with the same items. */
    function ExportStore(): (r: map<string, seq<StoredItem>>)
      reads this
      ensures r.Keys == todoLists.Keys
      ensures forall n :: n in r ==> r[n] == todoLists[n]
    {
      todoLists
    }

    /**
     * Registers `listener` at the end of the bucket of an existing list; throws, changing
     * nothing, when the list does not exist.
     */
    method AddListener(listName: string, listener: ListenerId) returns (r: AddListenerResult)
      requires Valid()
      modifies this`listeners
      ensures Valid()
      ensures listName !in todoLists ==>
        r == AddListenerThrew("List " + listName + " does not exist") && listeners == old(listeners)
      ensures listName in todoLists ==>
        r == Added(ListenerHandle(listName, listener))
        && listeners == old(listeners)[listName :=
             (if listName in old(listeners) then old(listeners)[listName] else []) + [listener]]
    {
      if listName !in todoLists {
        return AddListenerThrew("List " + listName + " does not exist");
      }
      if listName !in listeners {
        listeners := listeners[listName := []];
      }
      listeners := listeners[listName := listeners[listName] + [listener]];
      r := Added(ListenerHandle(listName, listener));
    }

    /**
     * The handle's `remove`: drops every registration of the listener from its list's bucket
     * and deletes the bucket once empty. When the bucket is already gone, reading it fails
     * and the call throws, changing nothing.
     */
    method Remove(handle: ListenerHandle) returns (threw: bool)
      requires Valid()
      modifies this`listeners
      ensures Valid()
      ensures threw <==> handle.listName !in old(listeners)
      ensures threw ==> listeners == old(listeners)
      ensures !threw ==>
        var kept := RemoveAll(old(listeners)[handle.listName], handle.listener);
        listeners == if kept == [] then old(listeners) - {handle.listName} else old(listeners)[handle.listName := kept]
      ensures handle.listName in listeners ==> handle.listener !in listeners[handle.listName]
    {
      if handle.listName !in listeners {
        return true;
      }
      threw := false;
      listeners := listeners[handle.listName := RemoveAll(listeners[handle.listName], handle.listener)];
      if listeners[handle.listName] == [] {
        listeners := listeners - {handle.listName};
      }
    }
  }

  /** A client run: a listener registered before any mutation sees exactly the one created item. */
  method ListenerScenario(id: string, t0: string)
  {
    var store := new EphemeralTodoStore();
    var early := store.AddListener("work", 7);
    assert early == AddListenerThrew("List work does not exist");
    store.CreateList("work");
    var added := store.AddListener("work", 7);
    assert added == Added(ListenerHandle("work", 7));

    var c := store.Create("work", ItemData("A", TODO, "alice"), id, t0);
    assert c.Created?;
    assert store.delivered == [Delivery("work", 7, UpdateEvent(c.todo))];

    var removed := store.Remove(added.handle);
    assert !removed && store.listeners == map[];
    var again := store.Remove(added.handle);
    assert again;
  }

  /** A client run: create, update, a stale update, a stale delete, then a delete. */
  method RevisionScenario(id: string, t0: string, t1: string, t2: string)
  {
    var store := new EphemeralTodoStore();
    store.CreateList("work");
    var c := store.Create("work", ItemData("A", TODO, "alice"), id, t0);
    assert c.Created? && c.todo.meta.revision == 1;
    assert store.todoLists["work"] == [] + [c.todo] == [c.todo];

    var u := store.Update("work", id, 1, ItemData("A2", DONE, "alice"), None, t1);
    assert u == Updated(StoredItem(ItemData("A2", DONE, "alice"), Metadata(id, 2, t1)));
    var stale := store.Update("work", id, 1, ItemData("A3", DONE, "alice"), None, t2);
    assert stale == UpdateConflict(u.todo);

    var staleDelete := store.Delete("work", id, 1);
    assert staleDelete == DeleteConflict(u.todo);
    var d := store.Delete("work", id, 2);
    assert d == Deleted;
    assert store.List("work") == Some([]);
    assert store.GetById("work", id) == None;
  }

  /** A client run: the service's validator refuses TODO -> DONE and the item stays as it was. */
  method ValidatorScenario(id: string, t0: string, t1: string)
  {
    var store := new EphemeralTodoStore();
    store.CreateList("work");
    var c := store.Create("work", ItemData("A", TODO, "alice"), id, t0);
    assert store.todoLists["work"] == [] + [c.todo] == [c.todo];
    var proposed := ItemData("A2", DONE, "alice");
    ValidateUpdateVetoes(c.todo.data, proposed);
    var refused := store.Update("work", id, 1, proposed, Some(Validation.ValidateUpdate), t1);
    assert refused.ValidationFailure?;
    assert store.List("work") == Some([c.todo]);
  }

  /** A client run: a table exported from one store and imported into a fresh one lists the same items. */
  method SnapshotScenario(id: string, t0: string)
  {
    var store := new EphemeralTodoStore();
    store.CreateList("work");
    var c := store.Create("work", ItemData("A", TODO, "alice"), id, t0);
    var snapshot := store.ExportStore();
    var copy := new EphemeralTodoStore();
    copy.ImportStore(snapshot);
    assert copy.List("work") == store.List("work");
    var names := copy.GetLists();
    assert "work" in names;
  }
}
