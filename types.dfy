/** The value types shared by the store, the validator and the UI components. */
module TodoTypes {

  datatype Option<T> = None | Some(value: T)

  /** The three states an item moves through. */
  datatype TodoState = TODO | ONGOING | DONE

  /** The caller-owned payload of an item. */
  datatype ItemData = ItemData(title: string, state: TodoState, createdByUser: string)

  /** Store-owned metadata: the id, the optimistic-lock revision and an ISO 8601 timestamp. */
  datatype Metadata = Metadata(id: string, revision: int, lastModifiedTime: string)

  /** The unit of storage, returned from every read and write. */
  datatype StoredItem = StoredItem(data: ItemData, meta: Metadata)

  /** What a store listener receives: `{type: 'update', todo}` or `{type: 'delete', id}`. */
  datatype StoreEvent = UpdateEvent(todo: StoredItem) | DeleteEvent(id: string)

  /** The name a state has on the wire and in messages. */
  function StateName(s: TodoState): string {
    match s
    case TODO => "TODO"
    case ONGOING => "ONGOING"
    case DONE => "DONE"
  }
}
