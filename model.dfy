/** The single persisted entity of the app and the device key-value slot
    ("@todos") that holds the whole list. */
module TodoModel {

  datatype Option<T> = None | Some(value: T)

  /** One to-do item as the screens build it and as it is stored. Ids are
      strings made from the clock; nothing makes them unique. */
  datatype Todo = Todo(id: string, title: string, description: string, completed: bool)

  /** The "@todos" storage slot. `None` is a key that was never written;
      otherwise the slot holds the list last written, which is read back
      whole (serialisation is taken to round-trip exactly). */
  class Storage {
    var slot: Option<seq<Todo>>

    constructor ()
      ensures slot == None
    {
      slot := None;
    }

    /** What the add screen reads: the stored list, or an empty list when
        the key is absent. */
    function StoredOrEmpty(): seq<Todo>
      reads this
    {
      if slot.Some? then slot.value else []
    }
  }
}
