/** The list screen: the view it derives from the in-memory list (completion
    filter, then case-insensitive title search), the counts on the filter
    choices, and the handlers that toggle or delete an item and write the
    whole list back to the storage slot. */
module TodoListScreen {
  import opened Seqs
  import opened Text
  import opened TodoModel

  predicate IsCompleted(t: Todo) { t.completed }

  predicate IsUncompleted(t: Todo) { !t.completed }

  /** The callback of the first `filter`: "Completed" and "Uncompleted"
      select on the flag, any other filter value lets every item through. */
  predicate PassesFilter(filterType: string, t: Todo)
  {
    if filterType == "Completed" then t.completed
    else if filterType == "Uncompleted" then !t.completed
    else true
  }

  /** The callback of the second `filter`: the lower-cased title contains
      the lower-cased search text. */
  predicate MatchesSearch(searchText: string, t: Todo)
  {
    Contains(ToLower(t.title), ToLower(searchText))
  }

  /** The search callback as a value. */
  function Matches(searchText: string): Todo -> bool
  {
    (t: Todo) => MatchesSearch(searchText, t)
  }

  /** Label count of the "Completed" choice, over the full list. */
  function CompletedCount(todos: seq<Todo>): nat
  {
    |Filter(IsCompleted, todos)|
  }

  /** Label count of the "Uncompleted" choice, over the full list. */
  function UncompletedCount(todos: seq<Todo>): nat
  {
    |Filter(IsUncompleted, todos)|
  }

  /** Every item is counted under exactly one of the two choices, so the two
      labels add up to the "All" label. */
  lemma CountsPartition(todos: seq<Todo>)
    ensures CompletedCount(todos) + UncompletedCount(todos) == |todos|
  {
    FilterPartition(IsCompleted, IsUncompleted, todos);
  }

  /** The completion filter: "Completed" keeps exactly the completed items,
      "Uncompleted" exactly the others, each as many as its label counts;
      any other value keeps the list as it is. Order is kept. */
  function FilterByCompletion(todos: seq<Todo>, filterType: string): (r: seq<Todo>)
    ensures IsSubsequence(r, todos)
    ensures filterType == "Completed" ==>
      (forall t :: t in r <==> t in todos && t.completed) && |r| == CompletedCount(todos)
    ensures filterType == "Uncompleted" ==>
      (forall t :: t in r <==> t in todos && !t.completed) && |r| == UncompletedCount(todos)
    ensures filterType != "Completed" && filterType != "Uncompleted" ==> r == todos
    ensures forall t :: multiset(r)[t] == if PassesFilter(filterType, t) then multiset(todos)[t] else 0
  {
    var r := Filter(t => PassesFilter(filterType, t), todos);
    forall t ensures multiset(r)[t] == if PassesFilter(filterType, t) then multiset(todos)[t] else 0 {
      FilterMultiplicity(t => PassesFilter(filterType, t), todos, t);
    }
    if filterType == "Completed" then
      FilterExtensional(t => PassesFilter(filterType, t), IsCompleted, todos);
      r
    else if filterType == "Uncompleted" then
      FilterExtensional(t => PassesFilter(filterType, t), IsUncompleted, todos);
      r
    else
      FilterKeepsAll(t => PassesFilter(filterType, t), todos);
      r
  }

  /** `filteredTodos`: the items shown. They are a selection of the list in
      its own order; an item is shown exactly when it passes the completion
      filter and its lower-cased title contains the lower-cased search text;
      with an empty search text the view is the completion filter alone. */
  function FilteredTodos(todos: seq<Todo>, filterType: string, searchText: string): (r: seq<Todo>)
    ensures IsSubsequence(r, todos)
    ensures forall t :: t in r <==> t in todos && PassesFilter(filterType, t) && MatchesSearch(searchText, t)
    ensures forall t :: multiset(r)[t] == (if PassesFilter(filterType, t) && MatchesSearch(searchText, t) then multiset(todos)[t] else 0)
    ensures searchText == "" ==> r == FilterByCompletion(todos, filterType)
  {
    var byCompletion := FilterByCompletion(todos, filterType);
    var r := Filter(Matches(searchText), byCompletion);
    forall t ensures multiset(r)[t] ==
      if PassesFilter(filterType, t) && MatchesSearch(searchText, t) then multiset(todos)[t] else 0
    {
      FilterMultiplicity(Matches(searchText), byCompletion, t);
    }
    SubsequenceTransitive(r, byCompletion, todos);
    assert searchText == "" ==> r == byCompletion by {
      if searchText == "" {
        forall t: Todo ensures MatchesSearch(searchText, t) {
          assert OccursAt(ToLower(t.title), ToLower(searchText), 0);
        }
        FilterKeepsAll(Matches(searchText), byCompletion);
      }
    }
    r
  }

  /** The list `toggleCompleted` builds: position by position the id, title
      and description stay, and the flag flips exactly where the id matches;
      nothing is added, dropped or moved. */
  function Toggled(todos: seq<Todo>, id: string): (r: seq<Todo>)
    ensures |r| == |todos|
    ensures forall i :: 0 <= i < |todos| ==>
      r[i].id == todos[i].id && r[i].title == todos[i].title &&
      r[i].description == todos[i].description &&
      r[i].completed == (todos[i].completed != (todos[i].id == id))
  {
    seq(|todos|, i requires 0 <= i < |todos| =>
      if todos[i].id == id then todos[i].(completed := !todos[i].completed) else todos[i])
  }

  /** Toggling the same id twice gives back the original list. */
  lemma ToggleTwice(todos: seq<Todo>, id: string)
    ensures Toggled(Toggled(todos, id), id) == todos
  {
    var once := Toggled(todos, id);
    var twice := Toggled(once, id);
    forall i | 0 <= i < |todos| ensures twice[i] == todos[i] {
      assert once[i].id == todos[i].id;
    }
  }

  /** Toggling an id that no item has is a no-op (there is no not-found
      error). */
  lemma ToggleAbsent(todos: seq<Todo>, id: string)
    requires forall t :: t in todos ==> t.id != id
    ensures Toggled(todos, id) == todos
  {
    var r := Toggled(todos, id);
    forall i | 0 <= i < |todos| ensures r[i] == todos[i] {
      assert todos[i] in todos;
    }
  }

  /** The callback of the delete handler's `filter`. */
  function IdDiffers(id: string): Todo -> bool
  {
    (t: Todo) => t.id != id
  }

  /** The list the delete handler builds: exactly the items whose id differs
      from `id`, each as often as before, in their original order. */
  function Removed(todos: seq<Todo>, id: string): (r: seq<Todo>)
    ensures IsSubsequence(r, todos)
    ensures forall t :: t in r <==> t in todos && t.id != id
    ensures forall t :: multiset(r)[t] == if t.id != id then multiset(todos)[t] else 0
  {
    var r := Filter(IdDiffers(id), todos);
    forall t ensures multiset(r)[t] == if t.id != id then multiset(todos)[t] else 0 {
      FilterMultiplicity(IdDiffers(id), todos, t);
    }
    r
  }

  /** Deleting an id that no item has leaves the list unchanged. */
  lemma DeleteAbsent(todos: seq<Todo>, id: string)
    requires forall t :: t in todos ==> t.id != id
    ensures Removed(todos, id) == todos
  {
    FilterKeepsAll(IdDiffers(id), todos);
  }

  /** Deleting the same id twice is deleting it once. */
  lemma DeleteTwice(todos: seq<Todo>, id: string)
    ensures Removed(Removed(todos, id), id) == Removed(todos, id)
  {
    DeleteAbsent(Removed(todos, id), id);
  }

  /** The screen's state: the in-memory list, whether the filter menu is
      open, the selected filter and the search text, the success message,
      and the storage slot it writes. */
  class ListScreen {
    var todos: seq<Todo>
    var showFilter: bool
    var filterType: string
    var searchText: string
    var message: string
    const storage: Storage

    constructor (storage: Storage)
      ensures this.storage == storage
      ensures todos == [] && !showFilter && filterType == "All" && searchText == "" && message == ""
    {
      this.storage := storage;
      todos, showFilter, filterType, searchText, message := [], false, "All", "", "";
    }

    /** The three filter labels, All / Completed / Uncompleted, counted on
        the whole in-memory list whatever filter and search are active. */
    function FilterLabelCounts(): (counts: (nat, nat, nat))
      reads this
      ensures counts.0 == |todos| == counts.1 + counts.2
      ensures counts.1 == |FilterByCompletion(todos, "Completed")|
      ensures counts.2 == |FilterByCompletion(todos, "Uncompleted")|
    {
      CountsPartition(todos);
      (|todos|, CompletedCount(todos), UncompletedCount(todos))
    }

    /** The items the list renders. */
    function Visible(): (r: seq<Todo>)
      reads this
      ensures IsSubsequence(r, todos)
      ensures forall t :: t in r <==> t in todos && PassesFilter(filterType, t) && MatchesSearch(searchText, t)
      ensures forall t :: multiset(r)[t] == (if PassesFilter(filterType, t) && MatchesSearch(searchText, t) then multiset(todos)[t] else 0)
    {
      FilteredTodos(todos, filterType, searchText)
    }

    /** `toggleFilter`: open or close the filter menu. */
    method ToggleFilter()
      modifies this`showFilter
      ensures showFilter == !old(showFilter)
    {
      showFilter := !showFilter;
    }

    /** `selectFilter`: choose the completion filter and close the menu. */
    method SelectFilter(kind: string)
      modifies this`filterType, this`showFilter
      ensures filterType == kind && !showFilter
    {
      filterType := kind;
      showFilter := false;
    }

    /** The search box's change handler. */
    method ChangeSearchText(text: string)
      modifies this`searchText
      ensures searchText == text
    {
      searchText := text;
    }

    /** Load on focus: a stored list replaces the in-memory one; when the key
        is absent the in-memory list is kept as it was, not emptied. */
    method LoadOnFocus()
      modifies this`todos
      ensures old(storage.slot).Some? ==> todos == old(storage.slot).value
      ensures old(storage.slot).None? ==> todos == old(todos)
    {
      if storage.slot.Some? {
        todos := storage.slot.value;
      }
    }

    /** `toggleCompleted`: flip the flag of the items with this id, keep the
        new list and write it to the slot. */
    method ToggleCompleted(id: string)
      modifies this`todos, storage`slot
      ensures todos == Toggled(old(todos), id)
      ensures storage.slot == Some(todos)
    {
      var updated := Toggled(todos, id);
      todos := updated;
      storage.slot := Some(updated);
    }

    /** The confirmed branch of the delete dialog: drop the items with this
        id, keep the new list, write it to the slot and report success. */
    method ConfirmDelete(id: string)
      modifies this`todos, this`message, storage`slot
      ensures todos == Removed(old(todos), id)
      ensures storage.slot == Some(todos)
      ensures message == "Todo deleted successfully!"
    {
      var updated := Removed(todos, id);
      todos := updated;
      storage.slot := Some(updated);
      message := "Todo deleted successfully!";
    }
  }
}
