/** The add screen: the form submit that validates the title and appends one
    item to the stored list, and the voice path that splits transcribed text
    into tasks and appends one item per task with a single write. */
module AddTodos {
  import opened Seqs
  import opened Text
  import opened TodoModel

  // ---------------------------------------------------------------------
  // Splitting transcribed text: `split(/and|,|\./i)`, `trim`, drop empties
  // ---------------------------------------------------------------------

  /** The alternative `and` of the pattern matches at `i`, in any letter case.
      In a non-unicode pattern only the ASCII letters fold onto "and". */
  predicate IsAndAt(s: string, i: int)
  {
    0 <= i && i + 3 <= |s| &&
    (s[i] == 'a' || s[i] == 'A') && (s[i + 1] == 'n' || s[i + 1] == 'N') &&
    (s[i + 2] == 'd' || s[i + 2] == 'D')
  }

  /** Length of the separator the pattern matches at `i`, 0 for none. The
      alternatives are tried in the pattern's order: "and", ",", ".". */
  function SeparatorLength(s: string, i: int): nat
    requires 0 <= i < |s|
  {
    if IsAndAt(s, i) then 3 else if s[i] == ',' || s[i] == '.' then 1 else 0
  }

  /** A text the pattern matches nowhere in. */
  predicate NoSeparator(t: string)
  {
    ',' !in t && '.' !in t && forall i | 0 <= i < |t| :: !IsAndAt(t, i)
  }

  /** A text the pattern matches as a whole: what `split` cuts out. */
  predicate IsSeparatorText(t: string)
  {
    t == "," || t == "." || (|t| == 3 && IsAndAt(t, 0))
  }

  /** Where the next match at or after `j` starts (`|s|` when there is none):
      the scan `split` performs. */
  function FirstSeparatorFrom(s: string, j: int): (i: int)
    requires 0 <= j <= |s|
    ensures j <= i <= |s|
    ensures i < |s| ==> SeparatorLength(s, i) > 0
    decreases |s| - j
  {
    if j == |s| || SeparatorLength(s, j) > 0 then j else FirstSeparatorFrom(s, j + 1)
  }

  /** The scan skips no match: nothing between `j` and the match it reports
      is a match. */
  lemma {:induction false} NoSeparatorBefore(s: string, j: int)
    requires 0 <= j <= |s|
    ensures forall k :: j <= k < FirstSeparatorFrom(s, j) ==> SeparatorLength(s, k) == 0
    decreases |s| - j
  {
    if j < |s| && SeparatorLength(s, j) == 0 {
      NoSeparatorBefore(s, j + 1);
    }
  }

  /** The text before the first match holds no match of its own. */
  lemma {:induction false} PrefixBeforeSeparator(s: string)
    ensures NoSeparator(s[..FirstSeparatorFrom(s, 0)])
  {
    var i := FirstSeparatorFrom(s, 0);
    var p := s[..i];
    NoSeparatorBefore(s, 0);
    forall k | 0 <= k < |p| ensures p[k] != ',' && p[k] != '.' && !IsAndAt(p, k) {
      assert SeparatorLength(s, k) == 0;
    }
  }

  /** The pieces `split` returns, left to right. */
  function Pieces(s: string): (r: seq<string>)
    ensures |r| >= 1
    decreases |s|
  {
    var i := FirstSeparatorFrom(s, 0);
    if i == |s| then [s]
    else [s[..i]] + Pieces(s[i + SeparatorLength(s, i)..])
  }

  /** No piece holds a match of the pattern: every match was cut out. */
  lemma {:induction false} PiecesHaveNoSeparator(s: string)
    ensures forall p :: p in Pieces(s) ==> NoSeparator(p)
    decreases |s|
  {
    var i := FirstSeparatorFrom(s, 0);
    PrefixBeforeSeparator(s);
    if i == |s| {
      assert s[..i] == s;
    } else {
      PiecesHaveNoSeparator(s[i + SeparatorLength(s, i)..]);
    }
  }

  /** The text matched at `i` is a whole match of the pattern. */
  lemma MatchAt(s: string, i: int)
    requires 0 <= i < |s| && SeparatorLength(s, i) > 0
    ensures IsSeparatorText(s[i..i + SeparatorLength(s, i)])
  {
    var sep := s[i..i + SeparatorLength(s, i)];
    if SeparatorLength(s, i) == 3 {
      assert IsAndAt(sep, 0);
    } else {
      assert sep == [s[i]];
    }
  }

  /** Pieces and separators put back alternately. */
  function Interleave(pieces: seq<string>, seps: seq<string>): string
    requires |pieces| == |seps| + 1
    decreases |seps|
  {
    if seps == [] then pieces[0] else pieces[0] + seps[0] + Interleave(pieces[1..], seps[1..])
  }

  /** `s` is `pieces` joined with the whole matches `seps` in between. */
  ghost predicate JoinedBySeparators(pieces: seq<string>, seps: seq<string>, s: string)
  {
    |pieces| == |seps| + 1 && (forall t :: t in seps ==> IsSeparatorText(t)) &&
    Interleave(pieces, seps) == s
  }

  /** Joining one more piece and match onto the front of a joined text. */
  lemma JoinFront(head: string, sep: string, pieces: seq<string>, seps: seq<string>, rest: string)
    requires IsSeparatorText(sep) && JoinedBySeparators(pieces, seps, rest)
    ensures JoinedBySeparators([head] + pieces, [sep] + seps, head + sep + rest)
  {
    var ps, ss := [head] + pieces, [sep] + seps;
    assert ps[1..] == pieces && ss[1..] == seps;
  }

  /** One cut: the first piece comes off the front and splitting goes on
      after the match. */
  lemma PiecesStep(s: string, i: int, n: int)
    requires 0 <= i < |s| && i == FirstSeparatorFrom(s, 0) && n == i + SeparatorLength(s, i)
    ensures Pieces(s) == [s[..i]] + Pieces(s[n..])
  {
  }

  /** `split` loses nothing and reorders nothing: the text is its pieces
      joined, left to right, by the matches that were cut out. */
  lemma {:induction false} SplitRejoins(s: string)
    ensures exists seps :: JoinedBySeparators(Pieces(s), seps, s)
    decreases |s|
  {
    var i := FirstSeparatorFrom(s, 0);
    if i == |s| {
      assert Pieces(s) == [s];
      assert JoinedBySeparators([s], [], s);
    } else {
      var n := i + SeparatorLength(s, i);
      var rest := s[n..];
      SplitRejoins(rest);
      var seps :| JoinedBySeparators(Pieces(rest), seps, rest);
      PiecesStep(s, i, n);
      MatchAt(s, i);
      JoinFront(s[..i], s[i..n], Pieces(rest), seps, rest);
      assert s[..i] + s[i..n] + rest == s;
    }
  }

  /** Every slice of a separator-free text is separator-free. */
  lemma NoSeparatorInfix(p: string, t: string)
    requires NoSeparator(p) && IsInfix(t, p)
    ensures NoSeparator(t)
  {
    var k :| OccursAt(p, t, k);
    forall i | 0 <= i < |t| ensures t[i] == p[k + i] && !IsAndAt(t, i) {
      if IsAndAt(t, i) {
        assert IsAndAt(p, k + i);
      }
    }
  }

  /** The `filter(Boolean)` step: an empty string is falsy. */
  predicate IsNonEmpty(t: string) { t != "" }

  /** The tasks read out of transcribed text. Each is non-empty, already
      trimmed, and holds no ",", no "." and no "and" in any letter case; they
      come in the order of the text, and no non-empty trimmed piece is lost. */
  function SplitIntoTasks(speechText: string): (tasks: seq<string>)
    ensures forall t :: t in tasks ==> t != "" && Trim(t) == t && NoSeparator(t)
    ensures IsSubsequence(tasks, TrimAll(Pieces(speechText)))
    ensures forall t :: t in TrimAll(Pieces(speechText)) && t != "" ==> t in tasks
    ensures forall t :: multiset(tasks)[t] == if t != "" then multiset(TrimAll(Pieces(speechText)))[t] else 0
  {
    var pieces := Pieces(speechText);
    var trimmed := TrimAll(pieces);
    PiecesHaveNoSeparator(speechText);
    forall t | t in trimmed ensures Trim(t) == t && NoSeparator(t) {
      var i :| 0 <= i < |trimmed| && trimmed[i] == t;
      assert pieces[i] in pieces;
      TrimSpec(pieces[i]);
      TrimIdempotent(pieces[i]);
      NoSeparatorInfix(pieces[i], t);
    }
    forall t ensures multiset(Filter(IsNonEmpty, trimmed))[t] == if t != "" then multiset(trimmed)[t] else 0 {
      FilterMultiplicity(IsNonEmpty, trimmed, t);
    }
    Filter(IsNonEmpty, trimmed)
  }

  /** Text whose every piece is blank yields no task at all. */
  lemma NoTaskFromBlankPieces(speechText: string)
    requires forall p :: p in Pieces(speechText) ==> Trim(p) == ""
    ensures SplitIntoTasks(speechText) == []
  {
    var pieces := Pieces(speechText);
    var trimmed := TrimAll(pieces);
    forall t | t in trimmed ensures t == "" {
      var i :| 0 <= i < |trimmed| && trimmed[i] == t;
      assert pieces[i] in pieces;
    }
    FilterRejectsAll(IsNonEmpty, trimmed);
  }

  // ---------------------------------------------------------------------
  // Appending to the stored list
  // ---------------------------------------------------------------------

  /** `after` is `before` followed by one fresh, uncompleted, description-less
      item per task, titled with the task, the i-th with id `freshId(i)`. */
  ghost predicate AppendedTasks(before: seq<Todo>, after: seq<Todo>, tasks: seq<string>, freshId: nat -> string)
  {
    |after| == |before| + |tasks| && after[..|before|] == before &&
    forall i :: 0 <= i < |tasks| ==> after[|before| + i] == Todo(freshId(i), tasks[i], "", false)
  }

  /** The `forEach` that pushes one item per task onto the loaded list. */
  method AppendTasks(todos: seq<Todo>, tasks: seq<string>, freshId: nat -> string) returns (r: seq<Todo>)
    ensures AppendedTasks(todos, r, tasks, freshId)
  {
    r := todos;
    var i := 0;
    while i < |tasks|
      invariant 0 <= i <= |tasks|
      invariant AppendedTasks(todos, r, tasks[..i], freshId)
    {
      r := r + [Todo(freshId(i), tasks[i], "", false)];
      i := i + 1;
    }
    assert tasks[..i] == tasks;
  }

  /** No task means nothing appended: the list written back is the list read. */
  lemma NothingAppended(before: seq<Todo>, after: seq<Todo>, freshId: nat -> string)
    requires AppendedTasks(before, after, [], freshId)
    ensures after == before
  {
  }

  /** The add screen's state: the two form fields, the error and success
      messages, and the storage slot it reads and writes. */
  class AddScreen {
    var title: string
    var description: string
    var error: string
    var message: string
    const storage: Storage

    constructor (storage: Storage)
      ensures this.storage == storage
      ensures title == "" && description == "" && error == "" && message == ""
    {
      this.storage := storage;
      title, description, error, message := "", "", "", "";
    }

    /** `HandleSubmit`. A title that trims to nothing is refused with an error
        and the slot is neither read nor written. Otherwise the stored list
        (empty when absent) gets one more item at the end: the title as typed,
        untrimmed, the description, `completed` false; the form is cleared
        and success reported. */
    method HandleSubmit(id: string)
      modifies this`title, this`description, this`error, this`message, storage`slot
      ensures Trim(old(title)) == "" ==>
        error == "Todo Title is Required" && storage.slot == old(storage.slot) &&
        title == old(title) && description == old(description) && message == old(message)
      ensures Trim(old(title)) != "" ==>
        storage.slot == Some(old(storage.StoredOrEmpty()) + [Todo(id, old(title), old(description), false)]) &&
        message == "Todo Added Successfully!" && title == "" && description == "" && error == old(error)
    {
      if Trim(title) == "" {
        error := "Todo Title is Required";
        return;
      }
      var newTodo := Todo(id, title, description, false);
      var todos := storage.StoredOrEmpty();
      todos := todos + [newTodo];
      storage.slot := Some(todos);
      message := "Todo Added Successfully!";
      title := "";
      description := "";
    }

    /** `createTodosFromSpeech`: split the text into tasks, append one item
        per task to the stored list (empty when absent), write the list once
        and report how many were added. The slot is written even when there
        is no task. */
    method CreateTodosFromSpeech(speechText: string, freshId: nat -> string) returns (added: nat)
      modifies this`message, storage`slot
      ensures added == |SplitIntoTasks(speechText)|
      ensures storage.slot.Some?
      ensures AppendedTasks(old(storage.StoredOrEmpty()), storage.slot.value, SplitIntoTasks(speechText), freshId)
      ensures added == 0 ==> storage.slot == Some(old(storage.StoredOrEmpty()))
      ensures message == DecimalString(added) + " task(s) added from voice"
    {
      var tasks := SplitIntoTasks(speechText);
      var todos := storage.StoredOrEmpty();
      todos := AppendTasks(todos, tasks, freshId);
      storage.slot := Some(todos);
      added := |tasks|;
      if added == 0 {
        NothingAppended(old(storage.StoredOrEmpty()), todos, freshId);
      }
      message := DecimalString(added) + " task(s) added from voice";
    }

    /** What happens to the text the transcription service returns: a missing
        or blank text is reported and never reaches the splitter; any other
        text is turned into tasks. */
    method ReceiveTranscription(text: Option<string>, freshId: nat -> string)
      modifies this`error, this`message, storage`slot
      ensures (text.None? || Trim(text.value) == "") ==>
        error == "No speech detected — speak clearly and try again" &&
        storage.slot == old(storage.slot) && message == old(message)
      ensures (text.Some? && Trim(text.value) != "") ==>
        storage.slot.Some? && error == old(error) &&
        AppendedTasks(old(storage.StoredOrEmpty()), storage.slot.value, SplitIntoTasks(text.value), freshId) &&
        message == DecimalString(|SplitIntoTasks(text.value)|) + " task(s) added from voice"
    {
      if text.None? || Trim(text.value) == "" {
        error := "No speech detected — speak clearly and try again";
        return;
      }
      var _ := CreateTodosFromSpeech(text.value, freshId);
    }
  }
}
