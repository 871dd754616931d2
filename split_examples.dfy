/** Worked examples of the voice splitter on concrete transcriptions. Each
    step of `split` and `trim` is its own small lemma so that the verifier
    evaluates one cut at a time. */
module SplitExamples {
  import opened Seqs
  import opened Text
  import opened AddTodos

  lemma PiecesEmpty()
    ensures Pieces("") == [""]
  {
    assert FirstSeparatorFrom("", 0) == 0;
  }

  lemma TasksOf(s: string, trimmed: seq<string>)
    requires TrimAll(Pieces(s)) == trimmed
    ensures SplitIntoTasks(s) == Filter(IsNonEmpty, trimmed)
  {
  }

  // "milk, eggs and tea.": cuts after "milk", " eggs " and " tea".

  lemma MilkCut()
    ensures Pieces("milk, eggs and tea.") == ["milk"] + Pieces(" eggs and tea.")
  {
    var s := "milk, eggs and tea.";
    assert FirstSeparatorFrom(s, 4) == 4;
    assert FirstSeparatorFrom(s, 3) == 4;
    assert FirstSeparatorFrom(s, 2) == 4;
    assert FirstSeparatorFrom(s, 1) == 4;
    assert FirstSeparatorFrom(s, 0) == 4;
    assert SeparatorLength(s, 4) == 1;
    PiecesStep(s, 4, 5);
    assert s[..4] == "milk" && s[5..] == " eggs and tea.";
  }

  lemma EggsCut()
    ensures Pieces(" eggs and tea.") == [" eggs "] + Pieces(" tea.")
  {
    var s := " eggs and tea.";
    assert FirstSeparatorFrom(s, 6) == 6;
    assert FirstSeparatorFrom(s, 5) == 6;
    assert FirstSeparatorFrom(s, 4) == 6;
    assert FirstSeparatorFrom(s, 3) == 6;
    assert FirstSeparatorFrom(s, 2) == 6;
    assert FirstSeparatorFrom(s, 1) == 6;
    assert FirstSeparatorFrom(s, 0) == 6;
    assert SeparatorLength(s, 6) == 3;
    PiecesStep(s, 6, 9);
    assert s[..6] == " eggs " && s[9..] == " tea.";
  }

  lemma TeaCut()
    ensures Pieces(" tea.") == [" tea", ""]
  {
    var s := " tea.";
    assert FirstSeparatorFrom(s, 4) == 4;
    assert FirstSeparatorFrom(s, 3) == 4;
    assert FirstSeparatorFrom(s, 2) == 4;
    assert FirstSeparatorFrom(s, 1) == 4;
    assert FirstSeparatorFrom(s, 0) == 4;
    assert SeparatorLength(s, 4) == 1;
    PiecesStep(s, 4, 5);
    assert s[..4] == " tea" && s[5..] == "";
    PiecesEmpty();
  }

  lemma MilkPieces()
    ensures Pieces("milk, eggs and tea.") == ["milk", " eggs "] + [" tea", ""]
  {
    MilkCut();
    EggsCut();
    TeaCut();
  }

  lemma TrimMilk()
    ensures Trim("milk") == "milk"
  {
    assert TrimStart("milk") == "milk";
    assert TrimEnd("milk") == "milk";
  }

  lemma TrimEggs()
    ensures Trim(" eggs ") == "eggs"
  {
    assert TrimStart(" eggs ") == "eggs ";
    assert TrimEnd("eggs ") == "eggs";
  }

  lemma TrimTea()
    ensures Trim(" tea") == "tea"
  {
    assert TrimStart(" tea") == "tea";
    assert TrimEnd("tea") == "tea";
  }

  lemma TrimEmpty()
    ensures Trim("") == ""
  {
    assert TrimStart("") == "";
    assert TrimEnd("") == "";
  }

  lemma MilkEggsTrimmed()
    ensures TrimAll(["milk", " eggs "]) == ["milk", "eggs"]
  {
    TrimMilk();
    TrimEggs();
    var x := ["milk", " eggs "];
    var t := TrimAll(x);
    assert t[0] == Trim(x[0]) && x[0] == "milk";
    assert t[1] == Trim(x[1]) && x[1] == " eggs ";
  }

  lemma TeaTrimmed()
    ensures TrimAll([" tea", ""]) == ["tea", ""]
  {
    TrimTea();
    TrimEmpty();
    var x := [" tea", ""];
    var t := TrimAll(x);
    assert t[0] == Trim(x[0]) && x[0] == " tea";
    assert t[1] == Trim(x[1]) && x[1] == "";
  }

  lemma MilkTrimmedPieces()
    ensures TrimAll(Pieces("milk, eggs and tea.")) == ["milk", "eggs"] + ["tea", ""]
  {
    MilkPieces();
    TrimAllAppend(["milk", " eggs "], [" tea", ""]);
    MilkEggsTrimmed();
    TeaTrimmed();
  }

  /** A comma, "and" and the final full stop separate three tasks, kept in
      order; the empty piece after the stop is dropped. */
  lemma SplitExample()
    ensures SplitIntoTasks("milk, eggs and tea.") == ["milk", "eggs", "tea"]
  {
    MilkTrimmedPieces();
    TasksOf("milk, eggs and tea.", ["milk", "eggs"] + ["tea", ""]);
    FilterAppend(IsNonEmpty, ["milk", "eggs"], ["tea", ""]);
    FilterKeepsAll(IsNonEmpty, ["milk", "eggs"]);
    assert Filter(IsNonEmpty, ["tea", ""]) == ["tea"];
  }

  // "candy": the "and" inside the word is a separator.

  lemma CandyPieces()
    ensures Pieces("candy") == ["c", "y"]
  {
    var s := "candy";
    assert FirstSeparatorFrom(s, 1) == 1;
    assert FirstSeparatorFrom(s, 0) == 1;
    assert SeparatorLength(s, 1) == 3;
    PiecesStep(s, 1, 4);
    assert s[..1] == "c" && s[4..] == "y";
    assert FirstSeparatorFrom("y", 1) == 1;
    assert FirstSeparatorFrom("y", 0) == 1;
    assert "y"[..1] == "y";
  }

  lemma TrimC()
    ensures Trim("c") == "c"
  {
    assert TrimStart("c") == "c";
    assert TrimEnd("c") == "c";
  }

  lemma TrimY()
    ensures Trim("y") == "y"
  {
    assert TrimStart("y") == "y";
    assert TrimEnd("y") == "y";
  }

  lemma CandyTrimmed()
    ensures TrimAll(["c", "y"]) == ["c", "y"]
  {
    TrimC();
    TrimY();
    var x := ["c", "y"];
    var t := TrimAll(x);
    assert t[0] == Trim(x[0]) && x[0] == "c";
    assert t[1] == Trim(x[1]) && x[1] == "y";
  }

  /** "and" inside a word separates too: "candy" yields "c" and "y". */
  lemma SplitInsideWord()
    ensures SplitIntoTasks("candy") == ["c", "y"]
  {
    CandyPieces();
    CandyTrimmed();
    TasksOf("candy", ["c", "y"]);
    FilterKeepsAll(IsNonEmpty, ["c", "y"]);
  }

  // "and, .": nothing but separators and a blank.

  lemma SeparatorsOnlyFirstCut()
    ensures Pieces("and, .") == [""] + Pieces(", .")
  {
    var s := "and, .";
    assert FirstSeparatorFrom(s, 0) == 0 && SeparatorLength(s, 0) == 3;
    PiecesStep(s, 0, 3);
    assert s[..0] == "" && s[3..] == ", .";
  }

  lemma SeparatorsOnlySecondCut()
    ensures Pieces(", .") == [""] + Pieces(" .")
  {
    var s := ", .";
    assert FirstSeparatorFrom(s, 0) == 0 && SeparatorLength(s, 0) == 1;
    PiecesStep(s, 0, 1);
    assert s[..0] == "" && s[1..] == " .";
  }

  lemma SeparatorsOnlyThirdCut()
    ensures Pieces(" .") == [" ", ""]
  {
    var s := " .";
    assert FirstSeparatorFrom(s, 1) == 1;
    assert FirstSeparatorFrom(s, 0) == 1 && SeparatorLength(s, 1) == 1;
    PiecesStep(s, 1, 2);
    assert s[..1] == " " && s[2..] == "";
    PiecesEmpty();
  }

  lemma SeparatorsOnlyTailPieces()
    ensures Pieces(", .") == ["", " ", ""]
  {
    SeparatorsOnlySecondCut();
    SeparatorsOnlyThirdCut();
  }

  lemma SeparatorsOnlyPieces()
    ensures Pieces("and, .") == [""] + ["", " ", ""]
  {
    SeparatorsOnlyFirstCut();
    SeparatorsOnlyTailPieces();
  }

  lemma TrimBlank()
    ensures Trim(" ") == ""
  {
    assert TrimStart(" ") == "";
    assert TrimEnd("") == "";
  }

  lemma SeparatorsOnlyTrimmed()
    ensures TrimAll([""] + ["", " ", ""]) == [""] + ["", "", ""]
  {
    TrimEmpty();
    TrimBlank();
    TrimAllAppend([""], ["", " ", ""]);
    var x, y := [""], ["", " ", ""];
    var tx, ty := TrimAll(x), TrimAll(y);
    assert tx[0] == Trim(x[0]) && x[0] == "";
    assert ty[0] == Trim(y[0]) && y[0] == "";
    assert ty[1] == Trim(y[1]) && y[1] == " ";
    assert ty[2] == Trim(y[2]) && y[2] == "";
  }

  /** Text made only of separators and blanks yields no task. */
  lemma SplitOnlySeparators()
    ensures SplitIntoTasks("and, .") == []
  {
    SeparatorsOnlyPieces();
    SeparatorsOnlyTrimmed();
    TasksOf("and, .", [""] + ["", "", ""]);
    FilterAppend(IsNonEmpty, [""], ["", "", ""]);
  }
}
