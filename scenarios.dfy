/** Client code driving the widget through example scenarios; each one is proved from the
    handlers' contracts alone. */
module Scenarios {
  import opened Text
  import opened Notes
  import opened App

  /** "Groceries" and "milk" have nothing to trim. */
  lemma {:induction false} GroceriesTrimmed()
    ensures Trim("Groceries") == "Groceries" && Trim("milk") == "milk"
  {
    var g, m := "Groceries", "milk";
    assert Trimmed(g) by { assert g[0] == 'G' && g[|g| - 1] == 's'; }
    assert Trimmed(m) by { assert m[0] == 'm' && m[|m| - 1] == 'k'; }
    TrimFixedPoints(g);
    TrimFixedPoints(m);
  }

  /** Searching for "x" finds the note {"A", "x"} and not the note {"B", "y"}. */
  lemma {:induction false} SearchExample(a: Note, b: Note)
    requires a.title == "A" && a.content == "x" && b.title == "B" && b.content == "y"
    ensures Matches(a, "x") && !Matches(b, "x")
  {
    MatchesInfix(a, "x") by { assert a.content[0..1] == "x"; }
    assert Lower("B") == "b" && Lower("y") == "y" && Lower("x") == "x";
    assert !Includes("b", "x") by {
      assert "b"[..1] == "b" && "b"[0] != "x"[0];
      assert !Includes("b"[1..], "x");
    }
    assert !Includes("y", "x") by {
      assert "y"[..1] == "y" && "y"[0] != "x"[0];
      assert !Includes("y"[1..], "x");
    }
  }

  /** An empty store, a note with nothing to trim typed into the form, a click outside the
      form. */
  method SaveOnOutsideClick(title: string, content: string, now: int)
    requires Trimmed(title) && Trimmed(content) && title != []
  {
    var app := new NotesApp(Missing);
    app.titleInput, app.contentInput := title, content;
    TrimFixedPoints(title);
    TrimFixedPoints(content);
    assert app.slot == Missing && app.cards == [];
    assert Savable(app.titleInput, app.contentInput);
    app.Click(false, now, true);
    assert app.slot == Stored([Note(title, content, now)]);
    assert |app.cards| == 1 && app.cards[0].note.title == title && app.cards[0].visible;
    assert app.titleInput == "" && app.contentInput == "";
  }

  /** Saving "Groceries"/"milk" at time 1700000000000. */
  method SaveGroceries() {
    var g, m := "Groceries", "milk";
    assert Trimmed(g) by { assert g[0] == 'G' && g[|g| - 1] == 's'; }
    assert Trimmed(m) by { assert m[0] == 'm' && m[|m| - 1] == 'k'; }
    SaveOnOutsideClick(g, m, 1700000000000);
  }

  /** Clicks inside the form, and whitespace-only input, save nothing and keep the form. */
  method NothingToSave() {
    var app := new NotesApp(Missing);
    app.titleInput, app.contentInput := "Groceries", "";
    app.Click(true, 1, true);
    assert app.slot == Missing && app.cards == [] && app.titleInput == "Groceries";
    app.titleInput, app.contentInput := "  ", "\n";
    assert AllSpace("  ") && AllSpace("\n");
    app.Click(false, 2, true);
    assert app.slot == Missing && app.cards == [];
    assert app.titleInput == "  " && app.contentInput == "\n";
  }

  /** Two stored notes; searching for "x" hides the second and keeps the first. */
  method SearchHidesOther() {
    var a, b := Note("A", "x", 1), Note("B", "y", 2);
    var app := new NotesApp(Stored([a, b]));
    assert |app.cards| == 2;
    app.Filter("x");
    SearchExample(a, b);
    assert app.cards[0].visible && !app.cards[1].visible;
  }

  /** Two stored notes, one hidden by a search; deleting the first leaves only the second,
      shown again. */
  method DeleteFirst() {
    var a, b := Note("A", "x", 1), Note("B", "y", 2);
    var app := new NotesApp(Stored([a, b]));
    app.Filter("x");
    app.Delete(a.id, true);
    assert app.slot == Stored([b]);
    assert |app.cards| == 1 && app.cards[0].note == b && app.cards[0].visible;
  }

  /** The form content "T" with an empty content field is saved as {"T", ""}. */
  lemma {:induction false} TSavable()
    ensures Savable("T", "") && Trim("T") == "T" && Trim("") == ""
  {
    assert Trimmed("T") by { assert "T"[0] == 'T'; }
    TrimFixedPoints("T");
  }

  /** A press on the delete button of the only card while the form holds "T": the card's
      note is deleted, then the click bubbles to the document and saves "T" as a new note. */
  method DeletePressSavesForm() {
    var a := Note("A", "x", 1);
    var app := new NotesApp(Stored([a]));
    app.titleInput := "T";
    TSavable();
    assert app.cards[0].note == a by { assert NotesOf(app.cards)[0] == a; }
    assert RemoveById([a], a.id) == [];
    assert Savable(app.titleInput, app.contentInput);
    app.ClickDelete(0, 3, true, true);
    assert app.slot == Stored([Note("T", "", 3)]);
    assert app.titleInput == "" && |app.cards| == 1;
  }

  /** A slot that cannot be parsed renders no cards and blocks no handler. */
  method UnreadableStore() {
    var app := new NotesApp(Unreadable);
    assert app.cards == [];
    app.titleInput := "Groceries";
    app.Click(false, 1, true);
    assert app.slot == Unreadable && app.cards == [] && app.titleInput == "Groceries";
  }
}
