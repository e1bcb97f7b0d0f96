/** The note widget's page state and its event handlers: the `notes` storage slot, the
    cards in the notes container, and the title and content fields of the note form. */
module App {
  import opened Text
  import opened Notes

  /** The cards shown after loading `slot` into an empty container. */
  function Loaded(slot: Slot): (r: seq<Card>)
    ensures ReadSlot(slot).Some? ==> NotesOf(r) == ReadSlot(slot).value
    ensures forall k :: 0 <= k < |r| ==> r[k].visible
    ensures slot == Unreadable ==> r == []
  {
    NotesOfCardsOf(ReadSlot(slot).GetOr([]));
    match ReadSlot(slot)
    case Some(notes) => CardsOf(notes)
    case None => []
  }

  class NotesApp {
    /** The `notes` slot of local storage. */
    var slot: Slot
    /** The children of the notes container, in document order. */
    var cards: seq<Card>
    /** The values of the note form's title and content fields. */
    var titleInput: string
    var contentInput: string

    /** The display mirrors storage: when the slot can be read the cards show exactly its
        notes, in order; when it cannot, there are no cards. */
    ghost predicate Synced()
      reads this
    {
      match ReadSlot(slot)
      case Some(notes) => NotesOf(cards) == notes
      case None => cards == []
    }

    /** Every stored note is one that saving could have produced. */
    ghost predicate Clean()
      reads this
    {
      match ReadSlot(slot)
      case Some(notes) => AllWellFormed(notes)
      case None => true
    }

    ghost predicate Valid()
      reads this
    {
      Synced() && Clean()
    }

    /** The page is loaded: the form is empty and the stored notes are rendered. */
    constructor (initial: Slot)
      ensures slot == initial && titleInput == "" && contentInput == ""
      ensures cards == Loaded(initial)
      ensures Synced()
      ensures (match ReadSlot(initial) case Some(notes) => AllWellFormed(notes) case None => true) ==> Valid()
    {
      slot := initial;
      cards := [];
      titleInput := "";
      contentInput := "";
      new;
      Load();
      match ReadSlot(initial)
      case Some(notes) => NotesOfCardsOf(notes);
      case None =>
    }

    /** `loadNotes`: appends one visible card per stored note, in stored order. An
        unreadable slot adds nothing and raises nothing. */
    method Load()
      modifies this
      ensures slot == old(slot) && titleInput == old(titleInput) && contentInput == old(contentInput)
      ensures cards == old(cards) + Loaded(slot)
    {
      var read := ReadSlot(slot);
      if read.Some? {
        var notes := read.value;
        var i := 0;
        while i < |notes|
          invariant 0 <= i <= |notes|
          invariant slot == old(slot) && titleInput == old(titleInput) && contentInput == old(contentInput)
          invariant cards == old(cards) + CardsOf(notes[..i])
        {
          AddCard(notes[i]);
          assert CardsOf(notes[..i + 1]) == CardsOf(notes[..i]) + [Card(notes[i], true)];
          i := i + 1;
        }
        assert notes[..i] == notes;
      }
    }

    /** `addNoteToDOM`: appends a visible card for `note`. */
    method AddCard(note: Note)
      modifies this
      ensures slot == old(slot) && titleInput == old(titleInput) && contentInput == old(contentInput)
      ensures cards == old(cards) + [Card(note, true)]
    {
      cards := cards + [Card(note, true)];
    }

    /** `resetForm`: clears both form fields. */
    method ResetForm()
      modifies this
      ensures slot == old(slot) && cards == old(cards)
      ensures titleInput == "" && contentInput == ""
      ensures old(Synced()) ==> Synced()
      ensures old(Clean()) ==> Clean()
    {
      titleInput := "";
      contentInput := "";
    }

    /** `saveNote`, with `Date.now()` passed in as `newId` and `writable` telling whether
        `localStorage.setItem` accepts the write. When the form holds input that is not
        whitespace only and storage can be read and written, the trimmed note is appended
        to storage and as a visible card, and the form is cleared; otherwise nothing changes. */
    method Save(newId: int, writable: bool)
      modifies this
      ensures var read := ReadSlot(old(slot));
        if Savable(old(titleInput), old(contentInput)) && read.Some? && writable then
          var note := Note(Trim(old(titleInput)), Trim(old(contentInput)), newId);
          && slot == Stored(read.value + [note])
          && cards == old(cards) + [Card(note, true)]
          && titleInput == "" && contentInput == ""
        else
          slot == old(slot) && cards == old(cards)
          && titleInput == old(titleInput) && contentInput == old(contentInput)
      ensures old(Synced()) ==> Synced()
      ensures old(Clean()) ==> Clean()
    {
      var title := Trim(titleInput);
      var content := Trim(contentInput);
      if title != [] || content != [] {
        var note := MakeNote(titleInput, contentInput, newId);
        var read := ReadSlot(slot);
        if read.Some? && writable {
          ghost var wasSynced, wasClean := Synced(), Clean();
          ghost var before := cards;
          slot := Stored(read.value + [note]);
          AddCard(note);
          ResetForm();
          if wasSynced {
            NotesOfAppend(before, Card(note, true));
          }
          if wasClean {
            AppendWellFormed(read.value, note);
          }
        }
      }
    }

    /** `handleDocumentClick`: a click outside the note form saves it, one inside does nothing. */
    method Click(insideForm: bool, newId: int, writable: bool)
      modifies this
      ensures insideForm ==>
        slot == old(slot) && cards == old(cards)
        && titleInput == old(titleInput) && contentInput == old(contentInput)
      ensures !insideForm ==> var read := ReadSlot(old(slot));
        if Savable(old(titleInput), old(contentInput)) && read.Some? && writable then
          var note := Note(Trim(old(titleInput)), Trim(old(contentInput)), newId);
          && slot == Stored(read.value + [note])
          && cards == old(cards) + [Card(note, true)]
          && titleInput == "" && contentInput == ""
        else
          slot == old(slot) && cards == old(cards)
          && titleInput == old(titleInput) && contentInput == old(contentInput)
      ensures old(Synced()) ==> Synced()
      ensures old(Clean()) ==> Clean()
    {
      if !insideForm {
        Save(newId, writable);
      }
    }

    /** `deleteNote`: when storage can be read and written, every note with this id is
        dropped from storage and the container is rebuilt from storage, which discards any
        search state; otherwise nothing changes. */
    method Delete(id: int, writable: bool)
      modifies this
      ensures titleInput == old(titleInput) && contentInput == old(contentInput)
      ensures var read := ReadSlot(old(slot));
        if read.Some? && writable then
          && slot == Stored(RemoveById(read.value, id))
          && cards == CardsOf(RemoveById(read.value, id))
        else
          slot == old(slot) && cards == old(cards)
      ensures old(Synced()) ==> Synced()
      ensures old(Clean()) ==> Clean()
    {
      var read := ReadSlot(slot);
      if read.Some? && writable {
        ghost var wasClean := Clean();
        var remaining := RemoveById(read.value, id);
        StoreAndReload(remaining);
        if wasClean {
          RemoveByIdWellFormed(read.value, id);
        }
      }
    }

    /** The tail of `deleteNote`: writes `notes` to storage, empties the container and
        loads it again from storage. */
    method StoreAndReload(notes: seq<Note>)
      modifies this
      ensures titleInput == old(titleInput) && contentInput == old(contentInput)
      ensures slot == Stored(notes) && cards == CardsOf(notes)
      ensures Synced()
    {
      slot := Stored(notes);
      cards := [];
      Load();
      assert [] + CardsOf(notes) == CardsOf(notes);
      NotesOfCardsOf(notes);
    }

    /** A press on the delete button of the card at position `k`. The button's own listener
        deletes by that card's note id (`deleteNote`, with `deleteWritable` telling whether its
        write succeeds). The click then bubbles up to the document listener; the button is not
        inside the note form, so the form is saved as after any outside click (with `newId`
        and `saveWritable`). When the cards mirror storage, the press removes at least one
        stored note. */
    method ClickDelete(k: nat, newId: int, deleteWritable: bool, saveWritable: bool)
      requires k < |cards|
      modifies this
      ensures var id := old(cards[k]).note.id;
        var read := ReadSlot(old(slot));
        var deleted := read.Some? && deleteWritable;
        var slot1 := if deleted then Stored(RemoveById(read.value, id)) else old(slot);
        var cards1 := if deleted then CardsOf(RemoveById(read.value, id)) else old(cards);
        var read1 := ReadSlot(slot1);
        if Savable(old(titleInput), old(contentInput)) && read1.Some? && saveWritable then
          var note := Note(Trim(old(titleInput)), Trim(old(contentInput)), newId);
          && slot == Stored(read1.value + [note])
          && cards == cards1 + [Card(note, true)]
          && titleInput == "" && contentInput == ""
        else
          slot == slot1 && cards == cards1
          && titleInput == old(titleInput) && contentInput == old(contentInput)
      ensures old(Synced()) && ReadSlot(old(slot)).Some? && deleteWritable ==>
        |RemoveById(ReadSlot(old(slot)).value, old(cards[k]).note.id)| < |ReadSlot(old(slot)).value|
      ensures old(Synced()) ==> Synced()
      ensures old(Clean()) ==> Clean()
    {
      var id := cards[k].note.id;
      if Synced() && ReadSlot(slot).Some? {
        assert NotesOf(cards)[k] == cards[k].note;
        RemovePresentShrinks(ReadSlot(slot).value, cards[k].note);
      }
      Delete(id, deleteWritable);
      Click(false, newId, saveWritable);
    }

    /** `filterNotes` (and the search box's input handler): each card becomes visible
        exactly when it matches the query; storage, the form, the number and order of the
        cards and their notes are untouched. */
    method Filter(query: string)
      modifies this
      ensures slot == old(slot) && titleInput == old(titleInput) && contentInput == old(contentInput)
      ensures |cards| == |old(cards)|
      ensures forall k :: 0 <= k < |cards| ==>
        cards[k].note == old(cards)[k].note && (cards[k].visible <==> Matches(cards[k].note, query))
      ensures NotesOf(cards) == NotesOf(old(cards))
      ensures old(Synced()) ==> Synced()
      ensures old(Clean()) ==> Clean()
    {
      var i := 0;
      while i < |cards|
        invariant 0 <= i <= |cards| == |old(cards)|
        invariant slot == old(slot) && titleInput == old(titleInput) && contentInput == old(contentInput)
        invariant forall k :: 0 <= k < |cards| ==> cards[k].note == old(cards)[k].note
        invariant forall k :: 0 <= k < i ==> (cards[k].visible <==> Matches(cards[k].note, query))
      {
        var card := cards[i];
        cards := cards[i := card.(visible := Matches(card.note, query))];
        i := i + 1;
      }
      assert NotesOf(cards) == NotesOf(old(cards));
    }
  }
}
