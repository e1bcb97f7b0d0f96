/** The note records, the storage slot holding them, the cards that display them and the
    pure rules the widget applies to them: which input may become a note, removal by id
    and the search predicate. */
module Notes {
  import opened Text

  datatype Option<T> = None | Some(value: T) {
    /** The value, or `default` when there is none. */
    function GetOr(default: T): T {
      match this
      case Some(v) => v
      case None => default
    }
  }

  /** A stored note. `id` is the creation timestamp in milliseconds. */
  datatype Note = Note(title: string, content: string, id: int)

  /** A display card for a note; `visible` is false when a search has hidden it. */
  datatype Card = Card(note: Note, visible: bool)

  /** What the `notes` storage slot holds, as far as the widget can tell:
      - `Missing`: no slot, or text that parses to a falsy value (`null`, `0`, `""`, `false`);
        `JSON.parse(...) || []` turns it into the empty list;
      - `Unreadable`: text that does not parse, or parses to something that is not an array,
        so that the first list operation on it throws;
      - `Stored(notes)`: a list of notes. */
  datatype Slot = Missing | Unreadable | Stored(notes: seq<Note>)

  /** `JSON.parse(localStorage.getItem('notes')) || []`: the list, or `None` when that line,
      or the list operation right after it, throws. Only an unreadable slot fails; a missing
      one reads as the empty list. */
  function ReadSlot(slot: Slot): (r: Option<seq<Note>>)
    ensures r.None? <==> slot == Unreadable
    ensures r.Some? ==> r.value == (if slot.Stored? then slot.notes else [])
  {
    match slot
    case Missing => Some([])
    case Unreadable => None
    case Stored(notes) => Some(notes)
  }

  /** Input that `saveNote` turns into a note: at least one of the two fields has a
      character other than whitespace. */
  function Savable(title: string, content: string): (r: bool)
    ensures r <==> !(AllSpace(title) && AllSpace(content))
  {
    Trim(title) != [] || Trim(content) != []
  }

  /** The note `saveNote` builds from the two form fields. */
  function MakeNote(title: string, content: string, id: int): (n: Note)
    requires Savable(title, content)
    ensures WellFormed(n) && n.id == id
    ensures StripsSpace(title, n.title) && StripsSpace(content, n.content)
  {
    Note(Trim(title), Trim(content), id)
  }

  /** A note as `saveNote` creates it: both fields trimmed, at least one of them not empty. */
  predicate WellFormed(n: Note) {
    Trimmed(n.title) && Trimmed(n.content) && (n.title != [] || n.content != [])
  }

  predicate AllWellFormed(notes: seq<Note>) {
    forall n :: n in notes ==> WellFormed(n)
  }

  /** `notes.filter(note => note.id !== id)`. */
  function RemoveById(notes: seq<Note>, id: int): (r: seq<Note>)
    ensures |r| <= |notes|
    ensures forall n :: n in r <==> n in notes && n.id != id
  {
    if notes == [] then []
    else
      var rest := RemoveById(notes[1..], id);
      if notes[0].id == id then rest else [notes[0]] + rest
  }

  /** Removal keeps every note with another id as often as it occurred, and none with this id. */
  lemma {:induction false} RemoveByIdCounts(notes: seq<Note>, id: int, n: Note)
    ensures multiset(RemoveById(notes, id))[n] == if n.id == id then 0 else multiset(notes)[n]
  {
    if notes != [] {
      RemoveByIdCounts(notes[1..], id, n);
      assert notes == [notes[0]] + notes[1..];
    }
  }

  /** Removal keeps the relative order: removing from a concatenation removes from each part. */
  lemma {:induction false} RemoveByIdAppend(a: seq<Note>, b: seq<Note>, id: int)
    ensures RemoveById(a + b, id) == RemoveById(a, id) + RemoveById(b, id)
  {
    if a != [] {
      assert (a + b)[1..] == a[1..] + b;
      RemoveByIdAppend(a[1..], b, id);
    } else {
      assert a + b == b;
    }
  }

  /** Removing an id that no note carries changes nothing. */
  lemma {:induction false} RemoveByIdAbsent(notes: seq<Note>, id: int)
    requires forall k :: 0 <= k < |notes| ==> notes[k].id != id
    ensures RemoveById(notes, id) == notes
  {
    if notes != [] {
      RemoveByIdAbsent(notes[1..], id);
      assert notes == [notes[0]] + notes[1..];
    }
  }

  /** Removal is idempotent: removing the same id twice is removing it once. */
  lemma {:induction false} RemoveByIdIdempotent(notes: seq<Note>, id: int)
    ensures RemoveById(RemoveById(notes, id), id) == RemoveById(notes, id)
  {
    var r := RemoveById(notes, id);
    forall k | 0 <= k < |r| ensures r[k].id != id {
      assert r[k] in r;
    }
    RemoveByIdAbsent(r, id);
  }

  /** Removing the id of a note that is present makes the list strictly shorter. */
  lemma {:induction false} RemovePresentShrinks(notes: seq<Note>, n: Note)
    requires n in notes
    ensures |RemoveById(notes, n.id)| < |notes|
  {
    if notes[0] != n {
      RemovePresentShrinks(notes[1..], n);
    }
  }

  /** Removals of two ids may be done in either order. */
  lemma {:induction false} RemoveByIdCommutes(notes: seq<Note>, x: int, y: int)
    ensures RemoveById(RemoveById(notes, x), y) == RemoveById(RemoveById(notes, y), x)
  {
    if notes != [] {
      RemoveByIdCommutes(notes[1..], x, y);
    }
  }

  /** Deleting the note just appended, when its id is new, gives back the list before the append. */
  lemma {:induction false} RemoveByIdUndoesAppend(notes: seq<Note>, n: Note)
    requires forall k :: 0 <= k < |notes| ==> notes[k].id != n.id
    ensures RemoveById(notes + [n], n.id) == notes
  {
    RemoveByIdAppend(notes, [n], n.id);
    RemoveByIdAbsent(notes, n.id);
    assert RemoveById([n], n.id) == [];
  }

  /** Removal keeps every remaining note well formed. */
  lemma RemoveByIdWellFormed(notes: seq<Note>, id: int)
    requires AllWellFormed(notes)
    ensures AllWellFormed(RemoveById(notes, id))
  {
  }

  /** Appending a well-formed note keeps every stored note well formed. */
  lemma AppendWellFormed(notes: seq<Note>, n: Note)
    requires AllWellFormed(notes) && WellFormed(n)
    ensures AllWellFormed(notes + [n])
  {
  }

  /** The test `filterNotes` applies to one card: the lower-cased query occurs in the
      lower-cased title or in the lower-cased content. */
  function Matches(n: Note, query: string): (visible: bool)
    ensures visible <==> IsInfix(Lower(query), Lower(n.title)) || IsInfix(Lower(query), Lower(n.content))
  {
    Includes(Lower(n.title), Lower(query)) || Includes(Lower(n.content), Lower(query))
  }

  /** The empty query matches every note. */
  lemma MatchesEmptyQuery(n: Note)
    ensures Matches(n, "")
  {
    IncludesEmpty(Lower(n.title));
  }

  /** A query that occurs verbatim in the title or the content matches. */
  lemma {:induction false} MatchesInfix(n: Note, query: string)
    requires IsInfix(query, n.title) || IsInfix(query, n.content)
    ensures Matches(n, query)
  {
    if IsInfix(query, n.title) {
      var i, j :| 0 <= i <= j <= |n.title| && n.title[i..j] == query;
      LowerSlice(n.title, i, j);
      assert Lower(n.title)[i..j] == Lower(query);
    } else {
      var i, j :| 0 <= i <= j <= |n.content| && n.content[i..j] == query;
      LowerSlice(n.content, i, j);
      assert Lower(n.content)[i..j] == Lower(query);
    }
  }

  /** Matching ignores the case of the query. */
  lemma MatchesIgnoresQueryCase(n: Note, query: string)
    ensures Matches(n, Lower(query)) == Matches(n, query)
  {
    LowerIdempotent(query);
  }

  /** Matching ignores the case of the note's text. */
  lemma MatchesIgnoresNoteCase(n: Note, query: string)
    ensures Matches(Note(Lower(n.title), Lower(n.content), n.id), query) == Matches(n, query)
  {
    LowerIdempotent(n.title);
    LowerIdempotent(n.content);
  }

  /** The cards `loadNotes` creates for a list of notes: one per note, in order, all visible. */
  function CardsOf(notes: seq<Note>): (r: seq<Card>)
    ensures |r| == |notes|
    ensures forall k :: 0 <= k < |notes| ==> r[k].note == notes[k] && r[k].visible
  {
    if notes == [] then [] else [Card(notes[0], true)] + CardsOf(notes[1..])
  }

  /** The notes behind a list of cards, in display order. */
  function NotesOf(cards: seq<Card>): (r: seq<Note>)
    ensures |r| == |cards|
    ensures forall k :: 0 <= k < |cards| ==> r[k] == cards[k].note
  {
    if cards == [] then [] else [cards[0].note] + NotesOf(cards[1..])
  }

  /** Rendering a list of notes and reading the notes back from the cards gives the same list. */
  lemma NotesOfCardsOf(notes: seq<Note>)
    ensures NotesOf(CardsOf(notes)) == notes
  {
  }

  /** Appending a card appends its note. */
  lemma NotesOfAppend(cards: seq<Card>, c: Card)
    ensures NotesOf(cards + [c]) == NotesOf(cards) + [c.note]
  {
  }
}
