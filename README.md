# Quick-Notes: a verified model of the note lifecycle

Quick-Notes is a browser note widget. A note has a title, a content and a numeric id, which
is its creation time in milliseconds. Notes live as a JSON list in the `notes` slot of
`localStorage`. Each note is shown as a card in `#notesContainer`. The only logic in the
widget is in `script.js`, and this project models it:

- **Saving.** A click anywhere outside the note form saves it. Both fields are trimmed. If
  either trimmed field is non-empty, the note is appended to storage and shown as a new
  visible card, and the form is cleared.
- **Deleting.** The delete button on a card removes every stored note with that card's id.
  The container is then rebuilt from storage.
- **Searching.** Each keystroke in the search box shows the cards whose title or content
  contains the query, ignoring case, and hides the others. Storage is not touched.
- **Loading.** When the page loads, one card is rendered per stored note. A missing slot gives
  no cards. So does a slot that cannot be parsed, and no error escapes.

## Modules

- `Text` (`text.dfy`) models the string built-ins the widget calls. `Trim` is
  `String.prototype.trim`, written as a scan from each end; it removes ECMAScript whitespace
  and line terminators. `Lower` is `toLowerCase`, ASCII letters only. `Includes` is
  `String.prototype.includes`, proved against an independent definition of "is a slice of",
  `IsInfix`.
- `Notes` (`notes.dfy`) holds the entities as datatypes: `Note`, `Card` (a note plus its
  visible flag) and `Slot`. A `Slot` is `Missing`, `Unreadable` or `Stored(notes)`. It also
  holds the pure rules: which input may be saved (`Savable`, `MakeNote`), the `filter` by id
  (`RemoveById`) and the search test (`Matches`), each with its lemmas.
- `App` (`app.dfy`) holds the class `NotesApp`. Its fields are the things the handlers change:
  the storage slot, the cards in display order, and the two form fields. Each event handler is
  a method. Its postcondition gives the whole new state in terms of the old one. It also
  preserves two invariants: `Synced` (when storage can be read, the cards show exactly the
  stored notes, in order; otherwise there are no cards) and `Clean` (every stored note is
  trimmed and not blank).
- `Scenarios` (`scenarios.dfy`) holds client methods. They drive the class through
  example scenarios, using the methods' contracts only:
  - saving a note with nothing to trim, such as "Groceries"/"milk", into an empty store with
    an outside click;
  - clicks inside the form, and whitespace-only input, saving nothing;
  - a search for "x" hiding {"B","y"} and keeping {"A","x"};
  - deleting the first of two notes;
  - pressing the only card's delete button while the form holds "T", which deletes the
    card's note and then saves "T";
  - an unreadable slot at startup.

The storage slot has three cases because the source treats them differently:

- `Missing`: `JSON.parse(localStorage.getItem('notes')) || []` yields `[]`. This covers a
  missing slot, and also text that parses to a falsy value.
- `Unreadable`: reading throws. This covers text that is not JSON, and truthy JSON that is
  not an array, where the next list operation would throw.
- `Stored(notes)`: a list of notes.

Load catches the exception and renders nothing, but Save and Delete are aborted by it. The
`writable` parameter of `Save` and `Delete` says whether `localStorage.setItem` succeeds.
When it fails, the exception skips the rest of the handler, so nothing changes.

The code behaves as follows, which a reader might not expect:

- Ids are not checked for uniqueness. Two notes saved in the same millisecond share an id, and
  one delete removes both. `RemoveById`'s contract says so.
- A failed read or write in `saveNote` adds no card and does not clear the form. It is not a
  best-effort save with the display already updated.
- One malformed slot discards the whole list. There is no per-record recovery.
- A card added by a save is visible even while a search is active. `addNoteToDOM` does not
  re-apply the filter.
- A press on a card's delete button is also a click on the document. The button's listener
  deletes the note (script.js:108), and the click then bubbles to the document listener
  (script.js:41). The button is not inside the note form, so `saveNote` runs too
  (script.js:51-52): whatever the form holds is saved right after the delete.

## Model

| member | source | states |
|---|---|---|
| `Text.AsciiSpaces` | script.js:70-71 | among ASCII characters, `trim` removes exactly tab, line feed, vertical tab, form feed, carriage return and space |
| `Text.SkipForward` | script.js:70-71 | the first position at or after `i` that is not whitespace; everything skipped is whitespace |
| `Text.SkipBackward` | script.js:70-71 | the end of the last non-whitespace character before `j` and not below `lo`; everything skipped is whitespace |
| `Text.Trim` | script.js:70-71 | `trim` removes whitespace, and only whitespace, from both ends; the result is empty iff the input is all whitespace, and otherwise neither starts nor ends with whitespace |
| `Text.TrimFixedPoints` | script.js:70-71 | `Trim(s) == s` iff `s` has no surrounding whitespace |
| `Text.TrimIdempotent` | script.js:70-71 | trimming an already-trimmed field changes nothing |
| `Text.LowerChar` | script.js:133-136 | upper-case ASCII letters map to their lower-case forms; other characters are unchanged |
| `Text.Lower` | script.js:133-136 | `toLowerCase` keeps the length and lowers each character |
| `Text.LowerIdempotent` | script.js:133-136 | lower-casing twice is lower-casing once |
| `Text.Includes` | script.js:136 | `includes` is true iff the query is a contiguous slice of the text |
| `Text.IncludesEmpty` | script.js:136 | the empty string is included in every string |
| `Notes.ReadSlot` | script.js:32 | reading the slot fails exactly when it is unreadable; a missing slot reads as the empty list, a stored one as its notes |
| `Notes.Savable` | script.js:73 | the form may be saved iff at least one field holds a character other than whitespace |
| `Notes.MakeNote` | script.js:70-74 | a saved note's title and content are exactly the form fields with surrounding whitespace stripped; they are trimmed, at least one is non-empty, and the id is the supplied one |
| `Notes.RemoveById` | script.js:118 | `filter(note => note.id !== id)` keeps exactly the notes with another id, and no more of them than there were |
| `Notes.RemoveByIdCounts` | script.js:118 | every note with another id is kept as many times as it occurred; none with this id survives |
| `Notes.RemoveByIdAppend` | script.js:118 | removal distributes over concatenation, so the relative order of kept notes is preserved |
| `Notes.RemoveByIdAbsent` | script.js:118 | deleting an id no note carries leaves the list unchanged |
| `Notes.RemoveByIdIdempotent` | script.js:118 | deleting the same id twice gives the same list as deleting it once |
| `Notes.RemoveByIdCommutes` | script.js:118 | deleting two ids in either order gives the same list |
| `Notes.RemoveByIdUndoesAppend` | script.js:115-119 | deleting a just-saved note whose id is new gives back the list from before the save |
| `Notes.RemovePresentShrinks` | script.js:118 | deleting the id of a note that is in the list removes at least one note |
| `Notes.AppendWellFormed` | script.js:76-77 | appending a saved note keeps every stored note trimmed and non-blank |
| `Notes.Matches` | script.js:133-136 | a card matches iff the lower-cased query is a contiguous slice of the lower-cased title or of the lower-cased content |
| `Notes.MatchesEmptyQuery` | script.js:136 | the empty query shows every card |
| `Notes.MatchesInfix` | script.js:133-136 | a query occurring verbatim in the title or the content matches |
| `Notes.MatchesIgnoresQueryCase` | script.js:136 | the search result does not depend on the case of the query |
| `Notes.MatchesIgnoresNoteCase` | script.js:133-134 | the search result does not depend on the case of the note's text |
| `Notes.CardsOf` | script.js:32-33 | loading renders one visible card per note, in stored order |
| `Notes.NotesOf` | script.js:130 | the notes behind the cards, in document order |
| `App.Loaded` | script.js:30-36 | loading into an empty container gives visible cards whose notes are exactly the stored list; an unreadable slot gives no cards |
| `App.NotesApp.constructor` | script.js:1-9 | after page load the form is empty, the cards are those loaded from the slot, and the cards mirror storage |
| `App.NotesApp.Load` | script.js:30-37 | appends one visible card per stored note in order; an unreadable slot adds nothing and nothing else changes |
| `App.NotesApp.AddCard` | script.js:88-112 | appends one visible card for the note and changes nothing else |
| `App.NotesApp.ResetForm` | script.js:62-66 | both form fields become empty; storage and cards are unchanged |
| `App.NotesApp.Save` | script.js:69-85 | blank input, an unreadable slot or a failed write change nothing, form included; otherwise the trimmed note with the new id is appended to storage and as a visible card, and the form is cleared; both invariants are preserved |
| `App.NotesApp.Click` | script.js:49-54 | a click inside the form changes nothing; a click outside it behaves exactly as a save |
| `App.NotesApp.Delete` | script.js:115-125 | when storage can be read and written, storage becomes the old list without the id's notes, and the cards are exactly those notes, all visible, in order; otherwise nothing changes; the form is untouched |
| `App.NotesApp.StoreAndReload` | script.js:119-121 | after the write and the reload, storage holds the list and the cards mirror it |
| `App.NotesApp.ClickDelete` | script.js:41-54 | a press on a card's delete button first deletes by that card's note id, then, as the click bubbles to the document from outside the form, saves the form exactly as `Save` does on the state the delete left; when the cards mirror readable storage and the delete's write succeeds, at least one stored note is removed; both invariants are preserved |
| `App.NotesApp.Filter` | script.js:128-144 | each card is visible iff it matches the query; storage, the form, the number and order of the cards and their notes are unchanged |
| `Scenarios.GroceriesTrimmed` | script.js:70-71 | the example note "Groceries"/"milk" has nothing to trim |
| `Scenarios.SearchExample` | script.js:133-136 | the query "x" matches {"A","x"} and not {"B","y"} |

## Left out

- Masonry layout (`initMasonry`, `updateMasonryLayout`) and textarea auto-sizing
  (`initAutosize`, `autosize.update`): these are third-party layout calls, and they are not
  observable in the model's state.
- Undo and redo (script.js:42-43): they are passed to `document.execCommand` and handled by
  the browser.
- The JSON text format: the slot is modelled by what parsing yields. Records inside a list
  are assumed to be well-typed notes. A `null` record makes `note.title` throw half-way
  through rendering (script.js:95). A number, string or boolean record renders a card reading
  "undefined". Neither is modelled.
- `Date.now()`: the id is passed in as `newId`. Id uniqueness is not assumed.
- Failures of `localStorage.setItem`, such as a full quota: they are a `writable` parameter,
  not a modelled storage capacity.
- The card's HTML template and the inert reminder, collaborator, palette, image and archive
  buttons (script.js:92-107). A card's text is taken to be its note's title and content. The
  source inserts the title as HTML, so `textContent` can differ from it when the title holds
  markup.
- Listener registration, `DOMContentLoaded` wiring and `console.error` logging: these are
  event and I/O plumbing. `handleSearchInput` (script.js:57-59) only passes the search box's
  value to `filterNotes`, so `Filter` stands for both.
- Other browser tabs writing the same slot: the model has one writer.
- Text.Lower: maps only the ASCII letters A-Z. JavaScript's `toLowerCase` also lowers
  non-ASCII letters and can change a string's length. So for non-ASCII text, `Matches`
  differs from the source in both directions: it misses case variants the source folds, and
  it cannot reproduce context rules such as the final sigma ("ΑΣ" lower-cases to "ας").
- Text.Trim: the whitespace set is ECMAScript's WhiteSpace and LineTerminator, with the
  Unicode space separators listed as of current Unicode. A later Unicode version that adds
  separators is not tracked.
