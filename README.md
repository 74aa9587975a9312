# Kanban board: card list, moves and drag-and-drop

This project models the core of a small browser kanban board (eugeshha/dnd).
The board has columns and cards, and each card has an `id`, a `text` and the
`column` it belongs to. The board keeps every card of every column in one
ordered list. A column's cards are the cards of that list labelled with it,
in list order.

Two implementations of the same board live side by side, and both are
modelled:

- **`CardManager` plus `DragAndDrop`** (`src/js/CardManager.js`,
  `src/js/DragAndDrop.js`).
  - `CardManager` owns the list. It adds, deletes and moves cards, and it
    saves the list after each change.
  - A move takes the card out, and puts the target column's cards back at
    the end of the list with the card spliced in at the clamped index.
  - `DragAndDrop` follows the pointer. It works out the drop target from the
    column and card rectangles, and on release asks `CardManager` to move
    the card.
- **`TrelloBoard`** (`src/js/app.js`), an older self-contained variant.
  - It keeps the list itself and splices the card into the whole list in
    place.
  - A scan loop finds the global insertion point.

Modules:

| file | module | models |
|---|---|---|
| `options.dfy` | `Options` | an `Option` type (for `null` / `-1` results) |
| `cards.dfy` | `Cards` | the card record, the three `filter` tests the source uses, `findIndex`, `splice`, and their lemmas |
| `text.dfy` | `Text` | `String.prototype.trim` (ECMAScript white space and line terminators) |
| `dom.dfy` | `Dom` | points, rectangles, card and column boxes, and the drop-target rule of `getDropTarget` as a function |
| `board_state.dfy` | `BoardState` | `src/js/CardManager.js`: the move as a function, and the class |
| `pointer_drag.dfy` | `PointerDrag` | `src/js/DragAndDrop.js`: the class and its `getDropTarget` loop |
| `legacy_app.dfy` | `LegacyApp` | `src/js/app.js`: the `TrelloBoard` class, its move as a function, and its scan loop |

How the source's mutable state is modelled:

- The card array becomes a `seq<Card>` field that the methods reassign.
- Persistence (`storage.save`, `localStorage.setItem`) becomes two ghost
  fields.
  - `stored` is the last saved snapshot.
  - `saveCount` counts the saves.
  - `Valid()` says the saved snapshot is the live list. Contracts can then
    say both "saves" and "does not save".
- `DragAndDrop`'s `onCardMoved` callback becomes a ghost `notifications`
  counter. The constant `notifyOnMove` says whether a callback was
  supplied.
- The page's layout (column and card rectangles, which children are
  placeholders or the dragged card) is an input value of type
  `seq<ColumnBox>`.
- The pointer is a `Point`.

Every loop of the source that these operations run is a method proved
against a specification function:

- Both `getDropTarget` loops are proved against `Dom.ResolveDrop`.
- The scan in `TrelloBoard.moveCard` is proved against
  `LegacyApp.ScanSlot`.

The lemmas state what a move does to the columns:

- where the moved card lands;
- that the other columns keep their cards and order;
- that the list length is kept;
- what dropping a card onto its own place does.

### Behaviour of the code worth knowing

- `Storage.load` (`src/js/Storage.js:8`) and `TrelloBoard.loadFromStorage`
  pass the saved text to `JSON.parse` without a `try`, so a corrupt saved
  value makes loading throw.
- `deleteCard` keeps the cards whose id differs, so it removes every card
  with the id. `BoardState.DeleteRemovesOne` shows that exactly one card
  goes when the ids are unique.
- `TrelloBoard.moveCard` takes `min(targetIndex, count)` as its insertion
  index and has no lower bound for a negative target index.
- Dropping below the last card of a non-empty column (insertion index equal
  to the column's size) makes the scan find no slot. The fallback at
  `src/js/app.js:259` does not fire either, so the card is spliced in at
  index 0 of the whole list and becomes the first card of its column.
  - `LegacyApp.LegacyAppendLandsFirst` states this.
  - `LegacyApp.LegacyAppendExample` shows it on three cards.
- `DragAndDrop.startDrag` has no guard against a drag already in progress.
  A second `StartDrag` overwrites the drag state.

## Model

| member | source | states |
|---|---|---|
| Cards.Filter | src/js/CardManager.js:37 | the filtered list is no longer than the input, every card in it passes the test, and it is the input itself when every card passes |
| Cards.FilterMembers | src/js/CardManager.js:46 | a card is in the filtered list exactly when it is in the input and passes the test |
| Cards.FilterSplit | src/js/CardManager.js:37-47 | the cards in a column and the cards outside it together account for every card of the list |
| Cards.FindIndex | src/js/CardManager.js:24-25 | none exactly when no card has the id, otherwise the first index holding a card with that id |
| Cards.RemoveAt | src/js/CardManager.js:35 | `splice(k, 1)`: one shorter, cards before k unchanged, cards after k shifted down by one |
| Cards.InsertAt | src/js/CardManager.js:44 | `splice(k, 0, x)`: one longer, x at k, cards before k unchanged, cards from k shifted up by one |
| Cards.FilterInsertAt | src/js/app.js:263 | splicing a card of a column into the whole list splices it into that column's list at the number of column cards before the splice point |
| Cards.FilterInsertFailing | src/js/app.js:263 | splicing a card of another column into the whole list leaves a column's list unchanged |
| BoardState.ClampIndex | src/js/CardManager.js:39-42 | the insertion index lies in `[0, n]`, equals the target index when that lies in range, and is 0 below and n above |
| BoardState.Moved | src/js/CardManager.js:23-51 | the move fails (none) exactly when no card has the id |
| BoardState.MoveKeepsLength | src/js/CardManager.js:35-47 | a successful move keeps the number of cards |
| BoardState.MoveLandsCard | src/js/CardManager.js:27-44 | the target column's list after the move is its old list without the card, with the card (same id and text, new column) inserted at the clamped index |
| BoardState.MoveKeepsOtherColumns | src/js/CardManager.js:37-47 | every column other than the target has the same cards in the same order as after removing the moved card |
| BoardState.MoveGroupsTargetLast | src/js/CardManager.js:46-47 | after a move the cards of other columns come first and the target column's cards form the tail of the list |
| BoardState.MoveToOwnPlace | src/js/CardManager.js:23-51 | moving a card to its own column at its current position leaves every column's list as it was |
| BoardState.MoveExample | src/js/CardManager.js:23-51 | moving the second of two `todo` cards to index 0 gives the two cards in swapped order |
| BoardState.DeleteKeepsOthers | src/js/CardManager.js:18-20 | delete keeps exactly the cards with another id, changes nothing when the id is absent, and keeps each column's order |
| BoardState.DeleteRemovesOne | src/js/CardManager.js:19 | with unique ids and the id present, delete removes exactly one card |
| BoardState.CardManager.constructor | src/js/CardManager.js:2-5 | the manager starts with the loaded cards, in step with storage, with no save yet |
| BoardState.CardManager.Save | src/js/CardManager.js:57-59 | the cards are written to storage (snapshot equals the list) and nothing else changes |
| BoardState.CardManager.AddCard | src/js/CardManager.js:7-16 | returns the new card and appends it at the end of the list, then saves |
| BoardState.CardManager.DeleteCard | src/js/CardManager.js:18-21 | the list becomes the cards with another id, then saves |
| BoardState.CardManager.MoveCard | src/js/CardManager.js:23-51 | reports success exactly when the id is present; on success the list is `Moved`'s result and is saved once; otherwise list, storage and save count are unchanged |
| BoardState.CardManager.GetAllCards | src/js/CardManager.js:53-55 | returns the current list |
| Dom.Candidates | src/js/DragAndDrop.js:93-97 | a child is kept exactly when it is neither the placeholder nor the dragged card; nothing is kept when all are flagged, and the list is unchanged when none is |
| Dom.CandidatesConcat | src/js/DragAndDrop.js:93-97 | the filter distributes over concatenation, so kept children stay in document order |
| Dom.SlotBelow | src/js/DragAndDrop.js:106-125 | the first card whose vertical centre lies below the pointer, or the number of cards when there is none |
| Dom.FirstAccepting | src/js/DragAndDrop.js:82-91 | the first column whose rectangle contains the point and that has a cards container |
| Dom.TargetIn | src/js/DragAndDrop.js:90-125 | the target names the column, and its index is at most the number of candidate cards |
| Dom.ResolveDrop | src/js/DragAndDrop.js:79-130 | no target exactly when no column both contains the point and has a container; otherwise the target of the first such column |
| Dom.OutsideMeansNoTarget | src/js/DragAndDrop.js:84-129 | a point outside every column's rectangle has no drop target |
| Dom.DropIndexInRange | src/js/DragAndDrop.js:99-125 | a drop target's index lies between 0 and the number of candidate cards of its column |
| Dom.SlotBelowExample | src/js/DragAndDrop.js:106-125 | for three cards centred at 50, 150 and 250, pointer heights 40, 160 and 400 give slots 0, 2 and 3 |
| PointerDrag.CardTracksPointer | src/js/DragAndDrop.js:36-66 | on press the card stays where it was, and later it keeps the grab offset from the pointer |
| PointerDrag.GetDropTarget | src/js/DragAndDrop.js:79-130 | the loop returns exactly `ResolveDrop`'s target |
| PointerDrag.ColumnTarget | src/js/DragAndDrop.js:90-125 | the card loop and the trailing last-card test give exactly `TargetIn`: the first card whose centre lies below the pointer, or the number of cards |
| PointerDrag.DragAndDrop.constructor | src/js/DragAndDrop.js:2-12 | a new controller is idle, with no notification sent |
| PointerDrag.DragAndDrop.StartDrag | src/js/DragAndDrop.js:31-53 | records the card, its column, its index among its siblings, the grab offset and height; the drag is on and the card is placed at its own corner |
| PointerDrag.DragAndDrop.UpdateCardPosition | src/js/DragAndDrop.js:63-66 | called only while a card is held; the card is placed at the pointer minus the grab offset |
| PointerDrag.DragAndDrop.Drag | src/js/DragAndDrop.js:55-61 | does nothing unless dragging; otherwise remembers the event, moves the card and shows `ResolveDrop`'s target |
| PointerDrag.DragAndDrop.EndDrag | src/js/DragAndDrop.js:186-211 | ends idle; with no release point or no target the cards are untouched; otherwise the manager's cards follow `Moved`; after a successful move they are saved once (the snapshot equals the new list), after a failed one the snapshot and save count stay as they were; one notification goes out when the move succeeded and a callback exists |
| PointerDrag.DragAndDrop.ResetDragState | src/js/DragAndDrop.js:213-236 | clears every drag field; the controller is idle |
| LegacyApp.NthInColumn | src/js/app.js:249-257 | the global index of a column's j-th card: it holds a card of that column with j column cards before it |
| LegacyApp.ScanInsertPosition | src/js/app.js:246-261 | the loop's result equals `ScanSlot`: before the insertIndex-th column card, the list's length when the column is too short, and 0 otherwise |
| LegacyApp.InsertIndex | src/js/app.js:243-244 | the insertion index equals the target index when that is at most the column's size, and the size otherwise |
| LegacyApp.LegacyMoved | src/js/app.js:219-267 | the list keeps its length, and is unchanged when the id is absent or the card already sits at the target |
| LegacyApp.LegacyMoveKeepsOthers | src/js/app.js:235-263 | the card (same id and text, new column) lands at one index, and removing it gives the list with the original card removed |
| LegacyApp.LegacyMovePosition | src/js/app.js:241-263 | the target column's list is its old list with the card inserted at the insertion index when that is in range, and at 0 otherwise |
| LegacyApp.LegacyMoveKeepsOtherColumns | src/js/app.js:241-263 | every other column keeps its cards in order |
| LegacyApp.LegacyAppendLandsFirst | src/js/app.js:249-263 | a drop at or past the end of a non-empty column puts the card at index 0 of the list, first in its column |
| LegacyApp.LegacyOwnPlaceUnchanged | src/js/app.js:227-233 | moving a card to its own column at its current position changes nothing |
| LegacyApp.LegacyAppendExample | src/js/app.js:243-263 | with `todo` cards a, b and `done` card c, dropping c at `todo` index 2 gives the list c, a, b |
| LegacyApp.GetDropTarget | src/js/app.js:107-139 | the loop returns exactly `ResolveDrop`'s target |
| LegacyApp.ColumnTarget | src/js/app.js:115-134 | the card loop gives exactly `TargetIn`: the first card whose centre lies below the pointer, or the number of cards |
| LegacyApp.TrelloBoard.constructor | src/js/app.js:2-10 | the board starts idle with the loaded cards and no save |
| LegacyApp.TrelloBoard.SaveToStorage | src/js/app.js:350-352 | the cards are written to storage and nothing else changes |
| LegacyApp.TrelloBoard.StartDrag | src/js/app.js:64-81 | records the card, its column, its index among its siblings and its size; the cards are untouched |
| LegacyApp.TrelloBoard.EndDrag | src/js/app.js:185-196 | does nothing without a dragged card; otherwise moves the card to `ResolveDrop`'s target when there is one, and always ends idle |
| LegacyApp.TrelloBoard.ResetDragState | src/js/app.js:198-217 | clears the drag fields and leaves the cards and storage alone |
| LegacyApp.TrelloBoard.MoveCard | src/js/app.js:219-267 | the list becomes `LegacyMoved`'s result; it is saved exactly when the move happens |
| LegacyApp.TrelloBoard.AddCard | src/js/app.js:287-304 | blank input (after trim) changes nothing; otherwise the trimmed card is appended and saved |
| LegacyApp.TrelloBoard.DeleteCard | src/js/app.js:306-310 | the list becomes the cards with another id, then saves |
| Text.Trim | src/js/app.js:289 | empty exactly when the input is all white space; otherwise the input minus its leading and trailing white space, with non-space ends |
| Text.TrimIdempotent | src/js/app.js:289-291 | trimming twice gives what trimming once gives |

## Left out

- `Storage` (`src/js/Storage.js`) and `localStorage` are not modelled as
  code. A save is the ghost snapshot and counter. A load is the
  constructor's argument. The JSON encoding and the throw on corrupt data
  are left out.
- Card ids come from `Date.now().toString()`, which is a clock. They are an
  argument of `AddCard`, and nothing assumes they are unique.
- Rendering (`renderCards`, `escapeHtml`), the add-card form
  (`showAddCardForm`, `hideAddCardForm`), event wiring (`bindEvents`,
  `init`), placeholder and indicator DOM nodes (`showDropIndicator`,
  `hideAllDropIndicators`, `createDropIndicator`) and every style and
  cursor assignment are DOM output. The model keeps only the drop target
  shown as `indicator`.
- Geometry comes from `getBoundingClientRect`, `offsetLeft` and the like.
  Rectangles are exact `real` inputs: there is no float rounding, and
  `right`/`bottom` are `left + width`/`top + height`.
- `LegacyApp.TrelloBoard.EndDrag`: the drop point (the centre of the card
  from its offsets, `src/js/app.js:188-189`) is an argument, because it
  comes from the rendered layout.
- `TrelloBoard.drag` and `TrelloBoard.updateCardPosition`
  (`src/js/app.js:83-94`) only restyle the card around the pointer. They
  change no field the model has.
- `BoardState.CardManager.GetAllCards` returns a value. The source returns
  the live array, and a caller that mutates it changes the manager; that
  aliasing is not modelled.
- Target indices are mathematical integers. JavaScript `NaN`, fractional
  or non-number indices are not modelled.
- The element a drag works on is a `CardElement` value (card id, column,
  index among siblings, rectangle, height). Its DOM identity is not
  modelled.
