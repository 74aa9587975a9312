/**
 * The self-contained board of src/js/app.js (`TrelloBoard`). Its move
 * splices the card back into the one list in place, in front of the
 * `insertIndex`-th card of the target column, which a scan over the list
 * locates; when the scan finds no such card the card goes to index 0.
 * Storage is a ghost snapshot and a ghost write counter, as for the
 * card manager.
 */
module LegacyApp {
  import opened Options
  import opened Cards
  import opened Text
  import opened Dom

  /** The index in `s` of the `j`-th card of `column`. */
  function NthInColumn(s: seq<Card>, column: string, j: nat): (g: nat)
    requires j < |Filter(s, InColumn(column))|
    ensures g < |s| && s[g].column == column
    ensures |Filter(s[..g], InColumn(column))| == j
    decreases |s|
  {
    if s[0].column == column && j == 0 then 0
    else
      var g := NthInColumn(s[1..], column, if s[0].column == column then j - 1 else j);
      assert s[..g + 1][1..] == s[1..][..g];
      g + 1
  }

  /** A card of `column` at `g` is the `j`-th card of the column, for `j` the number of its cards before `g`. */
  lemma {:induction false} NthInColumnAt(s: seq<Card>, column: string, g: nat)
    requires g < |s| && s[g].column == column
    ensures |Filter(s[..g], InColumn(column))| < |Filter(s, InColumn(column))|
    ensures NthInColumn(s, column, |Filter(s[..g], InColumn(column))|) == g
  {
    FilterPrefixGrows(s, g, column);
    var j := |Filter(s[..g], InColumn(column))|;
    var h := NthInColumn(s, column, j);
    if h < g {
      assert s[..g][..h] == s[..h];
      FilterPrefixGrows(s[..g], h, column);
      assert false;
    } else if g < h {
      assert s[..h][..g] == s[..g];
      FilterPrefixGrows(s[..h], g, column);
      assert false;
    }
  }

  /**
   * The index the scan of src/js/app.js:246-261 picks: in front of the
   * `insertIndex`-th card of `column` when there is one; past the end when
   * `insertIndex` exceeds the column's size; 0 otherwise (a negative index,
   * or exactly the column's size).
   */
  function ScanSlot(rest: seq<Card>, column: string, insertIndex: int): (g: nat)
    ensures g <= |rest|
  {
    var count := |Filter(rest, InColumn(column))|;
    if 0 <= insertIndex < count then NthInColumn(rest, column, insertIndex)
    else if count < insertIndex then |rest|
    else 0
  }

  /** The scan loop and its fallback, as written: a read-only search of the list. */
  method ScanInsertPosition(cards: seq<Card>, targetColumn: string, insertIndex: int) returns (insertPosition: nat)
    ensures insertPosition == ScanSlot(cards, targetColumn, insertIndex)
  {
    var position := 0;
    var currentIndex := 0;
    var i := 0;
    ghost var found := false;
    while i < |cards|
      invariant 0 <= i <= |cards|
      invariant currentIndex == |Filter(cards[..i], InColumn(targetColumn))|
      invariant insertIndex < 0 || currentIndex <= insertIndex
      invariant position == 0 && !found
    {
      if cards[i].column == targetColumn {
        if currentIndex == insertIndex {
          position := i;
          NthInColumnAt(cards, targetColumn, i);
          found := true;
          break;
        }
        currentIndex := currentIndex + 1;
      }
      FilterConcat(cards[..i], [cards[i]], InColumn(targetColumn));
      assert cards[..i + 1] == cards[..i] + [cards[i]];
      i := i + 1;
    }
    if !found {
      assert cards[..i] == cards;
    }
    if position == 0 && currentIndex < insertIndex {
      position := |cards|;
    }
    insertPosition := position;
  }

  /** The early exit: the card is in the target column already, at the target position. */
  predicate AlreadyThere(cards: seq<Card>, k: nat, target: string, targetIndex: int)
    requires k < |cards|
  {
    && cards[k].column == target
    && var current := FindIndex(Filter(cards, InColumn(target)), cards[k].id);
       current.Some? && current.value == targetIndex
  }

  /** Whether `moveCard` changes the list: the card exists and is not already where it is asked to go. */
  predicate LegacyMoves(cards: seq<Card>, id: string, target: string, targetIndex: int)
  {
    var found := FindIndex(cards, id);
    found.Some? && !AlreadyThere(cards, found.value, target, targetIndex)
  }

  /** `Math.min(targetIndex, count)`, with no lower bound. */
  function InsertIndex(targetIndex: int, count: nat): (i: int)
    ensures i <= count
    ensures targetIndex <= count ==> i == targetIndex
    ensures count < targetIndex ==> i == count
  {
    if targetIndex < count then targetIndex else count
  }

  /** Where the moved card is spliced in, for the card at `k`. */
  function LegacySlot(cards: seq<Card>, k: nat, target: string, targetIndex: int): (g: nat)
    requires k < |cards|
    ensures g < |cards|
  {
    var rest := RemoveAt(cards, k);
    ScanSlot(rest, target, InsertIndex(targetIndex, |Filter(rest, InColumn(target))|))
  }

  /**
   * The list after `moveCard(target, targetIndex)` for the dragged card `id`.
   * The list is always as long as before, and is unchanged when the card is
   * missing or already in place.
   */
  function LegacyMoved(cards: seq<Card>, id: string, target: string, targetIndex: int): (r: seq<Card>)
    ensures |r| == |cards|
    ensures !LegacyMoves(cards, id, target, targetIndex) ==> r == cards
  {
    match FindIndex(cards, id)
    case None => cards
    case Some(k) =>
      if AlreadyThere(cards, k, target, targetIndex) then cards
      else
        var card := cards[k];
        InsertAt(RemoveAt(cards, k), LegacySlot(cards, k, target, targetIndex), Card(card.id, card.text, target))
  }

  /** The list after a move that happens: the card taken out and spliced in at `LegacySlot`. */
  lemma {:induction false} LegacyMovedSplices(cards: seq<Card>, id: string, target: string, targetIndex: int)
    requires LegacyMoves(cards, id, target, targetIndex)
    ensures var k := FindIndex(cards, id).value;
            LegacyMoved(cards, id, target, targetIndex)
              == InsertAt(RemoveAt(cards, k), LegacySlot(cards, k, target, targetIndex), Card(cards[k].id, cards[k].text, target))
  {
  }

  /**
   * A move puts the card, same id and text, labelled with the target
   * column, at one index, and every other card keeps its relative order in
   * the whole list.
   */
  lemma {:induction false} LegacyMoveKeepsOthers(cards: seq<Card>, id: string, target: string, targetIndex: int)
    requires LegacyMoves(cards, id, target, targetIndex)
    ensures var k := FindIndex(cards, id).value;
            var g := LegacySlot(cards, k, target, targetIndex);
            var r := LegacyMoved(cards, id, target, targetIndex);
            && r[g] == Card(cards[k].id, cards[k].text, target) && r[g].id == id
            && RemoveAt(r, g) == RemoveAt(cards, k)
  {
    var k := FindIndex(cards, id).value;
    RemoveInsert(RemoveAt(cards, k), LegacySlot(cards, k, target, targetIndex), Card(cards[k].id, cards[k].text, target));
  }

  /**
   * The moved card's position in the target column: `insertIndex` when that
   * is a position in front of an existing card, and 0 otherwise (a negative
   * index, or the append case `insertIndex == count`).
   */
  lemma {:induction false} LegacyMovePosition(cards: seq<Card>, id: string, target: string, targetIndex: int)
    requires LegacyMoves(cards, id, target, targetIndex)
    ensures var k := FindIndex(cards, id).value;
            var moved := Card(cards[k].id, cards[k].text, target);
            var before := Filter(RemoveAt(cards, k), InColumn(target));
            var insertIndex := InsertIndex(targetIndex, |before|);
            var q := if 0 <= insertIndex < |before| then insertIndex else 0;
            Filter(LegacyMoved(cards, id, target, targetIndex), InColumn(target)) == InsertAt(before, q, moved)
  {
    var k := FindIndex(cards, id).value;
    var rest := RemoveAt(cards, k);
    var g := LegacySlot(cards, k, target, targetIndex);
    FilterInsertAt(rest, g, Card(cards[k].id, cards[k].text, target), InColumn(target));
    assert rest[..0] == [];
  }

  /** Columns other than the target keep their cards in their old order. */
  lemma {:induction false} LegacyMoveKeepsOtherColumns(cards: seq<Card>, id: string, target: string, targetIndex: int, c: string)
    requires LegacyMoves(cards, id, target, targetIndex) && c != target
    ensures Filter(LegacyMoved(cards, id, target, targetIndex), InColumn(c))
         == Filter(RemoveAt(cards, FindIndex(cards, id).value), InColumn(c))
  {
    var k := FindIndex(cards, id).value;
    LegacyMovedSplices(cards, id, target, targetIndex);
    FilterInsertFailing(RemoveAt(cards, k), LegacySlot(cards, k, target, targetIndex),
                        Card(cards[k].id, cards[k].text, target), InColumn(c));
  }

  /**
   * Dropping below the last card of a non-empty column (a target index at
   * or past the column's size) puts the card at index 0 of the whole list,
   * and so first in its column, not last.
   */
  lemma {:induction false} LegacyAppendLandsFirst(cards: seq<Card>, id: string, target: string, targetIndex: int)
    requires LegacyMoves(cards, id, target, targetIndex)
    requires var before := Filter(RemoveAt(cards, FindIndex(cards, id).value), InColumn(target));
             0 < |before| <= targetIndex
    ensures var r := LegacyMoved(cards, id, target, targetIndex);
            r[0].id == id && r[0].column == target
            && Filter(r, InColumn(target))[0] == r[0]
  {
    var k := FindIndex(cards, id).value;
    LegacyMovePosition(cards, id, target, targetIndex);
  }

  /** Asking for the position the card already holds is the early exit: nothing changes. */
  lemma {:induction false} LegacyOwnPlaceUnchanged(cards: seq<Card>, id: string)
    requires FindIndex(cards, id).Some?
    ensures var k := FindIndex(cards, id).value;
            var home := cards[k].column;
            LegacyMoved(cards, id, home, |Filter(cards[..k], InColumn(home))|) == cards
  {
    var k := FindIndex(cards, id).value;
    var home := cards[k].column;
    var t := InColumn(home);
    var pre := Filter(cards[..k], t);
    FilterPrefixGrows(cards, k, home);
    FilterMembers(cards[..k], t);
    forall j | 0 <= j < |pre|
      ensures Filter(cards, t)[j].id != id
    {
      assert cards == cards[..k] + cards[k..];
      FilterConcat(cards[..k], cards[k..], t);
      assert Filter(cards, t)[j] == pre[j];
      assert pre[j] in cards[..k];
    }
    var current := FindIndex(Filter(cards, t), id);
    assert current.Some? && current.value == |pre| by {
      var f := Filter(cards, t);
      assert f[|pre|].id == id;
      assert !(current.value < |pre|);
    }
    assert AlreadyThere(cards, k, home, |pre|);
  }

  /** The three-card instance: with `todo` a, b and `done` c, dropping c at the end of `todo` gives `todo` order c, a, b. */
  lemma {:induction false} LegacyAppendExample()
    ensures var a, b, c := Card("1", "a", "todo"), Card("2", "b", "todo"), Card("3", "c", "done");
            LegacyMoved([a, b, c], "3", "todo", 2) == [Card("3", "c", "todo"), a, b]
  {
    var a, b, c := Card("1", "a", "todo"), Card("2", "b", "todo"), Card("3", "c", "done");
    assert [a, b, c][1..] == [b, c];
    assert [b, c][1..] == [c];
    assert FindIndex([c], "3") == Some(0);
    assert FindIndex([b, c], "3") == Some(1);
    assert FindIndex([a, b, c], "3") == Some(2);
    assert RemoveAt([a, b, c], 2) == [a, b];
    assert [a, b][1..] == [b];
    assert [b][1..] == [];
    assert Filter([a, b], InColumn("todo")) == [a, b];
    assert LegacySlot([a, b, c], 2, "todo", 2) == 0;
  }

  /** `TrelloBoard`: the card list, storage writes, and the drag fields. */
  class TrelloBoard {
    var cards: seq<Card>
    /** What storage holds: what `loadFromStorage` returned, then what `saveToStorage` last wrote. */
    ghost var stored: seq<Card>
    /** How many times `saveToStorage` has written. */
    ghost var saveCount: nat

    var draggedCard: Option<CardElement>
    var draggedFromColumn: Option<string>
    var draggedFromIndex: Option<nat>
    var originalWidth: Option<real>
    var originalHeight: Option<real>

    predicate Idle()
      reads this
    {
      && draggedCard.None? && draggedFromColumn.None? && draggedFromIndex.None?
      && originalWidth.None? && originalHeight.None?
    }

    /** Storage holds the list, and without a dragged card every drag field is clear. */
    ghost predicate Valid()
      reads this
    {
      stored == cards && (draggedCard.None? ==> Idle())
    }

    /** `new TrelloBoard()`, with `loadFromStorage()` given as `loaded`. */
    constructor (loaded: seq<Card>)
      ensures Valid() && Idle() && cards == loaded && saveCount == 0
    {
      cards := loaded;
      stored := loaded;
      saveCount := 0;
      draggedCard := None;
      draggedFromColumn := None;
      draggedFromIndex := None;
      originalWidth := None;
      originalHeight := None;
    }

    method SaveToStorage()
      modifies this
      ensures cards == old(cards) && stored == cards && saveCount == old(saveCount) + 1
      ensures draggedCard == old(draggedCard) && draggedFromColumn == old(draggedFromColumn)
      ensures draggedFromIndex == old(draggedFromIndex)
      ensures originalWidth == old(originalWidth) && originalHeight == old(originalHeight)
    {
      stored := cards;
      saveCount := saveCount + 1;
    }

    /** Press on a card: hold it and remember its column, its index and its size. */
    method StartDrag(card: CardElement)
      requires Valid()
      modifies this
      ensures Valid()
      ensures draggedCard == Some(card) && draggedFromColumn == Some(card.column)
      ensures draggedFromIndex == Some(card.indexInParent)
      ensures originalWidth == Some(card.rect.width) && originalHeight == Some(card.rect.height)
      ensures cards == old(cards) && saveCount == old(saveCount)
    {
      draggedCard := Some(card);
      draggedFromColumn := Some(card.column);
      draggedFromIndex := Some(card.indexInParent);
      originalWidth := Some(card.rect.width);
      originalHeight := Some(card.rect.height);
    }

    /**
     * Release: ignored without a dragged card. Otherwise the drop target at
     * `dropPoint` (the dragged element's centre) is resolved, the card is
     * moved there if there is one, and the drag fields are cleared.
     */
    method EndDrag(columns: seq<ColumnBox>, dropPoint: Point)
      requires Valid()
      modifies this
      ensures Valid() && Idle()
      ensures old(draggedCard).None? ==> cards == old(cards) && saveCount == old(saveCount)
      ensures old(draggedCard).Some? ==>
                var target := ResolveDrop(columns, dropPoint);
                var id := old(draggedCard).value.cardId;
                if target.None? then
                  cards == old(cards) && saveCount == old(saveCount)
                else
                  && cards == LegacyMoved(old(cards), id, target.value.column, target.value.index)
                  && saveCount == old(saveCount)
                       + (if LegacyMoves(old(cards), id, target.value.column, target.value.index) then 1 else 0)
    {
      if draggedCard.None? {
        return;
      }
      var dropTarget := GetDropTarget(columns, dropPoint);
      if dropTarget.Some? {
        MoveCard(dropTarget.value.column, dropTarget.value.index);
      }
      ResetDragState();
    }

    method ResetDragState()
      modifies this
      ensures Idle()
      ensures cards == old(cards) && stored == old(stored) && saveCount == old(saveCount)
    {
      draggedCard := None;
      draggedFromColumn := None;
      draggedFromIndex := None;
      originalWidth := None;
      originalHeight := None;
    }

    /** `moveCard` for the dragged card, with the scan for the insertion index written out. */
    method MoveCard(targetColumn: string, targetIndex: int)
      requires draggedCard.Some?
      modifies this
      ensures cards == LegacyMoved(old(cards), old(draggedCard).value.cardId, targetColumn, targetIndex)
      ensures LegacyMoves(old(cards), old(draggedCard).value.cardId, targetColumn, targetIndex)
              ==> stored == cards && saveCount == old(saveCount) + 1
      ensures !LegacyMoves(old(cards), old(draggedCard).value.cardId, targetColumn, targetIndex)
              ==> stored == old(stored) && saveCount == old(saveCount)
      ensures draggedCard == old(draggedCard) && draggedFromColumn == old(draggedFromColumn)
      ensures draggedFromIndex == old(draggedFromIndex)
      ensures originalWidth == old(originalWidth) && originalHeight == old(originalHeight)
    {
      var cardId := draggedCard.value.cardId;
      var cardIndex := FindIndex(cards, cardId);
      if cardIndex.None? {
        assert !LegacyMoves(cards, cardId, targetColumn, targetIndex);
        return;
      }
      var card := cards[cardIndex.value];
      if card.column == targetColumn {
        var targetCards := Filter(cards, InColumn(targetColumn));
        var currentPosition := FindIndex(targetCards, cardId);
        if currentPosition.Some? && currentPosition.value == targetIndex {
          assert AlreadyThere(cards, cardIndex.value, targetColumn, targetIndex);
          return;
        }
      }
      var updatedCard := Card(card.id, card.text, targetColumn);
      ghost var before := cards;
      cards := RemoveAt(cards, cardIndex.value);
      var targetCards := Filter(cards, InColumn(targetColumn));
      var insertIndex := InsertIndex(targetIndex, |targetCards|);

      var insertPosition := ScanInsertPosition(cards, targetColumn, insertIndex);
      cards := InsertAt(cards, insertPosition, updatedCard);
      assert LegacyMoves(before, cardId, targetColumn, targetIndex);
      LegacyMovedSplices(before, cardId, targetColumn, targetIndex);
      assert cards == LegacyMoved(before, cardId, targetColumn, targetIndex);
      SaveToStorage();
    }

    /** `addCard`: trims the input; blank input adds nothing, otherwise one card is appended. */
    method AddCard(id: string, inputValue: string, column: string)
      modifies this
      ensures Trim(inputValue) == [] ==> cards == old(cards) && stored == old(stored) && saveCount == old(saveCount)
      ensures Trim(inputValue) != [] ==> && cards == old(cards) + [Card(id, Trim(inputValue), column)]
                                         && stored == cards && saveCount == old(saveCount) + 1
      ensures draggedCard == old(draggedCard) && draggedFromColumn == old(draggedFromColumn)
      ensures draggedFromIndex == old(draggedFromIndex)
      ensures originalWidth == old(originalWidth) && originalHeight == old(originalHeight)
    {
      var text := Trim(inputValue);
      if |text| == 0 {
        return;
      }
      var card := Card(id, text, column);
      cards := cards + [card];
      SaveToStorage();
    }

    method DeleteCard(cardId: string)
      modifies this
      ensures cards == Filter(old(cards), IdIsNot(cardId))
      ensures stored == cards && saveCount == old(saveCount) + 1
      ensures draggedCard == old(draggedCard) && draggedFromColumn == old(draggedFromColumn)
      ensures draggedFromIndex == old(draggedFromIndex)
      ensures originalWidth == old(originalWidth) && originalHeight == old(originalHeight)
    {
      cards := Filter(cards, IdIsNot(cardId));
      SaveToStorage();
    }
  }

  /** `getDropTarget` of `TrelloBoard` as written, with its loop over the columns; it reads only the rendered columns. */
  method GetDropTarget(columns: seq<ColumnBox>, e: Point) returns (r: Option<DropTarget>)
    ensures r == ResolveDrop(columns, e)
  {
    for c := 0 to |columns|
      invariant forall j :: 0 <= j < c ==> !Accepts(columns[j], e)
    {
      var column := columns[c];
      var rect := column.rect;
      if e.x >= rect.left && e.x <= rect.Right() && e.y >= rect.top && e.y <= rect.Bottom() {
        if column.container.None? {
          continue;
        }
        ResolveDropAt(columns, e, c);
        var target := ColumnTarget(column, e);
        return Some(target);
      }
    }
    return None;
  }

  /** The body of `TrelloBoard.getDropTarget` for the column that decides: the first card whose centre lies below the pointer, or the number of cards. */
  method ColumnTarget(column: ColumnBox, e: Point) returns (t: DropTarget)
    requires column.container.Some?
    ensures t == TargetIn(column, e)
  {
    var cards := Candidates(column.container.value.children);
    if |cards| == 0 {
      return DropTarget(column.id, 0);
    }
    for i := 0 to |cards|
      invariant forall j :: 0 <= j < i ==> cards[j].rect.CentreY() <= e.y
    {
      var cardRect := cards[i].rect;
      if e.y < cardRect.top + cardRect.height / 2.0 {
        SlotBelowAt(cards, e.y, i);
        return DropTarget(column.id, i);
      }
    }
    SlotBelowAt(cards, e.y, |cards|);
    return DropTarget(column.id, |cards|);
  }
}
