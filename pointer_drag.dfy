/**
 * The pointer-drag controller of src/js/DragAndDrop.js: a two-state
 * gesture machine (idle, dragging) that resolves a drop target from the
 * rendered columns and asks the card manager to move the card on release.
 * Styling of the dragged element and the placeholder element are not
 * modelled; the element's `left`/`top` and the target the placeholder marks
 * are kept as fields.
 */
module PointerDrag {
  import opened Options
  import opened Cards
  import opened Dom
  import opened BoardState

  /** The `dragOffset` captured on press: pointer minus the card's top-left corner. */
  function GrabOffset(e: Point, rect: Rect): Point
  {
    Point(e.x - rect.left, e.y - rect.top)
  }

  /** `updateCardPosition`: the dragged card's `left`/`top` for a pointer at `e`. */
  function CardPosition(e: Point, offset: Point): Point
  {
    Point(e.x - offset.x, e.y - offset.y)
  }

  /** The card does not jump on press, and afterwards moves exactly as the pointer does. */
  lemma {:induction false} CardTracksPointer(press: Point, rect: Rect, e: Point)
    ensures CardPosition(press, GrabOffset(press, rect)) == Point(rect.left, rect.top)
    ensures CardPosition(e, GrabOffset(press, rect)) == Point(rect.left + (e.x - press.x), rect.top + (e.y - press.y))
  {
  }

  /** The pointer position `endDrag` resolves: the release event, else the last move event. */
  function ReleasePoint(e: Option<Point>, last: Option<Point>): Option<Point>
  {
    if e.Some? then e else last
  }

  /**
   * `getDropTarget` as written, with its loop over the columns: the first
   * column whose rectangle contains the pointer and that has a cards
   * container decides.
   */
  method GetDropTarget(columns: seq<ColumnBox>, e: Point) returns (r: Option<DropTarget>)
    ensures r == ResolveDrop(columns, e)
  {
    for c := 0 to |columns|
      invariant forall j :: 0 <= j < c ==> !Accepts(columns[j], e)
    {
      var column := columns[c];
      var rect := column.rect;
      if e.x >= rect.left && e.x <= rect.Right() && e.y >= rect.top && e.y <= rect.Bottom() {
        if column.container.None? {
          continue;
        }
        ResolveDropAt(columns, e, c);
        var target := ColumnTarget(column, e);
        return Some(target);
      }
    }
    return None;
  }

  /**
   * The body of `getDropTarget` for the column that decides: the index is
   * the first card whose centre lies below the pointer, or the number of
   * cards, whichever way the trailing test about the last card goes.
   */
  method ColumnTarget(column: ColumnBox, e: Point) returns (t: DropTarget)
    requires column.container.Some?
    ensures t == TargetIn(column, e)
  {
    var cardsContainer := column.container.value;
    var cards := Candidates(cardsContainer.children);
    if |cards| == 0 {
      return DropTarget(column.id, 0);
    }
    var columnId := column.id;
    for i := 0 to |cards|
      invariant forall j :: 0 <= j < i ==> cards[j].rect.CentreY() <= e.y
    {
      var cardRect := cards[i].rect;
      var cardCenter := cardRect.top + cardRect.height / 2.0;
      if e.y < cardCenter {
        SlotBelowAt(cards, e.y, i);
        return DropTarget(columnId, i);
      }
    }
    SlotBelowAt(cards, e.y, |cards|);
    var lastCard := cards[|cards| - 1];
    var lastCardRect := lastCard.rect;
    var lastCardBottom := lastCardRect.top + lastCardRect.height;
    if e.y >= lastCardBottom || e.y >= cardsContainer.rect.Bottom() {
      return DropTarget(columnId, |cards|);
    }
    return DropTarget(columnId, |cards|);
  }

  /** `DragAndDrop`: the drag state, the card manager it moves cards in, and the `onCardMoved` listener. */
  class DragAndDrop {
    const cardManager: CardManager
    /** Whether an `onCardMoved` listener was given. */
    const notifyOnMove: bool
    /** How many times `onCardMoved` has been called. */
    ghost var notifications: nat

    var draggedCard: Option<CardElement>
    var draggedFromColumn: Option<string>
    var draggedFromIndex: Option<nat>
    var dragOffset: Point
    var isDragging: bool
    var originalCardHeight: Option<real>
    var lastMouseEvent: Option<Point>
    /** The dragged element's `style.left`/`style.top`; `None` once cleared. */
    var cardPosition: Option<Point>
    /** The target the drop placeholder marks; `None` when it is hidden. */
    var indicator: Option<DropTarget>

    /** The idle state: no card, no offset, nothing remembered, nothing shown. */
    predicate Idle()
      reads this
    {
      && draggedCard.None? && draggedFromColumn.None? && draggedFromIndex.None?
      && dragOffset == Point(0.0, 0.0) && !isDragging && originalCardHeight.None?
      && lastMouseEvent.None? && cardPosition.None? && indicator.None?
    }

    /** A gesture is under way exactly when a card is held; otherwise the controller is idle. */
    ghost predicate Valid()
      reads this
    {
      (isDragging <==> draggedCard.Some?) && (!isDragging ==> Idle())
    }

    constructor (cardManager: CardManager, notifyOnMove: bool)
      ensures Valid() && Idle() && notifications == 0
      ensures this.cardManager == cardManager && this.notifyOnMove == notifyOnMove
    {
      this.cardManager := cardManager;
      this.notifyOnMove := notifyOnMove;
      notifications := 0;
      draggedCard := None;
      draggedFromColumn := None;
      draggedFromIndex := None;
      dragOffset := Point(0.0, 0.0);
      isDragging := false;
      originalCardHeight := None;
      lastMouseEvent := None;
      cardPosition := None;
      indicator := None;
    }

    /** Press on a card: hold it, remember where it came from and where the pointer grabbed it. */
    method StartDrag(card: CardElement, e: Point)
      modifies this
      ensures Valid() && isDragging
      ensures draggedCard == Some(card) && draggedFromColumn == Some(card.column)
      ensures draggedFromIndex == Some(card.indexInParent)
      ensures dragOffset == GrabOffset(e, card.rect) && originalCardHeight == Some(card.offsetHeight)
      ensures cardPosition == Some(Point(card.rect.left, card.rect.top))
      ensures lastMouseEvent == old(lastMouseEvent) && indicator == old(indicator)
      ensures notifications == old(notifications)
    {
      draggedCard := Some(card);
      draggedFromColumn := Some(card.column);
      draggedFromIndex := Some(card.indexInParent);
      dragOffset := Point(e.x - card.rect.left, e.y - card.rect.top);
      originalCardHeight := Some(card.offsetHeight);
      isDragging := true;
      UpdateCardPosition(e);
    }

    /** Places the held card so that the grab point stays under the pointer. */
    method UpdateCardPosition(e: Point)
      requires draggedCard.Some?
      modifies this`cardPosition
      ensures cardPosition == Some(CardPosition(e, dragOffset))
    {
      cardPosition := Some(Point(e.x - dragOffset.x, e.y - dragOffset.y));
    }

    /** Pointer move: ignored unless dragging; otherwise the card follows and the placeholder marks the drop target. */
    method Drag(e: Point, columns: seq<ColumnBox>)
      requires Valid()
      modifies this
      ensures Valid()
      ensures !old(isDragging) ==> unchanged(this)
      ensures old(isDragging) ==> && lastMouseEvent == Some(e)
                                  && cardPosition == Some(CardPosition(e, dragOffset))
                                  && indicator == ResolveDrop(columns, e)
      ensures draggedCard == old(draggedCard) && draggedFromColumn == old(draggedFromColumn)
      ensures draggedFromIndex == old(draggedFromIndex) && dragOffset == old(dragOffset)
      ensures isDragging == old(isDragging) && originalCardHeight == old(originalCardHeight)
      ensures notifications == old(notifications)
    {
      if draggedCard.None? || !isDragging {
        return;
      }
      lastMouseEvent := Some(e);
      UpdateCardPosition(e);
      indicator := GetDropTarget(columns, e);
    }

    /**
     * Release: ignored unless dragging. Otherwise the drop target at the
     * release point (or the last move point) is resolved; if there is one
     * the card manager moves the card there and the listener is told only
     * when that move succeeded. The controller always ends idle.
     */
    method EndDrag(e: Option<Point>, columns: seq<ColumnBox>)
      requires Valid()
      modifies this, cardManager
      ensures Valid() && Idle()
      ensures var point := ReleasePoint(e, old(lastMouseEvent));
              var target := if old(isDragging) && point.Some? then ResolveDrop(columns, point.value) else None;
              if target.None? then
                unchanged(cardManager) && notifications == old(notifications)
              else
                var moved := Moved(old(cardManager.cards), old(draggedCard).value.cardId,
                                   target.value.column, target.value.index);
                && cardManager.cards == (if moved.Some? then moved.value else old(cardManager.cards))
                && cardManager.stored == (if moved.Some? then cardManager.cards else old(cardManager.stored))
                && cardManager.saveCount == old(cardManager.saveCount) + (if moved.Some? then 1 else 0)
                && notifications == old(notifications) + (if moved.Some? && notifyOnMove then 1 else 0)
    {
      if draggedCard.None? || !isDragging {
        return;
      }
      var mouseEvent := if e.Some? then e else lastMouseEvent;
      if mouseEvent.None? {
        ResetDragState();
        return;
      }
      var dropTarget := GetDropTarget(columns, mouseEvent.value);
      if dropTarget.Some? {
        var cardId := draggedCard.value.cardId;
        var moved := cardManager.MoveCard(cardId, dropTarget.value.column, dropTarget.value.index);
        if moved && notifyOnMove {
          notifications := notifications + 1;
        }
      }
      ResetDragState();
    }

    /** Clears every piece of drag state and hides the placeholder. */
    method ResetDragState()
      modifies this
      ensures Valid() && Idle() && notifications == old(notifications)
    {
      cardPosition := None;
      indicator := None;
      draggedCard := None;
      draggedFromColumn := None;
      draggedFromIndex := None;
      dragOffset := Point(0.0, 0.0);
      isDragging := false;
      originalCardHeight := None;
      lastMouseEvent := None;
    }
  }
}
