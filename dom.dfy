/**
 * The rendered board as the drag code reads it: columns in document order,
 * each with its bounding rectangle, its `.cards-container` (if any) and that
 * container's children in visual order. Rectangles are given values, as
 * `getBoundingClientRect` reports them; coordinates are exact reals.
 */
module Dom {
  import opened Options

  /** A pointer position `(clientX, clientY)`. */
  datatype Point = Point(x: real, y: real)

  datatype Rect = Rect(left: real, top: real, width: real, height: real)
  {
    function Right(): real { left + width }

    function Bottom(): real { top + height }

    /** `top + height / 2`. */
    function CentreY(): real { top + height / 2.0 }

    /** Containment with all four edges inclusive. */
    predicate Contains(p: Point)
    {
      left <= p.x <= Right() && top <= p.y <= Bottom()
    }
  }

  /** A child of a cards container, with its `drop-placeholder` and `dragging` classes. */
  datatype CardBox = CardBox(rect: Rect, placeholder: bool, dragging: bool)

  datatype Container = Container(rect: Rect, children: seq<CardBox>)

  /** A `.column` element: its `data-column` key, its rectangle, its cards container. */
  datatype ColumnBox = ColumnBox(id: string, rect: Rect, container: Option<Container>)

  /** A `.card` element being pressed: its `data-card-id`, enclosing column key, index among its siblings, rectangle and `offsetHeight`. */
  datatype CardElement = CardElement(cardId: string, column: string, indexInParent: nat, rect: Rect, offsetHeight: real)

  /** Where a drop would land: a column key and an index in that column's card list. */
  datatype DropTarget = DropTarget(column: string, index: nat)

  /** The children that count as cards: neither the placeholder nor the card being dragged. */
  function Candidates(children: seq<CardBox>): (r: seq<CardBox>)
    ensures |r| <= |children|
    ensures forall i :: 0 <= i < |r| ==> !r[i].placeholder && !r[i].dragging
    ensures (forall i :: 0 <= i < |children| ==> children[i].placeholder || children[i].dragging) ==> r == []
    ensures (forall i :: 0 <= i < |children| ==> !children[i].placeholder && !children[i].dragging) ==> r == children
    ensures forall b :: b in r <==> b in children && !b.placeholder && !b.dragging
  {
    if children == [] then []
    else
      var head := children[0];
      (if !head.placeholder && !head.dragging then [head] else []) + Candidates(children[1..])
  }

  /** Dropping flagged children keeps the others in document order: it distributes over concatenation. */
  lemma {:induction false} CandidatesConcat(a: seq<CardBox>, b: seq<CardBox>)
    ensures Candidates(a + b) == Candidates(a) + Candidates(b)
  {
    if a == [] {
      assert a + b == b;
    } else {
      assert (a + b)[1..] == a[1..] + b;
      CandidatesConcat(a[1..], b);
    }
  }

  /** The least `i` whose card's vertical centre lies below `y`, or `|cards|` when there is none. */
  function SlotBelow(cards: seq<CardBox>, y: real): (i: nat)
    ensures i <= |cards|
    ensures forall j :: 0 <= j < i ==> cards[j].rect.CentreY() <= y
    ensures i < |cards| ==> y < cards[i].rect.CentreY()
  {
    if cards == [] || y < cards[0].rect.CentreY() then 0 else 1 + SlotBelow(cards[1..], y)
  }

  /** A column decides the drop when it contains the pointer and has a cards container. */
  predicate Accepts(column: ColumnBox, p: Point)
  {
    column.rect.Contains(p) && column.container.Some?
  }

  /** The index of the first column that accepts `p`, or `|columns|` when none does. */
  function FirstAccepting(columns: seq<ColumnBox>, p: Point): (k: nat)
    ensures k <= |columns|
    ensures forall j :: 0 <= j < k ==> !Accepts(columns[j], p)
    ensures k < |columns| ==> Accepts(columns[k], p)
  {
    if columns == [] || Accepts(columns[0], p) then 0 else 1 + FirstAccepting(columns[1..], p)
  }

  /** The drop target inside an accepting column. */
  function TargetIn(column: ColumnBox, p: Point): (r: DropTarget)
    requires column.container.Some?
    ensures r.column == column.id
    ensures r.index <= |Candidates(column.container.value.children)|
  {
    DropTarget(column.id, SlotBelow(Candidates(column.container.value.children), p.y))
  }

  /**
   * `getDropTarget`: no target when no column both contains the pointer and
   * has a cards container; otherwise the first such column decides, and the
   * index lies between 0 and its number of cards.
   */
  function ResolveDrop(columns: seq<ColumnBox>, p: Point): (r: Option<DropTarget>)
    ensures r.None? <==> forall k :: 0 <= k < |columns| ==> !Accepts(columns[k], p)
    ensures r.Some? ==> exists k :: 0 <= k < |columns| && Accepts(columns[k], p)
                                   && (forall j :: 0 <= j < k ==> !Accepts(columns[j], p))
                                   && r.value == TargetIn(columns[k], p)
  {
    var k := FirstAccepting(columns, p);
    if k < |columns| then Some(TargetIn(columns[k], p)) else None
  }

  /** The first accepting column is the one a left-to-right scan stops at. */
  lemma {:induction false} ResolveDropAt(columns: seq<ColumnBox>, p: Point, c: nat)
    requires c < |columns| && Accepts(columns[c], p)
    requires forall j :: 0 <= j < c ==> !Accepts(columns[j], p)
    ensures ResolveDrop(columns, p) == Some(TargetIn(columns[c], p))
  {
    FirstAcceptingAt(columns, p, c);
  }

  /** A column that accepts, with none accepting before it, is the first accepting one. */
  lemma {:induction false} FirstAcceptingAt(columns: seq<ColumnBox>, p: Point, c: nat)
    requires c < |columns| && Accepts(columns[c], p)
    requires forall j :: 0 <= j < c ==> !Accepts(columns[j], p)
    ensures FirstAccepting(columns, p) == c
  {
    var k := FirstAccepting(columns, p);
    assert !(k < c) && !(c < k);
  }

  /** The slot is the index a top-to-bottom scan stops at. */
  lemma {:induction false} SlotBelowAt(cards: seq<CardBox>, y: real, i: nat)
    requires i <= |cards|
    requires forall j :: 0 <= j < i ==> cards[j].rect.CentreY() <= y
    requires i < |cards| ==> y < cards[i].rect.CentreY()
    ensures SlotBelow(cards, y) == i
  {
    var s := SlotBelow(cards, y);
    assert !(s < i) && !(i < s);
  }

  /** A pointer outside every column's rectangle has no drop target. */
  lemma {:induction false} OutsideMeansNoTarget(columns: seq<ColumnBox>, p: Point)
    requires forall k :: 0 <= k < |columns| ==> !columns[k].rect.Contains(p)
    ensures ResolveDrop(columns, p) == None
  {
  }

  /** Whatever column decides, the index is a valid insertion point of its card list. */
  lemma {:induction false} DropIndexInRange(columns: seq<ColumnBox>, p: Point)
    requires ResolveDrop(columns, p).Some?
    ensures var t := ResolveDrop(columns, p).value;
            exists k :: 0 <= k < |columns| && columns[k].id == t.column && columns[k].container.Some?
                        && t.index <= |Candidates(columns[k].container.value.children)|
  {
    var k := FirstAccepting(columns, p);
    assert columns[k].container.Some?;
  }

  /** Example: centres 50, 150, 250 of height-80 cards; y = 40, 160, 400 give 0, 2, 3. */
  lemma {:induction false} SlotBelowExample()
    ensures var cards := [CardBox(Rect(0.0, 10.0, 100.0, 80.0), false, false),
                          CardBox(Rect(0.0, 110.0, 100.0, 80.0), false, false),
                          CardBox(Rect(0.0, 210.0, 100.0, 80.0), false, false)];
            SlotBelow(cards, 40.0) == 0 && SlotBelow(cards, 160.0) == 2 && SlotBelow(cards, 400.0) == 3
  {
  }
}
