/**
 * The board state of src/js/CardManager.js: one ordered list of cards that
 * every mutation writes back to storage. Storage is not modelled; a ghost
 * snapshot records what the last `save` wrote and a ghost counter how many
 * writes there were.
 */
module BoardState {
  import opened Options
  import opened Cards

  /** `Math.max(0, Math.min(targetIndex, n))`. */
  function ClampIndex(targetIndex: int, n: nat): (p: nat)
    ensures p <= n
    ensures 0 <= targetIndex <= n ==> p == targetIndex
    ensures targetIndex < 0 ==> p == 0
    ensures n < targetIndex ==> p == n
  {
    var upper := if targetIndex < n then targetIndex else n;
    if 0 < upper then upper else 0
  }

  /**
   * The card list after `moveCard(id, target, targetIndex)`, or `None` when
   * no card has that id: the card is removed, re-labelled with `target`,
   * spliced into the target column's list at the clamped index, and the list
   * is rebuilt as the other columns' cards followed by the target column.
   */
  function Moved(cards: seq<Card>, id: string, target: string, targetIndex: int): (r: Option<seq<Card>>)
    ensures r.None? <==> forall i :: 0 <= i < |cards| ==> cards[i].id != id
  {
    match FindIndex(cards, id)
    case None => None
    case Some(k) =>
      var card := cards[k];
      var rest := RemoveAt(cards, k);
      var column := Filter(rest, InColumn(target));
      var insertIndex := ClampIndex(targetIndex, |column|);
      Some(Filter(rest, OutsideColumn(target)) + InsertAt(column, insertIndex, Card(card.id, card.text, target)))
  }

  /** A successful move takes one card out and puts one in. */
  lemma {:induction false} MoveKeepsLength(cards: seq<Card>, id: string, target: string, targetIndex: int)
    requires Moved(cards, id, target, targetIndex).Some?
    ensures |Moved(cards, id, target, targetIndex).value| == |cards|
  {
    FilterSplit(RemoveAt(cards, FindIndex(cards, id).value), target);
  }

  /**
   * After a successful move the target column's list is its old list (without
   * the moved card) with the moved card, same id and text, now labelled with
   * the target column, at position `max(0, min(targetIndex, n))`.
   */
  lemma {:induction false} MoveLandsCard(cards: seq<Card>, id: string, target: string, targetIndex: int)
    requires FindIndex(cards, id).Some?
    ensures var k := FindIndex(cards, id).value;
            var moved := Card(cards[k].id, cards[k].text, target);
            var before := Filter(RemoveAt(cards, k), InColumn(target));
            var p := ClampIndex(targetIndex, |before|);
            var after := Filter(Moved(cards, id, target, targetIndex).value, InColumn(target));
            after == InsertAt(before, p, moved) && after[p] == moved && moved.id == id
  {
    var k := FindIndex(cards, id).value;
    var rest := RemoveAt(cards, k);
    var others := Filter(rest, OutsideColumn(target));
    var column := Filter(rest, InColumn(target));
    var inserted := InsertAt(column, ClampIndex(targetIndex, |column|), Card(cards[k].id, cards[k].text, target));
    FilterConcat(others, inserted, InColumn(target));
    FilterNone(others, InColumn(target));
  }

  /** Columns other than the target keep their cards in their old order. */
  lemma {:induction false} MoveKeepsOtherColumns(cards: seq<Card>, id: string, target: string, targetIndex: int, c: string)
    requires FindIndex(cards, id).Some? && c != target
    ensures Filter(Moved(cards, id, target, targetIndex).value, InColumn(c))
         == Filter(RemoveAt(cards, FindIndex(cards, id).value), InColumn(c))
  {
    var k := FindIndex(cards, id).value;
    var rest := RemoveAt(cards, k);
    var others := Filter(rest, OutsideColumn(target));
    var column := Filter(rest, InColumn(target));
    var inserted := InsertAt(column, ClampIndex(targetIndex, |column|), Card(cards[k].id, cards[k].text, target));
    FilterConcat(others, inserted, InColumn(c));
    FilterNone(inserted, InColumn(c));
    FilterCommutes(rest, OutsideColumn(target), InColumn(c));
  }

  /** After a successful move, the cards outside the target column come first and the target column last. */
  lemma {:induction false} MoveGroupsTargetLast(cards: seq<Card>, id: string, target: string, targetIndex: int)
    requires Moved(cards, id, target, targetIndex).Some?
    ensures var r := Moved(cards, id, target, targetIndex).value;
            var m := |r| - |Filter(r, InColumn(target))|;
            0 <= m
            && (forall i :: 0 <= i < m ==> r[i].column != target)
            && (forall i :: m <= i < |r| ==> r[i].column == target)
  {
    var k := FindIndex(cards, id).value;
    var rest := RemoveAt(cards, k);
    var others := Filter(rest, OutsideColumn(target));
    var column := Filter(rest, InColumn(target));
    var p := ClampIndex(targetIndex, |column|);
    var inserted := InsertAt(column, p, Card(cards[k].id, cards[k].text, target));
    var r := others + inserted;
    assert Moved(cards, id, target, targetIndex).value == r;
    MoveLandsCard(cards, id, target, targetIndex);
    assert |Filter(r, InColumn(target))| == |inserted|;
    forall i | 0 <= i < |others|
      ensures r[i].column != target
    {
      assert r[i] == others[i];
      assert Passes(others[i], OutsideColumn(target));
    }
    forall i | |others| <= i < |r|
      ensures r[i].column == target
    {
      var j := i - |others|;
      assert r[i] == inserted[j];
      if j < p {
        assert Passes(column[j], InColumn(target));
      } else if p < j {
        assert Passes(column[j - 1], InColumn(target));
      }
    }
  }

  /**
   * Moving a card to the column and position it already holds leaves every
   * column's list as it was.
   */
  lemma {:induction false} MoveToOwnPlace(cards: seq<Card>, id: string)
    requires FindIndex(cards, id).Some?
    ensures var k := FindIndex(cards, id).value;
            var home := cards[k].column;
            var p := |Filter(cards[..k], InColumn(home))|;
            forall c :: Filter(Moved(cards, id, home, p).value, InColumn(c)) == Filter(cards, InColumn(c))
  {
    var k := FindIndex(cards, id).value;
    var home := cards[k].column;
    var p := |Filter(cards[..k], InColumn(home))|;
    forall c
      ensures Filter(Moved(cards, id, home, p).value, InColumn(c)) == Filter(cards, InColumn(c))
    {
      if c == home {
        MoveToOwnPlaceHome(cards, id);
      } else {
        MoveKeepsOtherColumns(cards, id, home, p, c);
        RemoveOutsideColumn(cards, k, c);
      }
    }
  }

  lemma {:induction false} MoveToOwnPlaceHome(cards: seq<Card>, id: string)
    requires FindIndex(cards, id).Some?
    ensures var k := FindIndex(cards, id).value;
            var home := cards[k].column;
            var p := |Filter(cards[..k], InColumn(home))|;
            Filter(Moved(cards, id, home, p).value, InColumn(home)) == Filter(cards, InColumn(home))
  {
    var k := FindIndex(cards, id).value;
    var card := cards[k];
    var t := InColumn(card.column);
    var p := |Filter(cards[..k], t)|;
    var rest := RemoveAt(cards, k);
    assert rest == cards[..k] + cards[k + 1..];
    FilterConcat(cards[..k], cards[k + 1..], t);
    var pre, post := Filter(cards[..k], t), Filter(cards[k + 1..], t);
    MoveLandsCard(cards, id, card.column, p);
    assert Card(card.id, card.text, card.column) == card;
    assert InsertAt(pre + post, p, card) == pre + [card] + post;
    assert cards == cards[..k] + [card] + cards[k + 1..];
    FilterConcat(cards[..k] + [card], cards[k + 1..], t);
    FilterConcat(cards[..k], [card], t);
    assert Filter([card], t) == [card];
  }

  /** Taking out a card of another column does not change a column's list. */
  lemma {:induction false} RemoveOutsideColumn(cards: seq<Card>, k: nat, c: string)
    requires k < |cards| && cards[k].column != c
    ensures Filter(RemoveAt(cards, k), InColumn(c)) == Filter(cards, InColumn(c))
  {
    var t := InColumn(c);
    var pre, mid, post := cards[..k], [cards[k]], cards[k + 1..];
    assert Filter(mid, t) == [] by {
      FilterNone(mid, t);
    }
    assert Filter(cards, t) == Filter(pre, t) + Filter(post, t) by {
      assert cards == pre + (mid + post);
      FilterConcat(pre, mid + post, t);
      FilterConcat(mid, post, t);
    }
    assert Filter(RemoveAt(cards, k), t) == Filter(pre, t) + Filter(post, t) by {
      assert RemoveAt(cards, k) == pre + post;
      FilterConcat(pre, post, t);
    }
  }

  /** Example: with two `todo` cards a, b, moving b to index 0 gives `todo` order b, a. */
  lemma {:induction false} MoveExample()
    ensures var a, b := Card("1", "a", "todo"), Card("2", "b", "todo");
            Moved([a, b], "2", "todo", 0) == Some([b, a])
  {
    var a, b := Card("1", "a", "todo"), Card("2", "b", "todo");
    assert [a, b][1..] == [b];
    assert FindIndex([b], "2") == Some(0);
    assert FindIndex([a, b], "2") == Some(1);
    assert RemoveAt([a, b], 1) == [a];
    assert [a][1..] == [];
    assert Filter([a], InColumn("todo")) == [a];
    assert Filter([a], OutsideColumn("todo")) == [];
    assert ClampIndex(0, 1) == 0;
    assert InsertAt([a], 0, b) == [b, a];
    assert Card(b.id, b.text, "todo") == b;
    assert Moved([a, b], "2", "todo", 0) == Some([] + InsertAt([a], 0, b));
    assert [] + InsertAt([a], 0, b) == [b, a];
    assert Moved([a, b], "2", "todo", 0) == Some([b, a]);
  }

  /**
   * `deleteCard(id)`: the result holds exactly the cards without that id, is
   * the list itself when no card has the id, drops exactly one card when ids
   * are unique, and leaves every column's remaining cards in their order.
   */
  lemma {:induction false} DeleteKeepsOthers(cards: seq<Card>, id: string)
    ensures forall c :: c in Filter(cards, IdIsNot(id)) <==> c in cards && c.id != id
    ensures (forall i :: 0 <= i < |cards| ==> cards[i].id != id) ==> Filter(cards, IdIsNot(id)) == cards
    ensures forall col :: Filter(Filter(cards, IdIsNot(id)), InColumn(col))
                       == Filter(Filter(cards, InColumn(col)), IdIsNot(id))
  {
    FilterMembers(cards, IdIsNot(id));
    forall col
      ensures Filter(Filter(cards, IdIsNot(id)), InColumn(col)) == Filter(Filter(cards, InColumn(col)), IdIsNot(id))
    {
      FilterCommutes(cards, IdIsNot(id), InColumn(col));
    }
  }

  /** No two cards share an id (what `Date.now()` ids are meant to give). */
  predicate UniqueIds(cards: seq<Card>)
  {
    forall i, j :: 0 <= i < j < |cards| ==> cards[i].id != cards[j].id
  }

  lemma {:induction false} DeleteRemovesOne(cards: seq<Card>, id: string)
    requires UniqueIds(cards) && FindIndex(cards, id).Some?
    ensures |Filter(cards, IdIsNot(id))| == |cards| - 1
  {
    var k := FindIndex(cards, id).value;
    var pre, post := cards[..k], cards[k + 1..];
    assert |Filter(post, IdIsNot(id))| == |post| by {
      forall i | 0 <= i < |post|
        ensures Passes(post[i], IdIsNot(id))
      {
        assert post[i] == cards[k + 1 + i];
        assert cards[k].id != cards[k + 1 + i].id;
      }
    }
    assert |Filter(pre, IdIsNot(id))| == |pre|;
    assert Filter([cards[k]], IdIsNot(id)) == [];
    assert cards == pre + [cards[k]] + post;
    FilterConcat(pre + [cards[k]], post, IdIsNot(id));
    FilterConcat(pre, [cards[k]], IdIsNot(id));
  }

  /** `CardManager`: owns `this.cards` and writes it to storage after every change. */
  class CardManager {
    var cards: seq<Card>
    /** What storage holds: what `load` returned, then what `save` last wrote. */
    ghost var stored: seq<Card>
    /** How many times `save` has written. */
    ghost var saveCount: nat

    ghost predicate Valid()
      reads this
    {
      stored == cards
    }

    /** `new CardManager(storage)`, with `storage.load()` given as `loaded`. */
    constructor (loaded: seq<Card>)
      ensures Valid() && cards == loaded && saveCount == 0
    {
      cards := loaded;
      stored := loaded;
      saveCount := 0;
    }

    method Save()
      modifies this
      ensures cards == old(cards) && stored == cards && saveCount == old(saveCount) + 1
    {
      stored := cards;
      saveCount := saveCount + 1;
    }

    /** `addCard(text, column)`, with the `Date.now()` id given as `id`. */
    method AddCard(id: string, text: string, column: string) returns (card: Card)
      modifies this
      ensures card == Card(id, text, column)
      ensures cards == old(cards) + [card]
      ensures Valid() && saveCount == old(saveCount) + 1
    {
      card := Card(id, text, column);
      cards := cards + [card];
      Save();
    }

    method DeleteCard(cardId: string)
      modifies this
      ensures cards == Filter(old(cards), IdIsNot(cardId))
      ensures Valid() && saveCount == old(saveCount) + 1
    {
      cards := Filter(cards, IdIsNot(cardId));
      Save();
    }

    method MoveCard(cardId: string, targetColumn: string, targetIndex: int) returns (moved: bool)
      modifies this
      ensures moved <==> Moved(old(cards), cardId, targetColumn, targetIndex).Some?
      ensures moved ==> cards == Moved(old(cards), cardId, targetColumn, targetIndex).value
                        && Valid() && saveCount == old(saveCount) + 1
      ensures !moved ==> cards == old(cards) && stored == old(stored) && saveCount == old(saveCount)
    {
      var cardIndex := FindIndex(cards, cardId);
      if cardIndex.None? {
        return false;
      }
      var card := cards[cardIndex.value];
      var updatedCard := Card(card.id, card.text, targetColumn);
      cards := RemoveAt(cards, cardIndex.value);
      var targetCards := Filter(cards, InColumn(targetColumn));
      var insertIndex := ClampIndex(targetIndex, |targetCards|);
      targetCards := InsertAt(targetCards, insertIndex, updatedCard);
      var otherCards := Filter(cards, OutsideColumn(targetColumn));
      cards := otherCards + targetCards;
      Save();
      return true;
    }

    /** Returns the live list itself, not a copy. */
    method GetAllCards() returns (r: seq<Card>)
      ensures r == cards
    {
      r := cards;
    }
  }
}
