/**
 * Card records and the list operations both boards build their updates
 * from: `filter` with the predicates the source uses, `findIndex` by id,
 * and `splice` as removal or insertion at one index.
 */
module Cards {
  import opened Options

  /** A card record `{id, text, column}`. Ids are opaque strings chosen by the caller. */
  datatype Card = Card(id: string, text: string, column: string)

  /** The predicates the source passes to `filter`. */
  datatype Test = InColumn(column: string) | OutsideColumn(column: string) | IdIsNot(id: string)

  predicate Passes(c: Card, t: Test)
  {
    match t
    case InColumn(col) => c.column == col
    case OutsideColumn(col) => c.column != col
    case IdIsNot(id) => c.id != id
  }

  /** `Array.prototype.filter`: the cards of `s` that pass `t`, in their order in `s`. */
  function Filter(s: seq<Card>, t: Test): (r: seq<Card>)
    ensures |r| <= |s|
    ensures forall i :: 0 <= i < |r| ==> Passes(r[i], t)
    ensures (forall i :: 0 <= i < |s| ==> Passes(s[i], t)) ==> r == s
  {
    if s == [] then []
    else (if Passes(s[0], t) then [s[0]] else []) + Filter(s[1..], t)
  }

  /** A card is kept exactly when it is in `s` and passes `t`. */
  lemma {:induction false} FilterMembers(s: seq<Card>, t: Test)
    ensures forall c :: c in Filter(s, t) <==> c in s && Passes(c, t)
  {
    if s != [] {
      FilterMembers(s[1..], t);
      assert s == [s[0]] + s[1..];
    }
  }

  lemma {:induction false} FilterConcat(a: seq<Card>, b: seq<Card>, t: Test)
    ensures Filter(a + b, t) == Filter(a, t) + Filter(b, t)
  {
    if a == [] {
      assert a + b == b;
    } else {
      assert (a + b)[1..] == a[1..] + b;
      FilterConcat(a[1..], b, t);
    }
  }

  /** A test that no card of `s` passes filters `s` down to nothing. */
  lemma {:induction false} FilterNone(s: seq<Card>, t: Test)
    requires forall i :: 0 <= i < |s| ==> !Passes(s[i], t)
    ensures Filter(s, t) == []
  {
    if s != [] {
      FilterNone(s[1..], t);
    }
  }

  /** Every card is either in a column or outside it. */
  lemma {:induction false} FilterSplit(s: seq<Card>, column: string)
    ensures |Filter(s, InColumn(column))| + |Filter(s, OutsideColumn(column))| == |s|
  {
    if s != [] {
      FilterSplit(s[1..], column);
    }
  }

  /** Two filters may be applied in either order. */
  lemma {:induction false} FilterCommutes(s: seq<Card>, t1: Test, t2: Test)
    ensures Filter(Filter(s, t1), t2) == Filter(Filter(s, t2), t1)
  {
    if s != [] {
      var h1 := if Passes(s[0], t1) then [s[0]] else [];
      var h2 := if Passes(s[0], t2) then [s[0]] else [];
      FilterConcat(h1, Filter(s[1..], t1), t2);
      FilterConcat(h2, Filter(s[1..], t2), t1);
      FilterCommutes(s[1..], t1, t2);
    }
  }

  /** `findIndex(c => c.id === id)`: the first index holding `id`, or `None` for -1. */
  function FindIndex(s: seq<Card>, id: string): (r: Option<nat>)
    ensures r.None? <==> forall i :: 0 <= i < |s| ==> s[i].id != id
    ensures r.Some? ==> r.value < |s| && s[r.value].id == id
    ensures r.Some? ==> forall j :: 0 <= j < r.value ==> s[j].id != id
  {
    if s == [] then None
    else if s[0].id == id then Some(0)
    else match FindIndex(s[1..], id)
      case None => None
      case Some(k) => Some(k + 1)
  }

  /** `splice(k, 1)`: `s` without its element at `k`. */
  function RemoveAt<T>(s: seq<T>, k: nat): (r: seq<T>)
    requires k < |s|
    ensures |r| == |s| - 1
    ensures forall i :: 0 <= i < k ==> r[i] == s[i]
    ensures forall i :: k <= i < |r| ==> r[i] == s[i + 1]
  {
    s[..k] + s[k + 1..]
  }

  /** `splice(k, 0, x)`: `s` with `x` inserted before its element at `k`. */
  function InsertAt<T>(s: seq<T>, k: nat, x: T): (r: seq<T>)
    requires k <= |s|
    ensures |r| == |s| + 1 && r[k] == x
    ensures forall i :: 0 <= i < k ==> r[i] == s[i]
    ensures forall i :: k < i < |r| ==> r[i] == s[i - 1]
  {
    s[..k] + [x] + s[k..]
  }

  /** Removing what was just inserted gives back the original sequence. */
  lemma {:induction false} RemoveInsert<T>(s: seq<T>, k: nat, x: T)
    requires k <= |s|
    ensures RemoveAt(InsertAt(s, k, x), k) == s
  {
    var r := RemoveAt(InsertAt(s, k, x), k);
    assert forall i :: 0 <= i < |s| ==> r[i] == s[i];
  }

  /** Inserting into the filtered list at the boundary of a split of `s`. */
  lemma {:induction false} FilterInsertAt(s: seq<Card>, g: nat, x: Card, t: Test)
    requires g <= |s| && Passes(x, t)
    ensures |Filter(s[..g], t)| <= |Filter(s, t)|
    ensures Filter(InsertAt(s, g, x), t) == InsertAt(Filter(s, t), |Filter(s[..g], t)|, x)
  {
    var a, b := s[..g], s[g..];
    assert s == a + b;
    assert InsertAt(s, g, x) == a + [x] + b;
    FilterConcat(a, b, t);
    FilterConcat(a + [x], b, t);
    FilterConcat(a, [x], t);
    assert Filter([x], t) == [x];
    var fa, fb := Filter(a, t), Filter(b, t);
    assert (fa + fb)[..|fa|] == fa;
    assert (fa + fb)[|fa|..] == fb;
  }

  /** Inserting a card that fails `t` leaves the filtered list as it was. */
  lemma {:induction false} FilterInsertFailing(s: seq<Card>, g: nat, x: Card, t: Test)
    requires g <= |s| && !Passes(x, t)
    ensures Filter(InsertAt(s, g, x), t) == Filter(s, t)
  {
    var pre, post := s[..g], s[g..];
    assert InsertAt(s, g, x) == pre + ([x] + post);
    assert Filter(pre + ([x] + post), t) == Filter(pre, t) + Filter(post, t) by {
      FilterConcat(pre, [x] + post, t);
      FilterConcat([x], post, t);
      assert Filter([x], t) == [];
    }
    assert Filter(s, t) == Filter(pre, t) + Filter(post, t) by {
      assert s == pre + post;
      FilterConcat(pre, post, t);
    }
  }

  /** The cards of `s[..g]` that are in `column` precede the card at `g` in the column's list. */
  lemma {:induction false} FilterPrefixGrows(s: seq<Card>, g: nat, column: string)
    requires g < |s| && s[g].column == column
    ensures |Filter(s[..g], InColumn(column))| < |Filter(s, InColumn(column))|
    ensures Filter(s, InColumn(column))[|Filter(s[..g], InColumn(column))|] == s[g]
  {
    var t := InColumn(column);
    assert s == s[..g] + ([s[g]] + s[g + 1..]);
    FilterConcat(s[..g], [s[g]] + s[g + 1..], t);
    FilterConcat([s[g]], s[g + 1..], t);
    assert Filter([s[g]], t) == [s[g]];
  }
}
