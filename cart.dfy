/**
 * The cart lines and what each cart operation does to them, as functions on the
 * sequence of lines, with the invariants the operations keep.
 */
module Cart {
  import opened Wrappers
  import opened Text
  import opened Search
  import opened Validation

  /** One cart entry `{id, name, price, quantity}`. */
  datatype Line = Line(id: nat, name: string, price: int, quantity: int)

  const MaxQuantity: int := 999

  function Subtotal(l: Line): int {
    l.price * l.quantity
  }

  /** The cart total: the sum of price times quantity over the lines, 0 for an empty cart. */
  function Total(lines: seq<Line>): int {
    if |lines| == 0 then 0 else Total(lines[..|lines| - 1]) + Subtotal(lines[|lines| - 1])
  }

  function HasId(id: nat): Line -> bool {
    (l: Line) => l.id == id
  }

  function HasName(name: string): Line -> bool {
    (l: Line) => SameIgnoringCase(l.name, name)
  }

  function IndexOfId(lines: seq<Line>, id: nat): Option<nat> {
    FirstMatch(lines, HasId(id))
  }

  function IndexOfName(lines: seq<Line>, name: string): Option<nat> {
    FirstMatch(lines, HasName(name))
  }

  // ----- invariants -------------------------------------------------------

  /** What validation guarantees of a line created by an add. */
  predicate ValidLine(l: Line) {
    1 <= |l.name| <= MaxNameLength && 1 <= l.price <= MaxPrice && l.quantity >= 1
  }

  predicate UniqueIds(lines: seq<Line>) {
    forall i, j :: 0 <= i < j < |lines| ==> lines[i].id != lines[j].id
  }

  /** At most one line per lowercased name. */
  predicate UniqueNames(lines: seq<Line>) {
    forall i, j :: 0 <= i < j < |lines| ==> !SameIgnoringCase(lines[i].name, lines[j].name)
  }

  predicate WellFormed(lines: seq<Line>) {
    && (forall i :: 0 <= i < |lines| ==> ValidLine(lines[i]))
    && UniqueIds(lines)
    && UniqueNames(lines)
  }

  predicate WithinCeiling(lines: seq<Line>) {
    forall i :: 0 <= i < |lines| ==> lines[i].quantity <= MaxQuantity
  }

  predicate IdsBelow(lines: seq<Line>, n: nat) {
    forall i :: 0 <= i < |lines| ==> lines[i].id < n
  }

  /** A bound above every id in `lines`, from which fresh ids can be drawn. */
  function IdBound(lines: seq<Line>): (n: nat)
    ensures IdsBelow(lines, n)
  {
    if |lines| == 0 then 0
    else
      var n := IdBound(lines[..|lines| - 1]);
      var l := lines[|lines| - 1];
      if l.id < n then n else l.id + 1
  }

  // ----- operations -------------------------------------------------------

  /** `addItem` after validation: merge into the line with the same name ignoring case, or append. */
  function AddedLine(lines: seq<Line>, name: string, price: int, freshId: nat): seq<Line> {
    match IndexOfName(lines, name)
    case Some(i) => lines[i := lines[i].(quantity := lines[i].quantity + 1)]
    case None => lines + [Line(freshId, name, price, 1)]
  }

  /** `increaseQuantity`: the first line with the id gains one, unless it is at the ceiling. */
  function Incremented(lines: seq<Line>, id: nat): seq<Line> {
    match IndexOfId(lines, id)
    case Some(i) =>
      if lines[i].quantity < MaxQuantity then lines[i := lines[i].(quantity := lines[i].quantity + 1)]
      else lines
    case None => lines
  }

  /** `decreaseQuantity`: the first line with the id loses one, unless it is at one. */
  function Decremented(lines: seq<Line>, id: nat): seq<Line> {
    match IndexOfId(lines, id)
    case Some(i) =>
      if lines[i].quantity > 1 then lines[i := lines[i].(quantity := lines[i].quantity - 1)]
      else lines
    case None => lines
  }

  /** `removeItem`'s filter: every line whose id differs is kept, in order. */
  function Removed(lines: seq<Line>, id: nat): seq<Line> {
    if |lines| == 0 then []
    else
      var last := lines[|lines| - 1];
      Removed(lines[..|lines| - 1], id) + (if last.id == id then [] else [last])
  }

  // ----- totals -----------------------------------------------------------

  lemma {:induction false} TotalUpdate(lines: seq<Line>, i: nat, l: Line)
    requires i < |lines|
    ensures Total(lines[i := l]) == Total(lines) - Subtotal(lines[i]) + Subtotal(l)
  {
    var n := |lines|;
    var u := lines[i := l];
    if i == n - 1 {
      assert u[..n - 1] == lines[..n - 1];
    } else {
      assert u[..n - 1] == lines[..n - 1][i := l];
      TotalUpdate(lines[..n - 1], i, l);
    }
  }

  lemma {:induction false} TotalConcat(a: seq<Line>, b: seq<Line>)
    ensures Total(a + b) == Total(a) + Total(b)
  {
    if |b| == 0 {
      assert a + b == a;
    } else {
      assert (a + b)[..|a + b| - 1] == a + b[..|b| - 1];
      TotalConcat(a, b[..|b| - 1]);
    }
  }

  /** A cart of valid lines has a positive total exactly when it is not empty. */
  lemma {:induction false} TotalPositive(lines: seq<Line>)
    requires forall i :: 0 <= i < |lines| ==> ValidLine(lines[i])
    ensures Total(lines) >= 0
    ensures Total(lines) > 0 <==> |lines| > 0
  {
    if |lines| > 0 {
      TotalPositive(lines[..|lines| - 1]);
      var l := lines[|lines| - 1];
      assert ValidLine(l);
      assert Subtotal(l) >= 1 by {
        assert l.price >= 1 && l.quantity >= 1;
        assert l.price * l.quantity >= 1 * l.quantity;
      }
    }
  }

  // ----- add --------------------------------------------------------------

  /** A matching name bumps only that line, by one, keeping its id, name and price. */
  lemma AddedLineMerges(lines: seq<Line>, name: string, price: int, freshId: nat, i: nat)
    requires IndexOfName(lines, name) == Some(i)
    ensures var r := AddedLine(lines, name, price, freshId);
      && |r| == |lines|
      && r[i].id == lines[i].id && r[i].name == lines[i].name && r[i].price == lines[i].price
      && r[i].quantity == lines[i].quantity + 1
      && (forall k :: 0 <= k < |lines| && k != i ==> r[k] == lines[k])
      && IndexOfName(r, name) == Some(i)
      && Total(r) == Total(lines) + lines[i].price
  {
    var r := AddedLine(lines, name, price, freshId);
    var l := lines[i].(quantity := lines[i].quantity + 1);
    assert r == lines[i := l];
    TotalUpdate(lines, i, l);
    assert l.price * l.quantity == lines[i].price * lines[i].quantity + lines[i].price;
    assert HasName(name)(r[i]) by {
      assert r[i].name == lines[i].name;
    }
    forall j | 0 <= j < i ensures !HasName(name)(r[j]) {
      assert r[j] == lines[j];
    }
  }

  /** A name not yet in the cart appends exactly one line, with quantity 1 and the given price. */
  lemma AddedLineAppends(lines: seq<Line>, name: string, price: int, freshId: nat)
    requires IndexOfName(lines, name).None?
    ensures var r := AddedLine(lines, name, price, freshId);
      && |r| == |lines| + 1
      && r[..|lines|] == lines
      && r[|lines|] == Line(freshId, name, price, 1)
      && IndexOfName(r, name) == Some(|lines|)
      && Total(r) == Total(lines) + price
  {
    var r := AddedLine(lines, name, price, freshId);
    var l := Line(freshId, name, price, 1);
    assert r == lines + [l];
    TotalConcat(lines, [l]);
    assert Total([l]) == price by {
      assert [l][..0] == [];
    }
    assert HasName(name)(r[|lines|]);
    forall j | 0 <= j < |lines| ensures !HasName(name)(r[j]) {
      assert r[j] == lines[j];
    }
  }

  /** Adding under a fresh id keeps every id below the next fresh one. */
  lemma AddedLineIdsBelow(lines: seq<Line>, name: string, price: int, freshId: nat)
    requires IdsBelow(lines, freshId)
    ensures IdsBelow(AddedLine(lines, name, price, freshId), freshId + 1)
  {
    var r := AddedLine(lines, name, price, freshId);
    match IndexOfName(lines, name)
    case Some(i) =>
      assert forall k :: 0 <= k < |r| ==> r[k].id == lines[k].id;
    case None =>
      assert forall k :: 0 <= k < |lines| ==> r[k] == lines[k];
  }

  /** Bumping a quantity keeps ids, names and the line shape, so a well-formed cart stays so. */
  lemma MergeWellFormed(lines: seq<Line>, i: nat)
    requires i < |lines| && WellFormed(lines)
    ensures WellFormed(lines[i := lines[i].(quantity := lines[i].quantity + 1)])
  {
    var r := lines[i := lines[i].(quantity := lines[i].quantity + 1)];
    assert forall k :: 0 <= k < |r| ==> r[k].id == lines[k].id && r[k].name == lines[k].name;
  }

  /** Appending a valid line under a fresh id and a new name keeps the cart well formed. */
  lemma AppendWellFormed(lines: seq<Line>, l: Line)
    requires WellFormed(lines) && IdsBelow(lines, l.id) && ValidLine(l)
    requires forall k :: 0 <= k < |lines| ==> !SameIgnoringCase(lines[k].name, l.name)
    ensures WellFormed(lines + [l])
  {
    var r := lines + [l];
    assert forall k :: 0 <= k < |lines| ==> r[k] == lines[k];
    assert r[|lines|] == l;
  }

  /** Adding a validated name and price under a fresh id keeps the cart well formed. */
  lemma AddedLineWellFormed(lines: seq<Line>, name: string, price: int, freshId: nat)
    requires IdsBelow(lines, freshId)
    requires ValidLine(Line(freshId, name, price, 1))
    ensures WellFormed(lines) ==> WellFormed(AddedLine(lines, name, price, freshId))
  {
    if WellFormed(lines) {
      match IndexOfName(lines, name)
      case Some(i) =>
        MergeWellFormed(lines, i);
      case None =>
        forall k | 0 <= k < |lines| ensures !SameIgnoringCase(lines[k].name, name) {
          assert !HasName(name)(lines[k]);
        }
        AppendWellFormed(lines, Line(freshId, name, price, 1));
    }
  }

  /**
   * The add path has no ceiling: on a cart within the ceiling, an add stays within
   * it exactly when it appends or merges into a line below 999, so merging into a
   * line at 999 yields 1000.
   */
  lemma AddedLineCeiling(lines: seq<Line>, name: string, price: int, freshId: nat)
    requires WithinCeiling(lines)
    ensures WithinCeiling(AddedLine(lines, name, price, freshId)) <==>
      match IndexOfName(lines, name)
      case Some(i) => lines[i].quantity < MaxQuantity
      case None => true
  {
    var r := AddedLine(lines, name, price, freshId);
    match IndexOfName(lines, name)
    case Some(i) =>
      AddedLineMerges(lines, name, price, freshId, i);
    case None =>
      AddedLineAppends(lines, name, price, freshId);
      assert forall k :: 0 <= k < |lines| ==> r[k] == lines[k];
  }

  // ----- quantity ---------------------------------------------------------

  /**
   * Only the first line carrying `id` can change, and only its quantity, by exactly
   * one and only from below 999; the total grows by that line's price when it does.
   */
  lemma IncrementedEffect(lines: seq<Line>, id: nat)
    ensures var r := Incremented(lines, id);
      && |r| == |lines|
      && (forall k :: 0 <= k < |lines| && lines[k].id != id ==> r[k] == lines[k])
      && match IndexOfId(lines, id)
         case None => r == lines
         case Some(i) =>
           && (forall k :: 0 <= k < |lines| && k != i ==> r[k] == lines[k])
           && r[i].(quantity := lines[i].quantity) == lines[i]
           && (if lines[i].quantity < MaxQuantity
               then r[i].quantity == lines[i].quantity + 1 && Total(r) == Total(lines) + lines[i].price
               else r == lines)
  {
    match IndexOfId(lines, id)
    case None =>
    case Some(i) =>
      if lines[i].quantity < MaxQuantity {
        var l := lines[i];
        TotalUpdate(lines, i, l.(quantity := l.quantity + 1));
        assert l.price * (l.quantity + 1) == l.price * l.quantity + l.price;
      }
  }

  /** Mirror image for decreasing, whose floor is 1. */
  lemma DecrementedEffect(lines: seq<Line>, id: nat)
    ensures var r := Decremented(lines, id);
      && |r| == |lines|
      && (forall k :: 0 <= k < |lines| && lines[k].id != id ==> r[k] == lines[k])
      && match IndexOfId(lines, id)
         case None => r == lines
         case Some(i) =>
           && (forall k :: 0 <= k < |lines| && k != i ==> r[k] == lines[k])
           && r[i].(quantity := lines[i].quantity) == lines[i]
           && (if lines[i].quantity > 1
               then r[i].quantity == lines[i].quantity - 1 && Total(r) == Total(lines) - lines[i].price
               else r == lines)
  {
    match IndexOfId(lines, id)
    case None =>
    case Some(i) =>
      if lines[i].quantity > 1 {
        var l := lines[i];
        TotalUpdate(lines, i, l.(quantity := l.quantity - 1));
        assert l.price * (l.quantity - 1) == l.price * l.quantity - l.price;
      }
  }

  /** Setting one line's quantity to a value of at least 1 keeps every invariant. */
  lemma SetQuantityKeepsInvariants(lines: seq<Line>, i: nat, q: int, n: nat)
    requires i < |lines|
    ensures var r := lines[i := lines[i].(quantity := q)];
      && (WellFormed(lines) && q >= 1 ==> WellFormed(r))
      && (WithinCeiling(lines) && q <= MaxQuantity ==> WithinCeiling(r))
      && (IdsBelow(lines, n) ==> IdsBelow(r, n))
  {
    var r := lines[i := lines[i].(quantity := q)];
    assert forall k :: 0 <= k < |r| ==> r[k].id == lines[k].id && r[k].name == lines[k].name;
    assert forall k :: 0 <= k < |r| && k != i ==> r[k] == lines[k];
  }

  /** Increasing keeps every invariant, the 1..999 bounds included. */
  lemma IncrementedKeepsInvariants(lines: seq<Line>, id: nat, n: nat)
    ensures WellFormed(lines) ==> WellFormed(Incremented(lines, id))
    ensures WithinCeiling(lines) ==> WithinCeiling(Incremented(lines, id))
    ensures IdsBelow(lines, n) ==> IdsBelow(Incremented(lines, id), n)
  {
    match IndexOfId(lines, id)
    case None =>
    case Some(i) =>
      if lines[i].quantity < MaxQuantity {
        SetQuantityKeepsInvariants(lines, i, lines[i].quantity + 1, n);
      }
  }

  /** Decreasing keeps every invariant, quantities never dropping below 1. */
  lemma DecrementedKeepsInvariants(lines: seq<Line>, id: nat, n: nat)
    ensures WellFormed(lines) ==> WellFormed(Decremented(lines, id))
    ensures WithinCeiling(lines) ==> WithinCeiling(Decremented(lines, id))
    ensures IdsBelow(lines, n) ==> IdsBelow(Decremented(lines, id), n)
  {
    match IndexOfId(lines, id)
    case None =>
    case Some(i) =>
      if lines[i].quantity > 1 {
        SetQuantityKeepsInvariants(lines, i, lines[i].quantity - 1, n);
      }
  }

  // ----- remove -----------------------------------------------------------

  /** Filtering drops exactly the lines with the id and keeps every other line. */
  lemma {:induction false} RemovedMembers(lines: seq<Line>, id: nat)
    ensures var r := Removed(lines, id);
      && |r| <= |lines|
      && (forall l :: l in r <==> l in lines && l.id != id)
  {
    if |lines| > 0 {
      var p := lines[..|lines| - 1];
      RemovedMembers(p, id);
      assert lines == p + [lines[|lines| - 1]];
    }
  }

  /** Removal works line by line, so it keeps the surviving lines in their order even when ids repeat. */
  lemma {:induction false} RemovedConcat(a: seq<Line>, b: seq<Line>, id: nat)
    ensures Removed(a + b, id) == Removed(a, id) + Removed(b, id)
  {
    if |b| == 0 {
      assert a + b == a;
    } else {
      var b' := b[..|b| - 1];
      assert (a + b)[..|a + b| - 1] == a + b';
      RemovedConcat(a, b', id);
    }
  }

  /** An absent id leaves the cart as it was. */
  lemma {:induction false} RemovedAbsent(lines: seq<Line>, id: nat)
    requires IndexOfId(lines, id).None?
    ensures Removed(lines, id) == lines
  {
    if |lines| > 0 {
      var p := lines[..|lines| - 1];
      assert IndexOfId(p, id).None? by {
        forall j | 0 <= j < |p| ensures !HasId(id)(p[j]) {
          assert p[j] == lines[j];
        }
      }
      RemovedAbsent(p, id);
      assert !HasId(id)(lines[|lines| - 1]);
    }
  }

  /** With unique ids, removing a present id cuts out exactly its line, keeping the order of the rest. */
  lemma {:induction false} RemovedCutsOut(lines: seq<Line>, id: nat, i: nat)
    requires UniqueIds(lines) && i < |lines| && lines[i].id == id
    ensures Removed(lines, id) == lines[..i] + lines[i + 1..]
  {
    var n := |lines|;
    var p := lines[..n - 1];
    if i == n - 1 {
      RemovedAbsent(p, id);
      assert p == lines[..i] && lines[i + 1..] == [];
    } else {
      assert p[i].id == id;
      RemovedCutsOut(p, id, i);
      assert lines[n - 1].id != id;
      assert lines[i + 1..] == p[i + 1..] + [lines[n - 1]];
    }
  }

  /** Removal keeps ids below a bound, whatever the cart holds. */
  lemma {:induction false} RemovedIdsBelow(lines: seq<Line>, id: nat, n: nat)
    requires IdsBelow(lines, n)
    ensures IdsBelow(Removed(lines, id), n)
  {
    if |lines| > 0 {
      RemovedIdsBelow(lines[..|lines| - 1], id, n);
    }
  }

  /** Cutting out position i shifts the later lines down by one. */
  lemma CutOutShifts(lines: seq<Line>, i: nat)
    requires i < |lines|
    ensures var r := lines[..i] + lines[i + 1..];
      && |r| == |lines| - 1
      && (forall k :: 0 <= k < i ==> r[k] == lines[k])
      && (forall k :: i <= k < |r| ==> r[k] == lines[k + 1])
  {
  }

  /** Cutting out one line keeps unique ids and unique names. */
  lemma CutOutKeepsUniqueness(lines: seq<Line>, i: nat)
    requires i < |lines|
    ensures UniqueIds(lines) ==> UniqueIds(lines[..i] + lines[i + 1..])
    ensures UniqueNames(lines) ==> UniqueNames(lines[..i] + lines[i + 1..])
  {
    var r := lines[..i] + lines[i + 1..];
    CutOutShifts(lines, i);
    forall a, b | 0 <= a < b < |r|
      ensures r[a] == lines[if a < i then a else a + 1] && r[b] == lines[if b < i then b else b + 1]
    {
    }
  }

  /** Removal keeps every invariant. */
  lemma RemovedKeepsInvariants(lines: seq<Line>, id: nat)
    ensures WellFormed(lines) ==> WellFormed(Removed(lines, id))
    ensures WellFormed(lines) && WithinCeiling(lines) ==> WithinCeiling(Removed(lines, id))
  {
    if WellFormed(lines) {
      match IndexOfId(lines, id)
      case None =>
        RemovedAbsent(lines, id);
      case Some(i) =>
        RemovedCutsOut(lines, id, i);
        CutOutShifts(lines, i);
        CutOutKeepsUniqueness(lines, i);
    }
  }

  /** Removal takes the removed line's subtotal off the total. */
  lemma RemovedTotal(lines: seq<Line>, id: nat)
    requires UniqueIds(lines)
    ensures Total(Removed(lines, id)) ==
      match IndexOfId(lines, id)
      case Some(i) => Total(lines) - Subtotal(lines[i])
      case None => Total(lines)
  {
    match IndexOfId(lines, id)
    case None =>
      RemovedAbsent(lines, id);
    case Some(i) =>
      RemovedCutsOut(lines, id, i);
      var front, l, back := lines[..i], lines[i], lines[i + 1..];
      calc {
        Total(lines);
        { assert lines == front + ([l] + back); }
        Total(front + ([l] + back));
        { TotalConcat(front, [l] + back); }
        Total(front) + Total([l] + back);
        { TotalConcat([l], back); }
        Total(front) + Total([l]) + Total(back);
        { assert [l][..0] == []; }
        Total(front) + Subtotal(l) + Total(back);
        { TotalConcat(front, back); }
        Total(front + back) + Subtotal(l);
      }
  }
}
