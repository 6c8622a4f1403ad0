/**
 * The shopping cart: an ordered list of lines, one per product and variant,
 * with the pure transforms `add`, `remove` and `setQty` apply to it, and the
 * store that holds it, reads the saved cart once and saves every change
 * after that. Quantities are whole numbers of items.
 */
module Cart {
  import opened Wrappers
  import opened Sequences

  datatype CartLine = CartLine(lineId: string, productId: string, variantId: Option<string>, qty: int)

  /** The saved cart once parsed: an object whose `lines` may be missing. */
  datatype SavedCart = SavedCart(lines: Option<seq<CartLine>>)

  function Max(a: int, b: int): int {
    if a >= b then a else b
  }

  // ---------------------------------------------------------------------------
  // Line ids
  // ---------------------------------------------------------------------------

  /** The variant a line id takes into account: only a non-empty string is truthy. */
  function VariantKey(variantId: Option<string>): Option<string> {
    if variantId.Some? && variantId.value != "" then variantId else None
  }

  /** `makeLineId`: the product id, followed by `::` and the variant id when there is one. */
  function MakeLineId(productId: string, variantId: Option<string>): string {
    if variantId.Some? && variantId.value != "" then productId + "::" + variantId.value else productId
  }

  /** The index of the first colon, or the length when there is none. */
  function ColonAt(x: string): (r: nat)
    ensures r <= |x|
  {
    if x == [] || x[0] == ':' then 0 else 1 + ColonAt(x[1..])
  }

  lemma {:induction false} ColonAtPrefix(p: string, rest: string)
    requires ':' !in p && |rest| > 0 && rest[0] == ':'
    ensures ColonAt(p + rest) == |p|
  {
    if p == [] {
      assert p + rest == rest;
    } else {
      assert (p + rest)[0] == p[0];
      assert (p + rest)[1..] == p[1..] + rest;
      ColonAtPrefix(p[1..], rest);
    }
  }

  /** Two ids built from colon-free product ids agree only when the parts agree. */
  lemma ColonSplit(p1: string, s1: string, p2: string, s2: string)
    requires ':' !in p1 && ':' !in p2
    requires p1 + "::" + s1 == p2 + "::" + s2
    ensures p1 == p2 && s1 == s2
  {
    var x := p1 + "::" + s1;
    assert x == p1 + ("::" + s1) == p2 + ("::" + s2);
    ColonAtPrefix(p1, "::" + s1);
    ColonAtPrefix(p2, "::" + s2);
    assert p1 == x[..|p1|] == p2;
    assert s1 == x[|p1| + 2..] == s2;
  }

  /** A line id of a colon-free product id holds a colon exactly when it names a variant. */
  lemma ColonMeansVariant(p: string, v: Option<string>)
    requires ':' !in p
    ensures ':' in MakeLineId(p, v) <==> VariantKey(v).Some?
  {
    if VariantKey(v).Some? {
      assert MakeLineId(p, v)[|p|] == ':';
    }
  }

  /**
   * A line id names one product and one variant: for colon-free product ids
   * two ids are equal exactly when the product ids are and the variants
   * count as the same.
   */
  lemma LineIdInjective(p1: string, v1: Option<string>, p2: string, v2: Option<string>)
    requires ':' !in p1 && ':' !in p2
    ensures MakeLineId(p1, v1) == MakeLineId(p2, v2) <==> p1 == p2 && VariantKey(v1) == VariantKey(v2)
  {
    ColonMeansVariant(p1, v1);
    ColonMeansVariant(p2, v2);
    if MakeLineId(p1, v1) == MakeLineId(p2, v2) && VariantKey(v1).Some? {
      ColonSplit(p1, v1.value, p2, v2.value);
    }
  }

  /** Without the colon-free condition ids collide, and an empty variant id is no variant. */
  lemma LineIdCollisions()
    ensures MakeLineId("a::b", None) == MakeLineId("a", Some("b"))
    ensures MakeLineId("a", Some("")) == MakeLineId("a", None)
  {
    assert "a::b" == "a" + "::" + "b";
  }

  // ---------------------------------------------------------------------------
  // The line list and its invariants
  // ---------------------------------------------------------------------------

  predicate HasLine(lines: seq<CartLine>, id: string) {
    exists i :: 0 <= i < |lines| && lines[i].lineId == id
  }

  /** No two lines share a line id. */
  predicate DistinctIds(lines: seq<CartLine>) {
    forall i, j :: 0 <= i < j < |lines| ==> lines[i].lineId != lines[j].lineId
  }

  predicate PositiveQtys(lines: seq<CartLine>) {
    forall i :: 0 <= i < |lines| ==> lines[i].qty >= 1
  }

  /** Every line id is the one built from the line's product and variant. */
  predicate IdsMatch(lines: seq<CartLine>) {
    forall i :: 0 <= i < |lines| ==> lines[i].lineId == MakeLineId(lines[i].productId, lines[i].variantId)
  }

  predicate ValidLines(lines: seq<CartLine>) {
    DistinctIds(lines) && PositiveQtys(lines) && IdsMatch(lines)
  }

  /** In a valid cart there is never more than one line per product and variant. */
  lemma OneLinePerProductVariant(lines: seq<CartLine>, i: nat, j: nat)
    requires ValidLines(lines) && i < |lines| && j < |lines|
    requires lines[i].productId == lines[j].productId
    requires VariantKey(lines[i].variantId) == VariantKey(lines[j].variantId)
    ensures i == j
  {
    assert lines[i].lineId == lines[j].lineId;
  }

  function QtyOf(): CartLine -> int {
    (l: CartLine) => l.qty
  }

  /** `totalItems`: the quantities added up. */
  function TotalItems(lines: seq<CartLine>): int {
    SumOf(lines, QtyOf())
  }

  /** An empty cart holds no items, and a cart of positive quantities at least one per line. */
  lemma TotalItemsBounds(lines: seq<CartLine>)
    ensures lines == [] ==> TotalItems(lines) == 0
    ensures PositiveQtys(lines) ==> TotalItems(lines) >= |lines|
  {
    if PositiveQtys(lines) {
      SumOfAtLeast(lines, QtyOf(), 1);
    }
  }

  // ---------------------------------------------------------------------------
  // add
  // ---------------------------------------------------------------------------

  /** The quantity `add` puts in: the requested one, or 1 when it is missing or below 1. */
  function AddQty(qty: Option<int>): (r: int)
    ensures r >= 1
    ensures qty.Some? && qty.value >= 1 ==> r == qty.value
    ensures qty.None? || qty.value < 1 ==> r == 1
  {
    Max(1, qty.GetOr(1))
  }

  /** `lines.find(l => l.lineId === id)`: the first line with that id. */
  function FindLine(lines: seq<CartLine>, id: string): (r: Option<CartLine>)
    ensures r.Some? <==> HasLine(lines, id)
    ensures r.Some? ==> exists i :: 0 <= i < |lines| && lines[i] == r.value && r.value.lineId == id
                          && forall j :: 0 <= j < i ==> lines[j].lineId != id
  {
    if lines == [] then None
    else if lines[0].lineId == id then Some(lines[0])
    else
      var r := FindLine(lines[1..], id);
      assert HasLine(lines, id) ==> HasLine(lines[1..], id) by {
        if HasLine(lines, id) {
          var i :| 0 <= i < |lines| && lines[i].lineId == id;
          assert lines[1..][i - 1] == lines[i];
        }
      }
      assert r.Some? ==> exists i :: 0 <= i < |lines| && lines[i] == r.value && r.value.lineId == id
                          && forall j :: 0 <= j < i ==> lines[j].lineId != id by {
        if r.Some? {
          var i :| 0 <= i < |lines[1..]| && lines[1..][i] == r.value && r.value.lineId == id
                   && forall j :: 0 <= j < i ==> lines[1..][j].lineId != id;
          assert lines[i + 1] == r.value;
          assert forall j :: 0 <= j < i + 1 ==> lines[j].lineId != id by {
            forall j | 0 <= j < i + 1 ensures lines[j].lineId != id {
              if j > 0 {
                assert lines[j] == lines[1..][j - 1];
              }
            }
          }
        }
      }
      r
  }

  /** The `map` of `add` on an existing id: that line's quantity raised by `n`. */
  function Increased(lines: seq<CartLine>, id: string, n: int): seq<CartLine> {
    seq(|lines|, i requires 0 <= i < |lines| =>
      if lines[i].lineId == id then lines[i].(qty := lines[i].qty + n) else lines[i])
  }

  /** `add`'s state update. */
  function AddToLines(lines: seq<CartLine>, productId: string, variantId: Option<string>, qty: Option<int>): seq<CartLine> {
    var n := AddQty(qty);
    var id := MakeLineId(productId, variantId);
    match FindLine(lines, id)
    case Some(_) => Increased(lines, id, n)
    case None => lines + [CartLine(id, productId, variantId, n)]
  }

  /** On an id the cart has, `add` raises only that line's quantity; length and order stay. */
  lemma AddExisting(lines: seq<CartLine>, productId: string, variantId: Option<string>, qty: Option<int>, i: nat)
    requires DistinctIds(lines) && i < |lines| && lines[i].lineId == MakeLineId(productId, variantId)
    ensures AddToLines(lines, productId, variantId, qty) == lines[i := lines[i].(qty := lines[i].qty + AddQty(qty))]
  {
    var id := MakeLineId(productId, variantId);
    assert HasLine(lines, id);
    var r := Increased(lines, id, AddQty(qty));
    assert forall k :: 0 <= k < |lines| && k != i ==> lines[k].lineId != id;
  }

  /** On a new id, `add` appends exactly one line at the end; earlier lines are untouched. */
  lemma AddNew(lines: seq<CartLine>, productId: string, variantId: Option<string>, qty: Option<int>)
    requires !HasLine(lines, MakeLineId(productId, variantId))
    ensures var r := AddToLines(lines, productId, variantId, qty);
      |r| == |lines| + 1 && r[..|lines|] == lines
      && r[|lines|] == CartLine(MakeLineId(productId, variantId), productId, variantId, AddQty(qty))
  {
    var r := AddToLines(lines, productId, variantId, qty);
    assert r[..|lines|] == lines;
  }

  /** Replacing a line by one with the same id, product and variant and a positive quantity keeps the cart valid. */
  lemma UpdateKeepsValid(lines: seq<CartLine>, i: nat, line: CartLine)
    requires ValidLines(lines) && i < |lines| && line.qty >= 1
    requires line.lineId == lines[i].lineId && line.productId == lines[i].productId && line.variantId == lines[i].variantId
    ensures ValidLines(lines[i := line])
  {
  }

  /** Appending a line with a new, matching id and a positive quantity keeps the cart valid. */
  lemma AppendKeepsValid(lines: seq<CartLine>, line: CartLine)
    requires ValidLines(lines) && !HasLine(lines, line.lineId) && line.qty >= 1
    requires line.lineId == MakeLineId(line.productId, line.variantId)
    ensures ValidLines(lines + [line])
  {
    var r := lines + [line];
    assert forall i :: 0 <= i < |lines| ==> r[i] == lines[i];
  }

  /** `add` keeps the cart valid: ids stay unique and match their lines, quantities stay positive. */
  lemma AddKeepsValid(lines: seq<CartLine>, productId: string, variantId: Option<string>, qty: Option<int>)
    requires ValidLines(lines)
    ensures ValidLines(AddToLines(lines, productId, variantId, qty))
  {
    var id := MakeLineId(productId, variantId);
    if HasLine(lines, id) {
      var i :| 0 <= i < |lines| && lines[i].lineId == id;
      AddExisting(lines, productId, variantId, qty, i);
      UpdateKeepsValid(lines, i, lines[i].(qty := lines[i].qty + AddQty(qty)));
    } else {
      AddNew(lines, productId, variantId, qty);
      AppendKeepsValid(lines, CartLine(id, productId, variantId, AddQty(qty)));
    }
  }

  /** `add` raises the item count by the quantity it puts in. */
  lemma AddTotal(lines: seq<CartLine>, productId: string, variantId: Option<string>, qty: Option<int>)
    requires DistinctIds(lines)
    ensures TotalItems(AddToLines(lines, productId, variantId, qty)) == TotalItems(lines) + AddQty(qty)
  {
    var id := MakeLineId(productId, variantId);
    var n := AddQty(qty);
    if HasLine(lines, id) {
      var i :| 0 <= i < |lines| && lines[i].lineId == id;
      AddExisting(lines, productId, variantId, qty, i);
      SumOfUpdate(lines, i, lines[i].(qty := lines[i].qty + n), QtyOf());
    } else {
      var line := CartLine(id, productId, variantId, n);
      SumOfAppend(lines, [line], QtyOf());
      assert SumOf([line], QtyOf()) == n;
    }
  }

  // ---------------------------------------------------------------------------
  // remove
  // ---------------------------------------------------------------------------

  function OtherLine(id: string): CartLine -> bool {
    (l: CartLine) => l.lineId != id
  }

  /** `remove`'s state update: every line with another id, in order. */
  function RemoveFromLines(lines: seq<CartLine>, id: string): seq<CartLine> {
    Filter(lines, OtherLine(id))
  }

  /** `remove` keeps exactly the lines with another id; an absent id changes nothing. */
  lemma RemoveMembers(lines: seq<CartLine>, id: string)
    ensures forall l :: l in RemoveFromLines(lines, id) <==> l in lines && l.lineId != id
    ensures !HasLine(lines, id) ==> RemoveFromLines(lines, id) == lines
  {
    FilterMembership(lines, OtherLine(id));
    if !HasLine(lines, id) {
      FilterAll(lines, OtherLine(id));
    }
  }

  /** Filtering out an id that only line `i` has drops that line and keeps the others in order. */
  lemma {:induction false} FilterOutOne(lines: seq<CartLine>, id: string, i: nat)
    requires i < |lines| && lines[i].lineId == id
    requires forall k :: 0 <= k < |lines| && k != i ==> lines[k].lineId != id
    ensures Filter(lines, OtherLine(id)) == lines[..i] + lines[i + 1..]
  {
    var f := OtherLine(id);
    var a, b := lines[..i], lines[i + 1..];
    assert lines == a + [lines[i]] + b;
    FilterAppend(a + [lines[i]], b, f);
    FilterAppend(a, [lines[i]], f);
    assert forall x :: x in a ==> f(x) by {
      forall x | x in a ensures f(x) {
        var k :| 0 <= k < |a| && a[k] == x;
        assert lines[k] == x;
      }
    }
    assert forall x :: x in b ==> f(x) by {
      forall x | x in b ensures f(x) {
        var k :| 0 <= k < |b| && b[k] == x;
        assert lines[i + 1 + k] == x;
      }
    }
    FilterAll(a, f);
    FilterAll(b, f);
    assert Filter([lines[i]], f) == [];
    calc {
      Filter(lines, f);
      Filter(a + [lines[i]], f) + Filter(b, f);
      (Filter(a, f) + Filter([lines[i]], f)) + Filter(b, f);
      (a + []) + b;
      { assert a + [] == a; }
      a + b;
    }
  }

  /** In a cart with unique ids, `remove` drops just that line and lowers the item count by its quantity. */
  lemma RemoveOne(lines: seq<CartLine>, id: string, i: nat)
    requires DistinctIds(lines) && i < |lines| && lines[i].lineId == id
    ensures RemoveFromLines(lines, id) == lines[..i] + lines[i + 1..]
    ensures TotalItems(RemoveFromLines(lines, id)) == TotalItems(lines) - lines[i].qty
  {
    FilterOutOne(lines, id, i);
    SumOfRemove(lines, i, QtyOf());
  }

  /** `remove` keeps the cart valid. */
  lemma RemoveKeepsValid(lines: seq<CartLine>, id: string)
    requires ValidLines(lines)
    ensures ValidLines(RemoveFromLines(lines, id))
  {
    if HasLine(lines, id) {
      var i :| 0 <= i < |lines| && lines[i].lineId == id;
      RemoveOne(lines, id, i);
      var r := lines[..i] + lines[i + 1..];
      forall k | 0 <= k < |r| ensures r[k] == lines[if k < i then k else k + 1] {
      }
    } else {
      RemoveMembers(lines, id);
    }
  }

  // ---------------------------------------------------------------------------
  // setQty
  // ---------------------------------------------------------------------------

  /** `setQty`'s state update: the matching line's quantity becomes `max(1, qty)`. */
  function SetQtyInLines(lines: seq<CartLine>, id: string, qty: int): seq<CartLine> {
    seq(|lines|, i requires 0 <= i < |lines| =>
      if lines[i].lineId == id then lines[i].(qty := Max(1, qty)) else lines[i])
  }

  /** `setQty` changes only the line with that id, and leaves an absent id's cart as it is. */
  lemma SetQtyOnly(lines: seq<CartLine>, id: string, qty: int)
    ensures var r := SetQtyInLines(lines, id, qty);
      |r| == |lines|
      && (forall i :: 0 <= i < |lines| && lines[i].lineId != id ==> r[i] == lines[i])
      && (forall i :: 0 <= i < |lines| && lines[i].lineId == id ==> r[i] == lines[i].(qty := Max(1, qty)) && r[i].qty >= 1)
      && (!HasLine(lines, id) ==> r == lines)
  {
  }

  /** In a cart with unique ids, `setQty` updates exactly one line and moves the item count accordingly. */
  lemma SetQtyOne(lines: seq<CartLine>, id: string, qty: int, i: nat)
    requires DistinctIds(lines) && i < |lines| && lines[i].lineId == id
    ensures SetQtyInLines(lines, id, qty) == lines[i := lines[i].(qty := Max(1, qty))]
    ensures TotalItems(SetQtyInLines(lines, id, qty)) == TotalItems(lines) - lines[i].qty + Max(1, qty)
  {
    assert forall k :: 0 <= k < |lines| && k != i ==> lines[k].lineId != id;
    SumOfUpdate(lines, i, lines[i].(qty := Max(1, qty)), QtyOf());
  }

  /** Setting the same quantity twice is setting it once. */
  lemma SetQtyIdempotent(lines: seq<CartLine>, id: string, qty: int)
    ensures SetQtyInLines(SetQtyInLines(lines, id, qty), id, qty) == SetQtyInLines(lines, id, qty)
  {
  }

  /** `setQty` keeps the cart valid. */
  lemma SetQtyKeepsValid(lines: seq<CartLine>, id: string, qty: int)
    requires ValidLines(lines)
    ensures ValidLines(SetQtyInLines(lines, id, qty))
  {
  }

  // ---------------------------------------------------------------------------
  // The store
  // ---------------------------------------------------------------------------

  /** The lines a fresh store shows after reading `stored`: the saved lines when there are some. */
  function Reloaded(stored: Option<SavedCart>): seq<CartLine> {
    if stored.Some? && stored.value.lines.Some? then stored.value.lines.value else []
  }

  predicate StoredValid(stored: Option<SavedCart>) {
    ValidLines(Reloaded(stored))
  }

  /**
   * `CartProvider`: the cart state, whether the saved cart has been read, and
   * the saved-cart storage slot it reads and writes. `isEmpty` records that the
   * state is still the shared empty constant, which React does not re-render
   * for (and so does not save) when `clear` sets it again.
   */
  class CartStore {
    var lines: seq<CartLine>
    var hydrated: bool
    var stored: Option<SavedCart>
    var isEmpty: bool

    /** The cart and the saved cart are valid. */
    predicate Valid()
      reads this
    {
      ValidLines(lines) && StoredValid(stored)
    }

    /** Once hydrated, reading the saved cart again gives back the cart. */
    predicate Persisted()
      reads this
    {
      hydrated ==> Reloaded(stored) == lines
    }

    /** The first render: the empty cart, not yet hydrated, storage as found. */
    constructor (stored: Option<SavedCart>)
      ensures lines == [] && !hydrated && this.stored == stored && isEmpty
      ensures StoredValid(stored) ==> Valid()
    {
      lines := [];
      hydrated := false;
      this.stored := stored;
      isEmpty := true;
    }

    /** `saveCart(state)`. */
    method Save()
      modifies this
      ensures stored == Some(SavedCart(Some(lines)))
      ensures lines == old(lines) && hydrated == old(hydrated) && isEmpty == old(isEmpty)
    {
      stored := Some(SavedCart(Some(lines)));
    }

    /**
     * The mount effect: take the saved cart when it has `lines`, then mark the
     * store hydrated; the persist effect then saves the state once.
     */
    method Hydrate()
      requires !hydrated
      modifies this
      ensures old(stored).Some? && old(stored).value.lines.Some?
        ==> lines == old(stored).value.lines.value && !isEmpty
      ensures !(old(stored).Some? && old(stored).value.lines.Some?)
        ==> lines == old(lines) && isEmpty == old(isEmpty)
      ensures hydrated && stored == Some(SavedCart(Some(lines)))
      ensures Persisted()
      ensures old(Valid()) ==> Valid()
    {
      var saved := stored;
      if saved.Some? && saved.value.lines.Some? {
        lines := saved.value.lines.value;
        isEmpty := false;
      }
      hydrated := true;
      Save();
    }

    /** `add`: the new state, saved only once the store is hydrated. */
    method Add(productId: string, variantId: Option<string>, qty: Option<int>)
      modifies this
      ensures lines == AddToLines(old(lines), productId, variantId, qty)
      ensures hydrated == old(hydrated) && !isEmpty
      ensures stored == if hydrated then Some(SavedCart(Some(lines))) else old(stored)
      ensures old(Persisted()) ==> Persisted()
      ensures old(Valid()) ==> Valid()
      ensures old(Valid()) ==> TotalItems(lines) == TotalItems(old(lines)) + AddQty(qty)
    {
      var n := AddQty(qty);
      var id := MakeLineId(productId, variantId);
      var existing := FindLine(lines, id);
      if existing.Some? {
        lines := Increased(lines, id, n);
      } else {
        lines := lines + [CartLine(id, productId, variantId, n)];
      }
      isEmpty := false;
      if old(ValidLines(lines)) {
        AddKeepsValid(old(lines), productId, variantId, qty);
        AddTotal(old(lines), productId, variantId, qty);
      }
      if hydrated {
        Save();
      }
    }

    /** `remove`: the new state, saved only once the store is hydrated. */
    method Remove(id: string)
      modifies this
      ensures lines == RemoveFromLines(old(lines), id)
      ensures hydrated == old(hydrated) && !isEmpty
      ensures stored == if hydrated then Some(SavedCart(Some(lines))) else old(stored)
      ensures old(Persisted()) ==> Persisted()
      ensures old(Valid()) ==> Valid()
    {
      if ValidLines(lines) {
        RemoveKeepsValid(lines, id);
      }
      lines := Filter(lines, OtherLine(id));
      isEmpty := false;
      if hydrated {
        Save();
      }
    }

    /** `setQty`: the new state, saved only once the store is hydrated. */
    method SetQty(id: string, qty: int)
      modifies this
      ensures lines == SetQtyInLines(old(lines), id, qty)
      ensures hydrated == old(hydrated) && !isEmpty
      ensures stored == if hydrated then Some(SavedCart(Some(lines))) else old(stored)
      ensures old(Persisted()) ==> Persisted()
      ensures old(Valid()) ==> Valid()
    {
      if ValidLines(lines) {
        SetQtyKeepsValid(lines, id, qty);
      }
      var nextQty := Max(1, qty);
      var prev := lines;
      lines := seq(|prev|, i requires 0 <= i < |prev| =>
        if prev[i].lineId == id then prev[i].(qty := nextQty) else prev[i]);
      isEmpty := false;
      if hydrated {
        Save();
      }
    }

    /**
     * `clear`: the empty constant as state and the saved cart removed; when the
     * state was not already that constant and the store is hydrated, the
     * persist effect then saves the empty cart.
     */
    method Clear()
      modifies this
      ensures lines == [] && isEmpty && hydrated == old(hydrated)
      ensures stored == if hydrated && !old(isEmpty) then Some(SavedCart(Some([]))) else None
      ensures Persisted()
      ensures old(Valid()) ==> Valid()
    {
      var changed := !isEmpty;
      lines := [];
      isEmpty := true;
      stored := None;
      if hydrated && changed {
        Save();
      }
    }
  }
}
