/**
  The cart of the customer menu screen (frontend-customer/src/components/Menu.js):
  an ordered sequence of lines, one per menu item, each holding a snapshot of
  the item's name and price taken when the line was created, a quantity and a
  free-text note. Every operation computes a new cart from the old one; the
  session in module Session stores the result.
 */
module Cart {
  import opened Wrappers
  import opened Catalog

  datatype CartLine = CartLine(
    menuItemId: int,
    name: string,
    price: nat,
    quantity: nat,
    note: string)

  /** The line created the first time an item is added. */
  function NewLine(item: MenuItem): CartLine {
    CartLine(item.id, item.name, item.price, 1, "")
  }

  /** A line with one more unit of its item. */
  function Bump(l: CartLine): CartLine {
    l.(quantity := l.quantity + 1)
  }

  /** What one line contributes to the total. */
  function Amount(l: CartLine): nat {
    l.price * l.quantity
  }

  // ---------------------------------------------------------------------------
  // Invariants of every cart the session can reach
  // ---------------------------------------------------------------------------

  /** No two lines refer to the same menu item. */
  ghost predicate UniqueIds(cart: seq<CartLine>) {
    forall i, j :: 0 <= i < j < |cart| ==> cart[i].menuItemId != cart[j].menuItemId
  }

  /** Every line holds at least one unit. */
  ghost predicate PositiveQuantities(cart: seq<CartLine>) {
    forall k :: 0 <= k < |cart| ==> cart[k].quantity >= 1
  }

  ghost predicate WellFormed(cart: seq<CartLine>) {
    UniqueIds(cart) && PositiveQuantities(cart)
  }

  // ---------------------------------------------------------------------------
  // Derived values
  // ---------------------------------------------------------------------------

  /** Sum of price times quantity over the lines, accumulated from the first line to the last. */
  function Total(cart: seq<CartLine>): nat {
    if cart == [] then 0
    else Total(cart[..|cart| - 1]) + Amount(cart[|cart| - 1])
  }

  /** How many units of item `id` the cart holds, over all lines with that id. */
  function QuantityOf(cart: seq<CartLine>, id: int): nat {
    if cart == [] then 0
    else
      var last := cart[|cart| - 1];
      QuantityOf(cart[..|cart| - 1], id) + (if last.menuItemId == id then last.quantity else 0)
  }

  // ---------------------------------------------------------------------------
  // Operations
  // ---------------------------------------------------------------------------

  /** The first line for item `id`, if there is one. */
  function Find(cart: seq<CartLine>, id: int): (r: Option<CartLine>)
    ensures r.None? <==> forall k :: 0 <= k < |cart| ==> cart[k].menuItemId != id
    ensures r.Some? ==> exists k :: 0 <= k < |cart| && cart[k] == r.value && cart[k].menuItemId == id
  {
    if cart == [] then None
    else
      var n := |cart| - 1;
      match Find(cart[..n], id)
      case Some(l) => Some(l)
      case None => if cart[n].menuItemId == id then Some(cart[n]) else None
  }

  /** Every line for item `id` gets one more unit; all other lines are kept as they are. */
  function IncrementLine(cart: seq<CartLine>, id: int): (r: seq<CartLine>)
    ensures |r| == |cart|
    ensures forall k :: 0 <= k < |cart| ==>
      r[k].menuItemId == cart[k].menuItemId && r[k].name == cart[k].name &&
      r[k].price == cart[k].price && r[k].note == cart[k].note &&
      r[k].quantity == cart[k].quantity + (if cart[k].menuItemId == id then 1 else 0)
  {
    if cart == [] then []
    else
      var n := |cart| - 1;
      IncrementLine(cart[..n], id) + [if cart[n].menuItemId == id then Bump(cart[n]) else cart[n]]
  }

  /**
    Adding an item: if the cart already has a line for it, that line's quantity
    goes up by one; otherwise a fresh line with quantity 1, an empty note and
    the item's current name and price is appended at the end.
   */
  function AddToCart(cart: seq<CartLine>, item: MenuItem): (r: seq<CartLine>)
    ensures Find(cart, item.id).Some? ==> |r| == |cart| && forall k :: 0 <= k < |cart| ==>
      r[k].menuItemId == cart[k].menuItemId && r[k].name == cart[k].name &&
      r[k].price == cart[k].price && r[k].note == cart[k].note &&
      r[k].quantity == cart[k].quantity + (if cart[k].menuItemId == item.id then 1 else 0)
    ensures Find(cart, item.id).None? ==>
      |r| == |cart| + 1 && r[..|cart|] == cart &&
      r[|cart|].menuItemId == item.id && r[|cart|].name == item.name &&
      r[|cart|].price == item.price && r[|cart|].quantity == 1 && r[|cart|].note == ""
  {
    match Find(cart, item.id)
    case Some(_) => IncrementLine(cart, item.id)
    case None => cart + [NewLine(item)]
  }

  /** Every line for item `id` gets `note` as its note; nothing else changes. */
  function UpdateNote(cart: seq<CartLine>, id: int, note: string): (r: seq<CartLine>)
    ensures |r| == |cart|
    ensures forall k :: 0 <= k < |cart| ==>
      r[k].menuItemId == cart[k].menuItemId && r[k].name == cart[k].name &&
      r[k].price == cart[k].price && r[k].quantity == cart[k].quantity &&
      r[k].note == (if cart[k].menuItemId == id then note else cart[k].note)
  {
    if cart == [] then []
    else
      var n := |cart| - 1;
      UpdateNote(cart[..n], id, note) + [if cart[n].menuItemId == id then cart[n].(note := note) else cart[n]]
  }

  /** Adding the items of `items` one after the other, first to last. */
  function AddAll(cart: seq<CartLine>, items: seq<MenuItem>): seq<CartLine> {
    if items == [] then cart
    else AddToCart(AddAll(cart, items[..|items| - 1]), items[|items| - 1])
  }

  // ---------------------------------------------------------------------------
  // The total
  // ---------------------------------------------------------------------------

  /** The total of a cart is the sum of the totals of any split of it. */
  lemma {:induction false} TotalConcat(a: seq<CartLine>, b: seq<CartLine>)
    ensures Total(a + b) == Total(a) + Total(b)
  {
    if b == [] {
      assert a + b == a;
    } else {
      var n := |b| - 1;
      assert (a + b)[..|a + b| - 1] == a + b[..n];
      TotalConcat(a, b[..n]);
    }
  }

  /** Replacing one line changes the total by the difference of the two lines' amounts. */
  lemma {:induction false} TotalReplace(cart: seq<CartLine>, k: nat, l: CartLine)
    requires k < |cart|
    ensures Total(cart[k := l]) + Amount(cart[k]) == Total(cart) + Amount(l)
  {
    var n := |cart| - 1;
    if k < n {
      assert cart[k := l][..n] == cart[..n][k := l];
      TotalReplace(cart[..n], k, l);
    } else {
      assert cart[k := l][..n] == cart[..n];
    }
  }

  /** Two carts whose lines contribute the same amounts, position by position, have the same total. */
  lemma {:induction false} TotalSameAmounts(a: seq<CartLine>, b: seq<CartLine>)
    requires |a| == |b|
    requires forall k :: 0 <= k < |a| ==> Amount(a[k]) == Amount(b[k])
    ensures Total(a) == Total(b)
  {
    if a != [] {
      TotalSameAmounts(a[..|a| - 1], b[..|b| - 1]);
    }
  }

  // ---------------------------------------------------------------------------
  // Adding an item
  // ---------------------------------------------------------------------------

  /**
    In a cart with one line per item, adding an item that already has a line
    at position `k` replaces exactly that line by the same line with one more
    unit: length, order and every other line stay as they were.
   */
  lemma AddExisting(cart: seq<CartLine>, item: MenuItem, k: nat)
    requires UniqueIds(cart)
    requires k < |cart| && cart[k].menuItemId == item.id
    ensures AddToCart(cart, item) == cart[k := Bump(cart[k])]
  {
    var r := AddToCart(cart, item);
    assert Find(cart, item.id).Some?;
    forall j | 0 <= j < |cart|
      ensures r[j] == cart[k := Bump(cart[k])][j]
    {
      if j != k {
        assert cart[j].menuItemId != item.id;
      }
    }
  }

  /**
    Adding an item without a line appends exactly one line at the end, built
    from the item, and leaves the existing lines as they were.
   */
  lemma AddNew(cart: seq<CartLine>, item: MenuItem)
    requires forall k :: 0 <= k < |cart| ==> cart[k].menuItemId != item.id
    ensures AddToCart(cart, item) == cart + [CartLine(item.id, item.name, item.price, 1, "")]
  {
  }

  /** Adding keeps both cart invariants. */
  lemma AddKeepsWellFormed(cart: seq<CartLine>, item: MenuItem)
    requires WellFormed(cart)
    ensures WellFormed(AddToCart(cart, item))
  {
    var r := AddToCart(cart, item);
    if Find(cart, item.id).None? {
      forall i, j | 0 <= i < j < |r|
        ensures r[i].menuItemId != r[j].menuItemId
      {
        if j == |cart| {
          assert r[i] == cart[i];
        } else {
          assert r[i] == cart[i] && r[j] == cart[j];
        }
      }
    }
  }

  /**
    In a cart with one line per item, adding an item raises the total by the
    price of one unit: the snapshot price of the item's existing line, or the
    item's price when a new line is made.
   */
  lemma AddTotal(cart: seq<CartLine>, item: MenuItem)
    requires UniqueIds(cart)
    ensures Total(AddToCart(cart, item)) ==
      Total(cart) + (if Find(cart, item.id).Some? then Find(cart, item.id).value.price else item.price)
  {
    match Find(cart, item.id)
    case Some(l) =>
      var k :| 0 <= k < |cart| && cart[k] == l && cart[k].menuItemId == item.id;
      AddExisting(cart, item, k);
      TotalReplace(cart, k, Bump(cart[k]));
      assert Amount(Bump(l)) == Amount(l) + l.price by {
        assert l.price * (l.quantity + 1) == l.price * l.quantity + l.price;
      }
    case None =>
      TotalConcat(cart, [NewLine(item)]);
      assert [NewLine(item)][..0] == [];
  }

  /** When the cart's line for the item carries the item's price, adding raises the total by exactly that price. */
  lemma AddTotalAtItemPrice(cart: seq<CartLine>, item: MenuItem)
    requires UniqueIds(cart)
    requires forall k :: 0 <= k < |cart| && cart[k].menuItemId == item.id ==> cart[k].price == item.price
    ensures Total(AddToCart(cart, item)) == Total(cart) + item.price
  {
    AddTotal(cart, item);
  }

  /** Replacing one line changes the quantity held of each item accordingly. */
  lemma {:induction false} QuantityReplace(cart: seq<CartLine>, k: nat, l: CartLine, id: int)
    requires k < |cart|
    ensures QuantityOf(cart[k := l], id) + (if cart[k].menuItemId == id then cart[k].quantity else 0)
         == QuantityOf(cart, id) + (if l.menuItemId == id then l.quantity else 0)
  {
    var n := |cart| - 1;
    if k < n {
      assert cart[k := l][..n] == cart[..n][k := l];
      QuantityReplace(cart[..n], k, l, id);
    } else {
      assert cart[k := l][..n] == cart[..n];
    }
  }

  /** In a cart with one line per item, adding an item adds one unit of that item and no unit of any other. */
  lemma AddQuantity(cart: seq<CartLine>, item: MenuItem, id: int)
    requires UniqueIds(cart)
    ensures QuantityOf(AddToCart(cart, item), id) == QuantityOf(cart, id) + (if item.id == id then 1 else 0)
  {
    match Find(cart, item.id)
    case Some(l) =>
      var k :| 0 <= k < |cart| && cart[k] == l && cart[k].menuItemId == item.id;
      AddExisting(cart, item, k);
      QuantityReplace(cart, k, Bump(cart[k]), id);
    case None =>
      var r := cart + [NewLine(item)];
      assert r[..|r| - 1] == cart;
  }

  // ---------------------------------------------------------------------------
  // Sequences of adds
  // ---------------------------------------------------------------------------

  /** Number of entries of `items` for menu item `id`. */
  function Count(items: seq<MenuItem>, id: int): nat {
    if items == [] then 0
    else Count(items[..|items| - 1], id) + (if items[|items| - 1].id == id then 1 else 0)
  }

  /** Sum of the prices of `items`. */
  function PriceSum(items: seq<MenuItem>): nat {
    if items == [] then 0
    else PriceSum(items[..|items| - 1]) + items[|items| - 1].price
  }

  /** Every entry for the same menu item carries the same price. */
  ghost predicate ConsistentPrices(items: seq<MenuItem>) {
    forall i, j :: 0 <= i < |items| && 0 <= j < |items| && items[i].id == items[j].id ==>
      items[i].price == items[j].price
  }

  /** Every line's id and price are those of some entry of `items`. */
  ghost predicate SnapshotsOf(cart: seq<CartLine>, items: seq<MenuItem>) {
    forall k :: 0 <= k < |cart| ==>
      exists j :: 0 <= j < |items| && items[j].id == cart[k].menuItemId && items[j].price == cart[k].price
  }

  /** Any sequence of adds keeps both cart invariants. */
  lemma {:induction false} AddAllKeepsWellFormed(cart: seq<CartLine>, items: seq<MenuItem>)
    requires WellFormed(cart)
    ensures WellFormed(AddAll(cart, items))
  {
    if items != [] {
      var n := |items| - 1;
      AddAllKeepsWellFormed(cart, items[..n]);
      AddKeepsWellFormed(AddAll(cart, items[..n]), items[n]);
    }
  }

  /** Starting from an empty cart, the cart holds each item exactly as often as it was added. */
  lemma {:induction false} AddAllQuantity(items: seq<MenuItem>, id: int)
    ensures QuantityOf(AddAll([], items), id) == Count(items, id)
  {
    if items != [] {
      var n := |items| - 1;
      AddAllQuantity(items[..n], id);
      AddAllKeepsWellFormed([], items[..n]);
      AddQuantity(AddAll([], items[..n]), items[n], id);
    }
  }

  /** Adding the same item n times to an empty cart gives one line with quantity n. */
  lemma {:induction false} RepeatAdd(item: MenuItem, n: nat)
    requires n >= 1
    ensures AddAll([], seq(n, _ => item)) == [NewLine(item).(quantity := n)]
  {
    var items := seq(n, _ => item);
    if n == 1 {
      assert items[..0] == [];
    } else {
      assert items[..n - 1] == seq(n - 1, _ => item);
      RepeatAdd(item, n - 1);
      var prev := [NewLine(item).(quantity := n - 1)];
      assert Find(prev, item.id) == Some(prev[0]);
    }
  }

  /** Starting from an empty cart, every line is a snapshot of one of the added items. */
  lemma {:induction false} AddAllSnapshots(items: seq<MenuItem>)
    ensures SnapshotsOf(AddAll([], items), items)
  {
    if items != [] {
      var n := |items| - 1;
      var before := AddAll([], items[..n]);
      var after := AddAll([], items);
      AddAllSnapshots(items[..n]);
      forall k | 0 <= k < |after|
        ensures exists j :: 0 <= j < |items| && items[j].id == after[k].menuItemId && items[j].price == after[k].price
      {
        if k < |before| {
          var j :| 0 <= j < n && items[..n][j].id == before[k].menuItemId && items[..n][j].price == before[k].price;
          assert items[j] == items[..n][j];
        } else {
          assert after[k] == NewLine(items[n]);
        }
      }
    }
  }

  /**
    Starting from an empty cart, when the added items agree on the price of each
    menu item, the total is the sum of the prices of everything added.
   */
  lemma {:induction false} AddAllTotal(items: seq<MenuItem>)
    requires ConsistentPrices(items)
    ensures Total(AddAll([], items)) == PriceSum(items)
  {
    if items != [] {
      var n := |items| - 1;
      var before := AddAll([], items[..n]);
      ConsistentPrefix(items, n);
      AddAllTotal(items[..n]);
      AddAllKeepsWellFormed([], items[..n]);
      AddAllSnapshots(items[..n]);
      SnapshotPricesAgree(before, items, n);
      AddTotalAtItemPrice(before, items[n]);
    }
  }

  lemma ConsistentPrefix(items: seq<MenuItem>, n: nat)
    requires n <= |items| && ConsistentPrices(items)
    ensures ConsistentPrices(items[..n])
  {
    var init := items[..n];
    forall i, j | 0 <= i < |init| && 0 <= j < |init| && init[i].id == init[j].id
      ensures init[i].price == init[j].price
    {
      assert init[i] == items[i] && init[j] == items[j];
    }
  }

  /** Lines snapshotted from the first `n` items carry the price that item `n` has, when prices are consistent. */
  lemma SnapshotPricesAgree(cart: seq<CartLine>, items: seq<MenuItem>, n: nat)
    requires n < |items| && ConsistentPrices(items)
    requires SnapshotsOf(cart, items[..n])
    ensures forall k :: 0 <= k < |cart| && cart[k].menuItemId == items[n].id ==> cart[k].price == items[n].price
  {
    forall k | 0 <= k < |cart| && cart[k].menuItemId == items[n].id
      ensures cart[k].price == items[n].price
    {
      var j :| 0 <= j < n && items[..n][j].id == cart[k].menuItemId && items[..n][j].price == cart[k].price;
      assert items[..n][j] == items[j];
    }
  }

  // ---------------------------------------------------------------------------
  // Editing a note
  // ---------------------------------------------------------------------------

  /** A note edit for an item without a line changes nothing and creates no line. */
  lemma UpdateNoteMissing(cart: seq<CartLine>, id: int, note: string)
    requires Find(cart, id).None?
    ensures UpdateNote(cart, id, note) == cart
  {
    var r := UpdateNote(cart, id, note);
    assert forall k :: 0 <= k < |cart| ==> r[k] == cart[k];
  }

  /** A note edit keeps the total, the quantity of every item and both cart invariants. */
  lemma UpdateNoteKeeps(cart: seq<CartLine>, id: int, note: string, other: int)
    ensures Total(UpdateNote(cart, id, note)) == Total(cart)
    ensures QuantityOf(UpdateNote(cart, id, note), other) == QuantityOf(cart, other)
    ensures WellFormed(cart) ==> WellFormed(UpdateNote(cart, id, note))
  {
    var r := UpdateNote(cart, id, note);
    TotalSameAmounts(cart, r);
    QuantitySame(cart, r, other);
  }

  lemma {:induction false} QuantitySame(a: seq<CartLine>, b: seq<CartLine>, id: int)
    requires |a| == |b|
    requires forall k :: 0 <= k < |a| ==> a[k].menuItemId == b[k].menuItemId && a[k].quantity == b[k].quantity
    ensures QuantityOf(a, id) == QuantityOf(b, id)
  {
    if a != [] {
      QuantitySame(a[..|a| - 1], b[..|b| - 1], id);
    }
  }

  /** In a cart with one line per item, the edited line at position `k` is the only line that changes. */
  lemma UpdateNoteExisting(cart: seq<CartLine>, id: int, note: string, k: nat)
    requires UniqueIds(cart)
    requires k < |cart| && cart[k].menuItemId == id
    ensures UpdateNote(cart, id, note) == cart[k := cart[k].(note := note)]
  {
    var r := UpdateNote(cart, id, note);
    forall j | 0 <= j < |cart|
      ensures r[j] == cart[k := cart[k].(note := note)][j]
    {
      if j != k {
        assert cart[j].menuItemId != id;
      }
    }
  }
}
