/**
 The shopping cart: a map from book to quantity that `addItem` and
 `removeItem` update in place. `Added` and `Removed` give the new map as a
 function of the old one; the class methods are proved against them.
 */
module Cart {
  import opened Entities
  import opened Lines

  /** Every line of the cart holds a strictly positive quantity. */
  predicate AllPositive(items: map<Book, int>)
  {
    forall b :: b in items ==> items[b] > 0
  }

  /** The item map after `addItem(book, quantity)`. */
  function Added(items: map<Book, int>, book: Book, quantity: int): (r: map<Book, int>)
    ensures r.Keys == items.Keys + {book}
    ensures book in items ==> r[book] == items[book] + quantity
    ensures book !in items ==> r[book] == quantity
    ensures forall b :: b in items && b != book ==> r[b] == items[b]
    ensures AllPositive(items) && quantity > 0 ==> AllPositive(r)
  {
    if book in items then items[book := items[book] + quantity] else items[book := quantity]
  }

  /** The item map after `removeItem(book, quantity)`. */
  function Removed(items: map<Book, int>, book: Book, quantity: int): (r: map<Book, int>)
    ensures book !in items ==> r == items
    ensures book in items && quantity >= items[book] ==> book !in r
    ensures book in items && quantity < items[book] ==> book in r && r[book] == items[book] - quantity
    ensures r.Keys <= items.Keys
    ensures forall b :: b in items && b != book ==> b in r && r[b] == items[b]
    ensures AllPositive(items) ==> AllPositive(r)
  {
    if book !in items then items
    else if quantity >= items[book] then items - {book}
    else items[book := items[book] - quantity]
  }

  /** One cart edit, as a value, so that sequences of edits can be reasoned about. */
  datatype CartEdit = AddEdit(book: Book, quantity: int) | RemoveEdit(book: Book, quantity: int)

  function ApplyEdit(items: map<Book, int>, edit: CartEdit): map<Book, int>
  {
    match edit
    case AddEdit(b, q) => Added(items, b, q)
    case RemoveEdit(b, q) => Removed(items, b, q)
  }

  function ApplyEdits(items: map<Book, int>, edits: seq<CartEdit>): map<Book, int>
    decreases |edits|
  {
    if edits == [] then items else ApplyEdits(ApplyEdit(items, edits[0]), edits[1..])
  }

  /** Every add in the sequence uses a positive quantity (removes may use any). */
  predicate AddsArePositive(edits: seq<CartEdit>)
  {
    forall i :: 0 <= i < |edits| && edits[i].AddEdit? ==> edits[i].quantity > 0
  }

  /**
   Starting from a cart with positive lines, any sequence of adds with positive
   quantities and removes of any quantity keeps every line strictly positive:
   a line is deleted rather than left at zero or below.
   */
  lemma {:induction false} EditsKeepLinesPositive(items: map<Book, int>, edits: seq<CartEdit>)
    requires AllPositive(items)
    requires AddsArePositive(edits)
    ensures AllPositive(ApplyEdits(items, edits))
    decreases |edits|
  {
    if edits != [] {
      var next := ApplyEdit(items, edits[0]);
      assert AllPositive(next);
      assert AddsArePositive(edits[1..]) by {
        forall i | 0 <= i < |edits[1..]| && edits[1..][i].AddEdit?
          ensures edits[1..][i].quantity > 0
        {
          assert edits[1..][i] == edits[i + 1];
        }
      }
      EditsKeepLinesPositive(next, edits[1..]);
    }
  }

  class ShoppingCart {
    var items: map<Book, int>

    /** A new cart is empty. */
    constructor ()
      ensures items == map[]
    {
      items := map[];
    }

    method AddItem(book: Book, quantity: int)
      modifies this
      ensures items == Added(old(items), book, quantity)
    {
      if book in items {
        items := items[book := items[book] + quantity];
      } else {
        items := items[book := quantity];
      }
    }

    method RemoveItem(book: Book, quantity: int)
      modifies this
      ensures items == Removed(old(items), book, quantity)
    {
      if book in items {
        var currentQuantity := items[book];
        if quantity >= currentQuantity {
          items := items - {book};
        } else {
          items := items[book := currentQuantity - quantity];
        }
      }
    }

    /** Price times quantity over the cart, summed in the given iteration order. */
    method GetTotal(keyOrder: seq<Book>) returns (total: int)
      requires IsKeyOrder(keyOrder, items)
      ensures total == LinesTotal(keyOrder, items)
    {
      total := SumLines(items, keyOrder);
    }
  }

  // Java's `int` quantity, as written: `items.get(book) + quantity` in `addItem`
  // and `currentQuantity - quantity` in `removeItem` wrap modulo 2^32.

  const MinInt32: int := -0x8000_0000
  const MaxInt32: int := 0x7fff_ffff

  /** Two's-complement 32-bit wrap-around of a mathematical integer. */
  function WrapInt32(x: int): (r: int)
    ensures MinInt32 <= r <= MaxInt32
    ensures (x - r) % 0x1_0000_0000 == 0
  {
    (x - MinInt32) % 0x1_0000_0000 + MinInt32
  }

  /** `addItem` with Java's 32-bit `int` arithmetic. */
  function AddedInt32(items: map<Book, int>, book: Book, quantity: int): (r: map<Book, int>)
    ensures r.Keys == items.Keys + {book}
    ensures book in items ==> r[book] == WrapInt32(items[book] + quantity)
    ensures book !in items ==> r[book] == quantity
    ensures forall b :: b in items && b != book ==> r[b] == items[b]
    ensures book in items && MinInt32 <= items[book] + quantity <= MaxInt32
            ==> r == Added(items, book, quantity)
  {
    if book in items then items[book := WrapInt32(items[book] + quantity)]
    else items[book := quantity]
  }

  /**
   As written, adding a positive quantity to a line already at the largest
   `int` turns that line negative, so the positive-lines invariant fails.
   */
  lemma AddedInt32BreaksPositivity(items: map<Book, int>, book: Book)
    requires AllPositive(items)
    requires book in items && items[book] == MaxInt32
    ensures AddedInt32(items, book, 1)[book] == MinInt32
    ensures !AllPositive(AddedInt32(items, book, 1))
  {
  }

  /** `removeItem` with Java's 32-bit `int` arithmetic. */
  function RemovedInt32(items: map<Book, int>, book: Book, quantity: int): (r: map<Book, int>)
    ensures book !in items ==> r == items
    ensures book in items && quantity >= items[book] ==> r == items - {book}
    ensures book in items && quantity < items[book]
            ==> r == items[book := WrapInt32(items[book] - quantity)]
    ensures book in items && MinInt32 <= items[book] - quantity <= MaxInt32
            ==> r == Removed(items, book, quantity)
  {
    if book !in items then items
    else if quantity >= items[book] then items - {book}
    else items[book := WrapInt32(items[book] - quantity)]
  }

  /**
   As written, removing a negative quantity from a line already at the
   largest `int` takes the subtracting branch and turns that line negative,
   so the positive-lines invariant fails.
   */
  lemma RemovedInt32BreaksPositivity(items: map<Book, int>, book: Book)
    requires AllPositive(items)
    requires book in items && items[book] == MaxInt32
    ensures RemovedInt32(items, book, -1)[book] == MinInt32
    ensures !AllPositive(RemovedInt32(items, book, -1))
  {
  }

}
