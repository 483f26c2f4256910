/**
 The stock side of checkout. The store walks the cart's keys in iteration
 order; for each book it looks up the stock, fails if the book is missing or
 the quantity exceeds the stock, and otherwise writes back stock minus
 quantity before moving to the next book. A failure therefore leaves the books
 already visited decremented. `RunStock` is that loop as a function;
 `RunStockClosedForm` says in one formula what it does.
 */
module Inventory {
  import opened Entities
  import opened Lines

  /** The inventory after the loop, and whether it ran to the end. */
  datatype StockRun =
    | Completed(stock: map<Book, int>)
    | Halted(stock: map<Book, int>, error: StoreError)

  /** The line for `book` can be served from `inventory` as it stands. */
  predicate Sufficient(inventory: map<Book, int>, items: map<Book, int>, book: Book)
    requires book in items
  {
    book in inventory && items[book] <= inventory[book]
  }

  /** The failure raised for a line that cannot be served. */
  function Shortfall(inventory: map<Book, int>, book: Book): StoreError
  {
    if book !in inventory then NotInInventory(book) else InsufficientStock(book)
  }

  predicate NonNegative(inventory: map<Book, int>)
  {
    forall b :: b in inventory ==> inventory[b] >= 0
  }

  /** The checkout loop over the cart lines in `keys`, one inventory write per line. */
  function RunStock(inventory: map<Book, int>, items: map<Book, int>, keys: seq<Book>): (run: StockRun)
    requires AllIn(keys, items)
    ensures run.stock.Keys == inventory.Keys
    decreases |keys|
  {
    if keys == [] then Completed(inventory)
    else
      var book := keys[0];
      if book !in inventory then Halted(inventory, NotInInventory(book))
      else if items[book] > inventory[book] then Halted(inventory, InsufficientStock(book))
      else RunStock(inventory[book := inventory[book] - items[book]], items, keys[1..])
  }

  /** The inventory with each book of `done` lowered by its cart quantity. */
  function Decremented(inventory: map<Book, int>, items: map<Book, int>, done: seq<Book>): map<Book, int>
    requires AllIn(done, items)
  {
    map b | b in inventory :: if b in done then inventory[b] - items[b] else inventory[b]
  }

  /** The index of the first line that cannot be served, or |keys| if there is none. */
  function FirstShortfall(inventory: map<Book, int>, items: map<Book, int>, keys: seq<Book>): (j: nat)
    requires AllIn(keys, items)
    ensures j <= |keys|
    ensures forall i :: 0 <= i < j ==> Sufficient(inventory, items, keys[i])
    ensures j < |keys| ==> !Sufficient(inventory, items, keys[j])
    decreases |keys|
  {
    if keys == [] || !Sufficient(inventory, items, keys[0]) then 0
    else 1 + FirstShortfall(inventory, items, keys[1..])
  }

  /**
   `FirstShortfall` looks only at the stock of the books in `keys` (its
   contract pins the index down from those alone).
   */
  lemma FirstShortfallFrame(inv: map<Book, int>, inv': map<Book, int>,
                                               items: map<Book, int>, keys: seq<Book>)
    requires AllIn(keys, items)
    requires forall b :: b in keys ==> (b in inv <==> b in inv')
    requires forall b :: b in keys && b in inv ==> inv[b] == inv'[b]
    ensures FirstShortfall(inv, items, keys) == FirstShortfall(inv', items, keys)
  {
  }

  /** Applying the first line and then `j` more is applying the first `j + 1` lines. */
  lemma DecrementedShift(inventory: map<Book, int>, items: map<Book, int>, keys: seq<Book>, j: nat)
    requires AllIn(keys, items) && Distinct(keys)
    requires keys != [] && keys[0] in inventory && j < |keys|
    ensures Decremented(inventory[keys[0] := inventory[keys[0]] - items[keys[0]]], items, keys[1..][..j])
         == Decremented(inventory, items, keys[..j + 1])
  {
  }

  /**
   What the loop does, as long as no book is listed twice (true of a map's
   keys): if every line can be served it completes and every listed book is
   lowered by its quantity; otherwise it halts at the first line that cannot be
   served, naming that book, with exactly the lines before it applied.
   */
  lemma {:induction false} RunStockClosedForm(inventory: map<Book, int>, items: map<Book, int>, keys: seq<Book>)
    requires AllIn(keys, items) && Distinct(keys)
    ensures var j := FirstShortfall(inventory, items, keys);
      RunStock(inventory, items, keys)
        == if j == |keys| then Completed(Decremented(inventory, items, keys))
           else Halted(Decremented(inventory, items, keys[..j]), Shortfall(inventory, keys[j]))
    decreases |keys|
  {
    if keys == [] {
      assert Decremented(inventory, items, keys) == inventory;
    } else {
      var book := keys[0];
      if !Sufficient(inventory, items, book) {
        assert keys[..0] == [];
        assert Decremented(inventory, items, keys[..0]) == inventory;
      } else {
        var inv1 := inventory[book := inventory[book] - items[book]];
        var rest := keys[1..];
        assert book !in rest;
        assert Distinct(rest);
        RunStockClosedForm(inv1, items, rest);
        FirstShortfallFrame(inventory, inv1, items, rest);
        var j := FirstShortfall(inv1, items, rest);
        assert FirstShortfall(inventory, items, keys) == j + 1;
        DecrementedShift(inventory, items, keys, j);
        if j == |rest| {
          assert rest[..j] == rest && keys[..j + 1] == keys;
        } else {
          assert keys[j + 1] == rest[j] && rest[j] != book;
        }
      }
    }
  }

  /** The loop completes exactly when every line can be served. */
  lemma RunStockCompletesIff(inventory: map<Book, int>, items: map<Book, int>, keys: seq<Book>)
    requires AllIn(keys, items) && Distinct(keys)
    ensures RunStock(inventory, items, keys).Completed?
        <==> forall i :: 0 <= i < |keys| ==> Sufficient(inventory, items, keys[i])
  {
  }

  /**
   When checkout's loop completes over a key order of the cart, every cart book
   has lost exactly its quantity and every other book is as it was.
   */
  lemma RunStockCompletedEffect(inventory: map<Book, int>, items: map<Book, int>, keys: seq<Book>)
    requires IsKeyOrder(keys, items)
    requires RunStock(inventory, items, keys).Completed?
    ensures var after := RunStock(inventory, items, keys).stock;
      && after.Keys == inventory.Keys
      && (forall b :: b in items ==> b in inventory && items[b] <= inventory[b] && after[b] == inventory[b] - items[b])
      && (forall b :: b in inventory && b !in items ==> after[b] == inventory[b])
  {
    RunStockClosedForm(inventory, items, keys);
    RunStockCompletesIff(inventory, items, keys);
    forall b | b in items ensures b in inventory && items[b] <= inventory[b] {
      var i :| 0 <= i < |keys| && keys[i] == b;
      assert Sufficient(inventory, items, keys[i]);
    }
  }

  /**
   When checkout's loop fails, it fails at line j, the first line in iteration
   order that cannot be served, and the error names that line's book. The lines
   before j have been decremented; line j and the lines after it, and all books
   outside the cart, are as they were.
   */
  lemma RunStockHaltedEffect(inventory: map<Book, int>, items: map<Book, int>, keys: seq<Book>)
    requires IsKeyOrder(keys, items)
    requires RunStock(inventory, items, keys).Halted?
    ensures var run := RunStock(inventory, items, keys);
      var j := FirstShortfall(inventory, items, keys);
      && j < |keys|
      && run.error == Shortfall(inventory, keys[j])
      && (forall i :: 0 <= i < j ==> Sufficient(inventory, items, keys[i]))
      && !Sufficient(inventory, items, keys[j])
      && run.stock.Keys == inventory.Keys
      && (forall i :: 0 <= i < j ==> run.stock[keys[i]] == inventory[keys[i]] - items[keys[i]])
      && (forall i :: j <= i < |keys| && keys[i] in inventory ==> run.stock[keys[i]] == inventory[keys[i]])
      && (forall b :: b in inventory && b !in items ==> run.stock[b] == inventory[b])
  {
    RunStockClosedForm(inventory, items, keys);
  }

  /**
   Checkout never drives stock below zero: a write happens only when the
   quantity is at most the stock, so non-negative stock stays non-negative
   whether the loop completes or halts.
   */
  lemma {:induction false} RunStockKeepsNonNegative(inventory: map<Book, int>, items: map<Book, int>, keys: seq<Book>)
    requires AllIn(keys, items)
    requires NonNegative(inventory)
    ensures NonNegative(RunStock(inventory, items, keys).stock)
    decreases |keys|
  {
    if keys != [] {
      var book := keys[0];
      if book in inventory && items[book] <= inventory[book] {
        var next := inventory[book := inventory[book] - items[book]];
        assert RunStock(inventory, items, keys) == RunStock(next, items, keys[1..]);
        RunStockKeepsNonNegative(next, items, keys[1..]);
      }
    }
  }

}
