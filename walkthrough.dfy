/**
 Clients of the store that follow the original program's demonstration
 script (without its console output), with prices in cents, and what the
 contracts let a caller conclude at each step.
 */
module Walkthrough {
  import opened Wrappers
  import opened Entities
  import opened Lines
  import opened Inventory
  import opened Orders
  import opened Store

  /** Registration and login: the right password yields the user, any other yields none. */
  method RegisterAndLogin()
  {
    var store := new OnlineBookstore();
    store.RegisterUser("alice", "password1", "alice@example.com");
    store.RegisterUser("bob", "password2", "bob@example.com");
    var alice := store.Login("alice", "password1");
    var bob := store.Login("bob", "password2");
    assert alice.Some? && bob.Some? && alice.value != bob.value;
    assert store.Login("alice", "password2") == None;
    assert store.Login("carol", "password1") == None;
    assert store.carts[alice.value].items == map[] && store.orderHistory[alice.value] == [];
  }

  /**
   The stock and total arithmetic of the demonstration: two copies at 10.99
   and one at 12.99 against stocks of 20 and 15.
   */
  lemma SuccessfulRun(gatsby: Book, mockingbird: Book)
    requires gatsby != mockingbird && gatsby.price == 1099 && mockingbird.price == 1299
    ensures var items := map[gatsby := 2, mockingbird := 1];
      && IsKeyOrder([gatsby, mockingbird], items)
      && RunStock(map[gatsby := 20, mockingbird := 15], items, [gatsby, mockingbird])
         == Completed(map[gatsby := 18, mockingbird := 14])
      && LinesTotal([gatsby, mockingbird], items) == 3497
  {
    var items := map[gatsby := 2, mockingbird := 1];
    assert [gatsby, mockingbird][1..] == [mockingbird];
    assert map[gatsby := 20, mockingbird := 15][gatsby := 18] == map[gatsby := 18, mockingbird := 15];
    assert RunStock(map[gatsby := 18, mockingbird := 15], items, [mockingbird])
        == Completed(map[gatsby := 18, mockingbird := 14]);
    assert LinesTotal([mockingbird], items) == 1299;
  }

  /**
   Asking for 25 copies of a book with stock 20, visited after a line that
   fits: the first line is applied, then the run halts naming the book.
   */
  lemma OverstockedRun(gatsby: Book, orwell: Book)
    requires gatsby != orwell
    ensures var items := map[orwell := 5, gatsby := 25];
      && IsKeyOrder([orwell, gatsby], items)
      && RunStock(map[gatsby := 20, orwell := 30], items, [orwell, gatsby])
         == Halted(map[gatsby := 20, orwell := 25], InsufficientStock(gatsby))
  {
  }

  /** Alice buys two copies of one book and one of another; both stocks drop. */
  method SuccessfulCheckout()
  {
    var store := new OnlineBookstore();
    var gatsby := new Book("The Great Gatsby", "F. Scott Fitzgerald", 1099, 20);
    var mockingbird := new Book("To Kill a Mockingbird", "Harper Lee", 1299, 15);
    store.AddBook(gatsby);
    store.AddBook(mockingbird);
    store.RegisterUser("alice", "password1", "alice@example.com");
    var alice := store.Login("alice", "password1");
    assert alice.Some?;
    var r := store.AddToCart(alice.value, gatsby, 2);
    r := store.AddToCart(alice.value, mockingbird, 1);
    ghost var items := map[gatsby := 2, mockingbird := 1];
    assert store.carts[alice.value].items == items;
    assert store.inventory == map[gatsby := 20, mockingbird := 15];
    SuccessfulRun(gatsby, mockingbird);
    var result := store.Checkout(alice.value, [gatsby, mockingbird]);
    assert result == Ok(Order(alice.value, items, 3497));
    assert store.inventory == map[gatsby := 18, mockingbird := 14];
    assert store.carts[alice.value].items == map[];
    assert store.orderHistory[alice.value] == [result.value];
  }

  /** Asking for more than the stock: the checkout fails and names the book. */
  method OverstockedCheckout()
  {
    var store := new OnlineBookstore();
    var gatsby := new Book("The Great Gatsby", "F. Scott Fitzgerald", 1099, 20);
    var orwell := new Book("1984", "George Orwell", 899, 30);
    store.AddBook(gatsby);
    store.AddBook(orwell);
    store.RegisterUser("alice", "password1", "alice@example.com");
    var alice := store.Login("alice", "password1");
    assert alice.Some?;
    var r := store.AddToCart(alice.value, orwell, 5);
    r := store.AddToCart(alice.value, gatsby, 25);
    ghost var items := map[orwell := 5, gatsby := 25];
    assert store.carts[alice.value].items == items;
    assert store.inventory == map[gatsby := 20, orwell := 30];
    OverstockedRun(gatsby, orwell);
    var result := store.Checkout(alice.value, [orwell, gatsby]);
    assert result == Err(InsufficientStock(gatsby));
    // The line visited before the failing one has already been applied.
    assert store.inventory == map[gatsby := 20, orwell := 25];
    assert store.carts[alice.value].items == items;
    assert store.orderHistory[alice.value] == [];
  }

}
