/**
 The bookstore: the catalog, the user directory keyed by name, a cart and an
 order history per user object, and the inventory. Every operation is a
 sequential state transition of one `OnlineBookstore` object.
 */
module Store {
  import opened Wrappers
  import opened Entities
  import opened Lines
  import opened Cart
  import opened Orders
  import opened Inventory

  /** The position of the first occurrence of `book` in `s`. */
  function IndexOf(s: seq<Book>, book: Book): (i: nat)
    requires book in s
    ensures i < |s| && s[i] == book && book !in s[..i]
  {
    if s[0] == book then 0 else 1 + IndexOf(s[1..], book)
  }

  /** `List.remove(Object)`: drop the first occurrence, if any, keeping the order of the rest. */
  function RemoveFirst(s: seq<Book>, book: Book): (r: seq<Book>)
    ensures book !in s ==> r == s
    ensures book in s ==> |r| == |s| - 1 && multiset(r) == multiset(s) - multiset{book}
    ensures book in s ==> exists i :: 0 <= i < |s| && s[i] == book && book !in s[..i] && r == s[..i] + s[i + 1..]
  {
    if book in s then
      var i := IndexOf(s, book);
      assert s == s[..i] + [book] + s[i + 1..];
      s[..i] + s[i + 1..]
    else s
  }

  /** Removing a book just appended to a catalog that did not hold it restores the catalog. */
  lemma RemoveFirstUndoesAppend(s: seq<Book>, book: Book)
    requires book !in s
    ensures RemoveFirst(s + [book], book) == s
  {
  }

  class OnlineBookstore {
    var catalog: seq<Book>
    var users: map<string, User>
    var carts: map<User, ShoppingCart>
    var orderHistory: map<User, seq<Order>>
    var inventory: map<Book, int>

    /**
     Registration gives every user object a cart and a history together, each
     name maps to a user of that name, no two users share a cart object, and
     every recorded order belongs to the user whose history holds it.
     */
    ghost predicate Valid()
      reads this
    {
      && (forall name :: name in users ==> users[name] in carts && users[name].username == name)
      && carts.Keys == orderHistory.Keys
      && (forall u, v :: u in carts && v in carts && u != v ==> carts[u] != carts[v])
      && (forall u, i :: u in orderHistory && 0 <= i < |orderHistory[u]| ==> orderHistory[u][i].user == u)
    }

    constructor ()
      ensures Valid()
      ensures catalog == [] && users == map[] && carts == map[]
      ensures orderHistory == map[] && inventory == map[]
    {
      catalog := [];
      users := map[];
      carts := map[];
      orderHistory := map[];
      inventory := map[];
    }

    /** Appends the book to the catalog and sets its inventory to its initial stock. */
    method AddBook(book: Book)
      requires Valid()
      modifies this
      ensures Valid()
      ensures catalog == old(catalog) + [book]
      ensures inventory == old(inventory)[book := book.stock]
      ensures users == old(users) && carts == old(carts) && orderHistory == old(orderHistory)
    {
      catalog := catalog + [book];
      inventory := inventory[book := book.stock];
    }

    /** Drops the first catalog occurrence of the book and its inventory entry; carts keep their lines. */
    method RemoveBook(book: Book)
      requires Valid()
      modifies this
      ensures Valid()
      ensures catalog == RemoveFirst(old(catalog), book)
      ensures inventory == old(inventory) - {book}
      ensures users == old(users) && carts == old(carts) && orderHistory == old(orderHistory)
    {
      catalog := RemoveFirst(catalog, book);
      inventory := inventory - {book};
    }

    /**
     Maps the name to a new user with a new empty cart and an empty history,
     replacing any earlier user of that name in the directory. The earlier user
     object keeps its own cart and history; nothing else changes.
     */
    method RegisterUser(username: string, password: string, email: string)
      requires Valid()
      modifies this
      ensures Valid()
      ensures username in users && fresh(users[username])
      ensures var user := users[username];
        && user.username == username && user.password == password && user.email == email
        && users == old(users)[username := user]
        && user !in old(carts)
        && user in carts && fresh(carts[user]) && carts[user].items == map[]
        && carts == old(carts)[user := carts[user]]
        && orderHistory == old(orderHistory)[user := []]
      ensures forall u :: u in old(carts) ==> carts[u].items == old(carts[u].items)
      ensures catalog == old(catalog) && inventory == old(inventory)
    {
      var user := new User(username, password, email);
      users := users[username := user];
      var cart := new ShoppingCart();
      carts := carts[user := cart];
      orderHistory := orderHistory[user := []];
    }

    /** The registered user, when the name is known and the password matches it exactly. */
    function Login(username: string, password: string): (r: Option<User>)
      reads this
      requires Valid()
      ensures r.Some? <==> username in users && users[username].password == password
      ensures r.Some? ==> r.value == users[username] && r.value.username == username
      ensures r.Some? ==> r.value in carts && r.value in orderHistory
    {
      if username in users && users[username].CheckPassword(password) then Some(users[username])
      else None
    }

    /** `addItem` on the user's cart; an unregistered user is an error and changes nothing. */
    method AddToCart(user: User, book: Book, quantity: int) returns (r: Outcome)
      requires Valid()
      modifies if user in carts then {carts[user]} else {}
      ensures Valid() && unchanged(this)
      ensures user !in carts ==> r == Fail(UnknownUser)
      ensures user in carts ==> r == Pass && carts[user].items == Added(old(carts[user].items), book, quantity)
      ensures forall u :: u in carts && u != user ==> carts[u].items == old(carts[u].items)
    {
      if user !in carts {
        return Fail(UnknownUser);
      }
      var cart := carts[user];
      cart.AddItem(book, quantity);
      r := Pass;
    }

    /** `removeItem` on the user's cart; an unregistered user is an error and changes nothing. */
    method RemoveFromCart(user: User, book: Book, quantity: int) returns (r: Outcome)
      requires Valid()
      modifies if user in carts then {carts[user]} else {}
      ensures Valid() && unchanged(this)
      ensures user !in carts ==> r == Fail(UnknownUser)
      ensures user in carts ==> r == Pass && carts[user].items == Removed(old(carts[user].items), book, quantity)
      ensures forall u :: u in carts && u != user ==> carts[u].items == old(carts[u].items)
    {
      if user !in carts {
        return Fail(UnknownUser);
      }
      var cart := carts[user];
      cart.RemoveItem(book, quantity);
      r := Pass;
    }

    /**
     The first half of checkout: for each book in iteration order, fail if the
     inventory lacks it or holds less than the cart quantity, and otherwise
     write back stock minus quantity. The writes already made stay in place
     when a later book fails.
     */
    method TakeStock(items: map<Book, int>, keyOrder: seq<Book>) returns (run: StockRun)
      requires AllIn(keyOrder, items)
      modifies `inventory
      ensures run == RunStock(old(inventory), items, keyOrder)
      ensures inventory == run.stock
    {
      var i := 0;
      while i < |keyOrder|
        invariant 0 <= i <= |keyOrder|
        invariant RunStock(old(inventory), items, keyOrder) == RunStock(inventory, items, keyOrder[i..])
      {
        var book := keyOrder[i];
        assert keyOrder[i..][0] == book && keyOrder[i..][1..] == keyOrder[i + 1..];
        var quantity := items[book];
        if book !in inventory {
          return Halted(inventory, NotInInventory(book));
        }
        var stock := inventory[book];
        if quantity > stock {
          return Halted(inventory, InsufficientStock(book));
        }
        inventory := inventory[book := stock - quantity];
        i := i + 1;
      }
      run := Completed(inventory);
    }

    /**
     The second half of checkout: append the order to its user's history and
     give that user a new, empty cart in place of the old one.
     */
    method RecordOrder(order: Order)
      requires Valid() && order.user in carts
      modifies this
      ensures Valid()
      ensures orderHistory == old(orderHistory)[order.user := old(orderHistory[order.user]) + [order]]
      ensures order.user in carts && fresh(carts[order.user]) && carts[order.user].items == map[]
      ensures carts == old(carts)[order.user := carts[order.user]]
      ensures users == old(users) && catalog == old(catalog) && inventory == old(inventory)
    {
      var user := order.user;
      orderHistory := orderHistory[user := orderHistory[user] + [order]];
      var cart := new ShoppingCart();
      carts := carts[user := cart];
    }

    /**
     Checkout of the user's cart, visiting its books in `keyOrder` (the
     iteration order of the cart's map). The inventory ends as `RunStock` says,
     on success and on failure alike. On success the order of the old cart
     items and their total is appended to the user's history and the user gets
     a new empty cart. On failure the error names the first book that could not
     be served, and carts and histories are untouched.
     */
    method Checkout(user: User, keyOrder: seq<Book>) returns (r: Result<Order>)
      requires Valid()
      requires user in carts ==> IsKeyOrder(keyOrder, carts[user].items)
      modifies this
      ensures Valid()
      ensures users == old(users) && catalog == old(catalog)
      ensures forall u :: u in old(carts) ==> old(carts[u]).items == old(carts[u].items)
      ensures user !in old(carts) ==> r == Err(UnknownUser) && unchanged(this)
      ensures user in old(carts) ==>
        var items := old(carts[user].items);
        var run := RunStock(old(inventory), items, keyOrder);
        && inventory == run.stock
        && (run.Completed? ==>
              && r == Ok(Order(user, items, LinesTotal(keyOrder, items)))
              && orderHistory == old(orderHistory)[user := old(orderHistory[user]) + [r.value]]
              && user in carts && fresh(carts[user]) && carts[user].items == map[]
              && carts == old(carts)[user := carts[user]])
        && (run.Halted? ==>
              && r == Err(run.error)
              && orderHistory == old(orderHistory) && carts == old(carts))
    {
      if user !in carts {
        return Err(UnknownUser);
      }
      var items := carts[user].items;
      var run := TakeStock(items, keyOrder);
      if run.Halted? {
        return Err(run.error);
      }
      var order := NewOrder(user, items, keyOrder);
      RecordOrder(order);
      r := Ok(order);
    }
  }

}
