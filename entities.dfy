/**
 The records of the bookstore. Books and users are objects: the store keys its
 maps on object identity, so two books with equal fields are still two books,
 and re-registering a user name creates a new, distinct user.
 */
module Entities {

  /** An account. The fields never change after construction. */
  class User {
    const username: string
    const password: string
    const email: string

    constructor (username: string, password: string, email: string)
      ensures this.username == username && this.password == password && this.email == email
    {
      this.username := username;
      this.password := password;
      this.email := email;
    }

    /** Plain-text, case-sensitive, exact comparison with the stored password. */
    predicate CheckPassword(candidate: string)
    {
      password == candidate
    }
  }

  /**
   A catalog entry. `price` is in cents (the store itself works with a
   floating-point price); `stock` is the initial stock the store copies into
   its inventory when the book is added.
   */
  class Book {
    const title: string
    const author: string
    const price: int
    const stock: int

    constructor (title: string, author: string, price: int, stock: int)
      ensures this.title == title && this.author == author
      ensures this.price == price && this.stock == stock
    {
      this.title := title;
      this.author := author;
      this.price := price;
      this.stock := stock;
    }
  }

  /** Why a store operation did not complete. */
  datatype StoreError =
    | UnknownUser                    // the user has no cart: never registered
    | NotInInventory(book: Book)     // a cart line names a book the inventory no longer has
    | InsufficientStock(book: Book)  // a cart line asks for more than the book's stock

  /** The result of an operation that produces a value or fails. */
  datatype Result<T> = Ok(value: T) | Err(error: StoreError)

  /** The result of an operation that produces nothing or fails. */
  datatype Outcome = Pass | Fail(error: StoreError)

}
