/**
 * The document database the handlers read and write: one collection per
 * model, each a finite map from `_id` to document, and the counter that
 * hands out fresh `_id`s on insert.
 */
module Store {
  import opened ObjectIds
  import UserSchema
  import CoffeeSchema
  import CartSchema

  class Database {
    var accounts: map<ObjectId, UserSchema.Account>
    var listings: map<ObjectId, CoffeeSchema.Listing>
    var carts: map<ObjectId, CartSchema.Cart>
    var nextId: ObjectId

    /** What the database guarantees: fresh ids are unused, the unique indexes
        hold, every stored document passed its schema's validation, and every
        cart belongs to a registered account. */
    ghost predicate Valid()
      reads this
    {
      && (forall id :: id in accounts ==> id < nextId)
      && (forall id :: id in listings ==> id < nextId)
      && (forall id :: id in carts ==> id < nextId)
      && UserSchema.UniqueKeys(accounts)
      && CoffeeSchema.UniqueNames(listings)
      && (forall id :: id in accounts ==> UserSchema.Validates(accounts[id]))
      && (forall id :: id in listings ==> CoffeeSchema.Validates(listings[id]))
      && (forall id :: id in carts ==> CartSchema.Validates(carts[id]) && carts[id].user in accounts)
    }

    constructor ()
      ensures Valid()
      ensures accounts == map[] && listings == map[] && carts == map[] && nextId == 0
    {
      accounts, listings, carts, nextId := map[], map[], map[], 0;
    }

    /** `Model.create` / `new Model(...).save()` for a cart that passed
        validation: stored under a fresh id. */
    method InsertCart(c: CartSchema.Cart) returns (id: ObjectId)
      requires Valid() && CartSchema.Validates(c) && c.user in accounts
      modifies this
      ensures Valid()
      ensures id == old(nextId) && carts == old(carts)[id := c] && nextId == old(nextId) + 1
      ensures accounts == old(accounts) && listings == old(listings)
    {
      id := nextId;
      carts := carts[id := c];
      nextId := nextId + 1;
    }

    /** `doc.save()` on a stored cart: the document `id` replaced. */
    method SaveCart(id: ObjectId, c: CartSchema.Cart)
      requires Valid() && id in carts && CartSchema.Validates(c) && c.user in accounts
      modifies this
      ensures Valid()
      ensures carts == old(carts)[id := c]
      ensures accounts == old(accounts) && listings == old(listings) && nextId == old(nextId)
    {
      carts := carts[id := c];
    }
  }
}
