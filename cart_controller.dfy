/**
 * controllers/cart.controller.js: the four cart handlers.  `makecart` and
 * `updateCart` write one cart; `getOneCart` and `getAllcartsForuser` only
 * read.  `auth` is `req.auth` as `protect` leaves it; the request's `items`
 * arrive already decoded.  Each write is first decided by
 * a function on the database's contents, then carried out by the method.
 */
module CartController {
  import opened Wrappers
  import opened ObjectIds
  import opened JsErrors
  import opened UserSchema
  import opened CoffeeSchema
  import opened CartSchema
  import opened CartPricing
  import opened CartMerge
  import opened Store
  import ErrorMiddleware

  /** `req.auth`: null (the account of a verified token no longer exists), or
      an account whose `id` is read; `id` is None when it is falsy. */
  datatype Auth = NullAuth | Auth(id: Option<ObjectId>)

  /** The caller is a registered account. */
  predicate Known(auth: Auth, accounts: map<ObjectId, Account>) {
    auth.Auth? && auth.id.Some? && auth.id.value in accounts
  }

  /** `const { id } = req.auth` on a null `req.auth`. */
  function DestructureError(): (e: Exn)
    ensures !Truthy(e.statusCode)
  {
    RuntimeError("TypeError", "Cannot destructure property 'id' of 'req.auth' as it is null.")
  }

  /** The decoded `items` of the body: an array of requests, or anything else. */
  datatype Items = List(requests: seq<ItemRequest>) | NotAnArray

  /** What a cart handler does to the carts collection. */
  datatype Write =
    | Insert(cart: Cart)              // `cart.create` / `new cart(...).save()`: a fresh document
    | Save(id: ObjectId, cart: Cart)  // `userCart.save()`: the document `id` replaced
    | Fail(error: Exn)                // an error thrown before anything is written

  /** The error Mongoose raises when a cart fails its schema's validation. */
  function CartValidationError(): (e: Exn)
    ensures !Truthy(e.statusCode)
  {
    Exn("ValidationError", "Cart validation failed", None)
  }

  // ----- makecart -----

  /** What `makecart` writes: the caller is checked (403 without an id, 404
      for an unknown account) before any listing is read; then every line is
      priced; then the cart is validated and created. */
  function MakeCartWrite(auth: Auth, items: Items,
                         accounts: map<ObjectId, Account>, listings: map<ObjectId, Listing>): (w: Write)
    ensures !w.Save?
    ensures w.Insert? ==> Known(auth, accounts) && w.cart.user == auth.id.value
  {
    if auth.NullAuth? then Fail(DestructureError())
    else if auth.id.None? then Fail(Raise("Not allowed", 403))
    else if auth.id.value !in accounts then Fail(Raise("Not a user", 404))
    else
      match items
      case NotAnArray => Fail(RuntimeError("TypeError", "items is not iterable"))
      case List(reqs) =>
        match Price(reqs, listings)
        case Rejected(e) => Fail(e)
        case Priced(lines) =>
          var book := NewCart(auth.id.value, accounts[auth.id.value].userName, lines, Some(SumAmounts(lines)));
          if CartSchema.Validates(book) then Insert(book) else Fail(CartValidationError())
  }

  /** The caller is checked before any listing or line: the outcome of a call
      with a null `req.auth`, without an id, or by an unknown account, does
      not depend on the items or the listings. */
  lemma MakeCartChecksCallerFirst(auth: Auth, items: Items,
                                  accounts: map<ObjectId, Account>, listings: map<ObjectId, Listing>)
    ensures auth.NullAuth? ==> MakeCartWrite(auth, items, accounts, listings) == Fail(DestructureError())
    ensures auth == Auth(None) ==> MakeCartWrite(auth, items, accounts, listings) == Fail(Raise("Not allowed", 403))
    ensures auth.Auth? && auth.id.Some? && auth.id.value !in accounts ==>
      MakeCartWrite(auth, items, accounts, listings) == Fail(Raise("Not a user", 404))
  {
  }

  /** A created cart holds one line per request, in order (a product requested
      twice gives two lines), each priced at quantity × listing price; its
      total is the sum of the line amounts; it is unpaid and belongs to the caller. */
  lemma MakeCartPricesEveryLine(auth: Auth, reqs: seq<ItemRequest>,
                                accounts: map<ObjectId, Account>, listings: map<ObjectId, Listing>)
    requires MakeCartWrite(auth, List(reqs), accounts, listings).Insert?
    ensures var c := MakeCartWrite(auth, List(reqs), accounts, listings).cart;
      && Known(auth, accounts) && c.user == auth.id.value && !c.paid
      && |c.items| == |reqs|
      && (forall i :: 0 <= i < |reqs| ==>
            reqs[i].shopId in listings
            && c.items[i].product == reqs[i].shopId
            && c.items[i].quantity == reqs[i].quantity
            && c.items[i].amount == reqs[i].quantity * listings[reqs[i].shopId].price)
      && c.totalAmount == SumAmounts(c.items) == RequestValue(reqs, listings)
  {
    PriceSpec(reqs, listings);
  }

  /** The first missing listing gives 404 and the first barbers listing 403,
      whatever the lines after it. */
  lemma MakeCartFirstRejectionWins(id: ObjectId, reqs: seq<ItemRequest>, k: nat,
                                   accounts: map<ObjectId, Account>, listings: map<ObjectId, Listing>)
    requires id in accounts
    requires k < |reqs| && !Admissible(reqs[k], listings)
    requires forall i :: 0 <= i < k ==> Admissible(reqs[i], listings)
    ensures MakeCartWrite(Auth(Some(id)), List(reqs), accounts, listings)
         == Fail(Raise(if reqs[k].shopId !in listings then "No shops found" else "carting only reserved for babers",
                       if reqs[k].shopId !in listings then 404 else 403))
  {
    FirstRejectionWins(reqs, listings, k);
  }

  /** A line's `product_name` is the listing's display name, which the listing
      schema does not declare: a request naming a listing without one fails
      the cart's validation, and nothing is created. */
  lemma MakeCartNeedsDisplayNames(id: ObjectId, reqs: seq<ItemRequest>, k: nat,
                                  accounts: map<ObjectId, Account>, listings: map<ObjectId, Listing>)
    requires id in accounts
    requires forall i :: 0 <= i < |reqs| ==> Admissible(reqs[i], listings)
    requires k < |reqs| && reqs[k].shopId in listings && listings[reqs[k].shopId].shopName.None?
    ensures MakeCartWrite(Auth(Some(id)), List(reqs), accounts, listings) == Fail(CartValidationError())
  {
    PriceSpec(reqs, listings);
    var lines := Price(reqs, listings).lines;
    assert !LineValidates(lines[k]);
  }

  /** A known caller gets a cart created exactly when the account has a user
      name and every requested listing exists, is not a barbers listing and
      has a display name. */
  lemma MakeCartInsertsIff(id: ObjectId, reqs: seq<ItemRequest>,
                           accounts: map<ObjectId, Account>, listings: map<ObjectId, Listing>)
    requires id in accounts
    ensures MakeCartWrite(Auth(Some(id)), List(reqs), accounts, listings).Insert? <==>
      accounts[id].userName != "" &&
      forall i :: 0 <= i < |reqs| ==>
        (Admissible(reqs[i], listings)
         && listings[reqs[i].shopId].shopName.Some? && listings[reqs[i].shopId].shopName.value != "")
  {
    PriceSpec(reqs, listings);
  }

  /** `makecart`: creates the cart it decides on and answers 201 with it;
      otherwise writes nothing and re-throws the error. */
  method MakeCart(db: Database, auth: Auth, items: Items) returns (o: Outcome<Cart>)
    requires db.Valid()
    modifies db
    ensures db.Valid()
    ensures db.accounts == old(db.accounts) && db.listings == old(db.listings)
    ensures var w := MakeCartWrite(auth, items, old(db.accounts), old(db.listings));
      && (w.Insert? ==> db.carts == old(db.carts)[old(db.nextId) := w.cart] && db.nextId == old(db.nextId) + 1
                        && o == Ok(201, w.cart))
      && (w.Fail? ==> db.carts == old(db.carts) && db.nextId == old(db.nextId) && o == Thrown(Rewrap(w.error, false)))
  {
    if auth.NullAuth? {
      return Thrown(Rewrap(DestructureError(), false));
    }
    if auth.id.None? {
      return Thrown(Rewrap(Raise("Not allowed", 403), false));
    }
    var id := auth.id.value;
    if id !in db.accounts {
      return Thrown(Rewrap(Raise("Not a user", 404), false));
    }
    var user := db.accounts[id];
    if items.NotAnArray? {
      return Thrown(Rewrap(RuntimeError("TypeError", "items is not iterable"), false));
    }
    var p, totalAmount := PriceItems(items.requests, db.listings);
    if p.Rejected? {
      return Thrown(Rewrap(p.error, false));
    }
    var book := NewCart(id, user.userName, p.lines, Some(totalAmount));
    if !CartSchema.Validates(book) {
      return Thrown(Rewrap(CartValidationError(), false));
    }
    var _ := db.InsertCart(book);
    o := Ok(201, book);
  }

  // ----- updateCart -----

  /** The lines of the fallback cart: product and quantity only, so the
      schema's defaults fill in the amount and no name is set. */
  function FallbackLines(reqs: seq<ItemRequest>): (lines: seq<LineItem>)
    ensures |lines| == |reqs|
    ensures forall i :: 0 <= i < |reqs| ==> lines[i] == NewLine(reqs[i].shopId, None, Some(reqs[i].quantity), None)
  {
    seq(|reqs|, i requires 0 <= i < |reqs| => NewLine(reqs[i].shopId, None, Some(reqs[i].quantity), None))
  }

  /** What `updateCart` writes: 404 for an unknown caller, 400 for items that
      are not an array, before any cart is read; on an existing unpaid cart,
      the merged lines and their recomputed total; on a missing or paid cart,
      a new bare cart. */
  function UpdateCartWrite(auth: Auth, cartId: ObjectId, items: Items,
                           accounts: map<ObjectId, Account>, listings: map<ObjectId, Listing>,
                           carts: map<ObjectId, Cart>): (w: Write)
    ensures w.Save? ==> w.id == cartId && cartId in carts && !carts[cartId].paid
    ensures !w.Fail? ==> Known(auth, accounts)
  {
    if auth.NullAuth? then Fail(DestructureError())
    else if !Known(auth, accounts) then Fail(Raise("User not found", 404))
    else
      match items
      case NotAnArray => Fail(Raise("Invalid items format", 400))
      case List(reqs) =>
        if cartId in carts && !carts[cartId].paid then
          match MergeAll(carts[cartId].items, reqs, listings)
          case MergeFailed(e) => Fail(e)
          case Merged(lines) =>
            var updated := carts[cartId].(items := lines, totalAmount := SumAmounts(lines));
            if CartSchema.Validates(updated) then Save(cartId, updated) else Fail(CartValidationError())
        else
          var bare := NewCart(auth.id.value, accounts[auth.id.value].userName, FallbackLines(reqs), None);
          if CartSchema.Validates(bare) then Insert(bare) else Fail(CartValidationError())
  }

  /** `updateCart` never compares the cart's owner with the caller: on an
      existing unpaid cart every registered caller gets the same write as the
      owner, although `getOneCart` refuses that caller the same cart. */
  lemma UpdateIgnoresOwner(owner: ObjectId, other: ObjectId, cartId: ObjectId, items: Items,
                           accounts: map<ObjectId, Account>, listings: map<ObjectId, Listing>,
                           carts: map<ObjectId, Cart>)
    requires owner in accounts && other in accounts
    requires cartId in carts && !carts[cartId].paid && carts[cartId].user == owner
    ensures UpdateCartWrite(Auth(Some(other)), cartId, items, accounts, listings, carts)
         == UpdateCartWrite(Auth(Some(owner)), cartId, items, accounts, listings, carts)
    ensures other != owner ==> !GetOneCart(Auth(Some(other)), cartId, accounts, carts).Ok?
  {
  }

  /** Items that are not an array give 400 whatever the carts hold. */
  lemma UpdateCartChecksItemsFirst(id: ObjectId, cartId: ObjectId, accounts: map<ObjectId, Account>,
                                   listings: map<ObjectId, Listing>, carts: map<ObjectId, Cart>)
    requires id in accounts
    ensures UpdateCartWrite(Auth(Some(id)), cartId, NotAnArray, accounts, listings, carts) == Fail(Raise("Invalid items format", 400))
  {
  }

  /** On an unpaid cart, a request naming a missing listing gives 404 and no write. */
  lemma UpdateCartMissingShop(id: ObjectId, cartId: ObjectId, reqs: seq<ItemRequest>, k: nat,
                              accounts: map<ObjectId, Account>, listings: map<ObjectId, Listing>,
                              carts: map<ObjectId, Cart>)
    requires id in accounts && cartId in carts && !carts[cartId].paid
    requires k < |reqs| && reqs[k].shopId !in listings
    ensures UpdateCartWrite(Auth(Some(id)), cartId, List(reqs), accounts, listings, carts) == Fail(Raise("Shop not found", 404))
  {
    MergeAllSucceedsIff(carts[cartId].items, reqs, listings);
  }

  /** A save of an unpaid cart keeps its owner and name, and its total is the
      sum of all its line amounts: the old sum plus quantity × current price
      of every request.  Its products are the old ones plus the requested
      ones, and if they were unique they still are. */
  lemma UpdateCartMergeTotals(auth: Auth, cartId: ObjectId, reqs: seq<ItemRequest>,
                              accounts: map<ObjectId, Account>, listings: map<ObjectId, Listing>,
                              carts: map<ObjectId, Cart>)
    requires UpdateCartWrite(auth, cartId, List(reqs), accounts, listings, carts).Save?
    ensures var c := UpdateCartWrite(auth, cartId, List(reqs), accounts, listings, carts).cart;
      var old_ := carts[cartId];
      && c.user == old_.user && c.userName == old_.userName && !c.paid
      && (forall i :: 0 <= i < |reqs| ==> reqs[i].shopId in listings)
      && c.totalAmount == SumAmounts(c.items) == SumAmounts(old_.items) + RequestValue(reqs, listings)
      && Products(c.items) == Products(old_.items) + ShopIds(reqs)
      && (UniqueProducts(old_.items) ==> UniqueProducts(c.items))
  {
    var existing := carts[cartId].items;
    MergeAllSucceedsIff(existing, reqs, listings);
    MergeAllTotal(existing, reqs, listings);
    MergeAllProducts(existing, reqs, listings);
    if UniqueProducts(existing) {
      MergeAllUnique(existing, reqs, listings);
    }
  }

  /** On an existing unpaid cart that passed validation, the merge is saved
      whenever every requested listing exists and each requested product is
      either held already or has a listing with a display name. */
  lemma UpdateCartSaves(id: ObjectId, cartId: ObjectId, reqs: seq<ItemRequest>,
                        accounts: map<ObjectId, Account>, listings: map<ObjectId, Listing>,
                        carts: map<ObjectId, Cart>)
    requires id in accounts && cartId in carts && !carts[cartId].paid && CartSchema.Validates(carts[cartId])
    requires forall i :: 0 <= i < |reqs| ==>
      (reqs[i].shopId in listings &&
       (reqs[i].shopId in Products(carts[cartId].items) ||
        (listings[reqs[i].shopId].shopName.Some? && listings[reqs[i].shopId].shopName.value != "")))
    ensures UpdateCartWrite(Auth(Some(id)), cartId, List(reqs), accounts, listings, carts).Save?
  {
    var existing := carts[cartId].items;
    MergeAllSucceedsIff(existing, reqs, listings);
    MergeAllLinesValidate(existing, reqs, listings);
  }

  /** A missing or paid cart is left alone: with no items a new empty cart
      (total 0, unpaid) is inserted; with items the new lines lack the
      required `product_name`, validation fails and nothing is written. */
  lemma UpdateCartFallback(id: ObjectId, cartId: ObjectId, reqs: seq<ItemRequest>,
                           accounts: map<ObjectId, Account>, listings: map<ObjectId, Listing>,
                           carts: map<ObjectId, Cart>)
    requires id in accounts && UserSchema.Validates(accounts[id])
    requires cartId !in carts || carts[cartId].paid
    ensures reqs == [] ==> UpdateCartWrite(Auth(Some(id)), cartId, List(reqs), accounts, listings, carts)
                           == Insert(Cart(id, accounts[id].userName, [], 0, false))
    ensures reqs != [] ==> UpdateCartWrite(Auth(Some(id)), cartId, List(reqs), accounts, listings, carts)
                           == Fail(CartValidationError())
  {
    if reqs != [] {
      assert !LineValidates(FallbackLines(reqs)[0]);
    }
  }

  /** `updateCart`: saves or inserts the cart it decides on (200 for a save,
      201 for an insert); otherwise writes nothing and re-throws the error
      with `|| 500`. */
  method UpdateCart(db: Database, auth: Auth, cartId: ObjectId, items: Items) returns (o: Outcome<Cart>)
    requires db.Valid()
    modifies db
    ensures db.Valid()
    ensures db.accounts == old(db.accounts) && db.listings == old(db.listings)
    ensures var w := UpdateCartWrite(auth, cartId, items, old(db.accounts), old(db.listings), old(db.carts));
      && (w.Save? ==> db.carts == old(db.carts)[cartId := w.cart] && db.nextId == old(db.nextId) && o == Ok(200, w.cart))
      && (w.Insert? ==> db.carts == old(db.carts)[old(db.nextId) := w.cart] && db.nextId == old(db.nextId) + 1
                        && o == Ok(201, w.cart))
      && (w.Fail? ==> db.carts == old(db.carts) && db.nextId == old(db.nextId) && o == Thrown(Rewrap(w.error, true)))
  {
    if auth.NullAuth? {
      return Thrown(Rewrap(DestructureError(), true));
    }
    if auth.id.None? || auth.id.value !in db.accounts {
      return Thrown(Rewrap(Raise("User not found", 404), true));
    }
    var id := auth.id.value;
    var user := db.accounts[id];
    if items.NotAnArray? {
      return Thrown(Rewrap(Raise("Invalid items format", 400), true));
    }
    if cartId in db.carts && !db.carts[cartId].paid {
      var userCart := db.carts[cartId];
      var m := MergeItems(userCart.items, items.requests, db.listings);
      if m.MergeFailed? {
        return Thrown(Rewrap(m.error, true));
      }
      var totalAmount := SumAmounts(m.lines);
      userCart := userCart.(items := m.lines, totalAmount := totalAmount);
      if !CartSchema.Validates(userCart) {
        return Thrown(Rewrap(CartValidationError(), true));
      }
      db.SaveCart(cartId, userCart);
      o := Ok(200, userCart);
    } else {
      var newCart := NewCart(id, user.userName, FallbackLines(items.requests), None);
      if !CartSchema.Validates(newCart) {
        return Thrown(Rewrap(CartValidationError(), true));
      }
      var _ := db.InsertCart(newCart);
      o := Ok(201, newCart);
    }
  }

  // ----- reads -----

  /** `getOneCart`: 500 for a null `req.auth`, 404 for an unknown caller;
      the cart only to its owner, 401 otherwise, including when it does not
      exist. */
  function GetOneCart(auth: Auth, cartId: ObjectId,
                      accounts: map<ObjectId, Account>, carts: map<ObjectId, Cart>): (r: Outcome<Cart>)
    ensures r.Ok? <==> Known(auth, accounts) && cartId in carts && carts[cartId].user == auth.id.value
    ensures r.Ok? ==> r == Ok(200, carts[cartId])
    ensures !r.Ok? ==>
      r.Thrown? && r.error.statusCode == Some(if auth.NullAuth? then 500 else if Known(auth, accounts) then 401 else 404)
  {
    if auth.NullAuth? then Thrown(Rewrap(DestructureError(), true))
    else if !Known(auth, accounts) then Thrown(Rewrap(Raise("User not found", 404), true))
    else if cartId !in carts || auth.id.value != carts[cartId].user then
      Thrown(Rewrap(Raise("Not authorized to view this cart", 401), true))
    else Ok(200, carts[cartId])
  }

  /** `getAllcartsForuser`: every cart the caller owns, paid or not.  An unknown
      caller makes `user._id` a TypeError, re-thrown without a status. */
  function GetAllCartsForUser(auth: Auth, accounts: map<ObjectId, Account>,
                              carts: map<ObjectId, Cart>): (r: Outcome<map<ObjectId, Cart>>)
    ensures r.Ok? <==> Known(auth, accounts)
    ensures r.Ok? ==> r.status == 200 && forall id :: id in r.value <==> id in carts && carts[id].user == auth.id.value
    ensures r.Ok? ==> forall id :: id in r.value ==> r.value[id] == carts[id]
    ensures r.Thrown? ==> !Truthy(r.error.statusCode)
  {
    if auth.NullAuth? then Thrown(Rewrap(DestructureError(), false))
    else if !Known(auth, accounts) then
      Thrown(Rewrap(RuntimeError("TypeError", "Cannot read properties of null (reading '_id')"), false))
    else Ok(200, OwnedBy(carts, auth.id.value))
  }

  // ----- what the client sees -----

  /** A null `req.auth` fails every cart handler at its first line.  After
      `makecart`'s and `getAllcartsForuser`'s plain re-throw, the error handler
      as written answers 200; after `updateCart`'s and `getOneCart`'s `|| 500`
      re-throw, 500. */
  lemma NullAuthAnswers(cartId: ObjectId, items: Items, accounts: map<ObjectId, Account>,
                        listings: map<ObjectId, Listing>, carts: map<ObjectId, Cart>, nodeEnv: Option<string>)
    ensures MakeCartWrite(NullAuth, items, accounts, listings) == Fail(DestructureError())
    ensures UpdateCartWrite(NullAuth, cartId, items, accounts, listings, carts) == Fail(DestructureError())
    ensures GetOneCart(NullAuth, cartId, accounts, carts) == Thrown(Rewrap(DestructureError(), true))
    ensures GetAllCartsForUser(NullAuth, accounts, carts) == Thrown(Rewrap(DestructureError(), false))
    ensures ErrorMiddleware.Handle(Rewrap(DestructureError(), false), Some(ErrorMiddleware.ExpressDefaultStatus), nodeEnv).status == 200
    ensures ErrorMiddleware.Handle(Rewrap(DestructureError(), true), Some(ErrorMiddleware.ExpressDefaultStatus), nodeEnv).status == 500
  {
    ErrorMiddleware.StatuslessErrorAnswersSuccess(DestructureError(), nodeEnv);
  }

  /** A cart that fails its schema's validation in `makecart` is answered, as
      written, with 200 and the whole text of the validation error
      ("ValidationError: Cart validation failed"); the corrected handler
      answers 500. */
  lemma FailedValidationAnswersSuccess(nodeEnv: Option<string>)
    ensures ErrorMiddleware.Handle(Rewrap(CartValidationError(), false), Some(ErrorMiddleware.ExpressDefaultStatus), nodeEnv)
         == ErrorMiddleware.ErrorReply(200, ToText(CartValidationError()))
    ensures ErrorMiddleware.HandleIntended(Rewrap(CartValidationError(), false), Some(ErrorMiddleware.ExpressDefaultStatus), nodeEnv).status == 500
  {
    ErrorMiddleware.StatuslessErrorAnswersSuccess(CartValidationError(), nodeEnv);
    var e := CartValidationError();
    var text := ToText(e);
    assert text == e.name + ": " + e.message;
    assert text[0] == 'V' && ErrorMiddleware.Prefix[0] == 'E';
    ErrorMiddleware.UnprefixedPassesThrough(text, nodeEnv);
  }
}
