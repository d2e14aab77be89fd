/**
 * controllers/orders.controller.js: orders are carts seen from the order
 * side.  These handlers answer their own errors (`res.status(s).json(...)`)
 * and turn any exception into a 500 carrying its message.  `auth` stands for
 * `req.auth`, used as the caller's account id (None when it is null).
 */
module OrdersController {
  import opened Wrappers
  import opened ObjectIds
  import opened JsErrors
  import opened UserSchema
  import opened CartSchema
  import opened Store
  import CartController

  /** `getUserOrder`: the cart only when both its id and its owner match. */
  function GetUserOrder(auth: Option<ObjectId>, orderId: ObjectId, carts: map<ObjectId, Cart>): (r: Outcome<Cart>)
    ensures r.Ok? <==> auth.Some? && orderId in carts && carts[orderId].user == auth.value
    ensures r.Ok? ==> r == Ok(200, carts[orderId])
    ensures !r.Ok? ==> r == Refuse(404, "Order not found", None)
  {
    if auth.Some? && orderId in carts && carts[orderId].user == auth.value then Ok(200, carts[orderId])
    else Refuse(404, "Order not found", None)
  }

  /** `getAllUserOrders`: exactly the carts the caller owns (none for a null caller). */
  function GetAllUserOrders(auth: Option<ObjectId>, carts: map<ObjectId, Cart>): (r: Outcome<map<ObjectId, Cart>>)
    ensures r.Ok? && r.status == 200
    ensures forall id :: id in r.value <==> auth.Some? && id in carts && carts[id].user == auth.value
    ensures forall id :: id in r.value ==> r.value[id] == carts[id]
  {
    if auth.None? then Ok(200, map[]) else Ok(200, OwnedBy(carts, auth.value))
  }

  /** `getAllOrders` as written: its first statement reads the undeclared name
      `users`, so every call, an administrator's included, ends in the catch
      block's 500. */
  function GetAllOrdersAsWritten(auth: Option<ObjectId>, accounts: map<ObjectId, Account>,
                                 carts: map<ObjectId, Cart>): (r: Outcome<map<ObjectId, Cart>>)
    ensures r.Refuse? && r.status == 500
  {
    Refuse(500, "Error retrieving all orders", Some("users is not defined"))
  }

  /** `getAllOrders` as its role gate intends: every cart for an administrator,
      403 for any other account, 500 when the caller's account is missing. */
  function GetAllOrders(auth: Option<ObjectId>, accounts: map<ObjectId, Account>,
                        carts: map<ObjectId, Cart>): (r: Outcome<map<ObjectId, Cart>>)
    ensures r.Ok? <==> auth.Some? && auth.value in accounts && accounts[auth.value].role == AdminRole
    ensures r.Ok? ==> r == Ok(200, carts)
    ensures auth.Some? && auth.value in accounts && accounts[auth.value].role != AdminRole ==>
      r == Refuse(403, "Access denied", None)
    ensures auth.None? || auth.value !in accounts ==> r.Refuse? && r.status == 500
  {
    if auth.None? || auth.value !in accounts then
      Refuse(500, "Error retrieving all orders", Some("Cannot read properties of null (reading 'role')"))
    else if accounts[auth.value].role != AdminRole then Refuse(403, "Access denied", None)
    else Ok(200, carts)
  }

  /** An administrator is refused by the handler as written and served by the
      intended one. */
  lemma AdminIsRefusedAsWritten(admin: ObjectId, accounts: map<ObjectId, Account>, carts: map<ObjectId, Cart>)
    requires admin in accounts && accounts[admin].role == AdminRole
    ensures !GetAllOrdersAsWritten(Some(admin), accounts, carts).Ok?
    ensures GetAllOrders(Some(admin), accounts, carts) == Ok(200, carts)
  {
  }

  /** `Cart.findByIdAndUpdate(orderId, { paid })`: that one cart's flag set to
      exactly the requested value, every other field and cart unchanged. */
  function SetPaid(carts: map<ObjectId, Cart>, orderId: ObjectId, paid: bool): (r: map<ObjectId, Cart>)
    requires orderId in carts
    ensures r.Keys == carts.Keys
    ensures r[orderId].paid == paid && r[orderId] == carts[orderId].(paid := paid)
    ensures forall id :: id in carts && id != orderId ==> r[id] == carts[id]
  {
    carts[orderId := carts[orderId].(paid := paid)]
  }

  /** There is no transition guard: a paid order can be set unpaid again, and
      setting the flag back to what it was restores the collection exactly. */
  lemma {:induction false} PaidFlagReverts(carts: map<ObjectId, Cart>, orderId: ObjectId, paid: bool)
    requires orderId in carts
    ensures SetPaid(SetPaid(carts, orderId, paid), orderId, carts[orderId].paid) == carts
    ensures SetPaid(SetPaid(carts, orderId, true), orderId, false)[orderId].paid == false
  {
    var back := SetPaid(SetPaid(carts, orderId, paid), orderId, carts[orderId].paid);
    assert forall id :: id in back ==> back[id] == carts[id];
  }

  /** After an administrator marks a cart paid, its owner's next `getOneCart`
      shows it paid. */
  lemma PaidIsVisibleToOwner(owner: ObjectId, orderId: ObjectId,
                             accounts: map<ObjectId, Account>, carts: map<ObjectId, Cart>)
    requires owner in accounts && orderId in carts && carts[orderId].user == owner
    ensures var r := CartController.GetOneCart(CartController.Auth(Some(owner)), orderId, accounts, SetPaid(carts, orderId, true));
      r.Ok? && r.value.paid
  {
  }

  /** `updateOrderStatus`: a missing caller account fails inside the handler
      (500); a caller whose role is not "admin" gets 403; an unknown order 404;
      otherwise the flag is written and the updated cart returned.  Only the
      last case writes. */
  method UpdateOrderStatus(db: Database, auth: Option<ObjectId>, orderId: ObjectId, paid: bool)
    returns (o: Outcome<Cart>)
    requires db.Valid()
    modifies db
    ensures db.Valid()
    ensures db.accounts == old(db.accounts) && db.listings == old(db.listings) && db.nextId == old(db.nextId)
    ensures auth.None? || auth.value !in old(db.accounts) ==>
      db.carts == old(db.carts) && o == Refuse(500, "Error updating order status", Some("Cannot read properties of null (reading 'role')"))
    ensures auth.Some? && auth.value in old(db.accounts) && old(db.accounts)[auth.value].role != AdminRole ==>
      db.carts == old(db.carts) && o == Refuse(403, "Access denied", None)
    ensures auth.Some? && auth.value in old(db.accounts) && old(db.accounts)[auth.value].role == AdminRole ==>
      if orderId in old(db.carts) then
        db.carts == SetPaid(old(db.carts), orderId, paid) && o == Ok(200, db.carts[orderId])
      else
        db.carts == old(db.carts) && o == Refuse(404, "Order not found", None)
  {
    if auth.None? || auth.value !in db.accounts {
      return Refuse(500, "Error updating order status", Some("Cannot read properties of null (reading 'role')"));
    }
    var user := db.accounts[auth.value];
    if user.role != AdminRole {
      return Refuse(403, "Access denied", None);
    }
    if orderId !in db.carts {
      return Refuse(404, "Order not found", None);
    }
    var updated := db.carts[orderId].(paid := paid);
    db.SaveCart(orderId, updated);
    o := Ok(200, updated);
  }
}
