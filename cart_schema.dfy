/**
 * The cart record of models/carts/carts.js: an owner, the owner's display
 * name, an ordered sequence of line items, a total and a paid flag.
 */
module CartSchema {
  import opened Wrappers
  import opened ObjectIds

  datatype LineItem = LineItem(product: ObjectId, productName: Option<string>, quantity: int, amount: int)

  datatype Cart = Cart(user: ObjectId, userName: string, items: seq<LineItem>, totalAmount: int, paid: bool)

  /** A line as the schema builds it: `quantity` and `amount` both default to 1. */
  function NewLine(product: ObjectId, productName: Option<string>, quantity: Option<int>, amount: Option<int>): (l: LineItem)
    ensures quantity.None? ==> l.quantity == 1
    ensures amount.None? ==> l.amount == 1
    ensures l.product == product && l.productName == productName
  {
    LineItem(product, productName, quantity.GetOr(1), amount.GetOr(1))
  }

  /** A cart as the schema builds it: `totalAmount` defaults to 0 and `paid` to false. */
  function NewCart(user: ObjectId, userName: string, items: seq<LineItem>, totalAmount: Option<int>): (c: Cart)
    ensures totalAmount.None? ==> c.totalAmount == 0
    ensures !c.paid && c.items == items && c.user == user
  {
    Cart(user, userName, items, totalAmount.GetOr(0), false)
  }

  /** `product` and `product_name` are required on every line. */
  predicate LineValidates(l: LineItem) {
    l.productName.Some? && l.productName.value != ""
  }

  /** Schema validation: `user` and `user_name` on the cart, and every line. */
  predicate Validates(c: Cart) {
    c.userName != "" && forall i :: 0 <= i < |c.items| ==> LineValidates(c.items[i])
  }

  /** `items.reduce((total, item) => total + item.amount, 0)`: a fold from the left. */
  function SumAmounts(items: seq<LineItem>): (total: int)
    ensures (forall i :: 0 <= i < |items| ==> items[i].amount >= 0) ==> total >= 0
    ensures |items| == 1 ==> total == items[0].amount
  {
    if items == [] then 0 else SumAmounts(items[..|items| - 1]) + items[|items| - 1].amount
  }

  predicate UniqueProducts(items: seq<LineItem>) {
    forall i, j :: 0 <= i < j < |items| ==> items[i].product != items[j].product
  }

  function Products(items: seq<LineItem>): set<ObjectId> {
    set i | 0 <= i < |items| :: items[i].product
  }

  /** Replacing one line changes the sum by the difference of the two amounts. */
  lemma {:induction false} SumAmountsUpdate(items: seq<LineItem>, k: nat, l: LineItem)
    requires k < |items|
    ensures SumAmounts(items[k := l]) == SumAmounts(items) - items[k].amount + l.amount
    decreases |items|
  {
    var n := |items| - 1;
    var u := items[k := l];
    assert u[..n] == if k == n then items[..n] else items[..n][k := l];
    if k < n {
      SumAmountsUpdate(items[..n], k, l);
    }
  }

  /** Appending a line adds its amount. */
  lemma SumAmountsAppend(items: seq<LineItem>, l: LineItem)
    ensures SumAmounts(items + [l]) == SumAmounts(items) + l.amount
  {
    assert (items + [l])[..|items|] == items;
  }

  /** `Cart.find({ user })`: every cart the account owns, paid or not. */
  function OwnedBy(carts: map<ObjectId, Cart>, user: ObjectId): (r: map<ObjectId, Cart>)
    ensures forall id :: id in r <==> id in carts && carts[id].user == user
    ensures forall id :: id in r ==> r[id] == carts[id]
  {
    map id | id in carts && carts[id].user == user :: carts[id]
  }
}
