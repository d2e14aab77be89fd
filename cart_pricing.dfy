/**
 * The `for (item of items)` loop of `makecart` (controllers/cart.controller.js):
 * each requested line is resolved against the listings, refused when the
 * listing is missing (404) or is a barbers listing (403), and otherwise
 * priced at quantity × listing price while the total accumulates.
 */
module CartPricing {
  import opened Wrappers
  import opened ObjectIds
  import opened JsErrors
  import opened CoffeeSchema
  import opened CartSchema

  /** One decoded element of the request's `items`: `{ shop_id, quantity }`. */
  datatype ItemRequest = ItemRequest(shopId: ObjectId, quantity: int)

  /** A line the loop accepts: its listing exists and is not a barbers listing. */
  predicate Admissible(r: ItemRequest, listings: map<ObjectId, Listing>) {
    r.shopId in listings && !IsBarbers(listings[r.shopId])
  }

  /** The error thrown for a line the loop refuses. */
  function Rejection(r: ItemRequest, listings: map<ObjectId, Listing>): (e: Exn)
    ensures e.statusCode == Some(if r.shopId in listings then 403 else 404)
  {
    if r.shopId !in listings then Raise("No shops found", 404)
    else Raise("carting only reserved for babers", 403)
  }

  /** The line stored for an accepted request: the listing's id and display
      name, the requested quantity and quantity × price. */
  function PricedLine(r: ItemRequest, l: Listing): (line: LineItem)
    ensures line.amount == r.quantity * l.price
  {
    LineItem(r.shopId, l.shopName, r.quantity, r.quantity * l.price)
  }

  datatype Pricing = Priced(lines: seq<LineItem>) | Rejected(error: Exn)

  /** The loop's result, one request at a time from the left; the first
      refused request ends it. */
  function Price(reqs: seq<ItemRequest>, listings: map<ObjectId, Listing>): (p: Pricing)
    ensures p.Priced? ==> |p.lines| == |reqs|
    ensures p.Rejected? ==> p.error.statusCode == Some(403) || p.error.statusCode == Some(404)
    decreases |reqs|
  {
    if reqs == [] then Priced([])
    else
      match Price(reqs[..|reqs| - 1], listings)
      case Rejected(e) => Rejected(e)
      case Priced(lines) =>
        var r := reqs[|reqs| - 1];
        if Admissible(r, listings) then Priced(lines + [PricedLine(r, listings[r.shopId])])
        else Rejected(Rejection(r, listings))
  }

  /** The sum of quantity × price over requests whose listings all exist. */
  function RequestValue(reqs: seq<ItemRequest>, listings: map<ObjectId, Listing>): int
    requires forall i :: 0 <= i < |reqs| ==> reqs[i].shopId in listings
    decreases |reqs|
  {
    if reqs == [] then 0
    else
      var r := reqs[|reqs| - 1];
      RequestValue(reqs[..|reqs| - 1], listings) + r.quantity * listings[r.shopId].price
  }

  /** Pricing succeeds exactly when every request is admissible. */
  lemma {:induction false} PriceSucceedsIff(reqs: seq<ItemRequest>, listings: map<ObjectId, Listing>)
    ensures Price(reqs, listings).Priced? <==> forall i :: 0 <= i < |reqs| ==> Admissible(reqs[i], listings)
    decreases |reqs|
  {
    if reqs != [] {
      var n := |reqs| - 1;
      var front := reqs[..n];
      PriceSucceedsIff(front, listings);
      assert forall i :: 0 <= i < n ==> front[i] == reqs[i];
    }
  }

  /** One step of a successful pricing: the shorter request priced, then one
      line for its last request appended. */
  lemma PriceStep(reqs: seq<ItemRequest>, listings: map<ObjectId, Listing>)
    requires reqs != [] && Price(reqs, listings).Priced?
    ensures var n := |reqs| - 1;
      && Price(reqs[..n], listings).Priced?
      && Admissible(reqs[n], listings)
      && Price(reqs, listings).lines
         == Price(reqs[..n], listings).lines + [PricedLine(reqs[n], listings[reqs[n].shopId])]
  {
  }

  /** A successful pricing gives one line per request, in order, each priced
      at quantity × price. */
  lemma {:induction false} PriceLines(reqs: seq<ItemRequest>, listings: map<ObjectId, Listing>)
    requires Price(reqs, listings).Priced?
    ensures forall i :: 0 <= i < |reqs| ==> reqs[i].shopId in listings
    ensures |Price(reqs, listings).lines| == |reqs|
    ensures forall i :: 0 <= i < |reqs| ==>
      Price(reqs, listings).lines[i] == PricedLine(reqs[i], listings[reqs[i].shopId])
    decreases |reqs|
  {
    if reqs != [] {
      var n := |reqs| - 1;
      var front := reqs[..n];
      PriceStep(reqs, listings);
      PriceLines(front, listings);
      var lines := Price(reqs, listings).lines;
      forall i | 0 <= i < |reqs|
        ensures reqs[i].shopId in listings && lines[i] == PricedLine(reqs[i], listings[reqs[i].shopId])
      {
        if i < n {
          assert front[i] == reqs[i];
        }
      }
    }
  }

  /** The amounts of a successful pricing sum to the requests' value. */
  lemma {:induction false} PriceTotal(reqs: seq<ItemRequest>, listings: map<ObjectId, Listing>)
    requires Price(reqs, listings).Priced?
    ensures forall i :: 0 <= i < |reqs| ==> reqs[i].shopId in listings
    ensures SumAmounts(Price(reqs, listings).lines) == RequestValue(reqs, listings)
    decreases |reqs|
  {
    PriceLines(reqs, listings);
    if reqs != [] {
      var n := |reqs| - 1;
      PriceStep(reqs, listings);
      PriceTotal(reqs[..n], listings);
      SumAmountsAppend(Price(reqs[..n], listings).lines, PricedLine(reqs[n], listings[reqs[n].shopId]));
    }
  }

  /** Both facts together: success exactly when every request is admissible,
      and then the lines and their sum as above. */
  lemma {:induction false} PriceSpec(reqs: seq<ItemRequest>, listings: map<ObjectId, Listing>)
    ensures Price(reqs, listings).Priced? <==> forall i :: 0 <= i < |reqs| ==> Admissible(reqs[i], listings)
    ensures Price(reqs, listings).Priced? ==>
      var lines := Price(reqs, listings).lines;
      && |lines| == |reqs|
      && (forall i :: 0 <= i < |reqs| ==> lines[i] == PricedLine(reqs[i], listings[reqs[i].shopId]))
      && SumAmounts(lines) == RequestValue(reqs, listings)
  {
    PriceSucceedsIff(reqs, listings);
    if Price(reqs, listings).Priced? {
      PriceLines(reqs, listings);
      PriceTotal(reqs, listings);
    }
  }

  /** Once a prefix is refused, the whole request is refused with the same error. */
  lemma {:induction false} RejectionPersists(reqs: seq<ItemRequest>, listings: map<ObjectId, Listing>, n: nat)
    requires n <= |reqs| && Price(reqs[..n], listings).Rejected?
    ensures Price(reqs, listings) == Price(reqs[..n], listings)
    decreases |reqs|
  {
    if n < |reqs| {
      var m := |reqs| - 1;
      assert reqs[..m][..n] == reqs[..n];
      RejectionPersists(reqs[..m], listings, n);
    } else {
      assert reqs[..n] == reqs;
    }
  }

  /** The first refused request decides the error: 404 for a missing listing,
      403 for a barbers listing, whatever follows it. */
  lemma {:induction false} FirstRejectionWins(reqs: seq<ItemRequest>, listings: map<ObjectId, Listing>, k: nat)
    requires k < |reqs| && !Admissible(reqs[k], listings)
    requires forall i :: 0 <= i < k ==> Admissible(reqs[i], listings)
    ensures Price(reqs, listings) == Rejected(Rejection(reqs[k], listings))
  {
    var front := reqs[..k];
    PriceSpec(front, listings);
    assert reqs[..k + 1][..k] == front;
    RejectionPersists(reqs, listings, k + 1);
  }

  /** One more request extends the pricing of the ones before it. */
  lemma PriceLast(reqs: seq<ItemRequest>, listings: map<ObjectId, Listing>, i: nat, lines: seq<LineItem>)
    requires i < |reqs| && Price(reqs[..i], listings) == Priced(lines)
    ensures Price(reqs[..i + 1], listings) ==
      if Admissible(reqs[i], listings) then Priced(lines + [PricedLine(reqs[i], listings[reqs[i].shopId])])
      else Rejected(Rejection(reqs[i], listings))
  {
    assert reqs[..i + 1][..i] == reqs[..i];
  }

  /** The loop itself: the lines it builds and the running `totalAmount`. */
  method PriceItems(reqs: seq<ItemRequest>, listings: map<ObjectId, Listing>)
    returns (p: Pricing, totalAmount: int)
    ensures p == Price(reqs, listings)
    ensures p.Priced? ==> totalAmount == SumAmounts(p.lines)
  {
    var lines: seq<LineItem> := [];
    totalAmount := 0;
    var i := 0;
    while i < |reqs|
      invariant 0 <= i <= |reqs|
      invariant Price(reqs[..i], listings) == Priced(lines)
      invariant totalAmount == SumAmounts(lines)
    {
      var item := reqs[i];
      PriceLast(reqs, listings, i, lines);
      if item.shopId !in listings || IsBarbers(listings[item.shopId]) {
        p := Rejected(Rejection(item, listings));
        RejectionPersists(reqs, listings, i + 1);
        return;
      }
      var line := PricedLine(item, listings[item.shopId]);
      SumAmountsAppend(lines, line);
      lines := lines + [line];
      totalAmount := totalAmount + line.amount;
      i := i + 1;
    }
    assert reqs[..i] == reqs;
    p := Priced(lines);
  }
}
