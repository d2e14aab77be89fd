/**
 * The merge loop of `updateCart` (controllers/cart.controller.js) on an
 * existing unpaid cart: each requested line is resolved against the
 * listings (404 when missing; the category is not checked here); a product
 * the cart already holds gets its quantity and amount increased, at the
 * listing's current price; a new product is appended.
 */
module CartMerge {
  import opened Wrappers
  import opened ObjectIds
  import opened JsErrors
  import opened CoffeeSchema
  import opened CartSchema
  import opened CartPricing

  /** `lines.findIndex(line => line.product === product)`. */
  function FindIndex(lines: seq<LineItem>, product: ObjectId): (k: int)
    ensures -1 <= k < |lines|
    ensures k == -1 <==> product !in Products(lines)
    ensures k >= 0 ==> lines[k].product == product && forall i :: 0 <= i < k ==> lines[i].product != product
  {
    if lines == [] then -1
    else if lines[0].product == product then 0
    else
      var k := FindIndex(lines[1..], product);
      assert forall i :: 0 < i < |lines| ==> lines[i] == lines[1..][i - 1];
      assert product in Products(lines) ==> product in Products(lines[1..]);
      if k == -1 then -1 else k + 1
  }

  /** One pass of the loop body for a request whose listing exists. */
  function MergeOne(lines: seq<LineItem>, r: ItemRequest, l: Listing): (m: seq<LineItem>)
    ensures |m| == |lines| + (if r.shopId in Products(lines) then 0 else 1)
    ensures r.shopId in Products(m)
  {
    var k := FindIndex(lines, r.shopId);
    if k != -1 then
      var m := lines[k := lines[k].(quantity := lines[k].quantity + r.quantity,
                                    amount := lines[k].amount + r.quantity * l.price)];
      assert m[k].product == r.shopId;
      m
    else
      var line := LineItem(r.shopId, l.shopName, r.quantity, r.quantity * l.price);
      assert (lines + [line])[|lines|] == line;
      lines + [line]
  }

  datatype Merge = Merged(lines: seq<LineItem>) | MergeFailed(error: Exn)

  /** The whole loop, one request at a time from the left. */
  function MergeAll(existing: seq<LineItem>, reqs: seq<ItemRequest>, listings: map<ObjectId, Listing>): (m: Merge)
    ensures m.MergeFailed? ==> m.error == Raise("Shop not found", 404)
    ensures m.Merged? ==> |existing| <= |m.lines| <= |existing| + |reqs|
    decreases |reqs|
  {
    if reqs == [] then Merged(existing)
    else
      match MergeAll(existing, reqs[..|reqs| - 1], listings)
      case MergeFailed(e) => MergeFailed(e)
      case Merged(lines) =>
        var r := reqs[|reqs| - 1];
        if r.shopId !in listings then MergeFailed(Raise("Shop not found", 404))
        else Merged(MergeOne(lines, r, listings[r.shopId]))
  }

  function ShopIds(reqs: seq<ItemRequest>): set<ObjectId> {
    set i | 0 <= i < |reqs| :: reqs[i].shopId
  }

  /** A product the cart already holds: the first line for it gains the
      quantity and quantity × current price, the line count and every other
      line stay as they were. */
  lemma MergeRepeated(lines: seq<LineItem>, r: ItemRequest, l: Listing)
    requires r.shopId in Products(lines)
    ensures var m := MergeOne(lines, r, l); var k := FindIndex(lines, r.shopId);
      && |m| == |lines| && 0 <= k
      && m[k].product == r.shopId && m[k].productName == lines[k].productName
      && m[k].quantity == lines[k].quantity + r.quantity
      && m[k].amount == lines[k].amount + r.quantity * l.price
      && (forall i :: 0 <= i < |lines| && i != k ==> m[i] == lines[i])
  {
  }

  /** A product the cart does not hold: one line is appended. */
  lemma MergeNew(lines: seq<LineItem>, r: ItemRequest, l: Listing)
    requires r.shopId !in Products(lines)
    ensures MergeOne(lines, r, l) == lines + [LineItem(r.shopId, l.shopName, r.quantity, r.quantity * l.price)]
  {
  }

  /** One merge adds the requested product to the cart's products. */
  lemma MergeOneProducts(lines: seq<LineItem>, r: ItemRequest, l: Listing)
    ensures Products(MergeOne(lines, r, l)) == Products(lines) + {r.shopId}
  {
    var m := MergeOne(lines, r, l);
    if FindIndex(lines, r.shopId) != -1 {
      assert forall i :: 0 <= i < |m| ==> m[i].product == lines[i].product;
    } else {
      assert m[|lines|].product == r.shopId;
      assert forall i :: 0 <= i < |lines| ==> m[i] == lines[i];
    }
  }

  /** One merge adds quantity × price to the sum of amounts, adds the product
      to the cart's products, and keeps products unique. */
  lemma MergeOneFacts(lines: seq<LineItem>, r: ItemRequest, l: Listing)
    ensures SumAmounts(MergeOne(lines, r, l)) == SumAmounts(lines) + r.quantity * l.price
    ensures Products(MergeOne(lines, r, l)) == Products(lines) + {r.shopId}
    ensures UniqueProducts(lines) ==> UniqueProducts(MergeOne(lines, r, l))
    ensures |MergeOne(lines, r, l)| >= |lines|
    ensures forall i :: 0 <= i < |lines| ==>
      MergeOne(lines, r, l)[i].product == lines[i].product && MergeOne(lines, r, l)[i].productName == lines[i].productName
  {
    var k := FindIndex(lines, r.shopId);
    var m := MergeOne(lines, r, l);
    MergeOneProducts(lines, r, l);
    if k != -1 {
      SumAmountsUpdate(lines, k, m[k]);
    } else {
      var line := LineItem(r.shopId, l.shopName, r.quantity, r.quantity * l.price);
      SumAmountsAppend(lines, line);
      assert m[|lines|] == line;
    }
  }

  /** The shop ids of a request with one more element. */
  lemma ShopIdsSnoc(reqs: seq<ItemRequest>)
    requires reqs != []
    ensures ShopIds(reqs) == ShopIds(reqs[..|reqs| - 1]) + {reqs[|reqs| - 1].shopId}
  {
    var front := reqs[..|reqs| - 1];
    assert forall i :: 0 <= i < |front| ==> front[i] == reqs[i];
  }

  /** The merge succeeds exactly when every requested listing exists (barbers
      listings included); otherwise it fails with 404. */
  lemma {:induction false} MergeAllSucceedsIff(existing: seq<LineItem>, reqs: seq<ItemRequest>, listings: map<ObjectId, Listing>)
    ensures MergeAll(existing, reqs, listings).Merged? <==> forall i :: 0 <= i < |reqs| ==> reqs[i].shopId in listings
    ensures MergeAll(existing, reqs, listings).MergeFailed? ==> MergeAll(existing, reqs, listings).error == Raise("Shop not found", 404)
    decreases |reqs|
  {
    if reqs != [] {
      var n := |reqs| - 1;
      MergeAllSucceedsIff(existing, reqs[..n], listings);
      assert forall i :: 0 <= i < n ==> reqs[..n][i] == reqs[i];
    }
  }

  /** After a successful merge the sum of amounts is the old sum plus
      quantity × current price over every request. */
  lemma {:induction false} MergeAllTotal(existing: seq<LineItem>, reqs: seq<ItemRequest>, listings: map<ObjectId, Listing>)
    requires forall i :: 0 <= i < |reqs| ==> reqs[i].shopId in listings
    ensures MergeAll(existing, reqs, listings).Merged?
    ensures SumAmounts(MergeAll(existing, reqs, listings).lines) == SumAmounts(existing) + RequestValue(reqs, listings)
    decreases |reqs|
  {
    if reqs != [] {
      var n := |reqs| - 1;
      var front := reqs[..n];
      assert forall i :: 0 <= i < n ==> front[i] == reqs[i];
      MergeAllTotal(existing, front, listings);
      MergeOneFacts(MergeAll(existing, front, listings).lines, reqs[n], listings[reqs[n].shopId]);
    }
  }

  /** One step of a successful merge: the shorter request merged, then its
      last request merged into that. */
  lemma MergeAllStep(existing: seq<LineItem>, reqs: seq<ItemRequest>, listings: map<ObjectId, Listing>)
    requires reqs != [] && MergeAll(existing, reqs, listings).Merged?
    ensures var n := |reqs| - 1;
      && MergeAll(existing, reqs[..n], listings).Merged?
      && reqs[n].shopId in listings
      && MergeAll(existing, reqs, listings).lines
         == MergeOne(MergeAll(existing, reqs[..n], listings).lines, reqs[n], listings[reqs[n].shopId])
  {
  }

  /** After a successful merge the products are the old ones plus the requested ones. */
  lemma {:induction false} MergeAllProducts(existing: seq<LineItem>, reqs: seq<ItemRequest>, listings: map<ObjectId, Listing>)
    requires MergeAll(existing, reqs, listings).Merged?
    ensures Products(MergeAll(existing, reqs, listings).lines) == Products(existing) + ShopIds(reqs)
    decreases |reqs|
  {
    if reqs != [] {
      var n := |reqs| - 1;
      var front := reqs[..n];
      var r := reqs[n];
      MergeAllStep(existing, reqs, listings);
      MergeAllProducts(existing, front, listings);
      MergeOneProducts(MergeAll(existing, front, listings).lines, r, listings[r.shopId]);
      ShopIdsSnoc(reqs);
    }
  }

  /** Products stay unique through a merge, also when one request names a
      product twice. */
  lemma {:induction false} MergeAllUnique(existing: seq<LineItem>, reqs: seq<ItemRequest>, listings: map<ObjectId, Listing>)
    requires MergeAll(existing, reqs, listings).Merged? && UniqueProducts(existing)
    ensures UniqueProducts(MergeAll(existing, reqs, listings).lines)
    decreases |reqs|
  {
    if reqs != [] {
      var n := |reqs| - 1;
      var r := reqs[n];
      MergeAllStep(existing, reqs, listings);
      MergeAllUnique(existing, reqs[..n], listings);
      MergeOneFacts(MergeAll(existing, reqs[..n], listings).lines, r, listings[r.shopId]);
    }
  }

  /** The lines a cart already held stay in place, with their product and name:
      the merge only changes amounts and quantities, or appends. */
  lemma {:induction false} MergeAllKeepsLines(existing: seq<LineItem>, reqs: seq<ItemRequest>, listings: map<ObjectId, Listing>)
    requires MergeAll(existing, reqs, listings).Merged?
    ensures var lines := MergeAll(existing, reqs, listings).lines;
      && |lines| >= |existing|
      && (forall i :: 0 <= i < |existing| ==> lines[i].product == existing[i].product && lines[i].productName == existing[i].productName)
    decreases |reqs|
  {
    if reqs != [] {
      var n := |reqs| - 1;
      var r := reqs[n];
      MergeAllStep(existing, reqs, listings);
      var before := MergeAll(existing, reqs[..n], listings).lines;
      MergeAllKeepsLines(existing, reqs[..n], listings);
      MergeOneFacts(before, r, listings[r.shopId]);
    }
  }

  /** Every merged line passes the schema's line validation when the old lines
      did and every requested product is either already in the cart or has a
      listing with a display name. */
  lemma {:induction false} MergeAllLinesValidate(existing: seq<LineItem>, reqs: seq<ItemRequest>, listings: map<ObjectId, Listing>)
    requires forall i :: 0 <= i < |existing| ==> LineValidates(existing[i])
    requires forall i :: 0 <= i < |reqs| ==>
      reqs[i].shopId in Products(existing) ||
      (reqs[i].shopId in listings && listings[reqs[i].shopId].shopName.Some? && listings[reqs[i].shopId].shopName.value != "")
    requires MergeAll(existing, reqs, listings).Merged?
    ensures var lines := MergeAll(existing, reqs, listings).lines;
      forall i :: 0 <= i < |lines| ==> LineValidates(lines[i])
    decreases |reqs|
  {
    if reqs != [] {
      var n := |reqs| - 1;
      var front := reqs[..n];
      assert forall i :: 0 <= i < n ==> front[i] == reqs[i];
      MergeAllStep(existing, reqs, listings);
      MergeAllLinesValidate(existing, front, listings);
      MergeAllProducts(existing, front, listings);
      var lines := MergeAll(existing, front, listings).lines;
      var r := reqs[n];
      var m := MergeOne(lines, r, listings[r.shopId]);
      MergeOneFacts(lines, r, listings[r.shopId]);
      var k := FindIndex(lines, r.shopId);
      if k == -1 {
        assert r.shopId !in Products(existing);
        assert m[|lines|].productName == listings[r.shopId].shopName;
      }
      assert forall i :: 0 <= i < |lines| ==> m[i].productName == lines[i].productName;
    }
  }

  /** Adding the same product twice in a row merges rather than duplicates:
      its one line ends with the two quantities added to what it had. */
  lemma MergeTwiceAddsQuantities(lines: seq<LineItem>, shop: ObjectId, q1: int, q2: int, l: Listing)
    ensures var m := MergeOne(MergeOne(lines, ItemRequest(shop, q1), l), ItemRequest(shop, q2), l);
      var k := FindIndex(m, shop);
      var before := if shop in Products(lines) then lines[FindIndex(lines, shop)].quantity else 0;
      && k >= 0
      && |m| == |lines| + (if shop in Products(lines) then 0 else 1)
      && m[k].quantity == before + q1 + q2
  {
    if shop in Products(lines) {
      MergeTwiceHeld(lines, shop, q1, q2, l);
    } else {
      MergeTwiceNew(lines, shop, q1, q2, l);
    }
  }

  /** The first case of the lemma above: the cart already holds the product. */
  lemma MergeTwiceHeld(lines: seq<LineItem>, shop: ObjectId, q1: int, q2: int, l: Listing)
    requires shop in Products(lines)
    ensures var m := MergeOne(MergeOne(lines, ItemRequest(shop, q1), l), ItemRequest(shop, q2), l);
      var k := FindIndex(lines, shop);
      && k >= 0 && FindIndex(m, shop) == k && |m| == |lines|
      && m[k].quantity == lines[k].quantity + q1 + q2
  {
    var m1 := MergeOne(lines, ItemRequest(shop, q1), l);
    MergeRepeated(lines, ItemRequest(shop, q1), l);
    assert FindIndex(m1, shop) == FindIndex(lines, shop);
    MergeRepeated(m1, ItemRequest(shop, q2), l);
  }

  /** The second case: the first request appends the line, the second one
      adds to it. */
  lemma MergeTwiceNew(lines: seq<LineItem>, shop: ObjectId, q1: int, q2: int, l: Listing)
    requires shop !in Products(lines)
    ensures var m := MergeOne(MergeOne(lines, ItemRequest(shop, q1), l), ItemRequest(shop, q2), l);
      && FindIndex(m, shop) == |lines| && |m| == |lines| + 1
      && m[|lines|].quantity == q1 + q2
  {
    var m1 := MergeOne(lines, ItemRequest(shop, q1), l);
    MergeNew(lines, ItemRequest(shop, q1), l);
    assert FindIndex(m1, shop) == |lines| by {
      assert m1[|lines|].product == shop;
      assert forall i :: 0 <= i < |lines| ==> m1[i].product == lines[i].product;
    }
    MergeRepeated(m1, ItemRequest(shop, q2), l);
  }

  /** One more request extends the merge of the ones before it. */
  lemma MergeAllLast(existing: seq<LineItem>, reqs: seq<ItemRequest>, listings: map<ObjectId, Listing>, i: nat, lines: seq<LineItem>)
    requires i < |reqs| && MergeAll(existing, reqs[..i], listings) == Merged(lines)
    ensures MergeAll(existing, reqs[..i + 1], listings) ==
      if reqs[i].shopId in listings then Merged(MergeOne(lines, reqs[i], listings[reqs[i].shopId]))
      else MergeFailed(Raise("Shop not found", 404))
  {
    assert reqs[..i + 1][..i] == reqs[..i];
  }

  /** The loop body for a request whose listing exists: the matching line is
      updated by index, or a new line is pushed. */
  method MergeLine(lines: seq<LineItem>, item: ItemRequest, shop: Listing) returns (next: seq<LineItem>)
    ensures next == MergeOne(lines, item, shop)
  {
    var k := FindIndex(lines, item.shopId);
    if k != -1 {
      next := lines[k := lines[k].(quantity := lines[k].quantity + item.quantity,
                                   amount := lines[k].amount + item.quantity * shop.price)];
    } else {
      next := lines + [LineItem(item.shopId, shop.shopName, item.quantity, item.quantity * shop.price)];
    }
  }

  /** The loop itself, updating the cart's lines in place by index or by push. */
  method MergeItems(existing: seq<LineItem>, reqs: seq<ItemRequest>, listings: map<ObjectId, Listing>)
    returns (m: Merge)
    ensures m == MergeAll(existing, reqs, listings)
    ensures m.Merged? <==> forall i :: 0 <= i < |reqs| ==> reqs[i].shopId in listings
    ensures m.Merged? ==> SumAmounts(m.lines) == SumAmounts(existing) + RequestValue(reqs, listings)
    ensures m.Merged? && UniqueProducts(existing) ==> UniqueProducts(m.lines)
  {
    var lines := existing;
    var i := 0;
    while i < |reqs|
      invariant 0 <= i <= |reqs|
      invariant MergeAll(existing, reqs[..i], listings) == Merged(lines)
    {
      var item := reqs[i];
      MergeAllLast(existing, reqs, listings, i, lines);
      if item.shopId !in listings {
        m := MergeFailed(Raise("Shop not found", 404));
        MergeAllSucceedsIff(existing, reqs[..i + 1], listings);
        MergeAllSucceedsIff(existing, reqs, listings);
        return;
      }
      lines := MergeLine(lines, item, listings[item.shopId]);
      i := i + 1;
    }
    assert reqs[..i] == reqs;
    m := Merged(lines);
    MergeAllSucceedsIff(existing, reqs, listings);
    MergeAllTotal(existing, reqs, listings);
    if UniqueProducts(existing) {
      MergeAllUnique(existing, reqs, listings);
    }
  }
}
