/**
 * The listing record of models/coffee/coffee.js.  The schema declares no
 * `category` and no `shop_name`, yet the cart handlers read both; the
 * record carries them as optional fields so that the cart rules can be
 * stated, and a listing built from the schema alone leaves both unset.
 */
module CoffeeSchema {
  import opened Wrappers
  import opened ObjectIds

  /** The category the cart handlers refuse to put in a cart. */
  const Barbers: string := "barbers"

  datatype Listing = Listing(
    coffeeName: string,
    address: Option<string>,
    keywords: Option<string>,
    images: Option<string>,
    description: Option<string>,
    owner: ObjectId,
    contactNumber: string,
    contactEmail: string,
    price: int,
    availability: bool,
    category: Option<string>,
    shopName: Option<string>)

  /** A document built from the schema: `price` defaults to 0, `availabilty` to false. */
  function NewListing(coffeeName: string, owner: ObjectId, contactNumber: string,
                      contactEmail: string, price: Option<int>, availability: Option<bool>): (l: Listing)
    ensures price.None? ==> l.price == 0
    ensures availability.None? ==> !l.availability
    ensures l.category.None? && l.shopName.None?
  {
    Listing(coffeeName, None, None, None, None, owner, contactNumber, contactEmail,
            price.GetOr(0), availability.GetOr(false), None, None)
  }

  /** Schema validation: coffee_name, owner, contact_number and contact_email are required. */
  predicate Validates(l: Listing) {
    l.coffeeName != "" && l.contactNumber != "" && l.contactEmail != ""
  }

  predicate IsBarbers(l: Listing) {
    l.category == Some(Barbers)
  }

  /** The unique index on coffee_name. */
  ghost predicate UniqueNames(listings: map<ObjectId, Listing>) {
    forall a, b :: a in listings && b in listings && a != b ==>
      listings[a].coffeeName != listings[b].coffeeName
  }

  /** A listing built from the schema alone is never a barbers listing, so the
      cart handlers' category test never refuses it. */
  lemma SchemaListingIsNeverBarbers(coffeeName: string, owner: ObjectId, contactNumber: string,
                                    contactEmail: string, price: Option<int>, availability: Option<bool>)
    ensures !IsBarbers(NewListing(coffeeName, owner, contactNumber, contactEmail, price, availability))
  {
  }
}
