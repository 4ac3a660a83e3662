/**
 * The onboarded property listing (custom_addons/property_listings/models/property_listing.py):
 * the record, its selection keys and defaults, and the daily sweep that expires listings
 * whose service period has run out.
 *
 * The sweep and the property dashboard read four fields whose declarations are commented
 * out in the listing model: the listing status, the service validity, the register date
 * and the price. They are kept here as fields of the record so that both rules can be
 * stated as written; nothing in the import sets them.
 */
module Listings {
  import opened Wrappers
  import opened Calendar

  datatype ListingStatus = Live | Expired | Sold

  datatype Listing = Listing(
    name: string,
    phone: Option<string>,
    propertyAddress: Option<string>,
    countryId: Option<nat>,
    stateId: Option<nat>,
    cityId: Option<nat>,
    locationId: Option<nat>,
    tag: Option<string>,
    bhk: Option<string>,
    propertyType: Option<string>,
    residentialType: Option<string>,
    commercialType: Option<string>,
    listingType: Option<string>,
    currentStatus: Option<string>,
    rmId: Option<nat>,
    salesExecutiveId: Option<nat>,
    propertyLink: Option<string>,
    // fields declared only in comments of the listing model
    status: Option<ListingStatus>,
    serviceValidity: nat,           // months; 0 is "not set"
    registerDate: Option<Day>,
    price: real)

  /**
   * The keys of the listing's selection fields, including those whose declarations are
   * commented out (furniture, service validity, GST, listing status).
   */
  predicate SelectionKey(field: string, v: string) {
    if field == "current_status" then v == "self_occupied" || v == "empty" || v == "tenant_occupied"
    else if field == "property_status" then v == "live" || v == "expired" || v == "sold"
    else if field == "furniture_details" then v == "unfurnished" || v == "semi_furnished" || v == "furnished"
    else if field == "service_validity" then v == "1" || v == "3" || v == "6" || v == "12"
    else if field == "listing_type" then v == "sell" || v == "rent"
    else if field == "property_type" then v == "residential" || v == "commercial"
    else if field == "gst_status" then v == "gst" || v == "no_gst"
    else false
  }

  predicate SelectionOk(field: string, v: Option<string>) {
    v.None? || SelectionKey(field, v.value)
  }

  /** What `create` checks of a listing: the owner name is required and selections hold keys. */
  predicate Admissible(l: Listing) {
    && l.name != []
    && SelectionOk("property_type", l.propertyType)
    && SelectionOk("listing_type", l.listingType)
    && SelectionOk("current_status", l.currentStatus)
  }

  /** A new listing with only the owner name given: the declared defaults apply. */
  function DefaultListing(name: string, india: nat): (l: Listing)
    ensures l.listingType == Some("sell") && l.countryId == Some(india)
    ensures name != [] ==> Admissible(l)
  {
    Listing(name, None, None, Some(india), None, None, None, None, None, None, None, None,
            Some("sell"), None, None, None, None, None, 0, None, 0.0)
  }

  // ---------------------------------------------------------------- expiry sweep

  /** The sweep's rule for one listing. */
  function ExpireOne(l: Listing, today: Day): (r: Listing)
    ensures r == l || r == l.(status := Some(Expired))
    ensures r.status != l.status <==>
      l.status == Some(Live) && l.serviceValidity != 0 && l.registerDate.Some?
      && today > AddMonths(l.registerDate.value, l.serviceValidity)
  {
    if l.status == Some(Live) && l.serviceValidity != 0 && l.registerDate.Some?
       && today > AddMonths(l.registerDate.value, l.serviceValidity)
    then l.(status := Some(Expired))
    else l
  }

  /** The table after the sweep. */
  function Swept(rows: seq<Listing>, today: Day): (r: seq<Listing>)
    ensures |r| == |rows|
  {
    seq(|rows|, i requires 0 <= i < |rows| => ExpireOne(rows[i], today))
  }

  /** Sweeping twice on the same day changes nothing more. */
  lemma SweptIdempotent(rows: seq<Listing>, today: Day)
    ensures Swept(Swept(rows, today), today) == Swept(rows, today)
  {
    forall i | 0 <= i < |rows|
      ensures ExpireOne(ExpireOne(rows[i], today), today) == ExpireOne(rows[i], today)
    {
    }
  }

  /** An expired listing stays expired on every later day. */
  lemma ExpiryPersists(l: Listing, today: Day, later: Day)
    requires today <= later
    requires l.status == Some(Live) && ExpireOne(l, today).status == Some(Expired)
    ensures ExpireOne(l, later).status == Some(Expired)
  {
  }

  /** Only live listings change, and only to expired; sold and expired ones are left alone. */
  lemma SweepOnlyExpiresLive(rows: seq<Listing>, today: Day, i: nat)
    requires i < |rows|
    ensures rows[i].status != Some(Live) ==> Swept(rows, today)[i] == rows[i]
    ensures Swept(rows, today)[i] != rows[i] ==>
              rows[i].status == Some(Live) && Swept(rows, today)[i].status == Some(Expired)
  {
  }

  class ListingTable {
    var rows: seq<Listing>

    constructor (initial: seq<Listing>)
      ensures rows == initial
    {
      rows := initial;
    }

    /** `property.listing.create(vals)` */
    method Create(l: Listing) returns (id: nat)
      modifies this
      ensures rows == old(rows) + [l] && id == |old(rows)| && rows[id] == l
    {
      id := |rows|;
      rows := rows + [l];
    }

    /** `_cron_expire_listings`: every live listing past its service period becomes expired. */
    method ExpireListings(today: Day)
      modifies this
      ensures rows == Swept(old(rows), today)
    {
      var i := 0;
      while i < |rows|
        invariant 0 <= i <= |rows| == |old(rows)|
        invariant forall j :: 0 <= j < i ==> rows[j] == ExpireOne(old(rows)[j], today)
        invariant forall j :: i <= j < |rows| ==> rows[j] == old(rows)[j]
      {
        var l := rows[i];
        if l.status == Some(Live) && l.serviceValidity != 0 && l.registerDate.Some? {
          var expiry := AddMonths(l.registerDate.value, l.serviceValidity);
          if today > expiry {
            rows := rows[i := l.(status := Some(Expired))];
          }
        }
        i := i + 1;
      }
    }
  }
}
