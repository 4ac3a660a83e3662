/**
 * The training "estate" addon (custom_addons/estate/models/estate_property.py and
 * estate_property_offer.py): properties with their computed total area and best offer, the
 * sold/canceled transitions, and offers with a deadline computed from their validity and an
 * accept action that allows one accepted offer per property.
 * A record's id is its index in its table; an offer's property is an index into the
 * property table.
 */
module Estate {
  import opened Wrappers
  import opened Calendar
  import opened Tables

  datatype PropertyState = New | OfferReceived | OfferAccepted | Sold | Canceled

  datatype Orientation = North | South | East | West

  /** An `estate.property`; prices are `real`, areas and counts unbounded integers. */
  datatype Property = Property(
    name: string,
    description: Option<string>,
    postcode: Option<string>,
    dateAvailability: Option<Day>,
    expectedPrice: real,
    sellingPrice: real,
    bedrooms: int,
    livingArea: int,
    facades: int,
    garage: bool,
    garden: bool,
    gardenArea: int,
    gardenOrientation: Option<Orientation>,
    propertyTypeId: Option<nat>,
    salespersonId: Option<nat>,
    buyerId: Option<nat>,
    active: bool,
    state: PropertyState,
    totalArea: int,
    bestPrice: real)

  /**
   * A property created at `today` by user `user` with only the required fields given: the
   * declared defaults apply and the stored computes see no areas and no offers.
   */
  function NewProperty(name: string, expectedPrice: real, today: Day, user: nat): (p: Property)
    ensures p.state == New && p.bedrooms == 2 && p.active
    ensures p.dateAvailability == Some(AddMonths(today, 3)) && p.salespersonId == Some(user)
    ensures p.buyerId.None? && p.sellingPrice == 0.0
    ensures p.totalArea == p.livingArea + p.gardenArea && p.bestPrice == 0.0
  {
    Property(name, None, None, Some(AddMonths(today, 3)), expectedPrice, 0.0, 2, 0, 0, false, false, 0,
             None, None, Some(user), None, true, New, 0, 0.0)
  }

  // ---------------------------------------------------------------- best offer

  /** Python's `max` over a non-empty list, and 0.0 for an empty one. */
  function MaxPrice(prices: seq<real>): (r: real)
    ensures prices == [] ==> r == 0.0
    ensures prices != [] ==> r in prices
    ensures forall k :: 0 <= k < |prices| ==> prices[k] <= r
  {
    if prices == [] then 0.0
    else if |prices| == 1 then prices[0]
    else
      var rest := MaxPrice(prices[1..]);
      if prices[0] >= rest then prices[0] else rest
  }

  function PriceOn(pid: nat): Offer -> Option<real> {
    (o: Offer) => if o.propertyId == pid then Some(o.price) else None
  }

  /** `offer_ids.mapped('price')` of property `pid`. */
  function OfferPrices(offers: seq<Offer>, pid: nat): seq<real> {
    Collect(offers, PriceOn(pid))
  }

  /** `_compute_best_price` for property `pid`. */
  function BestPrice(offers: seq<Offer>, pid: nat): real {
    var prices := OfferPrices(offers, pid);
    if prices != [] then MaxPrice(prices) else 0.0
  }

  /**
   * The best price is the price of one of the property's offers and no offer on the
   * property is higher; without offers it is 0.0.
   */
  lemma BestPriceIsMaximum(offers: seq<Offer>, pid: nat)
    ensures forall k :: 0 <= k < |offers| && offers[k].propertyId == pid ==> offers[k].price <= BestPrice(offers, pid)
    ensures (exists k :: 0 <= k < |offers| && offers[k].propertyId == pid) ==>
              exists k :: 0 <= k < |offers| && offers[k].propertyId == pid && offers[k].price == BestPrice(offers, pid)
    ensures (forall k :: 0 <= k < |offers| ==> offers[k].propertyId != pid) ==> BestPrice(offers, pid) == 0.0
  {
    var prices := OfferPrices(offers, pid);
    if prices != [] {
      CollectedFrom(offers, PriceOn(pid), prices[0]);
    }
    forall k | 0 <= k < |offers| && offers[k].propertyId == pid
      ensures offers[k].price <= BestPrice(offers, pid)
    {
      CollectHas(offers, PriceOn(pid), k);
    }
    if k :| 0 <= k < |offers| && offers[k].propertyId == pid {
      CollectHas(offers, PriceOn(pid), k);
      CollectedFrom(offers, PriceOn(pid), MaxPrice(prices));
    }
  }

  // ---------------------------------------------------------------- sold and canceled

  /**
   * The properties after setting the properties `ids`, one by one, to `target`; `None` when
   * one of them is in `forbidden` when reached, and the action raises.
   * `action_set_sold` goes to Sold and refuses Canceled; `action_cancel` goes to Canceled
   * and refuses Sold.
   */
  function Transition(rows: seq<Property>, ids: seq<nat>, forbidden: PropertyState, target: PropertyState): (r: Option<seq<Property>>)
    requires forall k :: 0 <= k < |ids| ==> ids[k] < |rows|
    ensures r.Some? ==> |r.value| == |rows|
    decreases |ids|
  {
    if ids == [] then Some(rows)
    else if rows[ids[0]].state == forbidden then None
    else Transition(rows[ids[0] := rows[ids[0]].(state := target)], ids[1..], forbidden, target)
  }

  /** A transition raises exactly when one of the properties starts in the forbidden state. */
  lemma {:induction false} TransitionFails(rows: seq<Property>, ids: seq<nat>, forbidden: PropertyState, target: PropertyState)
    requires forall k :: 0 <= k < |ids| ==> ids[k] < |rows|
    requires forbidden != target
    ensures Transition(rows, ids, forbidden, target).None? <==>
              exists k :: 0 <= k < |ids| && rows[ids[k]].state == forbidden
    decreases |ids|
  {
    if ids != [] && rows[ids[0]].state != forbidden {
      var next := rows[ids[0] := rows[ids[0]].(state := target)];
      TransitionFails(next, ids[1..], forbidden, target);
      if k :| 0 <= k < |ids| && rows[ids[k]].state == forbidden {
        assert ids[k] != ids[0] && next[ids[1..][k - 1]].state == forbidden;
      }
      if k :| 0 <= k < |ids[1..]| && next[ids[1..][k]].state == forbidden {
        assert rows[ids[k + 1]].state == forbidden;
      }
    }
  }

  /** A transition that completes moves exactly the properties `ids` to the target state. */
  lemma {:induction false} TransitionSets(rows: seq<Property>, ids: seq<nat>, forbidden: PropertyState, target: PropertyState)
    requires forall k :: 0 <= k < |ids| ==> ids[k] < |rows|
    requires Transition(rows, ids, forbidden, target).Some?
    ensures var r := Transition(rows, ids, forbidden, target).value;
            |r| == |rows| && forall j :: 0 <= j < |rows| ==> r[j] == if j in ids then rows[j].(state := target) else rows[j]
    decreases |ids|
  {
    if ids != [] {
      var next := rows[ids[0] := rows[ids[0]].(state := target)];
      TransitionSets(next, ids[1..], forbidden, target);
      var r := Transition(rows, ids, forbidden, target).value;
      forall j | 0 <= j < |rows|
        ensures r[j] == if j in ids then rows[j].(state := target) else rows[j]
      {
        assert j in ids <==> j == ids[0] || j in ids[1..];
      }
    }
  }

  /** A property once sold cannot be canceled: cancelling what was just sold raises. */
  lemma SoldCannotBeCanceled(rows: seq<Property>, ids: seq<nat>)
    requires forall k :: 0 <= k < |ids| ==> ids[k] < |rows|
    requires ids != [] && Transition(rows, ids, Canceled, Sold).Some?
    ensures Transition(Transition(rows, ids, Canceled, Sold).value, ids, Sold, Canceled).None?
  {
    var r := Transition(rows, ids, Canceled, Sold).value;
    TransitionSets(rows, ids, Canceled, Sold);
    TransitionFails(r, ids, Sold, Canceled);
    assert r[ids[0]].state == Sold;
  }

  /** A property once canceled cannot be sold. */
  lemma CanceledCannotBeSold(rows: seq<Property>, ids: seq<nat>)
    requires forall k :: 0 <= k < |ids| ==> ids[k] < |rows|
    requires ids != [] && Transition(rows, ids, Sold, Canceled).Some?
    ensures Transition(Transition(rows, ids, Sold, Canceled).value, ids, Canceled, Sold).None?
  {
    var r := Transition(rows, ids, Sold, Canceled).value;
    TransitionSets(rows, ids, Sold, Canceled);
    TransitionFails(r, ids, Canceled, Sold);
    assert r[ids[0]].state == Canceled;
  }

  // ---------------------------------------------------------------- offers

  datatype OfferStatus = Accepted | Refused

  /** An `estate.property.offer`; `createDate` is the day part of `create_date`. */
  datatype Offer = Offer(
    price: real,
    status: Option<OfferStatus>,
    partnerId: nat,
    propertyId: nat,
    validity: int,
    dateDeadline: Option<Day>,
    createDate: Option<Day>)

  /** An offer created at `today` with only the required fields given: validity defaults to 7. */
  function NewOffer(price: real, partnerId: nat, propertyId: nat, today: Day): (o: Offer)
    ensures o.validity == 7 && o.status.None? && o.createDate == Some(today)
    ensures o.dateDeadline == Some(today + 7)
  {
    Offer(price, None, partnerId, propertyId, 7, Some(today + 7), Some(today))
  }

  /** The day the validity counts from: the creation day, or today before the record exists. */
  function StartDate(o: Offer, today: Day): Day {
    o.createDate.GetOr(today)
  }

  /** `_compute_date_deadline` for one offer. */
  function Deadline(o: Offer, today: Day): (d: Day)
    ensures d - StartDate(o, today) == o.validity
  {
    StartDate(o, today) + o.validity
  }

  /** `inverse_date_deadline` for one offer: the validity it stores. */
  function ValidityFor(o: Offer, today: Day): (v: int)
    ensures o.dateDeadline.None? ==> v == 7
    ensures o.dateDeadline.Some? ==> StartDate(o, today) + v == o.dateDeadline.value
  {
    if o.dateDeadline.Some? then o.dateDeadline.value - StartDate(o, today) else 7
  }

  /** Computing the deadline and then inverting it gives back the validity. */
  lemma DeadlineThenValidity(o: Offer, today: Day)
    ensures ValidityFor(o.(dateDeadline := Some(Deadline(o, today))), today) == o.validity
  {
  }

  /** Inverting a deadline and then computing it gives back the deadline. */
  lemma ValidityThenDeadline(o: Offer, today: Day)
    requires o.dateDeadline.Some?
    ensures Deadline(o.(validity := ValidityFor(o, today)), today) == o.dateDeadline.value
  {
  }

  /** The domain behind `'accepted' in property.offer_ids.mapped('status')`. */
  function AcceptedOn(pid: nat): Offer -> bool {
    (o: Offer) => o.propertyId == pid && o.status == Some(Accepted)
  }

  function HasAccepted(offers: seq<Offer>, pid: nat): bool {
    FindFirst(offers, AcceptedOn(pid)).Some?
  }

  /** The rule the accept action keeps: no property has two accepted offers. */
  predicate SingleAccepted(offers: seq<Offer>) {
    forall i, j :: 0 <= i < j < |offers| && offers[i].status == Some(Accepted) && offers[j].status == Some(Accepted) ==>
      offers[i].propertyId != offers[j].propertyId
  }

  /** Every offer points at an existing property. */
  predicate Linked(offers: seq<Offer>, propertyCount: nat) {
    forall k :: 0 <= k < |offers| ==> offers[k].propertyId < propertyCount
  }

  /** Both tables, as `action_accept_offer` changes them together. */
  datatype Books = Books(properties: seq<Property>, offers: seq<Offer>)

  predicate Accepting(b: Books, ids: seq<nat>) {
    && Linked(b.offers, |b.properties|)
    && forall k :: 0 <= k < |ids| ==> ids[k] < |b.offers|
  }

  /** The tables after accepting the offer `id`, which no offer of its property blocks. */
  function AcceptOne(b: Books, id: nat): (r: Books)
    requires Linked(b.offers, |b.properties|) && id < |b.offers|
    ensures Linked(r.offers, |r.properties|) && |r.offers| == |b.offers| && |r.properties| == |b.properties|
  {
    var o := b.offers[id];
    var p := b.properties[o.propertyId];
    Books(b.properties[o.propertyId := p.(sellingPrice := o.price, buyerId := Some(o.partnerId))],
          b.offers[id := o.(status := Some(Accepted))])
  }

  /**
   * `action_accept_offer` over the offers `ids`, one by one; `None` when an offer's property
   * already has an accepted offer when it is reached, and the action raises.
   */
  function AcceptAll(b: Books, ids: seq<nat>): (r: Option<Books>)
    requires Accepting(b, ids)
    ensures r.Some? ==> |r.value.offers| == |b.offers| && |r.value.properties| == |b.properties|
    decreases |ids|
  {
    if ids == [] then Some(b)
    else if HasAccepted(b.offers, b.offers[ids[0]].propertyId) then None
    else AcceptAll(AcceptOne(b, ids[0]), ids[1..])
  }

  /** Accepting an offer whose property has no accepted offer keeps the single-accepted rule. */
  lemma AcceptOneSingle(b: Books, id: nat)
    requires Linked(b.offers, |b.properties|) && id < |b.offers|
    requires SingleAccepted(b.offers) && !HasAccepted(b.offers, b.offers[id].propertyId)
    ensures SingleAccepted(AcceptOne(b, id).offers)
  {
    var offers' := AcceptOne(b, id).offers;
    var pid := b.offers[id].propertyId;
    forall i, j | 0 <= i < j < |offers'| && offers'[i].status == Some(Accepted) && offers'[j].status == Some(Accepted)
      ensures offers'[i].propertyId != offers'[j].propertyId
    {
      if i == id {
        assert !AcceptedOn(pid)(b.offers[j]);
      } else if j == id {
        assert !AcceptedOn(pid)(b.offers[i]);
      }
    }
  }

  /** A completed accept leaves every property with at most one accepted offer. */
  lemma {:induction false} AcceptKeepsSingle(b: Books, ids: seq<nat>)
    requires Accepting(b, ids) && SingleAccepted(b.offers)
    requires AcceptAll(b, ids).Some?
    ensures SingleAccepted(AcceptAll(b, ids).value.offers)
    decreases |ids|
  {
    if ids != [] {
      AcceptOneSingle(b, ids[0]);
      AcceptKeepsSingle(AcceptOne(b, ids[0]), ids[1..]);
    }
  }

  /** An accepted offer stays accepted through later accepts. */
  lemma AcceptOneKeepsAccepted(b: Books, id: nat, pid: nat)
    requires Linked(b.offers, |b.properties|) && id < |b.offers|
    requires HasAccepted(b.offers, pid)
    ensures HasAccepted(AcceptOne(b, id).offers, pid)
  {
    var k := FindFirst(b.offers, AcceptedOn(pid)).value;
    assert AcceptedOn(pid)(AcceptOne(b, id).offers[k]);
  }

  /**
   * An accept that reaches an offer whose property already has an accepted offer raises,
   * and so does one that reaches two offers of the same property.
   */
  lemma {:induction false} AcceptBlocked(b: Books, ids: seq<nat>, k: nat)
    requires Accepting(b, ids) && k < |ids|
    requires HasAccepted(b.offers, b.offers[ids[k]].propertyId)
    ensures AcceptAll(b, ids).None?
    decreases |ids|
  {
    if k > 0 && !HasAccepted(b.offers, b.offers[ids[0]].propertyId) {
      var pid := b.offers[ids[k]].propertyId;
      var b' := AcceptOne(b, ids[0]);
      AcceptOneKeepsAccepted(b, ids[0], pid);
      assert b'.offers[ids[1..][k - 1]].propertyId == pid;
      AcceptBlocked(b', ids[1..], k - 1);
    }
  }

  /** Two offers of one property cannot both be accepted in one call. */
  lemma AcceptSamePropertyTwice(b: Books, ids: seq<nat>, i: nat, j: nat)
    requires Accepting(b, ids) && i < j < |ids|
    requires b.offers[ids[i]].propertyId == b.offers[ids[j]].propertyId
    ensures AcceptAll(b, ids).None?
  {
    AcceptBlockedAfter(b, ids, i, j);
  }

  /** `AcceptSamePropertyTwice` by induction on the position of the first offer. */
  lemma {:induction false} AcceptBlockedAfter(b: Books, ids: seq<nat>, i: nat, j: nat)
    requires Accepting(b, ids) && i < j < |ids|
    requires b.offers[ids[i]].propertyId == b.offers[ids[j]].propertyId
    ensures AcceptAll(b, ids).None?
    decreases |ids|
  {
    if !HasAccepted(b.offers, b.offers[ids[0]].propertyId) {
      var b' := AcceptOne(b, ids[0]);
      if i == 0 {
        var pid := b.offers[ids[0]].propertyId;
        assert AcceptedOn(pid)(b'.offers[ids[0]]);
        assert b'.offers[ids[1..][j - 1]].propertyId == pid;
        AcceptBlocked(b', ids[1..], j - 1);
      } else {
        assert b'.offers[ids[1..][i - 1]].propertyId == b'.offers[ids[1..][j - 1]].propertyId;
        AcceptBlockedAfter(b', ids[1..], i - 1, j - 1);
      }
    }
  }

  /**
   * A completed accept marks every offer `ids` accepted and gives its property the offer's
   * price as selling price and the offer's partner as buyer.
   */
  lemma {:induction false} AcceptSetsSale(b: Books, ids: seq<nat>, k: nat)
    requires Accepting(b, ids) && k < |ids|
    requires AcceptAll(b, ids).Some?
    ensures var r := AcceptAll(b, ids).value; var o := b.offers[ids[k]];
            && r.offers[ids[k]] == o.(status := Some(Accepted))
            && r.properties[o.propertyId].sellingPrice == o.price
            && r.properties[o.propertyId].buyerId == Some(o.partnerId)
    decreases |ids|
  {
    var b' := AcceptOne(b, ids[0]);
    if k == 0 {
      AcceptUntouched(b', ids[1..], ids[0], b.offers[ids[0]].propertyId);
    } else {
      if ids[k] == ids[0] {
        AcceptSamePropertyTwice(b, ids, 0, k);
        assert false;
      }
      assert b'.offers[ids[k]] == b.offers[ids[k]];
      AcceptSetsSale(b', ids[1..], k - 1);
    }
  }

  /**
   * A completed accept leaves alone an accepted offer's record and the sale of its property
   * when the property already has that accepted offer.
   */
  lemma {:induction false} AcceptUntouched(b: Books, ids: seq<nat>, id: nat, pid: nat)
    requires Accepting(b, ids) && id < |b.offers| && pid < |b.properties|
    requires AcceptAll(b, ids).Some?
    requires AcceptedOn(pid)(b.offers[id])
    ensures AcceptAll(b, ids).value.offers[id] == b.offers[id]
    ensures AcceptAll(b, ids).value.properties[pid] == b.properties[pid]
    decreases |ids|
  {
    if ids != [] {
      assert HasAccepted(b.offers, pid);
      if b.offers[ids[0]].propertyId == pid {
        assert false;
      }
      var b' := AcceptOne(b, ids[0]);
      assert ids[0] != id;
      AcceptUntouched(b', ids[1..], id, pid);
    }
  }

  /** The accept loop's step when the offer at position `i` is blocked. */
  lemma AcceptBlockedAt(b: Books, ids: seq<nat>, i: nat)
    requires Accepting(b, ids) && i < |ids|
    requires HasAccepted(b.offers, b.offers[ids[i]].propertyId)
    ensures AcceptAll(b, ids[i..]).None?
  {
    assert ids[i..][0] == ids[i];
  }

  /** The accept loop's step when the offer at position `i` goes through. */
  lemma AcceptAdvance(b: Books, ids: seq<nat>, i: nat)
    requires Accepting(b, ids) && i < |ids|
    requires !HasAccepted(b.offers, b.offers[ids[i]].propertyId)
    ensures Accepting(AcceptOne(b, ids[i]), ids)
    ensures AcceptAll(b, ids[i..]) == AcceptAll(AcceptOne(b, ids[i]), ids[i + 1..])
  {
    assert ids[i..][0] == ids[i] && ids[i..][1..] == ids[i + 1..];
  }

  /** `action_refuse_offer` over the offers `ids`. */
  function RefuseAll(offers: seq<Offer>, ids: seq<nat>): (r: seq<Offer>)
    ensures |r| == |offers|
    ensures forall j :: 0 <= j < |r| ==> (r[j].status == Some(Refused) <==> j in ids || offers[j].status == Some(Refused))
    ensures forall j :: 0 <= j < |r| ==> r[j].(status := offers[j].status) == offers[j]
  {
    seq(|offers|, j requires 0 <= j < |offers| => if j in ids then offers[j].(status := Some(Refused)) else offers[j])
  }

  /** Refusing offers keeps the single-accepted rule. */
  lemma RefuseKeepsSingle(offers: seq<Offer>, ids: seq<nat>)
    requires SingleAccepted(offers)
    ensures SingleAccepted(RefuseAll(offers, ids))
  {
    var r := RefuseAll(offers, ids);
    forall i, j | 0 <= i < j < |r| && r[i].status == Some(Accepted) && r[j].status == Some(Accepted)
      ensures r[i].propertyId != r[j].propertyId
    {
      assert r[i] == offers[i] && r[j] == offers[j];
    }
  }

  // ---------------------------------------------------------------- the tables

  /** The `estate.property` table. */
  class PropertyTable {
    var rows: seq<Property>

    constructor (initial: seq<Property>)
      ensures rows == initial
    {
      rows := initial;
    }

    /** `_compute_total_area` over the properties `ids`. */
    method ComputeTotalArea(ids: seq<nat>)
      requires forall k :: 0 <= k < |ids| ==> ids[k] < |rows|
      modifies this
      ensures |rows| == |old(rows)|
      ensures forall j :: 0 <= j < |rows| ==>
                rows[j] == if j in ids then old(rows)[j].(totalArea := old(rows)[j].livingArea + old(rows)[j].gardenArea)
                           else old(rows)[j]
    {
      for i := 0 to |ids|
        invariant |rows| == |old(rows)|
        invariant forall j :: 0 <= j < |rows| ==>
                    rows[j] == if j in ids[..i] then old(rows)[j].(totalArea := old(rows)[j].livingArea + old(rows)[j].gardenArea)
                               else old(rows)[j]
      {
        var id := ids[i];
        rows := rows[id := rows[id].(totalArea := rows[id].livingArea + rows[id].gardenArea)];
        assert ids[..i + 1] == ids[..i] + [id];
      }
      assert ids[..|ids|] == ids;
    }

    /** `_compute_best_price` over the properties `ids`, with the offer table `offers`. */
    method ComputeBestPrice(ids: seq<nat>, offers: seq<Offer>)
      requires forall k :: 0 <= k < |ids| ==> ids[k] < |rows|
      modifies this
      ensures |rows| == |old(rows)|
      ensures forall j :: 0 <= j < |rows| ==>
                rows[j] == if j in ids then old(rows)[j].(bestPrice := BestPrice(offers, j)) else old(rows)[j]
    {
      for i := 0 to |ids|
        invariant |rows| == |old(rows)|
        invariant forall j :: 0 <= j < |rows| ==>
                    rows[j] == if j in ids[..i] then old(rows)[j].(bestPrice := BestPrice(offers, j)) else old(rows)[j]
      {
        var id := ids[i];
        var prices := OfferPrices(offers, id);
        if prices != [] {
          rows := rows[id := rows[id].(bestPrice := MaxPrice(prices))];
        } else {
          rows := rows[id := rows[id].(bestPrice := 0.0)];
        }
        assert ids[..i + 1] == ids[..i] + [id];
      }
      assert ids[..|ids|] == ids;
    }

    /**
     * Sets the properties `ids` to `target` one by one, raising (`false`, every change undone)
     * at the first one found in `forbidden`.
     */
    method Move(ids: seq<nat>, forbidden: PropertyState, target: PropertyState) returns (ok: bool)
      requires forall k :: 0 <= k < |ids| ==> ids[k] < |rows|
      modifies this
      ensures ok <==> Transition(old(rows), ids, forbidden, target).Some?
      ensures ok ==> rows == Transition(old(rows), ids, forbidden, target).value
      ensures !ok ==> rows == old(rows)
    {
      var rows0 := rows;
      for i := 0 to |ids|
        invariant |rows| == |rows0|
        invariant Transition(rows, ids[i..], forbidden, target) == Transition(rows0, ids, forbidden, target)
      {
        var id := ids[i];
        assert ids[i..][0] == id && ids[i..][1..] == ids[i + 1..];
        if rows[id].state == forbidden {
          rows := rows0;
          return false;
        }
        rows := rows[id := rows[id].(state := target)];
      }
      return true;
    }

    /** `action_set_sold`: a canceled property cannot be sold. */
    method SetSold(ids: seq<nat>) returns (ok: bool)
      requires forall k :: 0 <= k < |ids| ==> ids[k] < |rows|
      modifies this
      ensures ok <==> Transition(old(rows), ids, Canceled, Sold).Some?
      ensures ok ==> rows == Transition(old(rows), ids, Canceled, Sold).value
      ensures !ok ==> rows == old(rows)
    {
      ok := Move(ids, Canceled, Sold);
    }

    /** `action_cancel`: a sold property cannot be canceled. */
    method Cancel(ids: seq<nat>) returns (ok: bool)
      requires forall k :: 0 <= k < |ids| ==> ids[k] < |rows|
      modifies this
      ensures ok <==> Transition(old(rows), ids, Sold, Canceled).Some?
      ensures ok ==> rows == Transition(old(rows), ids, Sold, Canceled).value
      ensures !ok ==> rows == old(rows)
    {
      ok := Move(ids, Sold, Canceled);
    }
  }

  /** The `estate.property.offer` table. */
  class OfferTable {
    var rows: seq<Offer>

    constructor (initial: seq<Offer>)
      ensures rows == initial
    {
      rows := initial;
    }

    /** `_compute_date_deadline` over the offers `ids` on day `today`. */
    method ComputeDateDeadline(ids: seq<nat>, today: Day)
      requires forall k :: 0 <= k < |ids| ==> ids[k] < |rows|
      modifies this
      ensures |rows| == |old(rows)|
      ensures forall j :: 0 <= j < |rows| ==>
                rows[j] == if j in ids then old(rows)[j].(dateDeadline := Some(Deadline(old(rows)[j], today))) else old(rows)[j]
    {
      for i := 0 to |ids|
        invariant |rows| == |old(rows)|
        invariant forall j :: 0 <= j < |rows| ==>
                    rows[j] == if j in ids[..i] then old(rows)[j].(dateDeadline := Some(Deadline(old(rows)[j], today)))
                               else old(rows)[j]
      {
        var id := ids[i];
        var start := if rows[id].createDate.Some? then rows[id].createDate.value else today;
        rows := rows[id := rows[id].(dateDeadline := Some(start + rows[id].validity))];
        assert ids[..i + 1] == ids[..i] + [id];
      }
      assert ids[..|ids|] == ids;
    }

    /** `inverse_date_deadline` over the offers `ids` on day `today`. */
    method InverseDateDeadline(ids: seq<nat>, today: Day)
      requires forall k :: 0 <= k < |ids| ==> ids[k] < |rows|
      modifies this
      ensures |rows| == |old(rows)|
      ensures forall j :: 0 <= j < |rows| ==>
                rows[j] == if j in ids then old(rows)[j].(validity := ValidityFor(old(rows)[j], today)) else old(rows)[j]
    {
      for i := 0 to |ids|
        invariant |rows| == |old(rows)|
        invariant forall j :: 0 <= j < |rows| ==>
                    rows[j] == if j in ids[..i] then old(rows)[j].(validity := ValidityFor(old(rows)[j], today))
                               else old(rows)[j]
      {
        var id := ids[i];
        var start := if rows[id].createDate.Some? then rows[id].createDate.value else today;
        var validity := if rows[id].dateDeadline.Some? then rows[id].dateDeadline.value - start else 7;
        rows := rows[id := rows[id].(validity := validity)];
        assert ids[..i + 1] == ids[..i] + [id];
      }
      assert ids[..|ids|] == ids;
    }

    /**
     * `action_accept_offer` over the offers `ids`, writing the sale into `properties`;
     * `false` (every change undone) when an offer's property already has an accepted offer.
     */
    method AcceptOffer(ids: seq<nat>, properties: PropertyTable) returns (ok: bool)
      requires Accepting(Books(properties.rows, rows), ids)
      modifies this, properties
      ensures ok <==> AcceptAll(Books(old(properties.rows), old(rows)), ids).Some?
      ensures ok ==> rows == AcceptAll(Books(old(properties.rows), old(rows)), ids).value.offers
      ensures ok ==> properties.rows == AcceptAll(Books(old(properties.rows), old(rows)), ids).value.properties
      ensures !ok ==> rows == old(rows) && properties.rows == old(properties.rows)
    {
      var rows0, properties0 := rows, properties.rows;
      ghost var goal := AcceptAll(Books(properties0, rows0), ids);
      for i := 0 to |ids|
        invariant Accepting(Books(properties.rows, rows), ids)
        invariant AcceptAll(Books(properties.rows, rows), ids[i..]) == goal
      {
        ghost var b := Books(properties.rows, rows);
        var id := ids[i];
        var o := rows[id];
        if FindFirst(rows, AcceptedOn(o.propertyId)).Some? {
          AcceptBlockedAt(b, ids, i);
          rows, properties.rows := rows0, properties0;
          return false;
        }
        AcceptAdvance(b, ids, i);
        rows := rows[id := o.(status := Some(Accepted))];
        properties.rows := properties.rows[o.propertyId := properties.rows[o.propertyId].(sellingPrice := o.price, buyerId := Some(o.partnerId))];
        assert rows == AcceptOne(b, id).offers && properties.rows == AcceptOne(b, id).properties;
      }
      return true;
    }

    /** `action_refuse_offer` over the offers `ids`; no property changes. */
    method RefuseOffer(ids: seq<nat>)
      requires forall k :: 0 <= k < |ids| ==> ids[k] < |rows|
      modifies this
      ensures rows == RefuseAll(old(rows), ids)
    {
      for i := 0 to |ids|
        invariant rows == RefuseAll(old(rows), ids[..i])
      {
        var id := ids[i];
        assert ids[..i + 1] == ids[..i] + [id];
        rows := rows[id := rows[id].(status := Some(Refused))];
      }
      assert ids[..|ids|] == ids;
    }
  }
}
