/**
 * The renewal message log (custom_addons/property_renewal/models/renewal_message.py): the
 * owner's reply to a renewal message moves the record between three states, and entering a
 * property tag in the form fills in the listing, its RM, the owner's phone and the owner's
 * name cut down to its honorific.
 */
module Renewal {
  import opened Wrappers
  import opened Text
  import opened Tables
  import opened Listings

  /** The entries of the `event_type` selection. */
  datatype EventType = ClickedSeeLead | NotInterestedInSeeingLead | NoRmSupport | WantsRenewal

  /** The entries of the `state` selection. */
  datatype RenewalState = PendingResponse | Responded | OutOfFunnel

  /** `_onchange_event_type`: the state an event (or no event) puts the record in. */
  function EventState(e: Option<EventType>): (s: RenewalState)
    ensures s == OutOfFunnel <==> e == Some(NotInterestedInSeeingLead) || e == Some(NoRmSupport)
    ensures s == Responded <==> e == Some(WantsRenewal) || e == Some(ClickedSeeLead)
    ensures e.None? ==> s == PendingResponse
  {
    if e == Some(NotInterestedInSeeingLead) || e == Some(NoRmSupport) then OutOfFunnel
    else if e == Some(WantsRenewal) || e == Some(ClickedSeeLead) then Responded
    else PendingResponse
  }

  // ---------------------------------------------------------------- owner name

  /** `h + full.split(h)[-1]`, for an honorific the name contains. */
  function FromLastHonorific(full: string, h: string): (r: string)
    requires h != [] && Contains(full, h)
    ensures |r| <= |full| && r == full[|full| - |r|..]
    ensures |h| <= |r| && r[..|h|] == h && !Contains(r[|h|..], h)
  {
    AfterLastFinds(full, h);
    var t := AfterLast(full, h).value;
    AfterLastPreceded(full, h);
    AfterLastIsLast(full, h);
    assert (h + t)[|h|..] == t;
    h + t
  }

  /**
   * The owner name the tag onchange stores: the text from the last occurrence of the first
   * honorific (in the order Mr., Ms., Mrs.) that the name contains, or the whole name.
   */
  function OwnerName(full: string): (r: string)
    ensures |r| <= |full| && r == full[|full| - |r|..]
    ensures Contains(full, "Mr. ") ==> |r| >= 4 && r[..4] == "Mr. " && !Contains(r[4..], "Mr. ")
    ensures !Contains(full, "Mr. ") && Contains(full, "Ms. ") ==>
              |r| >= 4 && r[..4] == "Ms. " && !Contains(r[4..], "Ms. ")
    ensures !Contains(full, "Mr. ") && !Contains(full, "Ms. ") && Contains(full, "Mrs. ") ==>
              |r| >= 5 && r[..5] == "Mrs. " && !Contains(r[5..], "Mrs. ")
    ensures !Contains(full, "Mr. ") && !Contains(full, "Ms. ") && !Contains(full, "Mrs. ") ==> r == full
  {
    if Contains(full, "Mr. ") then FromLastHonorific(full, "Mr. ")
    else if Contains(full, "Ms. ") then FromLastHonorific(full, "Ms. ")
    else if Contains(full, "Mrs. ") then FromLastHonorific(full, "Mrs. ")
    else full
  }

  // ---------------------------------------------------------------- the form

  /** The domain `[('tag', '=', tag)]` on `property.listing`. */
  function TagIs(tag: string): Listing -> bool {
    (l: Listing) => l.tag == Some(tag)
  }

  /** The warning the form shows when no listing carries the tag. */
  datatype Warning = Warning(title: string, message: string)

  const NotFound := Warning("Not Found", "No property found with the given tag.")

  /** A `renewal.message` being edited in the form view; `eventTimestamp` is a timestamp. */
  class RenewalForm {
    var propertyTag: Option<string>
    var propertyId: Option<nat>
    var assignedRmId: Option<nat>
    var ownerName: Option<string>
    var ownerPhone: Option<string>
    var eventType: Option<EventType>
    var eventTimestamp: int
    var state: RenewalState

    /** A new record at time `now`: the timestamp defaults to `now` and the state to pending. */
    constructor (now: int)
      ensures propertyTag.None? && propertyId.None? && assignedRmId.None?
      ensures ownerName.None? && ownerPhone.None? && eventType.None?
      ensures eventTimestamp == now && state == PendingResponse
    {
      propertyTag := None;
      propertyId := None;
      assignedRmId := None;
      ownerName := None;
      ownerPhone := None;
      eventType := None;
      eventTimestamp := now;
      state := PendingResponse;
    }

    /** `_onchange_event_type` */
    method OnchangeEventType()
      modifies this
      ensures state == EventState(eventType)
      ensures eventType == old(eventType) && propertyTag == old(propertyTag) && propertyId == old(propertyId)
      ensures assignedRmId == old(assignedRmId) && ownerName == old(ownerName) && ownerPhone == old(ownerPhone)
      ensures eventTimestamp == old(eventTimestamp)
    {
      if eventType == Some(NotInterestedInSeeingLead) || eventType == Some(NoRmSupport) {
        state := OutOfFunnel;
      } else if eventType == Some(WantsRenewal) || eventType == Some(ClickedSeeLead) {
        state := Responded;
      } else {
        state := PendingResponse;
      }
    }

    /**
     * `_onchange_property_tag` over the listing table `listings`. An empty tag changes
     * nothing; a tag some listing carries copies the first such listing, its RM, its phone
     * and the owner name; an unknown tag clears them and returns the warning.
     */
    method OnchangePropertyTag(listings: seq<Listing>) returns (warning: Option<Warning>)
      modifies this
      ensures propertyTag == old(propertyTag) && eventType == old(eventType) && state == old(state)
      ensures eventTimestamp == old(eventTimestamp)
      ensures propertyTag.None? || propertyTag.value == [] ==>
                warning.None? && propertyId == old(propertyId) && assignedRmId == old(assignedRmId)
                && ownerName == old(ownerName) && ownerPhone == old(ownerPhone)
      ensures propertyTag.Some? && propertyTag.value != [] && FindFirst(listings, TagIs(propertyTag.value)).Some? ==>
                var i := FindFirst(listings, TagIs(propertyTag.value)).value;
                && warning.None? && propertyId == Some(i) && assignedRmId == listings[i].rmId
                && ownerPhone == listings[i].phone && ownerName == Some(OwnerName(listings[i].name))
      ensures propertyTag.Some? && propertyTag.value != [] && FindFirst(listings, TagIs(propertyTag.value)).None? ==>
                warning == Some(NotFound) && propertyId.None? && assignedRmId.None?
                && ownerName == Some("") && ownerPhone == Some("")
    {
      warning := None;
      if propertyTag.Some? && propertyTag.value != [] {
        var found := FindFirst(listings, TagIs(propertyTag.value));
        if found.Some? {
          var listing := listings[found.value];
          propertyId := found;
          assignedRmId := listing.rmId;
          ownerPhone := listing.phone;
          var full := listing.name;
          var extracted := full;
          if Contains(full, "Mr. ") {
            extracted := FromLastHonorific(full, "Mr. ");
          } else if Contains(full, "Ms. ") {
            extracted := FromLastHonorific(full, "Ms. ");
          } else if Contains(full, "Mrs. ") {
            extracted := FromLastHonorific(full, "Mrs. ");
          }
          ownerName := Some(extracted);
        } else {
          propertyId := None;
          assignedRmId := None;
          ownerName := Some("");
          ownerPhone := Some("");
          warning := Some(NotFound);
        }
      }
    }
  }
}
