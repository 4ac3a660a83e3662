/**
 * The scored lead (custom_addons/leads/models/lead_score.py): its two status selections,
 * the stored computed follow-up date with its inverse, the "actionable today" flag and the
 * status onchange, and the `lead.score` table with the validation `create` and `write` apply.
 *
 * The descriptive text fields of a lead (project name, BHK, price range and the like) have no
 * behaviour; they are kept together in `details`, keyed by field name, where a missing key or
 * `None` is an unset field.
 */
module Leads {
  import opened Wrappers
  import opened Calendar

  /** The sixteen entries of the `current_status` and `state` selections. */
  datatype Status =
    | Busy | FreshLead | Ringing | CallBackLater | SiteVisitScheduled | OptionNotMatchingRequirements
    | DetailsSharedOfProperty | NoRequirements | DetailsSharedAndInterestedForSiteVisit | SwitchedOff
    | RequirementClosed | PropertySoldOut | Rescheduled | BudgetNotSufficient | NumberNotInUse | Other

  /** The key a status is stored under. */
  function Key(st: Status): string {
    match st
    case Busy => "busy"
    case FreshLead => "lead"
    case Ringing => "ringing"
    case CallBackLater => "call_back_later"
    case SiteVisitScheduled => "site_visit_scheduled"
    case OptionNotMatchingRequirements => "option_not_matching_requirements"
    case DetailsSharedOfProperty => "details_shared_of_property"
    case NoRequirements => "no_requirements"
    case DetailsSharedAndInterestedForSiteVisit => "details_shared_and_interested_for_site_visit"
    case SwitchedOff => "switched_off"
    case RequirementClosed => "requirement_closed"
    case PropertySoldOut => "property_sold_out"
    case Rescheduled => "rescheduled"
    case BudgetNotSufficient => "budget_not_sufficient"
    case NumberNotInUse => "number_not_in_use_wrong_number"
    case Other => "other"
  }

  /** The selection's entries, in declaration order. */
  const AllStatuses: seq<Status> := [
    Busy, FreshLead, Ringing, CallBackLater, SiteVisitScheduled, OptionNotMatchingRequirements,
    DetailsSharedOfProperty, NoRequirements, DetailsSharedAndInterestedForSiteVisit, SwitchedOff,
    RequirementClosed, PropertySoldOut, Rescheduled, BudgetNotSufficient, NumberNotInUse, Other]

  /** The first status of `candidates` stored under `s`. */
  function FindStatus(candidates: seq<Status>, s: string): (r: Option<Status>)
    ensures r.Some? ==> r.value in candidates && Key(r.value) == s
    ensures r.None? ==> forall st :: st in candidates ==> Key(st) != s
  {
    if candidates == [] then None
    else if Key(candidates[0]) == s then Some(candidates[0])
    else FindStatus(candidates[1..], s)
  }

  /** The selection fields' conversion of a stored value; `None` is the ValueError they raise. */
  function StatusOfKey(s: string): (r: Option<Status>)
    ensures r.Some? ==> Key(r.value) == s
  {
    FindStatus(AllStatuses, s)
  }

  /** No two statuses share a key. */
  lemma KeyInjective(a: Status, b: Status)
    requires Key(a) == Key(b)
    ensures a == b
  {
    // no two keys share both their length and their first letter
    assert |Key(a)| == |Key(b)| && Key(a)[0] == Key(b)[0];
  }

  /** Every status's key converts back to it. */
  lemma StatusKeyRoundTrip(st: Status)
    ensures StatusOfKey(Key(st)) == Some(st)
  {
    assert st in AllStatuses;
    var r := StatusOfKey(Key(st));
    KeyInjective(r.value, st);
  }

  /** The conversion accepts exactly the sixteen keys. */
  lemma StatusOfKeyAcceptsKeys(s: string)
    ensures StatusOfKey(s).Some? <==> exists st :: Key(st) == s
  {
    if st :| Key(st) == s {
      StatusKeyRoundTrip(st);
    }
  }

  datatype Lead = Lead(
    name: Option<string>,
    rmId: Option<nat>,
    phone: Option<string>,
    predictedScore: real,
    currentStatus: Status,
    state: Status,
    details: map<string, Option<string>>,
    siteVisitDate: Option<Day>,
    nextFollowUp: Option<Day>,
    isActionable: bool)

  /** What the database accepts of a stored lead: the name is NOT NULL. */
  predicate ValidLead(l: Lead) {
    l.name.Some?
  }

  // ---------------------------------------------------------------- computed fields

  function SiteVisitBooked(l: Lead): bool {
    l.currentStatus == SiteVisitScheduled && l.siteVisitDate.Some?
  }

  /** `_compute_next_follow_up_date` for one lead: the value it stores. */
  function FollowUp(l: Lead, today: Day): (r: Option<Day>)
    ensures r.Some?
    ensures SiteVisitBooked(l) ==> r == Some(l.siteVisitDate.value + 1)
    ensures !SiteVisitBooked(l) && l.nextFollowUp.None? ==> r == Some(today)
    ensures r != l.nextFollowUp ==> SiteVisitBooked(l) || l.nextFollowUp.None?
  {
    if SiteVisitBooked(l) then Some(l.siteVisitDate.value + 1)
    else if l.nextFollowUp.None? then Some(today)
    else l.nextFollowUp
  }

  function WithFollowUp(l: Lead, today: Day): Lead {
    l.(nextFollowUp := FollowUp(l, today))
  }

  /**
   * `_inverse_next_follow_up_date` for one lead; `None` when the status is
   * site_visit_scheduled and there is no follow-up date to subtract a day from.
   */
  function Inverse(l: Lead): (r: Option<Lead>)
    ensures r.None? <==> l.currentStatus == SiteVisitScheduled && l.nextFollowUp.None?
    ensures r.Some? && r.value != l ==>
              l.currentStatus == SiteVisitScheduled && l.nextFollowUp.Some?
              && r.value == l.(siteVisitDate := Some(l.nextFollowUp.value - 1))
  {
    if l.currentStatus == SiteVisitScheduled then
      if l.nextFollowUp.None? then None
      else Some(l.(siteVisitDate := Some(l.nextFollowUp.value - 1)))
    else Some(l)
  }

  /** `_compute_is_actionable_today` for one follow-up date, against the server's `date.today()`. */
  function Actionable(next: Option<Day>, serverToday: Day): bool {
    next.None? || next.value <= serverToday
  }

  /** `_onchange_state_set_follow_up` on the form's lead. */
  function OnchangeStatus(l: Lead, today: Day): (r: Lead)
    ensures r.currentStatus == l.currentStatus
    ensures l.currentStatus != SiteVisitScheduled ==> r.nextFollowUp == Some(today)
    ensures l.currentStatus == SiteVisitScheduled ==> r == l
    ensures r == l || r == l.(nextFollowUp := Some(today))
  {
    if l.currentStatus != SiteVisitScheduled then l.(nextFollowUp := Some(today)) else l
  }

  /**
   * The two readings of "today" the lead's computes use: `fields.Date.context_today`, the
   * date in the user's time zone, for the follow-up date, and `date.today()`, the server's
   * date (UTC under Odoo), for the actionable flag. East of UTC the user's date runs ahead
   * of the server's for part of the day.
   */
  datatype Clocks = Clocks(user: Day, server: Day)

  /** The follow-up date and the actionable flag after the stored computes run. */
  function Refreshed(l: Lead, today: Clocks): Lead
  {
    var next := FollowUp(l, today.user);
    l.(nextFollowUp := next, isActionable := Actionable(next, today.server))
  }

  /** Computing the follow-up date twice stores what computing it once did. */
  lemma FollowUpIdempotent(l: Lead, today: Day)
    ensures WithFollowUp(WithFollowUp(l, today), today) == WithFollowUp(l, today)
  {
  }

  /** The inverse applied twice changes nothing more. */
  lemma InverseIdempotent(l: Lead)
    requires Inverse(l).Some?
    ensures Inverse(Inverse(l).value) == Inverse(l)
  {
  }

  /**
   * Compute, then inverse: with a site visit booked, the follow-up date is the day after
   * it, and the inverse recovers the same site-visit date, so it changes nothing.
   */
  lemma ComputeThenInverse(l: Lead, today: Day)
    requires SiteVisitBooked(l)
    ensures WithFollowUp(l, today).nextFollowUp == Some(l.siteVisitDate.value + 1)
    ensures Inverse(WithFollowUp(l, today)) == Some(WithFollowUp(l, today))
  {
  }

  /**
   * Inverse, then compute: a follow-up date set by hand on a lead with a scheduled visit
   * moves the visit to the day before, and recomputing gives back the date that was set.
   */
  lemma InverseThenCompute(l: Lead, today: Day)
    requires l.currentStatus == SiteVisitScheduled && l.nextFollowUp.Some?
    ensures Inverse(l).Some? && Inverse(l).value.siteVisitDate == Some(l.nextFollowUp.value - 1)
    ensures FollowUp(Inverse(l).value, today) == l.nextFollowUp
  {
  }

  /**
   * After a status change away from site_visit_scheduled, the lead is actionable exactly
   * when the user's date is not ahead of the server's: in the hours where the user's day
   * has already turned, the follow-up set to "today" lies in the server's future.
   */
  lemma OnchangeMakesActionable(l: Lead, today: Clocks)
    requires l.currentStatus != SiteVisitScheduled
    ensures Actionable(OnchangeStatus(l, today.user).nextFollowUp, today.server) <==> today.user <= today.server
  {
  }

  // ---------------------------------------------------------------- create and write

  /**
   * The values handed to `create` or `write`. `state`, `rmId` and `siteVisitDate` are `None`
   * when the key is absent (the default applies on create, the field is kept on write);
   * the detail map is applied key by key.
   */
  datatype LeadVals = LeadVals(
    name: Option<string>,
    phone: Option<string>,
    predictedScore: real,
    currentStatus: string,
    state: Option<string>,
    rmId: Option<nat>,
    siteVisitDate: Option<Day>,
    details: map<string, Option<string>>)

  /** The record as `create(vals)` stores it, before the stored computes. */
  function Created(v: LeadVals, current: Status, state: Status): Lead {
    Lead(v.name, v.rmId, v.phone, v.predictedScore, current, state, v.details, v.siteVisitDate, None, false)
  }

  /**
   * The record `create(vals)` stores, after the stored computes; `None` when a status is not
   * one of the keys or the name is missing, and the create raises.
   */
  function NewLead(v: LeadVals, today: Clocks): (r: Option<Lead>)
    ensures r.Some? <==>
              v.name.Some? && StatusOfKey(v.currentStatus).Some? && (v.state.None? || StatusOfKey(v.state.value).Some?)
    ensures r.Some? ==>
              && ValidLead(r.value)
              && r.value.name == v.name && r.value.phone == v.phone && r.value.rmId == v.rmId
              && r.value.predictedScore == v.predictedScore && r.value.details == v.details
              && Key(r.value.currentStatus) == v.currentStatus
              && (if v.state.Some? then Key(r.value.state) == v.state.value else r.value.state == FreshLead)
              && r.value.siteVisitDate == v.siteVisitDate
              && r.value.nextFollowUp ==
                   (if r.value.currentStatus == SiteVisitScheduled && v.siteVisitDate.Some?
                    then Some(v.siteVisitDate.value + 1) else Some(today.user))
              && (r.value.isActionable <==> r.value.nextFollowUp.value <= today.server)
  {
    // an absent `state` takes the field default 'lead'
    var state := if v.state.Some? then StatusOfKey(v.state.value) else Some(FreshLead);
    match (StatusOfKey(v.currentStatus), state)
    case (Some(current), Some(state)) =>
      if v.name.None? then None else Some(Refreshed(Created(v, current, state), today))
    case _ => None
  }

  /** The record as `write(vals)` leaves it, before the stored computes. */
  function Overwritten(l: Lead, v: LeadVals, current: Status, state: Status): Lead {
    l.(name := v.name, phone := v.phone, predictedScore := v.predictedScore,
       currentStatus := current, state := state,
       rmId := if v.rmId.Some? then v.rmId else l.rmId,
       siteVisitDate := if v.siteVisitDate.Some? then v.siteVisitDate else l.siteVisitDate,
       details := l.details + v.details)
  }

  /**
   * The record `write(vals)` leaves, after the stored computes; `None` when the write raises.
   * Keys absent from `vals` keep their values.
   */
  function Written(l: Lead, v: LeadVals, today: Clocks): (r: Option<Lead>)
    ensures r.Some? <==>
              v.name.Some? && StatusOfKey(v.currentStatus).Some? && (v.state.None? || StatusOfKey(v.state.value).Some?)
    ensures r.Some? ==>
              && ValidLead(r.value)
              && r.value.name == v.name && r.value.phone == v.phone
              && r.value.predictedScore == v.predictedScore
              && Key(r.value.currentStatus) == v.currentStatus
              && (v.state.Some? ==> Key(r.value.state) == v.state.value)
              && (v.state.None? ==> r.value.state == l.state)
              && r.value.rmId == (if v.rmId.Some? then v.rmId else l.rmId)
              && r.value.siteVisitDate == (if v.siteVisitDate.Some? then v.siteVisitDate else l.siteVisitDate)
              && (forall f :: f in v.details ==> f in r.value.details && r.value.details[f] == v.details[f])
              && (forall f :: f in l.details && f !in v.details ==> f in r.value.details && r.value.details[f] == l.details[f])
              && r.value.details.Keys == l.details.Keys + v.details.Keys
              && r.value.nextFollowUp ==
                   (if r.value.currentStatus == SiteVisitScheduled && r.value.siteVisitDate.Some?
                    then Some(r.value.siteVisitDate.value + 1)
                    else if l.nextFollowUp.None? then Some(today.user) else l.nextFollowUp)
              && (r.value.isActionable <==> r.value.nextFollowUp.value <= today.server)
  {
    var state := if v.state.Some? then StatusOfKey(v.state.value) else Some(l.state);
    match (StatusOfKey(v.currentStatus), state)
    case (Some(current), Some(st)) =>
      if v.name.None? then None else Some(Refreshed(Overwritten(l, v, current, st), today))
    case _ => None
  }

  /** The `lead.score` table; a record's id is its index. */
  class LeadTable {
    var rows: seq<Lead>

    constructor (initial: seq<Lead>)
      ensures rows == initial
    {
      rows := initial;
    }

    predicate Valid()
      reads this
    {
      forall j :: 0 <= j < |rows| ==> ValidLead(rows[j])
    }

    /** `lead.score.create(vals)`; `None` when the database or a selection refuses the values. */
    method Create(v: LeadVals, today: Clocks) returns (id: Option<nat>)
      modifies this
      ensures NewLead(v, today).Some? ==> id == Some(|old(rows)|) && rows == old(rows) + [NewLead(v, today).value]
      ensures NewLead(v, today).None? ==> id.None? && rows == old(rows)
      ensures old(Valid()) ==> Valid()
    {
      var l := NewLead(v, today);
      if l.None? {
        return None;
      }
      id := Some(|rows|);
      rows := rows + [l.value];
    }

    /** `lead.write(vals)` on one record; `false` when a selection refuses the values. */
    method Write(id: nat, v: LeadVals, today: Clocks) returns (ok: bool)
      requires id < |rows|
      modifies this
      ensures ok <==> Written(old(rows)[id], v, today).Some?
      ensures ok ==> rows == old(rows)[id := Written(old(rows)[id], v, today).value]
      ensures !ok ==> rows == old(rows)
      ensures old(Valid()) ==> Valid()
    {
      var l := Written(rows[id], v, today);
      if l.None? {
        return false;
      }
      rows := rows[id := l.value];
      return true;
    }

    /** `_compute_next_follow_up_date` over the records `ids`. */
    method ComputeNextFollowUp(ids: seq<nat>, today: Day)
      requires forall k :: 0 <= k < |ids| ==> ids[k] < |rows|
      modifies this
      ensures |rows| == |old(rows)|
      ensures forall j :: 0 <= j < |rows| ==>
                rows[j] == if j in ids then WithFollowUp(old(rows)[j], today) else old(rows)[j]
    {
      for i := 0 to |ids|
        invariant |rows| == |old(rows)|
        invariant forall j :: 0 <= j < |rows| ==>
                    rows[j] == if j in ids[..i] then WithFollowUp(old(rows)[j], today) else old(rows)[j]
      {
        var id := ids[i];
        FollowUpIdempotent(old(rows)[id], today);
        var lead := rows[id];
        if lead.currentStatus == SiteVisitScheduled && lead.siteVisitDate.Some? {
          rows := rows[id := lead.(nextFollowUp := Some(lead.siteVisitDate.value + 1))];
        } else if lead.nextFollowUp.None? {
          rows := rows[id := lead.(nextFollowUp := Some(today))];
        }
        assert ids[..i + 1] == ids[..i] + [id];
      }
      assert ids[..|ids|] == ids;
    }

    /**
     * `_inverse_next_follow_up_date` over the records `ids`. It stops at the first record
     * whose status is site_visit_scheduled but whose follow-up date is unset (the
     * subtraction raises); `failedAt` is that position in `ids`.
     */
    method InverseNextFollowUp(ids: seq<nat>) returns (failedAt: Option<nat>)
      requires forall k :: 0 <= k < |ids| ==> ids[k] < |rows|
      modifies this
      ensures failedAt.None? <==> forall k :: 0 <= k < |ids| ==> Inverse(old(rows)[ids[k]]).Some?
      ensures failedAt.Some? ==>
                failedAt.value < |ids| && Inverse(old(rows)[ids[failedAt.value]]).None?
                && forall k :: 0 <= k < failedAt.value ==> Inverse(old(rows)[ids[k]]).Some?
      ensures |rows| == |old(rows)|
      ensures forall j :: 0 <= j < |rows| ==>
                rows[j] == if j in ids[..(if failedAt.Some? then failedAt.value else |ids|)]
                           then Inverse(old(rows)[j]).value else old(rows)[j]
    {
      for i := 0 to |ids|
        invariant |rows| == |old(rows)|
        invariant forall k :: 0 <= k < i ==> Inverse(old(rows)[ids[k]]).Some?
        invariant forall j :: 0 <= j < |rows| ==>
                    rows[j] == if j in ids[..i] then Inverse(old(rows)[j]).value else old(rows)[j]
      {
        var id := ids[i];
        var lead := rows[id];
        if lead.currentStatus == SiteVisitScheduled {
          if lead.nextFollowUp.None? {
            assert Inverse(old(rows)[id]).None? by {
              if id in ids[..i] {
                InverseIdempotent(old(rows)[id]);
              }
            }
            return Some(i);
          }
          rows := rows[id := lead.(siteVisitDate := Some(lead.nextFollowUp.value - 1))];
        }
        if id in ids[..i] {
          InverseIdempotent(old(rows)[id]);
        }
        assert ids[..i + 1] == ids[..i] + [id];
      }
      assert ids[..|ids|] == ids;
      return None;
    }

    /** `_compute_is_actionable_today` over the records `ids`, on the server's date. */
    method ComputeIsActionable(ids: seq<nat>, serverToday: Day)
      requires forall k :: 0 <= k < |ids| ==> ids[k] < |rows|
      modifies this
      ensures |rows| == |old(rows)|
      ensures forall j :: 0 <= j < |rows| ==>
                rows[j] == if j in ids then old(rows)[j].(isActionable := Actionable(old(rows)[j].nextFollowUp, serverToday))
                           else old(rows)[j]
      ensures forall j :: 0 <= j < |rows| && j in ids ==>
                (rows[j].isActionable <==> rows[j].nextFollowUp.None? || rows[j].nextFollowUp.value <= serverToday)
    {
      for i := 0 to |ids|
        invariant |rows| == |old(rows)|
        invariant forall j :: 0 <= j < |rows| ==>
                    rows[j] == if j in ids[..i] then old(rows)[j].(isActionable := Actionable(old(rows)[j].nextFollowUp, serverToday))
                               else old(rows)[j]
      {
        var id := ids[i];
        var lead := rows[id];
        rows := rows[id := lead.(isActionable := lead.nextFollowUp.None? || lead.nextFollowUp.value <= serverToday)];
        assert ids[..i + 1] == ids[..i] + [id];
      }
      assert ids[..|ids|] == ids;
    }
  }
}
