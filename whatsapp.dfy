/**
 * Replies to the WhatsApp follow-up messages (custom_addons/leads/models/whatsapp_response.py):
 * the six reply keys, their positive/neutral classification, the lead fields a reply mirrors,
 * the processing flag, and the form's onchange that copies the lead's phone.
 * A reply's id is its index in the `whatsapp.response` table; its lead is an index into the
 * `lead.score` table.
 */
module WhatsApp {
  import opened Wrappers
  import opened Leads

  /** The six entries of the `response` selection. */
  datatype ResponseKind = YesInterested | Reschedule | NoReschedule | RescheduleVisit | LikedProperty | MoreOptions

  function ResponseKey(k: ResponseKind): string {
    match k
    case YesInterested => "yes_interested"
    case Reschedule => "reschedule"
    case NoReschedule => "no_reschedule"
    case RescheduleVisit => "reschedule_visit"
    case LikedProperty => "liked_property"
    case MoreOptions => "more_options"
  }

  const AllResponses: seq<ResponseKind> :=
    [YesInterested, Reschedule, NoReschedule, RescheduleVisit, LikedProperty, MoreOptions]

  /** The reply stored under key `s`; `None` is the ValueError the selection raises. */
  function ResponseOfKey(s: string): (r: Option<ResponseKind>)
    ensures r.Some? ==> ResponseKey(r.value) == s
    ensures r.None? ==> forall k :: ResponseKey(k) != s
  {
    if s == "yes_interested" then Some(YesInterested)
    else if s == "reschedule" then Some(Reschedule)
    else if s == "no_reschedule" then Some(NoReschedule)
    else if s == "reschedule_visit" then Some(RescheduleVisit)
    else if s == "liked_property" then Some(LikedProperty)
    else if s == "more_options" then Some(MoreOptions)
    else None
  }

  /** Every reply's key converts back to it: no two replies share a key. */
  lemma ResponseKeyRoundTrip(k: ResponseKind)
    ensures ResponseOfKey(ResponseKey(k)) == Some(k)
  {
    var r := ResponseOfKey(ResponseKey(k));
    assert |ResponseKey(r.value)| == |ResponseKey(k)| && ResponseKey(r.value)[0] == ResponseKey(k)[0];
  }

  datatype ResponseType = Positive | Neutral

  /** The keys `_compute_response_type` treats as positive. */
  const PositiveResponses: seq<string> := ["yes_interested", "liked_property"]

  /** `_compute_response_type` for one reply: membership of its key in the positive keys. */
  function Classify(k: ResponseKind): (t: ResponseType)
    ensures t == Positive <==> k == YesInterested || k == LikedProperty
  {
    if ResponseKey(k) in PositiveResponses then Positive else Neutral
  }

  // ---------------------------------------------------------------- the record

  /**
   * The stored related fields of a reply: the linked lead's RM, property address, BHK,
   * predicted score, name, project name and current status.
   */
  datatype LeadMirror = LeadMirror(
    rmId: Option<nat>,
    propertyAddress: Option<string>,
    bhk: Option<string>,
    predictedScore: real,
    leadName: Option<string>,
    projectName: Option<string>,
    currentStatus: Status)

  /** A descriptive text field of a lead; an absent key is an unset field. */
  function Detail(l: Lead, field: string): Option<string> {
    if field in l.details then l.details[field] else None
  }

  /** The values the related fields take from `l`. */
  function Mirror(l: Lead): (m: LeadMirror)
    ensures m.rmId == l.rmId && m.leadName == l.name && m.currentStatus == l.currentStatus
    ensures m.predictedScore == l.predictedScore
    ensures m.propertyAddress == Detail(l, "property_address") && m.bhk == Detail(l, "bhk")
    ensures m.projectName == Detail(l, "project_name")
  {
    LeadMirror(l.rmId, Detail(l, "property_address"), Detail(l, "bhk"), l.predictedScore,
               l.name, Detail(l, "project_name"), l.currentStatus)
  }

  /** A stored `whatsapp.response`; `responseDate` is a timestamp. */
  datatype Response = Response(
    leadId: nat,
    number: string,
    response: ResponseKind,
    mirror: LeadMirror,
    responseType: ResponseType,
    responseDate: int,
    isProcessed: bool,
    notes: Option<string>)

  /** The values handed to `create`; a missing key is `None`. */
  datatype ResponseVals = ResponseVals(
    leadId: Option<nat>,
    number: Option<string>,
    response: Option<string>,
    responseDate: Option<int>,
    isProcessed: Option<bool>,
    notes: Option<string>)

  /**
   * What a stored reply satisfies: its lead exists, the related fields
   * mirror the lead and the stored classification matches the reply.
   */
  predicate Consistent(r: Response, leads: seq<Lead>) {
    && r.leadId < |leads|
    && r.mirror == Mirror(leads[r.leadId])
    && r.responseType == Classify(r.response)
  }

  /**
   * The reply `create(vals)` stores at time `now`; `None` when a required field (lead,
   * number, reply) is missing, the lead does not exist or the reply is not one of the keys.
   * `response_date` defaults to `now` and `is_processed` to false.
   */
  function NewResponse(v: ResponseVals, leads: seq<Lead>, now: int): (r: Option<Response>)
    ensures r.Some? <==>
              v.leadId.Some? && v.leadId.value < |leads| && v.number.Some?
              && v.response.Some? && ResponseOfKey(v.response.value).Some?
    ensures r.Some? ==>
              && Consistent(r.value, leads)
              && r.value.leadId == v.leadId.value && r.value.number == v.number.value
              && ResponseKey(r.value.response) == v.response.value
              && r.value.responseDate == v.responseDate.GetOr(now)
              && r.value.isProcessed == v.isProcessed.GetOr(false)
              && r.value.notes == v.notes
  {
    if v.leadId.None? || v.leadId.value >= |leads| || v.number.None?
       || v.response.None? then None
    else match ResponseOfKey(v.response.value)
      case None => None
      case Some(k) =>
        Some(Response(v.leadId.value, v.number.value, k, Mirror(leads[v.leadId.value]), Classify(k),
                      v.responseDate.GetOr(now), v.isProcessed.GetOr(false), v.notes))
  }

  // ---------------------------------------------------------------- table-wide updates

  /** The table after `action_process_response` on the records `ids`. */
  function Processed(rows: seq<Response>, ids: seq<nat>): (r: seq<Response>)
    ensures |r| == |rows|
    ensures forall j :: 0 <= j < |r| ==> (r[j].isProcessed <==> j in ids || rows[j].isProcessed)
    ensures forall j :: 0 <= j < |r| ==> r[j].(isProcessed := rows[j].isProcessed) == rows[j]
  {
    seq(|rows|, j requires 0 <= j < |rows| => if j in ids then rows[j].(isProcessed := true) else rows[j])
  }

  /** Processing the same replies again changes nothing. */
  lemma ProcessedIdempotent(rows: seq<Response>, ids: seq<nat>)
    ensures Processed(Processed(rows, ids), ids) == Processed(rows, ids)
  {
    var once := Processed(rows, ids);
    var twice := Processed(once, ids);
    forall j | 0 <= j < |rows| ensures twice[j] == once[j] {
      if j in ids {
        assert once[j].isProcessed;
      }
    }
  }

  /** The table after `_compute_response_type` on the records `ids`. */
  function Classified(rows: seq<Response>, ids: seq<nat>): (r: seq<Response>)
    ensures |r| == |rows|
    ensures forall j :: 0 <= j < |r| && j in ids ==>
              (r[j].responseType == Positive <==> rows[j].response in {YesInterested, LikedProperty})
    ensures forall j :: 0 <= j < |r| ==> r[j].(responseType := rows[j].responseType) == rows[j]
  {
    seq(|rows|, j requires 0 <= j < |rows| =>
      if j in ids then rows[j].(responseType := Classify(rows[j].response)) else rows[j])
  }

  lemma ClassifiedStep(rows: seq<Response>, ids: seq<nat>, id: nat)
    requires id < |rows|
    ensures Classified(rows, ids + [id])
            == Classified(rows, ids)[id := Classified(rows, ids)[id].(responseType := Classify(rows[id].response))]
  {
  }

  lemma ProcessedStep(rows: seq<Response>, ids: seq<nat>, id: nat)
    requires id < |rows|
    ensures Processed(rows, ids + [id]) == Processed(rows, ids)[id := Processed(rows, ids)[id].(isProcessed := true)]
  {
  }

  /** The `whatsapp.response` table. */
  class ResponseTable {
    var rows: seq<Response>

    constructor (initial: seq<Response>)
      ensures rows == initial
    {
      rows := initial;
    }

    predicate Valid(leads: seq<Lead>)
      reads this
    {
      forall j :: 0 <= j < |rows| ==> Consistent(rows[j], leads)
    }

    /** `whatsapp.response.create(vals)` at time `now`; `None` when the create raises. */
    method Create(v: ResponseVals, leads: seq<Lead>, now: int) returns (id: Option<nat>)
      modifies this
      ensures NewResponse(v, leads, now).Some? ==>
                id == Some(|old(rows)|) && rows == old(rows) + [NewResponse(v, leads, now).value]
      ensures NewResponse(v, leads, now).None? ==> id.None? && rows == old(rows)
      ensures old(Valid(leads)) ==> Valid(leads)
    {
      var r := NewResponse(v, leads, now);
      if r.None? {
        return None;
      }
      id := Some(|rows|);
      rows := rows + [r.value];
    }

    /** `_compute_response_type` over the records `ids`. */
    method ComputeResponseType(ids: seq<nat>)
      requires forall k :: 0 <= k < |ids| ==> ids[k] < |rows|
      modifies this
      ensures rows == Classified(old(rows), ids)
    {
      for i := 0 to |ids|
        invariant rows == Classified(old(rows), ids[..i])
      {
        var id := ids[i];
        assert ids[..i + 1] == ids[..i] + [id];
        ClassifiedStep(old(rows), ids[..i], id);
        if ResponseKey(rows[id].response) in PositiveResponses {
          rows := rows[id := rows[id].(responseType := Positive)];
        } else {
          rows := rows[id := rows[id].(responseType := Neutral)];
        }
      }
      assert ids[..|ids|] == ids;
    }

    /** `action_process_response` over the records `ids`. */
    method ProcessResponses(ids: seq<nat>)
      requires forall k :: 0 <= k < |ids| ==> ids[k] < |rows|
      modifies this
      ensures rows == Processed(old(rows), ids)
    {
      for i := 0 to |ids|
        invariant rows == Processed(old(rows), ids[..i])
      {
        var id := ids[i];
        assert ids[..i + 1] == ids[..i] + [id];
        ProcessedStep(old(rows), ids[..i], id);
        rows := rows[id := rows[id].(isProcessed := true)];
      }
      assert ids[..|ids|] == ids;
    }
  }

  /** Classifying keeps a table consistent and makes the classified replies consistent. */
  lemma ClassifiedConsistent(rows: seq<Response>, ids: seq<nat>, leads: seq<Lead>)
    requires forall j :: 0 <= j < |rows| && j !in ids ==> Consistent(rows[j], leads)
    requires forall j :: 0 <= j < |rows| ==>
               rows[j].leadId < |leads| && rows[j].mirror == Mirror(leads[rows[j].leadId])
    ensures forall j :: 0 <= j < |rows| ==> Consistent(Classified(rows, ids)[j], leads)
  {
  }

  /** Processing keeps a consistent table consistent. */
  lemma ProcessedConsistent(rows: seq<Response>, ids: seq<nat>, leads: seq<Lead>)
    requires forall j :: 0 <= j < |rows| ==> Consistent(rows[j], leads)
    ensures forall j :: 0 <= j < |Processed(rows, ids)| ==> Consistent(Processed(rows, ids)[j], leads)
  {
  }

  // ---------------------------------------------------------------- the form

  /** The reply being edited in the form view, before it is saved. */
  class ResponseForm {
    var leadId: Option<nat>
    var number: Option<string>
    var response: Option<string>
    var notes: Option<string>

    constructor ()
      ensures leadId.None? && number.None? && response.None? && notes.None?
    {
      leadId := None;
      number := None;
      response := None;
      notes := None;
    }

    /** `_onchange_lead_id`: a chosen lead's standardized phone becomes the number. */
    method OnchangeLeadId(leads: seq<Lead>)
      requires leadId.None? || leadId.value < |leads|
      modifies this
      ensures leadId == old(leadId) && response == old(response) && notes == old(notes)
      ensures leadId.Some? ==> number == leads[leadId.value].phone
      ensures leadId.None? ==> number == old(number)
    {
      if leadId.Some? {
        number := leads[leadId.value].phone;
      }
    }
  }
}
