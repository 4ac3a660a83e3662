/**
 * The BigQuery lead fetch (custom_addons/leads/models/lead_score_bq_wizard.py): the wizard
 * reads the configured project, connects, queries the WhatsApp automation list and upserts
 * one `lead.score` per fetched row, keyed by the standardized phone.
 *
 * The BigQuery service is a value: the exception text connecting or querying raises, if any,
 * and the table the query reads. An exception inside the action rolls the whole
 * transaction back, so a failed run leaves the leads and the wizard as they were.
 */
module BqFetch {
  import opened Wrappers
  import opened Calendar
  import opened Tables
  import opened Users
  import opened Leads

  /**
   * A row of the automation list. The columns the wizard treats specially are fields;
   * the descriptive columns are in `columns`, where an absent key is a NULL.
   */
  datatype BqRow = BqRow(
    customerName: Option<string>,
    phone: Option<string>,
    predictedScore: Option<real>,
    currentStatus: Option<string>,
    assignedRm: Option<string>,
    siteVisitDate: Option<string>,
    columns: map<string, string>)

  /** The configured BigQuery project as the client sees it. */
  datatype BigQueryProject = BigQueryProject(
    connectError: Option<string>,
    queryError: Option<string>,
    table: seq<BqRow>)

  datatype BqError =
    | ProjectNotConfigured
    | ConnectionFailed(reason: string)
    | QueryFailed(reason: string)
    /** `create` or `write` refused the values: a NULL name or a status that is not a key. */
    | RejectedValues
    /** `updateed_count += 1` reads a local variable that was never assigned. */
    | UpdateCounterUnbound

  /** The running totals of the row loop and the table it has written. */
  datatype FetchState = FetchState(leads: seq<Lead>, created: nat, updated: nat)

  // ---------------------------------------------------------------- the query

  /** The query's `WHERE standardized_phone IS NOT NULL`. */
  function QueryRows(table: seq<BqRow>): seq<BqRow> {
    Collect(table, (row: BqRow) => if row.phone.Some? then Some(row) else None)
  }

  /** Every fetched row has a phone. */
  lemma QueryRowsHavePhones(table: seq<BqRow>)
    ensures forall k :: 0 <= k < |QueryRows(table)| ==> QueryRows(table)[k].phone.Some?
  {
    CollectAll(table, (row: BqRow) => if row.phone.Some? then Some(row) else None, (row: BqRow) => row.phone.Some?);
  }

  // ---------------------------------------------------------------- one row

  /** The descriptive fields the fetch fills, each with its column. */
  const BqDetailColumns: seq<(string, string)> := [
    ("project_name", "Project_Name"), ("property_tag", "property_tag"),
    ("property_address", "Property_Address"), ("bhk", "BHK"), ("price_range", "Price_Range_Lacs_Rs"),
    ("carpet_area", "Carpet_Construction_Area"), ("super_built_up_area", "Super_Built_up_Construction_Area"),
    ("property_link", "Property_Link"), ("location", "Location"),
    ("property_on_floor", "Property_On_Floor"), ("property_facing", "Property_Facing"),
    ("furniture_details", "Furniture_Details"), ("age_of_property", "Age_Of_Property"),
    ("parking_details", "Parking_Details"), ("offer_price", "Offer_Price"), ("bathroom", "Bathroom")]

  /** Each field of `columns` set to its column's value, NULL when the column is. */
  function BqDetails(row: BqRow, columns: seq<(string, string)>): map<string, Option<string>> {
    if columns == [] then map[]
    else
      var (field, column) := columns[|columns| - 1];
      BqDetails(row, columns[..|columns| - 1])[field := if column in row.columns then Some(row.columns[column]) else None]
  }

  /** `row.get('current_status') or 'lead'` */
  function StatusText(row: BqRow): string {
    if row.currentStatus.None? || row.currentStatus.value == [] then Key(FreshLead) else row.currentStatus.value
  }

  /** The assigned RM: the first user named exactly `assigned_rm`, when the column is set. */
  function AssignedRm(rm: Option<string>, users: seq<User>): (r: Option<nat>)
    ensures r.Some? ==> rm.Some? && r.value < |users| && users[r.value].name == rm.value
    ensures rm.Some? && rm.value != [] && (exists k :: 0 <= k < |users| && users[k].name == rm.value) ==> r.Some?
  {
    if rm.None? || rm.value == [] then None else FindFirst(users, UserNamed(rm.value))
  }

  /** The site-visit date read as `'%d/%m/%Y'`; an unset or unreadable date leaves the key out. */
  function SiteVisit(s: Option<string>): Option<Day> {
    if s.None? || s.value == [] then None else ParseDate(s.value, DayMonthYear)
  }

  /** The values the loop hands to `create` or `write` for one row; `state` is never among them. */
  function BqVals(row: BqRow, users: seq<User>, columns: seq<(string, string)>): (r: LeadVals)
    ensures r.name == row.customerName && r.phone == row.phone && r.state.None?
  {
    LeadVals(row.customerName, row.phone, row.predictedScore.GetOr(0.0), StatusText(row), None,
             AssignedRm(row.assignedRm, users), SiteVisit(row.siteVisitDate), BqDetails(row, columns))
  }

  /** The values of every fetched row, in fetch order. */
  function ValsOf(rows: seq<BqRow>, users: seq<User>, columns: seq<(string, string)>): (r: seq<LeadVals>)
    ensures |r| == |rows|
  {
    seq(|rows|, i requires 0 <= i < |rows| => BqVals(rows[i], users, columns))
  }

  /** Values `create` accepts: a name, and status keys; `write` accepts the same ones. */
  predicate Acceptable(v: LeadVals) {
    v.name.Some? && StatusOfKey(v.currentStatus).Some? && (v.state.None? || StatusOfKey(v.state.value).Some?)
  }

  /** A row whose values the lead table accepts. */
  predicate RowAccepted(row: BqRow) {
    row.customerName.Some? && StatusOfKey(StatusText(row)).Some?
  }

  /**
   * The table accepts a row's values exactly when the row has a name and its status is
   * empty or a key; an empty status is stored as 'lead'.
   */
  lemma BqValsAccepted(row: BqRow, users: seq<User>, columns: seq<(string, string)>, today: Clocks)
    ensures Acceptable(BqVals(row, users, columns)) <==> RowAccepted(row)
    ensures NewLead(BqVals(row, users, columns), today).Some? <==> RowAccepted(row)
    ensures RowAccepted(row) && (row.currentStatus.None? || row.currentStatus.value == []) ==>
              NewLead(BqVals(row, users, columns), today).value.currentStatus == FreshLead
  {
    if RowAccepted(row) && (row.currentStatus.None? || row.currentStatus.value == []) {
      var c := NewLead(BqVals(row, users, columns), today).value.currentStatus;
      KeyInjective(c, FreshLead);
    }
  }

  // ---------------------------------------------------------------- phones

  /** The domain `[('standardized_phone', '=', phone)]`. */
  function PhoneIs(phone: Option<string>): Lead -> bool {
    (l: Lead) => l.phone == phone
  }

  predicate HasPhone(leads: seq<Lead>, phone: Option<string>) {
    exists k :: 0 <= k < |leads| && leads[k].phone == phone
  }

  /** The search by phone finds a lead exactly when one has that phone. */
  lemma FindPhone(leads: seq<Lead>, phone: Option<string>)
    ensures FindFirst(leads, PhoneIs(phone)).Some? <==> HasPhone(leads, phone)
  {
    if HasPhone(leads, phone) {
      var k :| 0 <= k < |leads| && leads[k].phone == phone;
      assert PhoneIs(phone)(leads[k]);
    }
  }

  /** A table grown by one lead has the phones it had and the new lead's. */
  lemma HasPhoneGrow(leads: seq<Lead>, leads': seq<Lead>, phone: Option<string>)
    requires |leads'| == |leads| + 1
    requires forall k :: 0 <= k < |leads| ==> leads'[k].phone == leads[k].phone
    ensures HasPhone(leads', phone) <==> HasPhone(leads, phone) || leads'[|leads|].phone == phone
  {
    if HasPhone(leads, phone) {
      var k :| 0 <= k < |leads| && leads[k].phone == phone;
      assert leads'[k].phone == phone;
    }
  }

  /** Phones that are pairwise distinct and that no lead has yet. */
  predicate NewDistinctPhones(vals: seq<LeadVals>, leads: seq<Lead>) {
    && (forall i, j :: 0 <= i < j < |vals| ==> vals[i].phone != vals[j].phone)
    && (forall i :: 0 <= i < |vals| ==> !HasPhone(leads, vals[i].phone))
  }

  predicate AllAcceptable(vals: seq<LeadVals>) {
    forall i :: 0 <= i < |vals| ==> Acceptable(vals[i])
  }

  // ---------------------------------------------------------------- one pass of the loop

  /**
   * The search by phone and the `write` or `create` that follows it: the lead with the
   * row's phone is overwritten and counted as updated, or a new lead is created and counted;
   * `None` when the values are refused.
   */
  function Upsert(st: FetchState, v: LeadVals, today: Clocks): (r: Option<FetchState>)
    ensures r.Some? ==> |r.value.leads| >= |st.leads| && r.value.created + r.value.updated == st.created + st.updated + 1
  {
    match FindFirst(st.leads, PhoneIs(v.phone))
    case Some(id) =>
      (match Written(st.leads[id], v, today)
       case None => None
       case Some(l) => Some(FetchState(st.leads[id := l], st.created, st.updated + 1)))
    case None =>
      match NewLead(v, today)
      case None => None
      case Some(l) => Some(FetchState(st.leads + [l], st.created + 1, st.updated))
  }

  /**
   * An upsert of acceptable values keeps every lead's phone at its place, and afterwards a
   * lead has the values' phone; it creates exactly when no lead had that phone, and then
   * it appends the lead `create` stores.
   */
  lemma UpsertPhones(st: FetchState, v: LeadVals, today: Clocks)
    requires Acceptable(v)
    ensures Upsert(st, v, today).Some?
    ensures var r := Upsert(st, v, today).value;
      && (forall k :: 0 <= k < |st.leads| ==> r.leads[k].phone == st.leads[k].phone)
      && HasPhone(r.leads, v.phone)
      && (r.created == st.created + 1 <==> !HasPhone(st.leads, v.phone))
      && |r.leads| == |st.leads| + (r.created - st.created)
      && (r.created != st.created ==> r.leads == st.leads + [NewLead(v, today).value])
  {
    FindPhone(st.leads, v.phone);
    var found := FindFirst(st.leads, PhoneIs(v.phone));
    var r := Upsert(st, v, today).value;
    if found.Some? {
      assert r.leads[found.value].phone == v.phone;
    } else {
      assert r.leads[|st.leads|].phone == v.phone;
    }
  }

  /** The upsert of values whose phone no lead has is the `create`. */
  lemma UpsertCreates(st: FetchState, v: LeadVals, today: Clocks)
    requires FindFirst(st.leads, PhoneIs(v.phone)).None?
    ensures Upsert(st, v, today).Some? <==> NewLead(v, today).Some?
    ensures Upsert(st, v, today).Some? ==>
              && Upsert(st, v, today).value.leads == st.leads + [NewLead(v, today).value]
              && Upsert(st, v, today).value.created == st.created + 1
              && Upsert(st, v, today).value.updated == st.updated
  {
  }

  /** The upsert of values whose phone lead `id` has first is the `write` to it. */
  lemma UpsertWrites(st: FetchState, v: LeadVals, today: Clocks, id: nat)
    requires FindFirst(st.leads, PhoneIs(v.phone)) == Some(id)
    ensures Upsert(st, v, today).Some? <==> Written(st.leads[id], v, today).Some?
    ensures Upsert(st, v, today).Some? ==>
              && Upsert(st, v, today).value.leads == st.leads[id := Written(st.leads[id], v, today).value]
              && Upsert(st, v, today).value.created == st.created
              && Upsert(st, v, today).value.updated == st.updated + 1
  {
  }

  /** An upsert of values the table refuses fails. */
  lemma UpsertRefused(st: FetchState, v: LeadVals, today: Clocks)
    requires !Acceptable(v)
    ensures Upsert(st, v, today).None?
  {
  }

  // ---------------------------------------------------------------- the loop as written

  /**
   * The row loop as written. After the write to a lead found by phone,
   * `updateed_count += 1` raises, so the run fails and the transaction is rolled back.
   */
  function RunAsWritten(vals: seq<LeadVals>, today: Clocks, st: FetchState): Result<FetchState, BqError>
    decreases |vals|
  {
    if vals == [] then Ok(st)
    else
      match Upsert(st, vals[0], today)
      case None => Err(RejectedValues)
      case Some(st') =>
        if st'.updated != st.updated then Err(UpdateCounterUnbound)
        else RunAsWritten(vals[1..], today, st')
  }

  /** Phones stay new and distinct after the first row exactly when they were with it. */
  lemma NewDistinctPhonesCons(vals: seq<LeadVals>, leads: seq<Lead>, leads': seq<Lead>)
    requires vals != [] && !HasPhone(leads, vals[0].phone)
    requires forall i :: 0 < i < |vals| ==>
               (HasPhone(leads', vals[i].phone) <==> HasPhone(leads, vals[i].phone) || vals[i].phone == vals[0].phone)
    ensures NewDistinctPhones(vals, leads) <==> NewDistinctPhones(vals[1..], leads')
  {
    var rest := vals[1..];
    if NewDistinctPhones(vals, leads) {
      forall i | 0 <= i < |rest| ensures !HasPhone(leads', rest[i].phone) {
        assert rest[i] == vals[i + 1];
      }
      forall i, j | 0 <= i < j < |rest| ensures rest[i].phone != rest[j].phone {
        assert rest[i] == vals[i + 1] && rest[j] == vals[j + 1];
      }
    }
    if NewDistinctPhones(rest, leads') {
      forall i, j | 0 <= i < j < |vals| ensures vals[i].phone != vals[j].phone {
        assert vals[j] == rest[j - 1];
        if i > 0 {
          assert vals[i] == rest[i - 1];
        }
      }
      forall i | 0 <= i < |vals| ensures !HasPhone(leads, vals[i].phone) {
        if i > 0 {
          assert vals[i] == rest[i - 1];
        }
      }
    }
  }

  /** The run as written completes exactly when every row is accepted and every phone is new and distinct. */
  lemma {:induction false} AsWrittenCompletesIff(vals: seq<LeadVals>, today: Clocks, st: FetchState)
    ensures RunAsWritten(vals, today, st).Ok? <==> AllAcceptable(vals) && NewDistinctPhones(vals, st.leads)
    decreases |vals|
  {
    if vals != [] {
      var v := vals[0];
      var rest := vals[1..];
      if !Acceptable(v) {
        UpsertRefused(st, v, today);
      } else if HasPhone(st.leads, v.phone) {
        UpsertPhones(st, v, today);
        assert !NewDistinctPhones(vals, st.leads);
      } else {
        UpsertPhones(st, v, today);
        var st' := Upsert(st, v, today).value;
        assert RunAsWritten(vals, today, st) == RunAsWritten(rest, today, st');
        AsWrittenCompletesIff(rest, today, st');
        forall i | 0 < i < |vals|
          ensures HasPhone(st'.leads, vals[i].phone) <==> HasPhone(st.leads, vals[i].phone) || vals[i].phone == v.phone
        {
          HasPhoneGrow(st.leads, st'.leads, vals[i].phone);
        }
        NewDistinctPhonesCons(vals, st.leads, st'.leads);
        assert AllAcceptable(vals) <==> AllAcceptable(rest) by {
          assert forall i :: 0 < i < |vals| ==> vals[i] == rest[i - 1];
        }
      }
    }
  }

  /** A run as written that completes creates a lead for its first row and goes on from there. */
  lemma AsWrittenFirstRow(vals: seq<LeadVals>, today: Clocks, st: FetchState)
    requires vals != [] && RunAsWritten(vals, today, st).Ok?
    ensures NewLead(vals[0], today).Some?
    ensures RunAsWritten(vals, today, st) ==
            RunAsWritten(vals[1..], today, FetchState(st.leads + [NewLead(vals[0], today).value], st.created + 1, st.updated))
  {
    AsWrittenCompletesIff(vals, today, st);
    assert Acceptable(vals[0]) && !HasPhone(st.leads, vals[0].phone);
    UpsertPhones(st, vals[0], today);
  }

  /** A completed run as written created one lead per row and updated none. */
  lemma {:induction false} AsWrittenCounts(vals: seq<LeadVals>, today: Clocks, st: FetchState)
    requires RunAsWritten(vals, today, st).Ok?
    ensures RunAsWritten(vals, today, st).value.created == st.created + |vals|
    ensures RunAsWritten(vals, today, st).value.updated == st.updated
    decreases |vals|
  {
    if vals != [] {
      AsWrittenFirstRow(vals, today, st);
      var l := NewLead(vals[0], today).value;
      AsWrittenCounts(vals[1..], today, FetchState(st.leads + [l], st.created + 1, st.updated));
    }
  }

  /** A completed run as written appended the leads `create` stores, in row order. */
  lemma {:induction false} AsWrittenCreatesAll(vals: seq<LeadVals>, today: Clocks, st: FetchState)
    requires RunAsWritten(vals, today, st).Ok?
    ensures RunAsWritten(vals, today, st).value.leads == st.leads + Collect(vals, (v: LeadVals) => NewLead(v, today))
    decreases |vals|
  {
    if vals != [] {
      var f := (v: LeadVals) => NewLead(v, today);
      AsWrittenFirstRow(vals, today, st);
      var l := NewLead(vals[0], today).value;
      AsWrittenCreatesAll(vals[1..], today, FetchState(st.leads + [l], st.created + 1, st.updated));
      CollectAppend([vals[0]], vals[1..], f);
      CollectOne(vals[0], f);
      assert [vals[0]] + vals[1..] == vals;
      assert Collect(vals, f) == [l] + Collect(vals[1..], f);
      assert st.leads + [l] + Collect(vals[1..], f) == st.leads + Collect(vals, f);
    }
  }

  /** Values whose phone already has a lead make the run as written fail. */
  lemma ExistingPhoneAborts(v: LeadVals, today: Clocks, st: FetchState)
    requires Acceptable(v) && HasPhone(st.leads, v.phone)
    ensures RunAsWritten([v], today, st) == Err(UpdateCounterUnbound)
  {
    UpsertPhones(st, v, today);
  }

  /** Two fetched rows with the same phone make the run as written fail. */
  lemma SamePhoneTwiceAborts(a: LeadVals, b: LeadVals, today: Clocks, st: FetchState)
    requires Acceptable(a) && Acceptable(b) && a.phone == b.phone
    ensures RunAsWritten([a, b], today, st).Err?
  {
    AsWrittenCompletesIff([a, b], today, st);
  }

  // ---------------------------------------------------------------- the loop as intended

  /** The row loop with `updated_count` counting the writes. */
  function Run(vals: seq<LeadVals>, today: Clocks, st: FetchState): Result<FetchState, BqError>
    decreases |vals|
  {
    if vals == [] then Ok(st)
    else
      match Upsert(st, vals[0], today)
      case None => Err(RejectedValues)
      case Some(st') => Run(vals[1..], today, st')
  }

  /** The run completes exactly when every row is accepted: repeated phones are updates. */
  lemma {:induction false} RunCompletesIff(vals: seq<LeadVals>, today: Clocks, st: FetchState)
    ensures Run(vals, today, st).Ok? <==> AllAcceptable(vals)
    decreases |vals|
  {
    if vals != [] {
      if Acceptable(vals[0]) {
        UpsertPhones(st, vals[0], today);
        RunCompletesIff(vals[1..], today, Upsert(st, vals[0], today).value);
        assert forall i :: 0 < i < |vals| ==> vals[i] == vals[1..][i - 1];
      } else {
        UpsertRefused(st, vals[0], today);
      }
    }
  }

  /**
   * A completed run counts every row once, as created or as updated, adds one lead per
   * creation, keeps every lead's phone, and leaves a lead for every fetched phone.
   */
  lemma {:induction false} RunTotals(vals: seq<LeadVals>, today: Clocks, st: FetchState)
    requires Run(vals, today, st).Ok?
    ensures var r := Run(vals, today, st).value;
      && r.created + r.updated == st.created + st.updated + |vals|
      && r.created >= st.created
      && |r.leads| == |st.leads| + (r.created - st.created)
      && (forall k :: 0 <= k < |st.leads| ==> r.leads[k].phone == st.leads[k].phone)
      && (forall i :: 0 <= i < |vals| ==> HasPhone(r.leads, vals[i].phone))
    decreases |vals|
  {
    if vals != [] {
      RunCompletesIff(vals, today, st);
      UpsertPhones(st, vals[0], today);
      var st' := Upsert(st, vals[0], today).value;
      RunTotals(vals[1..], today, st');
      var r := Run(vals, today, st).value;
      assert HasPhone(r.leads, vals[0].phone) by {
        var k :| 0 <= k < |st'.leads| && st'.leads[k].phone == vals[0].phone;
        assert r.leads[k].phone == vals[0].phone;
      }
      forall i | 0 < i < |vals| ensures HasPhone(r.leads, vals[i].phone) {
        assert vals[i] == vals[1..][i - 1];
      }
    }
  }

  /**
   * Rows whose phones all have leads already are all updates: the run creates nothing and
   * adds no lead.
   */
  lemma {:induction false} KnownPhonesAllUpdate(vals: seq<LeadVals>, today: Clocks, st: FetchState)
    requires AllAcceptable(vals)
    requires forall i :: 0 <= i < |vals| ==> HasPhone(st.leads, vals[i].phone)
    ensures Run(vals, today, st).Ok?
    ensures var r := Run(vals, today, st).value;
      r.created == st.created && r.updated == st.updated + |vals| && |r.leads| == |st.leads|
    decreases |vals|
  {
    if vals != [] {
      UpsertPhones(st, vals[0], today);
      var st' := Upsert(st, vals[0], today).value;
      var rest := vals[1..];
      forall i | 0 <= i < |rest| ensures HasPhone(st'.leads, rest[i].phone) {
        assert rest[i] == vals[i + 1];
        var k :| 0 <= k < |st.leads| && st.leads[k].phone == vals[i + 1].phone;
        assert st'.leads[k].phone == vals[i + 1].phone;
      }
      KnownPhonesAllUpdate(rest, today, st');
    }
  }

  /** Where the run as written completes, the corrected run does the same thing. */
  lemma {:induction false} CorrectedAgreesWhereAsWrittenCompletes(vals: seq<LeadVals>, today: Clocks, st: FetchState)
    requires RunAsWritten(vals, today, st).Ok?
    ensures Run(vals, today, st) == RunAsWritten(vals, today, st)
    decreases |vals|
  {
    if vals != [] {
      CorrectedAgreesWhereAsWrittenCompletes(vals[1..], today, Upsert(st, vals[0], today).value);
    }
  }

  // ---------------------------------------------------------------- the action

  /** `action_fetch_from_bigquery` up to the wizard's write, with the row loop as intended. */
  function Fetch(projectId: Option<string>, bq: BigQueryProject, users: seq<User>, columns: seq<(string, string)>,
                 today: Clocks, leads: seq<Lead>): Result<FetchState, BqError>
  {
    if projectId.None? || projectId.value == [] then Err(ProjectNotConfigured)
    else if bq.connectError.Some? then Err(ConnectionFailed(bq.connectError.value))
    else if bq.queryError.Some? then Err(QueryFailed(bq.queryError.value))
    else Run(ValsOf(QueryRows(bq.table), users, columns), today, FetchState(leads, 0, 0))
  }

  /**
   * A configured, reachable project yields a completed fetch exactly when every fetched row
   * has a name and an empty or valid status.
   */
  lemma FetchCompletesIff(projectId: Option<string>, bq: BigQueryProject, users: seq<User>,
                          columns: seq<(string, string)>, today: Clocks, leads: seq<Lead>)
    requires projectId.Some? && projectId.value != [] && bq.connectError.None? && bq.queryError.None?
    ensures Fetch(projectId, bq, users, columns, today, leads).Ok? <==>
              forall k :: 0 <= k < |QueryRows(bq.table)| ==> RowAccepted(QueryRows(bq.table)[k])
  {
    var rows := QueryRows(bq.table);
    var vals := ValsOf(rows, users, columns);
    RunCompletesIff(vals, today, FetchState(leads, 0, 0));
    forall k | 0 <= k < |rows| ensures Acceptable(vals[k]) <==> RowAccepted(rows[k]) {
      BqValsAccepted(rows[k], users, columns, today);
    }
  }

  /**
   * A completed fetch counts every fetched row once, as created or as updated, adds one
   * lead per creation and leaves a lead for every fetched phone.
   */
  lemma FetchTotals(projectId: Option<string>, bq: BigQueryProject, users: seq<User>,
                    columns: seq<(string, string)>, today: Clocks, leads: seq<Lead>)
    requires Fetch(projectId, bq, users, columns, today, leads).Ok?
    ensures var r := Fetch(projectId, bq, users, columns, today, leads).value;
      && r.created + r.updated == |QueryRows(bq.table)|
      && |r.leads| == |leads| + r.created
      && forall k :: 0 <= k < |QueryRows(bq.table)| ==> HasPhone(r.leads, QueryRows(bq.table)[k].phone)
  {
    var rows := QueryRows(bq.table);
    var vals := ValsOf(rows, users, columns);
    RunTotals(vals, today, FetchState(leads, 0, 0));
    forall k | 0 <= k < |rows| ensures vals[k].phone == rows[k].phone {
    }
  }

  /** Running the loop again over the same values creates nothing and updates every row. */
  lemma RunTwiceCreatesNothing(vals: seq<LeadVals>, today: Clocks, leads: seq<Lead>)
    requires Run(vals, today, FetchState(leads, 0, 0)).Ok?
    ensures var r := Run(vals, today, FetchState(leads, 0, 0)).value;
      && Run(vals, today, FetchState(r.leads, 0, 0)).Ok?
      && Run(vals, today, FetchState(r.leads, 0, 0)).value.created == 0
      && Run(vals, today, FetchState(r.leads, 0, 0)).value.updated == |vals|
  {
    RunTotals(vals, today, FetchState(leads, 0, 0));
    RunCompletesIff(vals, today, FetchState(leads, 0, 0));
    var r := Run(vals, today, FetchState(leads, 0, 0)).value;
    KnownPhonesAllUpdate(vals, today, FetchState(r.leads, 0, 0));
  }

  /** Fetching again from the same table creates nothing and updates every fetched row. */
  lemma FetchTwiceCreatesNothing(projectId: Option<string>, bq: BigQueryProject, users: seq<User>,
                                 columns: seq<(string, string)>, today: Clocks, leads: seq<Lead>)
    requires Fetch(projectId, bq, users, columns, today, leads).Ok?
    ensures var r := Fetch(projectId, bq, users, columns, today, leads).value;
      && Fetch(projectId, bq, users, columns, today, r.leads).Ok?
      && Fetch(projectId, bq, users, columns, today, r.leads).value.created == 0
      && Fetch(projectId, bq, users, columns, today, r.leads).value.updated == |QueryRows(bq.table)|
  {
    RunTwiceCreatesNothing(ValsOf(QueryRows(bq.table), users, columns), today, leads);
  }

  datatype WizardState = Init | Done

  /** The `lead.score.bq.wizard` record the action runs on. */
  class LeadScoreBqWizard {
    var state: WizardState
    var leadsCreated: int
    var leadsUpdated: int

    constructor ()
      ensures state == Init && leadsCreated == 0 && leadsUpdated == 0
    {
      state := Init;
      leadsCreated := 0;
      leadsUpdated := 0;
    }

    /** The `write` to the lead found by phone, counted as an update. */
    static method UpdateFound(id: nat, v: LeadVals, leads: LeadTable, today: Clocks, created: nat, updated: nat)
      returns (ok: bool, created': nat, updated': nat)
      requires FindFirst(leads.rows, PhoneIs(v.phone)) == Some(id)
      modifies leads
      ensures var next := Upsert(FetchState(old(leads.rows), created, updated), v, today);
        ok == next.Some? && (ok ==> leads.rows == next.value.leads && created' == next.value.created && updated' == next.value.updated)
    {
      UpsertWrites(FetchState(leads.rows, created, updated), v, today, id);
      ok := leads.Write(id, v, today);
      created', updated' := created, updated + 1;
    }

    /** The `create` of a lead for a phone no lead has, counted as a creation. */
    static method CreateNew(v: LeadVals, leads: LeadTable, today: Clocks, created: nat, updated: nat)
      returns (ok: bool, created': nat, updated': nat)
      requires FindFirst(leads.rows, PhoneIs(v.phone)).None?
      modifies leads
      ensures var next := Upsert(FetchState(old(leads.rows), created, updated), v, today);
        ok == next.Some? && (ok ==> leads.rows == next.value.leads && created' == next.value.created && updated' == next.value.updated)
    {
      UpsertCreates(FetchState(leads.rows, created, updated), v, today);
      var id := leads.Create(v, today);
      ok := id.Some?;
      created', updated' := created + 1, updated;
    }

    /** The search by phone and the `write` or `create` of one row's values. */
    static method UpsertRow(v: LeadVals, leads: LeadTable, today: Clocks, created: nat, updated: nat)
      returns (ok: bool, created': nat, updated': nat)
      modifies leads
      ensures var next := Upsert(FetchState(old(leads.rows), created, updated), v, today);
        ok == next.Some? && (ok ==> leads.rows == next.value.leads && created' == next.value.created && updated' == next.value.updated)
    {
      var existing := FindFirst(leads.rows, PhoneIs(v.phone));
      if existing.Some? {
        ok, created', updated' := UpdateFound(existing.value, v, leads, today, created, updated);
      } else {
        ok, created', updated' := CreateNew(v, leads, today, created, updated);
      }
    }

    /** One pass of the row loop: the values of row `i`, then their upsert. */
    static method UpsertNext(rows: seq<BqRow>, i: nat, users: seq<User>, columns: seq<(string, string)>, leads: LeadTable,
                             today: Clocks, created: nat, updated: nat, ghost goal: Result<FetchState, BqError>)
      returns (ok: bool, created': nat, updated': nat)
      requires i < |rows|
      requires Run(ValsOf(rows, users, columns)[i..], today, FetchState(leads.rows, created, updated)) == goal
      modifies leads
      ensures !ok ==> goal == Err(RejectedValues)
      ensures ok ==> Run(ValsOf(rows, users, columns)[i + 1..], today, FetchState(leads.rows, created', updated')) == goal
    {
      ghost var vals := ValsOf(rows, users, columns);
      assert vals[i..][1..] == vals[i + 1..];
      var v := BqVals(rows[i], users, columns);
      ok, created', updated' := UpsertRow(v, leads, today, created, updated);
    }

    /** The row loop; on a refused row the table is rolled back. */
    static method UpsertRows(rows: seq<BqRow>, users: seq<User>, columns: seq<(string, string)>, leads: LeadTable, today: Clocks)
      returns (result: Result<FetchState, BqError>)
      modifies leads
      ensures result == Run(ValsOf(rows, users, columns), today, FetchState(old(leads.rows), 0, 0))
      ensures result.Ok? ==> leads.rows == result.value.leads
      ensures result.Err? ==> leads.rows == old(leads.rows)
    {
      ghost var goal := Run(ValsOf(rows, users, columns), today, FetchState(leads.rows, 0, 0));
      var leads0 := leads.rows;
      var created, updated := 0, 0;
      for i := 0 to |rows|
        invariant Run(ValsOf(rows, users, columns)[i..], today, FetchState(leads.rows, created, updated)) == goal
      {
        var ok;
        ok, created, updated := UpsertNext(rows, i, users, columns, leads, today, created, updated, goal);
        if !ok {
          // the ValueError ends the action and the transaction is rolled back
          leads.rows := leads0;
          return Err(RejectedValues);
        }
      }
      return Ok(FetchState(leads.rows, created, updated));
    }

    /**
     * `action_fetch_from_bigquery`, with the loop counting its updates: on success the
     * wizard shows the totals and moves to `done`; on any error nothing changes.
     */
    method FetchFromBigQuery(projectId: Option<string>, bq: BigQueryProject, users: seq<User>, leads: LeadTable, today: Clocks)
      returns (result: Outcome<BqError>)
      modifies this, leads
      ensures var f := Fetch(projectId, bq, users, BqDetailColumns, today, old(leads.rows));
        && (f.Err? ==> result == Fail(f.error) && leads.rows == old(leads.rows)
                       && state == old(state) && leadsCreated == old(leadsCreated) && leadsUpdated == old(leadsUpdated))
        && (f.Ok? ==> result == Pass && leads.rows == f.value.leads
                      && state == Done && leadsCreated == f.value.created && leadsUpdated == f.value.updated)
    {
      if projectId.None? || projectId.value == [] {
        return Fail(ProjectNotConfigured);
      }
      if bq.connectError.Some? {
        return Fail(ConnectionFailed(bq.connectError.value));
      }
      if bq.queryError.Some? {
        return Fail(QueryFailed(bq.queryError.value));
      }
      var run := UpsertRows(QueryRows(bq.table), users, BqDetailColumns, leads, today);
      if run.Err? {
        return Fail(run.error);
      }
      leadsCreated, leadsUpdated, state := run.value.created, run.value.updated, Done;
      return Pass;
    }
  }
}
