/**
 * The lead CSV import (custom_addons/leads/models/lead_import_wizard.py): the user and
 * property lookups, the status mapping and the row loop that creates one `lead.score`
 * record per usable row. The wizard's `_clean_string` is the same helper as the property
 * import's and is `Cleaning.CleanString` here.
 */
module LeadImport {
  import opened Wrappers
  import opened Text
  import opened Calendar
  import opened Tables
  import opened Cleaning
  import opened Users
  import opened Leads
  import Listings

  // ---------------------------------------------------------------- lookups

  /**
   * `_find_user_by_name`: the first user whose name matches the cleaned name ignoring case,
   * and the administrator (`admin`) when the name is blank or nobody matches.
   */
  function FindUserOrAdmin(users: seq<User>, admin: nat, cell: Option<string>): (r: nat)
    ensures r != admin ==>
              && CleanString(cell, false).Some?
              && r < |users| && ILikeEq(users[r].name, Strip(cell.value))
              && forall j :: 0 <= j < r ==> !ILikeEq(users[j].name, Strip(cell.value))
    ensures CleanString(cell, false).None? ==> r == admin
    ensures CleanString(cell, false).Some? && (exists j :: 0 <= j < |users| && ILikeEq(users[j].name, Strip(cell.value))) ==>
              r < |users| && ILikeEq(users[r].name, Strip(cell.value))
  {
    match CleanString(cell, false)
    case None => admin
    case Some(name) =>
      match FindFirst(users, UserLike(name))
      case None => admin
      case Some(id) => id
  }

  /** The texts `_find_property_by_name` treats as "no property" ('null' is not one of them). */
  predicate NoPropertyText(t: string) {
    t == "" || t == "not filled" || t == "n/a"
  }

  /**
   * `_find_property_by_name`: the first listing whose name matches the trimmed text ignoring
   * case; nothing for a blank or placeholder text, or when no listing matches.
   */
  function FindPropertyByName(listings: seq<Listings.Listing>, name: Option<string>): (r: Option<nat>)
    ensures name.None? || NoPropertyText(Lower(Strip(name.value))) ==> r.None?
    ensures r.Some? ==> r.value < |listings| && ILikeEq(listings[r.value].name, Strip(name.value))
    ensures r.None? && name.Some? && !NoPropertyText(Lower(Strip(name.value))) ==>
              forall j :: 0 <= j < |listings| ==> !ILikeEq(listings[j].name, Strip(name.value))
  {
    if name.None? || name.value == [] || NoPropertyText(Lower(Strip(name.value))) then None
    else FindFirst(listings, (l: Listings.Listing) => ILikeEq(l.name, Strip(name.value)))
  }

  /** The placeholder list of the property lookup is shorter than `_clean_string`'s: "null" is searched for. */
  lemma NullIsAPropertyName(listings: seq<Listings.Listing>, name: string)
    requires Lower(Strip(name)) == "null"
    requires exists j :: 0 <= j < |listings| && listings[j].name == Strip(name)
    ensures CleanString(Some(name), false).None?
    ensures FindPropertyByName(listings, Some(name)).Some?
  {
    assert name != [];
  }

  // ---------------------------------------------------------------- status

  /** The status table of `_clean_lead_status`, keyed by trimmed lower-case text. */
  function StatusLookup(key: string): Option<Status> {
    if key == "busy" then Some(Busy)
    else if key == "lead" then Some(FreshLead)
    else if key == "ringing" then Some(Ringing)
    else if key == "call back later" then Some(CallBackLater)
    else if key == "site visit scheduled" then Some(SiteVisitScheduled)
    else if key == "option not matching requirements" then Some(OptionNotMatchingRequirements)
    else if key == "details shared of property" then Some(DetailsSharedOfProperty)
    else if key == "no requiremnets" then Some(NoRequirements)
    else if key == "details shared and interested for site visit" then Some(DetailsSharedAndInterestedForSiteVisit)
    else if key == "switched off" then Some(SwitchedOff)
    else if key == "requirement closed" then Some(RequirementClosed)
    else if key == "property sold out" then Some(PropertySoldOut)
    else if key == "rescheduled" then Some(Rescheduled)
    else if key == "budget not sufficient" then Some(BudgetNotSufficient)
    else if key == "number not in use/wrong number" then Some(NumberNotInUse)
    else if key == "others" then Some(Other)
    else None
  }

  /** `status_map.get(key, 'lead')` */
  function LookupOrLead(key: string): (r: Status)
    ensures StatusLookup(key).None? ==> r == FreshLead
    ensures r != FreshLead ==> StatusLookup(key) == Some(r)
  {
    StatusLookup(key).GetOr(FreshLead)
  }

  /** `_clean_lead_status`: 'lead' when blank, otherwise the table's status for the trimmed lower-case text. */
  function CleanLeadStatus(s: Option<string>): (r: Status)
    ensures s.None? || s.value == [] ==> r == FreshLead
  {
    if s.None? || s.value == [] then FreshLead
    else LookupOrLead(Lower(Strip(s.value)))
  }

  /**
   * The table's text for 'no_requirements' is misspelt: that status comes from the
   * misspelling only, and the correct spelling is not in the table.
   */
  lemma NoRequirementsTableEntry(key: string)
    ensures StatusLookup(key) == Some(NoRequirements) <==> key == "no requiremnets"
    ensures key == "no requirements" ==> StatusLookup(key).None?
  {
    if key == "no requiremnets" {
      MisspeltKeyFound();
    } else if key == "no requirements" {
      CorrectKeyMissing();
    }
  }

  lemma MisspeltKeyFound()
    ensures StatusLookup("no requiremnets") == Some(NoRequirements)
  {
  }

  lemma CorrectKeyMissing()
    ensures StatusLookup("no requirements").None?
  {
  }

  /**
   * So the text "No Requirements" in the file becomes 'lead', and 'no_requirements' is
   * reached only through the misspelling.
   */
  lemma NoRequirementsOnlyWhenMisspelt(s: string)
    requires s != []
    ensures CleanLeadStatus(Some(s)) == NoRequirements <==> Lower(Strip(s)) == "no requiremnets"
    ensures Lower(Strip(s)) == "no requirements" ==> CleanLeadStatus(Some(s)) == FreshLead
  {
    NoRequirementsTableEntry(Lower(Strip(s)));
  }

  // ---------------------------------------------------------------- one row

  /** `row.get('customer_name', '').strip()` */
  function LeadName(row: Row): string {
    Strip(CellOr(row, "customer_name", ""))
  }

  /** `float(row.get('predicted_score') or 0.0)`; `None` when `float` raises. */
  function ScoreOf(row: Row): (r: Option<real>)
    ensures Cell(row, "predicted_score").None? || Cell(row, "predicted_score").value == [] ==> r == Some(0.0)
  {
    var c := Cell(row, "predicted_score");
    if c.None? || c.value == [] then Some(0.0) else ParseFloat(c.value)
  }

  /**
   * Odoo's conversion of a date string: `strptime(value[:10], '%Y-%m-%d')`.
   */
  function ToDate(s: string): Option<Day> {
    ParseDate(if |s| <= 10 then s else s[..10], YearMonthDay)
  }

  /**
   * `row.get('site_visit_date') or None`, as the date field converts it: `Some(None)` for
   * no date, `None` when the conversion raises.
   */
  function SiteVisitOf(row: Row): (r: Option<Option<Day>>)
    ensures Cell(row, "site_visit_date").None? || Cell(row, "site_visit_date").value == [] ==> r == Some(None)
  {
    var c := Cell(row, "site_visit_date");
    if c.None? || c.value == [] then Some(None)
    else match ToDate(c.value)
      case None => None
      case Some(d) => Some(Some(d))
  }

  /** The free-text fields the import fills, each with its CSV column. */
  const DetailColumns: seq<(string, string)> := [
    ("project_name", "Project_Name"), ("property_type", "Property_Type"),
    ("property_tag", "property_tag"), ("property_address", "Property_Address"),
    ("bhk", "BHK"), ("price_range", "Price_Range_Lacs_Rs"),
    ("carpet_area", "Carpet_Construction_Area"), ("super_built_up_area", "Super_Built_up_Construction_Area"),
    ("property_link", "Property_Link"), ("location", "Location"),
    ("property_on_floor", "Property_On_Floor"), ("property_facing", "Property_Facing"),
    ("furniture_details", "Furniture_Details"), ("age_of_property", "Age_Of_Property"),
    ("parking_details", "Parking_Details"), ("offer_price", "Offer_Price"), ("bathroom", "Bathroom")]

  /** Each field of `columns` set to its trimmed column (empty when the column is missing). */
  function DetailsOf(row: Row, columns: seq<(string, string)>): map<string, Option<string>> {
    if columns == [] then map[]
    else DetailsOf(row, columns[..|columns| - 1])[columns[|columns| - 1].0 := Some(Strip(CellOr(row, columns[|columns| - 1].1, "")))]
  }

  /** The values one row hands to `create`, or `None` when the loop skips the row. */
  function RowVals(row: Row, users: seq<User>, admin: nat, columns: seq<(string, string)>): (r: Option<LeadVals>)
    ensures r.Some? <==> LeadName(row) != [] && ScoreOf(row).Some? && SiteVisitOf(row).Some?
  {
    var name := LeadName(row);
    if name == [] then None
    else
      var status := CleanLeadStatus(Cell(row, "current_status"));
      var rm := FindUserOrAdmin(users, admin, Cell(row, "assigned_rm"));
      match (ScoreOf(row), SiteVisitOf(row))
      case (Some(score), Some(visit)) =>
        Some(LeadVals(Some(name), Some(Strip(CellOr(row, "standardized_phone", ""))), score, Key(status),
                      Some(Key(status)), Some(rm), visit, DetailsOf(row, columns)))
      case _ => None
  }

  /** The values of a row that is not skipped. */
  lemma RowValsFields(row: Row, users: seq<User>, admin: nat, columns: seq<(string, string)>)
    requires RowVals(row, users, admin, columns).Some?
    ensures var v := RowVals(row, users, admin, columns).value;
      && v.name == Some(LeadName(row))
      && v.currentStatus == Key(CleanLeadStatus(Cell(row, "current_status")))
      && v.state == Some(v.currentStatus)
      && v.predictedScore == ScoreOf(row).value
      && v.rmId == Some(FindUserOrAdmin(users, admin, Cell(row, "assigned_rm")))
      && v.siteVisitDate == SiteVisitOf(row).value
  {
  }

  /** A row that is not skipped always makes a lead the table accepts. */
  lemma RowValsAccepted(row: Row, users: seq<User>, admin: nat, columns: seq<(string, string)>, today: Clocks)
    requires RowVals(row, users, admin, columns).Some?
    ensures NewLead(RowVals(row, users, admin, columns).value, today).Some?
    ensures NewLead(RowVals(row, users, admin, columns).value, today).value.currentStatus
            == CleanLeadStatus(Cell(row, "current_status"))
    ensures NewLead(RowVals(row, users, admin, columns).value, today).value.state
            == NewLead(RowVals(row, users, admin, columns).value, today).value.currentStatus
  {
    RowValsFields(row, users, admin, columns);
    var st := CleanLeadStatus(Cell(row, "current_status"));
    StatusKeyRoundTrip(st);
    var l := NewLead(RowVals(row, users, admin, columns).value, today).value;
    assert Key(l.currentStatus) == Key(st) && Key(l.state) == Key(st);
    StatusKeyRoundTrip(l.currentStatus);
    StatusKeyRoundTrip(l.state);
  }

  // ---------------------------------------------------------------- the loop

  /** The lead one row creates, or `None` when the loop skips it. */
  function LeadOfRow(row: Row, users: seq<User>, admin: nat, columns: seq<(string, string)>, today: Clocks): Option<Lead> {
    match RowVals(row, users, admin, columns)
    case None => None
    case Some(v) => NewLead(v, today)
  }

  /** The leads the import creates from `rows`, in row order. */
  function ImportedLeads(rows: seq<Row>, users: seq<User>, admin: nat, columns: seq<(string, string)>, today: Clocks): seq<Lead> {
    Collect(rows, (row: Row) => LeadOfRow(row, users, admin, columns, today))
  }

  /** The leads of one more row. */
  lemma ImportedLeadsStep(rows: seq<Row>, i: nat, users: seq<User>, admin: nat, columns: seq<(string, string)>, today: Clocks)
    requires i < |rows|
    ensures ImportedLeads(rows[..i + 1], users, admin, columns, today)
            == ImportedLeads(rows[..i], users, admin, columns, today) + ImportedLeads([rows[i]], users, admin, columns, today)
  {
    var f := (row: Row) => LeadOfRow(row, users, admin, columns, today);
    assert rows[..i + 1] == rows[..i] + [rows[i]];
    CollectAppend(rows[..i], [rows[i]], f);
  }

  /** A lead as the import creates it. */
  predicate WellFormedImport(l: Lead) {
    ValidLead(l) && l.state == l.currentStatus && l.rmId.Some? && l.nextFollowUp.Some?
  }

  /**
   * Every imported lead is one the table accepts, with its `state` equal to its
   * `current_status`, an assigned RM, and a follow-up date.
   */
  lemma ImportedLeadsWellFormed(rows: seq<Row>, users: seq<User>, admin: nat, columns: seq<(string, string)>, today: Clocks)
    ensures forall k :: 0 <= k < |ImportedLeads(rows, users, admin, columns, today)| ==>
              WellFormedImport(ImportedLeads(rows, users, admin, columns, today)[k])
  {
    var f := (row: Row) => LeadOfRow(row, users, admin, columns, today);
    forall row: Row | f(row).Some?
      ensures WellFormedImport(f(row).value)
    {
      RowValsAccepted(row, users, admin, columns, today);
      RowValsFields(row, users, admin, columns);
    }
    CollectAll(rows, f, WellFormedImport);
  }

  /** One lead per row that is not skipped: no lookup by phone, no merging of rows. */
  lemma ImportedLeadsCount(rows: seq<Row>, users: seq<User>, admin: nat, columns: seq<(string, string)>, today: Clocks)
    ensures |ImportedLeads(rows, users, admin, columns, today)| == Count(rows, (row: Row) => RowVals(row, users, admin, columns).Some?)
  {
    var f := (row: Row) => LeadOfRow(row, users, admin, columns, today);
    forall row: Row
      ensures RowVals(row, users, admin, columns).Some? == f(row).Some?
    {
      if RowVals(row, users, admin, columns).Some? {
        RowValsAccepted(row, users, admin, columns, today);
      }
    }
    CollectCount(rows, f, (row: Row) => RowVals(row, users, admin, columns).Some?);
  }

  /** The same row twice makes two leads with the same phone. */
  lemma DuplicateRowsCreateTwice(row: Row, users: seq<User>, admin: nat, columns: seq<(string, string)>, today: Clocks)
    requires RowVals(row, users, admin, columns).Some?
    ensures |ImportedLeads([row, row], users, admin, columns, today)| == 2
    ensures ImportedLeads([row, row], users, admin, columns, today)[0] == ImportedLeads([row, row], users, admin, columns, today)[1]
  {
    RowValsAccepted(row, users, admin, columns, today);
    var f := (row: Row) => LeadOfRow(row, users, admin, columns, today);
    assert f(row).Some?;
    CollectOne(row, f);
    CollectAppend([row], [row], f);
    assert [row] + [row] == [row, row];
    assert Collect([row, row], f) == [f(row).value, f(row).value];
  }

  /** A row whose score `float` rejects is skipped, whatever else it holds. */
  lemma BadScoreSkipsRow(row: Row, users: seq<User>, admin: nat, columns: seq<(string, string)>, today: Clocks)
    requires ScoreOf(row).None?
    ensures ImportedLeads([row], users, admin, columns, today) == []
  {
    CollectOne(row, (row: Row) => LeadOfRow(row, users, admin, columns, today));
  }

  datatype LeadImportError = NoCsvFile

  /** One pass of the row loop. */
  method ImportLeadRow(row: Row, users: seq<User>, admin: nat, columns: seq<(string, string)>, leads: LeadTable, today: Clocks)
    modifies leads
    ensures leads.rows == old(leads.rows) + ImportedLeads([row], users, admin, columns, today)
  {
    CollectOne(row, (row: Row) => LeadOfRow(row, users, admin, columns, today));
    var leadName := Strip(CellOr(row, "customer_name", ""));
    if leadName == [] {
      return;
    }
    var vals := RowVals(row, users, admin, columns);
    if vals.None? {
      // `float` or the date conversion raised: the row is skipped
      return;
    }
    RowValsAccepted(row, users, admin, columns, today);
    var _ := leads.Create(vals.value, today);
  }

  /** One pass of the row loop, continuing the leads created so far. */
  method ImportNextRow(rows: seq<Row>, i: nat, users: seq<User>, admin: nat, columns: seq<(string, string)>,
                       leads: LeadTable, today: Clocks, ghost leads0: seq<Lead>)
    requires i < |rows|
    requires leads.rows == leads0 + ImportedLeads(rows[..i], users, admin, columns, today)
    modifies leads
    ensures leads.rows == leads0 + ImportedLeads(rows[..i + 1], users, admin, columns, today)
  {
    ImportedLeadsStep(rows, i, users, admin, columns, today);
    ImportLeadRow(rows[i], users, admin, columns, leads, today);
  }

  /** The row loop of `action_import_leads`. */
  method ImportLeadRows(rows: seq<Row>, users: seq<User>, admin: nat, columns: seq<(string, string)>, leads: LeadTable, today: Clocks)
    modifies leads
    ensures leads.rows == old(leads.rows) + ImportedLeads(rows, users, admin, columns, today)
  {
    ghost var leads0 := leads.rows;
    for i := 0 to |rows|
      invariant leads.rows == leads0 + ImportedLeads(rows[..i], users, admin, columns, today)
    {
      ImportNextRow(rows, i, users, admin, columns, leads, today, leads0);
    }
    assert rows[..|rows|] == rows;
  }

  /**
   * `action_import_leads`: no file is an error before any row is read; otherwise each row
   * that is not skipped is created, in file order.
   */
  method ImportLeads(file: Option<seq<Row>>, users: seq<User>, admin: nat, leads: LeadTable, today: Clocks)
    returns (result: Outcome<LeadImportError>)
    modifies leads
    ensures file.None? ==> result == Fail(NoCsvFile) && leads.rows == old(leads.rows)
    ensures file.Some? ==> result == Pass && leads.rows == old(leads.rows) + ImportedLeads(file.value, users, admin, DetailColumns, today)
  {
    if file.None? {
      return Fail(NoCsvFile);
    }
    ImportLeadRows(file.value, users, admin, DetailColumns, leads, today);
    return Pass;
  }
}
