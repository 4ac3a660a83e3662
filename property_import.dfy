/**
 * The property CSV import (custom_addons/property_listings/models/property_import_wizard.py):
 * the state rule, search-or-create of cities and locations, user lookup, the values of each
 * new listing, and the row loop that collects failed creates into one error.
 */
module PropertyImport {
  import opened Wrappers
  import opened Text
  import opened Tables
  import opened Cleaning
  import opened Geography
  import opened Listings
  import opened Users

  // ---------------------------------------------------------------- state

  /**
   * `_clean_state_and_get_record`: Maharashtra for a city containing "pune"; every branch
   * of the state column's cleaning ends at Gujarat.
   */
  function ResolveState(stateCell: string, cityCell: string, gujarat: nat, maharashtra: nat): (r: nat)
    ensures r == gujarat || r == maharashtra
  {
    var city := CleanString(Some(cityCell), true);
    if city.Some? && Contains(Lower(city.value), "pune") then maharashtra
    else
      var state := CleanString(Some(stateCell), true).GetOr("");
      if state == "gujrat" || state == "gujrata" || state == "gujart" || state == "gujarot" then gujarat
      else if state == "" || state == "not filled" || state == "n/a" then gujarat
      else gujarat
  }

  /** Maharashtra is chosen exactly when the cleaned city names Pune. */
  lemma ResolveStateMaharashtraIff(stateCell: string, cityCell: string, gujarat: nat, maharashtra: nat)
    requires gujarat != maharashtra
    ensures ResolveState(stateCell, cityCell, gujarat, maharashtra) == maharashtra
            <==> Contains(Lower(Strip(cityCell)), "pune")
  {
    var city := CleanString(Some(cityCell), true);
    LowerIdempotent(Strip(cityCell));
    if city.None? {
      assert !Contains(Lower(Strip(cityCell)), "pune") by {
        ShortTextLacksPune(Lower(Strip(cityCell)));
      }
    }
  }

  /** No placeholder holds a 'p', so none contains "pune". */
  lemma ShortTextLacksPune(t: string)
    requires IsPlaceholder(t)
    ensures !Contains(t, "pune")
  {
    assert forall i :: 0 <= i < |t| ==> t[i] != 'p';
    ContainsOccurs(t, "pune");
    forall i | 0 <= i < |t| ensures !OccursAt(t, "pune", i) {
      if i + 4 <= |t| {
        assert t[i..i + 4][0] == t[i];
      }
    }
  }

  /** The state column never influences the result. */
  lemma ResolveStateIgnoresStateColumn(s1: string, s2: string, cityCell: string, gujarat: nat, maharashtra: nat)
    ensures ResolveState(s1, cityCell, gujarat, maharashtra) == ResolveState(s2, cityCell, gujarat, maharashtra)
  {
  }

  // ---------------------------------------------------------------- cities and locations

  /** The name a city cell is searched and created under: the cleaned text, title-cased. */
  function CityNameOf(cityCell: string): (r: Option<string>)
    ensures r.Some? ==> r.value != [] && ILikeEq(r.value, Strip(cityCell))
    ensures r.None? <==> CleanString(Some(cityCell), false).None?
  {
    match CleanString(Some(cityCell), false)
    case None => None
    case Some(c) => TitleILike(c); Some(Title(c))
  }

  /**
   * The city table after `_get_or_create_city` and the city it returns, for the name the cell
   * gives (`CityNameOf`): the first city of the state with that name, or a new one appended.
   */
  function CityLookup(cities: seq<City>, states: seq<CountryState>, name: Option<string>, stateId: nat)
    : (r: (seq<City>, Option<nat>))
    requires stateId < |states|
    ensures cities <= r.0
    ensures name.None? ==> r.1.None? && r.0 == cities
    ensures name.Some? ==>
      && r.1.Some? && r.1.value < |r.0|
      && CityNamed(name.value, stateId)(r.0[r.1.value])
      && FindFirst(r.0, CityNamed(name.value, stateId)) == r.1
      && (FindFirst(cities, CityNamed(name.value, stateId)).Some? ==> r.0 == cities)
      && (FindFirst(cities, CityNamed(name.value, stateId)).None? ==>
            r.0 == cities + [City(name.value, stateId, states[stateId].countryId)])
  {
    match name
    case None => (cities, None)
    case Some(n) =>
      match FindFirst(cities, CityNamed(n, stateId))
      case Some(k) => (cities, Some(k))
      case None =>
        var city := City(n, stateId, states[stateId].countryId);
        FindFirstAfter(cities, [city], CityNamed(n, stateId));
        (cities + [city], Some(|cities|))
  }

  /** `_get_or_create_city`: search by exact title-cased name within the state, else create. */
  method GetOrCreateCity(cities: CityTable, states: seq<CountryState>, cityCell: string, stateId: nat)
    returns (r: Option<nat>)
    requires cities.Valid(states) && stateId < |states|
    modifies cities
    ensures cities.Valid(states)
    ensures cities.rows == CityLookup(old(cities.rows), states, CityNameOf(cityCell), stateId).0
    ensures r == CityLookup(old(cities.rows), states, CityNameOf(cityCell), stateId).1
  {
    var cityName := CityNameOf(cityCell);
    if cityName.None? {
      return None;
    }
    var name := cityName.value;
    var found := FindFirst(cities.rows, CityNamed(name, stateId));
    if found.Some? {
      return found;
    }
    ValidCitiesAppend(cities.rows, states, name, stateId);
    cities.rows := cities.rows + [City(name, stateId, states[stateId].countryId)];
    r := Some(|cities.rows| - 1);
  }

  /**
   * The location name taken from the cleaned cell: the text after the first hyphen,
   * stripped, when there is a hyphen; an empty result is no name.
   */
  function LocationName(text: string): (r: Option<string>)
    ensures r.Some? ==> r.value != [] && |r.value| <= |text|
  {
    match IndexOf(text, '-')
    case None => if text == [] then None else Some(text)
    case Some(i) =>
      var rest := Strip(text[i + 1..]);
      if rest == [] then None else Some(rest)
  }

  /** "Ahmedabad - Satellite" names the location "Satellite"; later hyphens are kept. */
  lemma LocationNameAfterFirstHyphen(prefix: string, pre: string, name: string, post: string)
    requires '-' !in prefix && AllSpace(pre) && AllSpace(post) && Stripped(name) && name != []
    ensures LocationName(prefix + "-" + pre + name + post) == Some(name)
  {
    var text := prefix + "-" + pre + name + post;
    assert text[|prefix|] == '-' && text[..|prefix|] == prefix;
    assert IndexOf(text, '-') == Some(|prefix|);
    assert text[|prefix| + 1..] == pre + name + post;
    StripExact(pre, name, post);
  }

  /** A text without a hyphen names itself. */
  lemma LocationNameWithoutHyphen(text: string)
    requires '-' !in text && text != []
    ensures LocationName(text) == Some(text)
  {
  }

  /** The name a location cell is searched under: the location name of the cleaned text. */
  function LocationNameOf(locationCell: string): (r: Option<string>)
    ensures r.Some? ==> r.value != []
    ensures CleanString(Some(locationCell), false).None? ==> r.None?
  {
    match CleanString(Some(locationCell), false)
    case None => None
    case Some(c) => LocationName(c)
  }

  /**
   * The location table after `_get_or_create_location` and the location it returns, for the
   * name the cell gives (`LocationNameOf`): the first location of the city matching the name
   * under `=ilike`, or a new title-cased one appended.
   */
  function LocationLookup(locations: seq<Location>, name: Option<string>, cityId: nat)
    : (r: (seq<Location>, Option<nat>))
    ensures locations <= r.0
    ensures name.None? ==> r.1.None? && r.0 == locations
    ensures name.Some? ==>
      && r.1.Some? && r.1.value < |r.0|
      && LocationLike(name.value, cityId)(r.0[r.1.value])
      && FindFirst(r.0, LocationLike(name.value, cityId)) == r.1
      && (FindFirst(locations, LocationLike(name.value, cityId)).Some? ==> r.0 == locations)
      && (FindFirst(locations, LocationLike(name.value, cityId)).None? ==>
            r.0 == locations + [Location(Title(name.value), cityId)])
  {
    match name
    case None => (locations, None)
    case Some(n) =>
      match FindFirst(locations, LocationLike(n, cityId))
      case Some(k) => (locations, Some(k))
      case None =>
        var location := Location(Title(n), cityId);
        TitleILike(n);
        assert LocationLike(n, cityId)(location);
        FindFirstAfter(locations, [location], LocationLike(n, cityId));
        (locations + [location], Some(|locations|))
  }

  /** `_get_or_create_location`: search case-insensitively within the city, else create title-cased. */
  method GetOrCreateLocation(locations: LocationTable, cityCount: nat, locationCell: string, cityId: nat)
    returns (r: Option<nat>)
    requires locations.Valid(cityCount) && cityId < cityCount
    modifies locations
    ensures locations.Valid(cityCount)
    ensures locations.rows == LocationLookup(old(locations.rows), LocationNameOf(locationCell), cityId).0
    ensures r == LocationLookup(old(locations.rows), LocationNameOf(locationCell), cityId).1
  {
    var name := LocationNameOf(locationCell);
    if name.None? {
      return None;
    }
    var found := FindFirst(locations.rows, LocationLike(name.value, cityId));
    if found.Some? {
      return found;
    }
    ValidLocationsAppend(locations.rows, cityCount, name.value, cityId);
    locations.rows := locations.rows + [Location(Title(name.value), cityId)];
    r := Some(|locations.rows| - 1);
  }

  // ---------------------------------------------------------------- users and listing values

  /** `_find_user_by_name` of the property import: the first case-insensitive match, or None. */
  function FindUserByName(users: seq<User>, cell: string): (r: Option<nat>)
    ensures CleanString(Some(cell), false).None? ==> r.None?
    ensures r.Some? ==> r.value < |users| && ILikeEq(users[r.value].name, Strip(cell))
    ensures CleanString(Some(cell), false).Some? && r.None? ==>
              forall k :: 0 <= k < |users| ==> !ILikeEq(users[k].name, Strip(cell))
  {
    match CleanString(Some(cell), false)
    case None => None
    case Some(name) => FindFirst(users, UserLike(name))
  }

  /** The owner name of a row: the cleaned `Name` column. */
  function CustomerName(row: Row): Option<string> {
    CleanString(Cell(row, "Name"), false)
  }

  /** The `vals` dictionary of one row, given the records resolved for it. */
  function ListingVals(row: Row, name: string, india: nat, stateId: nat, cityId: Option<nat>,
                       locationId: Option<nat>, users: seq<User>): (l: Listing)
    requires name != []
    ensures Admissible(l)
    ensures l.name == name && l.countryId == Some(india) && l.stateId == Some(stateId)
    ensures l.cityId == cityId && l.locationId == locationId
  {
    var propertyType := MapSelectionField(Cell(row, "Property_Type"), "property_type");
    var listingType := MapSelectionField(Cell(row, "Sell_Rent"), "listing_type");
    var currentStatus := MapSelectionField(Cell(row, "Current_Status"), "current_status");
    assert SelectionOk("property_type", propertyType) && SelectionOk("listing_type", listingType)
        && SelectionOk("current_status", currentStatus);
    Listing(
      name := name,
      phone := CleanString(Cell(row, "Phone"), false),
      propertyAddress := CleanString(Cell(row, "Property_Address"), false),
      countryId := Some(india),
      stateId := Some(stateId),
      cityId := cityId,
      locationId := locationId,
      tag := CleanString(Cell(row, "Tag"), false),
      bhk := CleanString(Cell(row, "BHK"), false),
      propertyType := propertyType,
      residentialType := CleanString(Cell(row, "Residential_Property"), false),
      commercialType := CleanString(Cell(row, "Commercial_Property_Type"), false),
      listingType := listingType,
      currentStatus := currentStatus,
      rmId := FindUserByName(users, CellOr(row, "Assignee)", "")),
      salesExecutiveId := FindUserByName(users, CellOr(row, "Sales_Executive", "")),
      propertyLink := CleanString(Cell(row, "Property_Link"), false),
      status := None,
      serviceValidity := 0,
      registerDate := None,
      price := 0.0)
  }

  /**
   * The relationship manager is read from a column literally headed "Assignee)": the user its
   * cell names when the column is there, and no one for a file whose header lacks it,
   * whatever else the row holds.
   */
  lemma RelationshipManagerColumn(row: Row, name: string, india: nat, stateId: nat, cityId: Option<nat>,
                                  locationId: Option<nat>, users: seq<User>)
    requires name != []
    ensures var l := ListingVals(row, name, india, stateId, cityId, locationId, users);
      && ("Assignee)" in row ==> l.rmId == FindUserByName(users, row["Assignee)"]))
      && ("Assignee)" !in row ==> l.rmId.None?)
      && (l.rmId.Some? ==> "Assignee)" in row && l.rmId.value < |users|
                           && ILikeEq(users[l.rmId.value].name, Strip(row["Assignee)"])))
  {
  }

  /** The sales executive is the user the "Sales_Executive" cell names, if any. */
  lemma SalesExecutiveColumn(row: Row, name: string, india: nat, stateId: nat, cityId: Option<nat>,
                             locationId: Option<nat>, users: seq<User>)
    requires name != []
    ensures var l := ListingVals(row, name, india, stateId, cityId, locationId, users);
      && ("Sales_Executive" in row ==> l.salesExecutiveId == FindUserByName(users, row["Sales_Executive"]))
      && ("Sales_Executive" !in row ==> l.salesExecutiveId.None?)
      && (l.salesExecutiveId.Some? ==> "Sales_Executive" in row && l.salesExecutiveId.value < |users|
                                       && ILikeEq(users[l.salesExecutiveId.value].name, Strip(row["Sales_Executive"])))
  {
  }

  /** A text column of a row as the listing stores it: absent for a missing or placeholder cell, else the trimmed cell. */
  predicate CleanedFrom(row: Row, column: string, v: Option<string>) {
    && (v.None? <==> column !in row || IsPlaceholder(Lower(Strip(row[column]))))
    && (v.Some? ==> column in row && v.value == Strip(row[column]))
  }

  /** Every free-text field of the listing is its column's cell, trimmed, or absent for a placeholder. */
  lemma ListingValsTextCells(row: Row, name: string, india: nat, stateId: nat, cityId: Option<nat>,
                             locationId: Option<nat>, users: seq<User>)
    requires name != []
    ensures var l := ListingVals(row, name, india, stateId, cityId, locationId, users);
      && CleanedFrom(row, "Phone", l.phone)
      && CleanedFrom(row, "Property_Address", l.propertyAddress)
      && CleanedFrom(row, "Tag", l.tag)
      && CleanedFrom(row, "BHK", l.bhk)
      && CleanedFrom(row, "Residential_Property", l.residentialType)
      && CleanedFrom(row, "Commercial_Property_Type", l.commercialType)
      && CleanedFrom(row, "Property_Link", l.propertyLink)
  {
  }

  /** The selection fields go through the field's table, and the fields the import never sets keep their defaults. */
  lemma ListingValsSelections(row: Row, name: string, india: nat, stateId: nat, cityId: Option<nat>,
                              locationId: Option<nat>, users: seq<User>)
    requires name != []
    ensures var l := ListingVals(row, name, india, stateId, cityId, locationId, users);
      && l.propertyType == MapSelectionField(Cell(row, "Property_Type"), "property_type")
      && l.listingType == MapSelectionField(Cell(row, "Sell_Rent"), "listing_type")
      && l.currentStatus == MapSelectionField(Cell(row, "Current_Status"), "current_status")
      && l.status.None? && l.serviceValidity == 0 && l.registerDate.None? && l.price == 0.0
  {
  }

  // ---------------------------------------------------------------- the import

  datatype Failure = Failure(customerName: string, error: string)

  datatype ImportError = NoFile | NoIndia | NoStates | RowsFailed(failures: seq<Failure>)

  /** The records fetched before any row is read. */
  datatype Prefetched = Prefetched(india: nat, gujarat: nat, maharashtra: nat)

  /** The domain `[('code', '=', 'IN')]`. */
  function CodedIndia(): Country -> bool {
    (c: Country) => c.code == "IN"
  }

  /** The domain `[('name', '=ilike', name), ('country_id', '=', country)]`. */
  function StateLike(name: string, country: nat): CountryState -> bool {
    (s: CountryState) => ILikeEq(s.name, name) && s.countryId == country
  }

  /** India, then Gujarat and Maharashtra within it; the first missing one is the error. */
  function Prefetch(countries: seq<Country>, states: seq<CountryState>): (r: Result<Prefetched, ImportError>)
    ensures r.Err? ==> r.error == NoIndia || r.error == NoStates
    ensures r.Ok? ==> r.value.india < |countries| && countries[r.value.india].code == "IN"
    ensures r.Ok? ==> r.value.gujarat < |states| && r.value.maharashtra < |states|
    ensures r.Ok? ==> states[r.value.gujarat].countryId == r.value.india
                      && states[r.value.maharashtra].countryId == r.value.india
  {
    match FindFirst(countries, CodedIndia())
    case None => Err(NoIndia)
    case Some(india) =>
      var gujarat := FindFirst(states, StateLike("Gujarat", india));
      var maharashtra := FindFirst(states, StateLike("Maharashtra", india));
      if gujarat.None? || maharashtra.None? then Err(NoStates)
      else Ok(Prefetched(india, gujarat.value, maharashtra.value))
  }

  /**
   * The import stops before reading any row exactly when India, or Gujarat or Maharashtra
   * within it, cannot be found.
   */
  lemma PrefetchFailsIff(countries: seq<Country>, states: seq<CountryState>)
    ensures Prefetch(countries, states).Err? <==>
      (|| FindFirst(countries, CodedIndia()).None?
       || FindFirst(states, StateLike("Gujarat", FindFirst(countries, CodedIndia()).value)).None?
       || FindFirst(states, StateLike("Maharashtra", FindFirst(countries, CodedIndia()).value)).None?)
    ensures Prefetch(countries, states) == Err(NoIndia) <==> FindFirst(countries, CodedIndia()).None?
  {
  }

  /** The rows the loop does not skip. */
  function NamedRows(rows: seq<Row>): nat {
    Count(rows, (row: Row) => CustomerName(row).Some?)
  }

  /** Counting the rows with an owner name one row further. */
  lemma NamedRowsStep(rows: seq<Row>, i: nat)
    requires i < |rows|
    ensures NamedRows(rows[..i + 1]) == NamedRows(rows[..i]) + (if CustomerName(rows[i]).Some? then 1 else 0)
  {
    assert rows[..i + 1] == rows[..i] + [rows[i]];
    CountAppend(rows[..i], [rows[i]], (row: Row) => CustomerName(row).Some?);
  }

  /** Every listing from position `from` on is admissible and placed in India. */
  predicate ImportedFrom(rows: seq<Listing>, from: nat, india: nat) {
    forall k :: from <= k < |rows| ==> Admissible(rows[k]) && rows[k].countryId == Some(india)
  }

  lemma ImportedFromExtend(prev: seq<Listing>, next: seq<Listing>, from: nat, india: nat)
    requires ImportedFrom(prev, from, india) && prev <= next
    requires |next| == |prev| || (|next| == |prev| + 1 && Admissible(next[|prev|]) && next[|prev|].countryId == Some(india))
    ensures ImportedFrom(next, from, india)
  {
    forall k | from <= k < |next|
      ensures Admissible(next[k]) && next[k].countryId == Some(india)
    {
      if k < |prev| {
        assert next[k] == prev[k];
      }
    }
  }

  function FailureCount(result: Outcome<ImportError>): nat {
    if result.Fail? && result.error.RowsFailed? then |result.error.failures| else 0
  }

  /** The records of one row's address: its state, and its city and location, found or created. */
  datatype Address = Address(stateId: nat, cityId: Option<nat>, locationId: Option<nat>)

  /**
   * The city and location tables after resolving one row's address, and the address: the
   * state rule, then the row's city in that state, then, when there is a city, its location.
   */
  function AddressLookup(row: Row, states: seq<CountryState>, cities: seq<City>, locations: seq<Location>,
                         fetched: Prefetched): (seq<City>, seq<Location>, Address)
    requires fetched.gujarat < |states| && fetched.maharashtra < |states|
  {
    var stateId := ResolveState(CellOr(row, "State", ""), CellOr(row, "City1", ""), fetched.gujarat, fetched.maharashtra);
    var city := CityLookup(cities, states, CityNameOf(CellOr(row, "City1", "")), stateId);
    var location :=
      if city.1.Some? then LocationLookup(locations, LocationNameOf(CellOr(row, "Location", "")), city.1.value)
      else (locations, None);
    (city.0, location.0, Address(stateId, city.1, location.1))
  }

  /** The address part of one pass of the row loop. */
  method ResolveAddress(row: Row, states: seq<CountryState>, cities: CityTable, locations: LocationTable,
                        fetched: Prefetched)
    returns (a: Address)
    requires cities.Valid(states) && locations.Valid(|cities.rows|)
    requires fetched.gujarat < |states| && fetched.maharashtra < |states|
    modifies cities, locations
    ensures cities.Valid(states) && locations.Valid(|cities.rows|)
    ensures old(cities.rows) <= cities.rows
    ensures old(locations.rows) <= locations.rows
    ensures cities.rows == AddressLookup(row, states, old(cities.rows), old(locations.rows), fetched).0
    ensures locations.rows == AddressLookup(row, states, old(cities.rows), old(locations.rows), fetched).1
    ensures a == AddressLookup(row, states, old(cities.rows), old(locations.rows), fetched).2
    ensures a.stateId == ResolveState(CellOr(row, "State", ""), CellOr(row, "City1", ""), fetched.gujarat, fetched.maharashtra)
    ensures a.cityId.Some? ==> a.cityId.value < |cities.rows|
    ensures a.locationId.Some? ==> a.cityId.Some? && a.locationId.value < |locations.rows|
  {
    var stateId := ResolveState(CellOr(row, "State", ""), CellOr(row, "City1", ""), fetched.gujarat, fetched.maharashtra);
    ghost var cityCount := |cities.rows|;
    var cityId := GetOrCreateCity(cities, states, CellOr(row, "City1", ""), stateId);
    LocationsValidGrow(locations, cityCount, |cities.rows|);
    var locationId: Option<nat> := None;
    if cityId.Some? {
      locationId := GetOrCreateLocation(locations, |cities.rows|, CellOr(row, "Location", ""), cityId.value);
    }
    return Address(stateId, cityId, locationId);
  }

  /** The three tables the import extends. */
  datatype Store = Store(cities: seq<City>, locations: seq<Location>, listings: seq<Listing>)

  /**
   * One pass of the row loop on the tables: a row without an owner name changes nothing;
   * otherwise its address is resolved, and the listing built from the row is created, or
   * refused with the database's error under the owner name.
   */
  function RowStep(row: Row, states: seq<CountryState>, users: seq<User>, s: Store, fetched: Prefetched,
                   reject: Listing -> Option<string>): (Store, Option<Failure>)
    requires fetched.gujarat < |states| && fetched.maharashtra < |states|
  {
    match CustomerName(row)
    case None => (s, None)
    case Some(name) =>
      var address := AddressLookup(row, states, s.cities, s.locations, fetched);
      var a := address.2;
      var attempt := Attempt(s.listings, name, ListingVals(row, name, fetched.india, a.stateId, a.cityId, a.locationId, users), reject);
      (Store(address.0, address.1, attempt.0), attempt.1)
  }

  /**
   * The create inside its savepoint: the listing is appended, or it is refused and the
   * database's error is kept under the owner name.
   */
  function Attempt(listings: seq<Listing>, name: string, vals: Listing, reject: Listing -> Option<string>)
    : (r: (seq<Listing>, Option<Failure>))
    ensures reject(vals).None? ==> r.0 == listings + [vals] && r.1.None?
    ensures reject(vals).Some? ==> r.0 == listings && r.1 == Some(Failure(name, reject(vals).value))
  {
    match reject(vals)
    case Some(e) => (listings, Some(Failure(name, e)))
    case None => (listings + [vals], None)
  }

  /** The failures of a pass, as a list. */
  function Failed(failure: Option<Failure>): seq<Failure> {
    if failure.Some? then [failure.value] else []
  }

  /** One pass of a row loop: the tables after the row, and the row's failure if it has one. */
  type RowPass = (Store, Row) -> (Store, Option<Failure>)

  /** A row loop over `rows` in file order: the tables afterwards and the failures, in row order. */
  function RunRows(rows: seq<Row>, pass: RowPass, s: Store): (Store, seq<Failure>)
    decreases |rows|
  {
    if rows == [] then (s, [])
    else
      var before := RunRows(rows[..|rows| - 1], pass, s);
      var step := pass(before.0, rows[|rows| - 1]);
      (step.0, before.1 + Failed(step.1))
  }

  /** The pass of the property import's row loop. */
  function ImportPass(states: seq<CountryState>, users: seq<User>, fetched: Prefetched,
                      reject: Listing -> Option<string>): RowPass
    requires fetched.gujarat < |states| && fetched.maharashtra < |states|
  {
    (s: Store, row: Row) => RowStep(row, states, users, s, fetched, reject)
  }

  /**
   * One pass of the row loop: a row without an owner name is skipped; otherwise its address
   * is resolved and the listing is created, or its failure returned.
   */
  method ImportRow(row: Row, states: seq<CountryState>, users: seq<User>, cities: CityTable,
                   locations: LocationTable, listings: ListingTable, fetched: Prefetched,
                   reject: Listing -> Option<string>)
    returns (failure: Option<Failure>)
    requires cities.Valid(states) && locations.Valid(|cities.rows|)
    requires fetched.gujarat < |states| && fetched.maharashtra < |states|
    modifies cities, locations, listings
    ensures cities.Valid(states) && locations.Valid(|cities.rows|)
    ensures CustomerName(row).None? ==>
              && failure.None? && cities.rows == old(cities.rows) && locations.rows == old(locations.rows)
              && listings.rows == old(listings.rows)
    ensures CustomerName(row).Some? ==>
      var name := CustomerName(row).value;
      var address := AddressLookup(row, states, old(cities.rows), old(locations.rows), fetched);
      var a := address.2;
      var vals := ListingVals(row, name, fetched.india, a.stateId, a.cityId, a.locationId, users);
      && cities.rows == address.0 && locations.rows == address.1
      && (failure.Some? <==> reject(vals).Some?)
      && (failure.Some? ==> failure.value == Failure(name, reject(vals).value) && listings.rows == old(listings.rows))
      && (failure.None? ==> listings.rows == old(listings.rows) + [vals])
  {
    var customer := CustomerName(row);
    if customer.None? {
      return None;
    }
    var address := ResolveAddress(row, states, cities, locations, fetched);
    var vals := ListingVals(row, customer.value, fetched.india, address.stateId, address.cityId,
                            address.locationId, users);
    var error := reject(vals);
    if error.Some? {
      return Some(Failure(customer.value, error.value));
    }
    var _ := listings.Create(vals);
    return None;
  }

  /** One pass of the row loop, continuing the failures collected over the rows before it. */
  method ImportNextRow(rows: seq<Row>, i: nat, states: seq<CountryState>, users: seq<User>, cities: CityTable,
                       locations: LocationTable, listings: ListingTable, fetched: Prefetched,
                       reject: Listing -> Option<string>, failures: seq<Failure>, ghost s0: Store)
    returns (failures': seq<Failure>)
    requires i < |rows|
    requires cities.Valid(states) && locations.Valid(|cities.rows|)
    requires fetched.gujarat < |states| && fetched.maharashtra < |states|
    requires Store(cities.rows, locations.rows, listings.rows)
             == RunRows(rows[..i], ImportPass(states, users, fetched, reject), s0).0
    requires failures == RunRows(rows[..i], ImportPass(states, users, fetched, reject), s0).1
    modifies cities, locations, listings
    ensures cities.Valid(states) && locations.Valid(|cities.rows|)
    ensures Store(cities.rows, locations.rows, listings.rows)
            == RunRows(rows[..i + 1], ImportPass(states, users, fetched, reject), s0).0
    ensures failures' == RunRows(rows[..i + 1], ImportPass(states, users, fetched, reject), s0).1
  {
    assert rows[..i + 1][..i] == rows[..i];
    ghost var step := RowStep(rows[i], states, users, Store(cities.rows, locations.rows, listings.rows), fetched, reject);
    var failure := ImportRow(rows[i], states, users, cities, locations, listings, fetched, reject);
    assert Store(cities.rows, locations.rows, listings.rows) == step.0 && failure == step.1;
    failures' := failures + Failed(failure);
  }

  /** The row loop of the import: every row is tried in file order, and failures are collected. */
  method ImportRows(rows: seq<Row>, states: seq<CountryState>, users: seq<User>, cities: CityTable,
                    locations: LocationTable, listings: ListingTable, fetched: Prefetched,
                    reject: Listing -> Option<string>)
    returns (failures: seq<Failure>)
    requires cities.Valid(states) && locations.Valid(|cities.rows|)
    requires fetched.gujarat < |states| && fetched.maharashtra < |states|
    modifies cities, locations, listings
    ensures cities.Valid(states) && locations.Valid(|cities.rows|)
    ensures Store(cities.rows, locations.rows, listings.rows)
              == RunRows(rows, ImportPass(states, users, fetched, reject),
                         Store(old(cities.rows), old(locations.rows), old(listings.rows))).0
    ensures failures
              == RunRows(rows, ImportPass(states, users, fetched, reject),
                         Store(old(cities.rows), old(locations.rows), old(listings.rows))).1
  {
    failures := [];
    ghost var s0 := Store(cities.rows, locations.rows, listings.rows);
    for i := 0 to |rows|
      invariant cities.Valid(states) && locations.Valid(|cities.rows|)
      invariant Store(cities.rows, locations.rows, listings.rows)
                == RunRows(rows[..i], ImportPass(states, users, fetched, reject), s0).0
      invariant failures == RunRows(rows[..i], ImportPass(states, users, fetched, reject), s0).1
    {
      failures := ImportNextRow(rows, i, states, users, cities, locations, listings, fetched, reject, failures, s0);
    }
    assert rows[..|rows|] == rows;
  }

  // ---------------------------------------------------------------- what one pass does

  /** A pass keeps every row the tables held. */
  predicate KeepsRows(pass: RowPass, s: Store, row: Row) {
    var step := pass(s, row);
    s.cities <= step.0.cities && s.locations <= step.0.locations && s.listings <= step.0.listings
  }

  /** A pass turns a named row into exactly one listing or one failure, and an unnamed row into neither. */
  predicate CountsRow(pass: RowPass, s: Store, row: Row) {
    var step := pass(s, row);
    |step.0.listings| - |s.listings| + |Failed(step.1)| == if CustomerName(row).Some? then 1 else 0
  }

  /** A pass adds only admissible listings placed in India. */
  predicate AddsInIndia(pass: RowPass, s: Store, row: Row, india: nat) {
    ImportedFrom(pass(s, row).0.listings, |s.listings|, india)
  }

  /** A pass fails nothing and adds a listing under the row's owner name, if it has one. */
  predicate CreatesNamed(pass: RowPass, s: Store, row: Row) {
    var step := pass(s, row);
    step.1.None? && ListingNames(step.0.listings) == ListingNames(s.listings) + OwnerNameOf(row)
  }

  /** A pass adds no listing and fails the row under its owner name, if it has one. */
  predicate FailsNamed(pass: RowPass, s: Store, row: Row) {
    var step := pass(s, row);
    step.0.listings == s.listings && FailureNames(Failed(step.1)) == OwnerNameOf(row)
  }

  /** The owner name of a row, as a list of at most one name. */
  function OwnerNameOf(row: Row): seq<string> {
    if CustomerName(row).Some? then [CustomerName(row).value] else []
  }

  /** The owner names of the rows that have one, in file order. */
  function OwnerNames(rows: seq<Row>): (r: seq<string>)
    ensures |r| == NamedRows(rows)
    decreases |rows|
  {
    if rows == [] then []
    else
      var n := |rows| - 1;
      NamedRowsStep(rows, n);
      assert rows[..n + 1] == rows;
      OwnerNames(rows[..n]) + OwnerNameOf(rows[n])
  }

  function FailureNames(failures: seq<Failure>): seq<string> {
    seq(|failures|, i requires 0 <= i < |failures| => failures[i].customerName)
  }

  function ListingNames(listings: seq<Listing>): seq<string> {
    seq(|listings|, i requires 0 <= i < |listings| => listings[i].name)
  }

  lemma ListingNamesAppend(listings: seq<Listing>, more: seq<Listing>)
    ensures ListingNames(listings + more) == ListingNames(listings) + ListingNames(more)
  {
  }

  lemma FailureNamesAppend(failures: seq<Failure>, more: seq<Failure>)
    ensures FailureNames(failures + more) == FailureNames(failures) + FailureNames(more)
  {
  }

  /** Resolving an address only appends to the city and location tables. */
  lemma AddressLookupGrows(row: Row, states: seq<CountryState>, cities: seq<City>, locations: seq<Location>,
                           fetched: Prefetched)
    requires fetched.gujarat < |states| && fetched.maharashtra < |states|
    ensures cities <= AddressLookup(row, states, cities, locations, fetched).0
    ensures locations <= AddressLookup(row, states, cities, locations, fetched).1
  {
  }

  /** The import's pass keeps every row of the tables. */
  lemma ImportPassKeepsRows(states: seq<CountryState>, users: seq<User>, fetched: Prefetched,
                            reject: Listing -> Option<string>, s: Store, row: Row)
    requires fetched.gujarat < |states| && fetched.maharashtra < |states|
    ensures KeepsRows(ImportPass(states, users, fetched, reject), s, row)
  {
    match CustomerName(row)
    case None =>
    case Some(name) =>
      var address := AddressLookup(row, states, s.cities, s.locations, fetched);
      AddressLookupGrows(row, states, s.cities, s.locations, fetched);
      var a := address.2;
      var vals := ListingVals(row, name, fetched.india, a.stateId, a.cityId, a.locationId, users);
      var attempt := Attempt(s.listings, name, vals, reject);
      assert RowStep(row, states, users, s, fetched, reject) == (Store(address.0, address.1, attempt.0), attempt.1);
  }

  /** The import's pass turns a named row into one listing or one failure. */
  lemma ImportPassCountsRow(states: seq<CountryState>, users: seq<User>, fetched: Prefetched,
                            reject: Listing -> Option<string>, s: Store, row: Row)
    requires fetched.gujarat < |states| && fetched.maharashtra < |states|
    ensures CountsRow(ImportPass(states, users, fetched, reject), s, row)
  {
  }

  /** The import's pass adds only admissible listings placed in India. */
  lemma ImportPassAddsInIndia(states: seq<CountryState>, users: seq<User>, fetched: Prefetched,
                              reject: Listing -> Option<string>, s: Store, row: Row)
    requires fetched.gujarat < |states| && fetched.maharashtra < |states|
    ensures AddsInIndia(ImportPass(states, users, fetched, reject), s, row, fetched.india)
  {
  }

  /** With every create accepted, the import's pass adds the row's listing under its owner name. */
  lemma ImportPassCreatesNamed(states: seq<CountryState>, users: seq<User>, fetched: Prefetched,
                               reject: Listing -> Option<string>, s: Store, row: Row)
    requires fetched.gujarat < |states| && fetched.maharashtra < |states|
    requires forall l :: reject(l).None?
    ensures CreatesNamed(ImportPass(states, users, fetched, reject), s, row)
  {
    var step := RowStep(row, states, users, s, fetched, reject);
    if CustomerName(row).Some? {
      var added := step.0.listings[|s.listings|..];
      assert step.0.listings == s.listings + added;
      ListingNamesAppend(s.listings, added);
    }
  }

  /** With every create refused, the import's pass fails the row under its owner name. */
  lemma ImportPassFailsNamed(states: seq<CountryState>, users: seq<User>, fetched: Prefetched,
                             reject: Listing -> Option<string>, s: Store, row: Row)
    requires fetched.gujarat < |states| && fetched.maharashtra < |states|
    requires forall l :: reject(l).Some?
    ensures FailsNamed(ImportPass(states, users, fetched, reject), s, row)
  {
  }

  // ---------------------------------------------------------------- what the loop does

  lemma {:induction false} RunRowsKeepsRows(rows: seq<Row>, pass: RowPass, s: Store)
    requires forall s': Store, row: Row :: KeepsRows(pass, s', row)
    ensures s.cities <= RunRows(rows, pass, s).0.cities
    ensures s.locations <= RunRows(rows, pass, s).0.locations
    ensures s.listings <= RunRows(rows, pass, s).0.listings
    decreases |rows|
  {
    if rows != [] {
      var n := |rows| - 1;
      RunRowsKeepsRows(rows[..n], pass, s);
      assert KeepsRows(pass, RunRows(rows[..n], pass, s).0, rows[n]);
    }
  }

  lemma {:induction false} RunRowsCounts(rows: seq<Row>, pass: RowPass, s: Store)
    requires forall s': Store, row: Row :: CountsRow(pass, s', row)
    ensures |RunRows(rows, pass, s).0.listings| - |s.listings| + |RunRows(rows, pass, s).1| == NamedRows(rows)
    decreases |rows|
  {
    if rows == [] {
      assert NamedRows(rows) == 0;
    } else {
      var n := |rows| - 1;
      RunRowsCounts(rows[..n], pass, s);
      assert CountsRow(pass, RunRows(rows[..n], pass, s).0, rows[n]);
      NamedRowsStep(rows, n);
      assert rows[..n + 1] == rows;
    }
  }

  lemma {:induction false} RunRowsInIndia(rows: seq<Row>, pass: RowPass, s: Store, india: nat)
    requires forall s': Store, row: Row :: KeepsRows(pass, s', row) && AddsInIndia(pass, s', row, india)
    ensures ImportedFrom(RunRows(rows, pass, s).0.listings, |s.listings|, india)
    decreases |rows|
  {
    if rows != [] {
      var n := |rows| - 1;
      RunRowsInIndia(rows[..n], pass, s, india);
      RunRowsKeepsRows(rows[..n], pass, s);
      var before := RunRows(rows[..n], pass, s).0;
      assert KeepsRows(pass, before, rows[n]) && AddsInIndia(pass, before, rows[n], india);
      var after := pass(before, rows[n]).0.listings;
      forall k | |s.listings| <= k < |after|
        ensures Admissible(after[k]) && after[k].countryId == Some(india)
      {
        if k < |before.listings| {
          assert after[k] == before.listings[k];
        }
      }
    }
  }

  lemma {:induction false} RunRowsCreatesNamed(rows: seq<Row>, pass: RowPass, s: Store)
    requires forall s': Store, row: Row :: CreatesNamed(pass, s', row)
    ensures RunRows(rows, pass, s).1 == []
    ensures ListingNames(RunRows(rows, pass, s).0.listings) == ListingNames(s.listings) + OwnerNames(rows)
    decreases |rows|
  {
    if rows == [] {
      assert OwnerNames(rows) == [];
    } else {
      var n := |rows| - 1;
      RunRowsCreatesNamed(rows[..n], pass, s);
      assert CreatesNamed(pass, RunRows(rows[..n], pass, s).0, rows[n]);
    }
  }

  lemma {:induction false} RunRowsFailsNamed(rows: seq<Row>, pass: RowPass, s: Store)
    requires forall s': Store, row: Row :: FailsNamed(pass, s', row)
    ensures RunRows(rows, pass, s).0.listings == s.listings
    ensures FailureNames(RunRows(rows, pass, s).1) == OwnerNames(rows)
    decreases |rows|
  {
    if rows == [] {
      assert OwnerNames(rows) == [];
    } else {
      var n := |rows| - 1;
      RunRowsFailsNamed(rows[..n], pass, s);
      var before := RunRows(rows[..n], pass, s);
      assert FailsNamed(pass, before.0, rows[n]);
      FailureNamesAppend(before.1, Failed(pass(before.0, rows[n]).1));
    }
  }

  // ---------------------------------------------------------------- what the import does

  /** The import only appends: the rows each table held before it are kept, in place. */
  lemma ImportKeepsRows(rows: seq<Row>, states: seq<CountryState>, users: seq<User>, s: Store,
                        fetched: Prefetched, reject: Listing -> Option<string>)
    requires fetched.gujarat < |states| && fetched.maharashtra < |states|
    ensures var r := RunRows(rows, ImportPass(states, users, fetched, reject), s);
      s.cities <= r.0.cities && s.locations <= r.0.locations && s.listings <= r.0.listings
  {
    forall s': Store, row: Row ensures KeepsRows(ImportPass(states, users, fetched, reject), s', row) {
      ImportPassKeepsRows(states, users, fetched, reject, s', row);
    }
    RunRowsKeepsRows(rows, ImportPass(states, users, fetched, reject), s);
  }

  /**
   * Every named row ends as a created listing or as a failure: the listings added plus the
   * failures are the rows with an owner name.
   */
  lemma ImportCountsRows(rows: seq<Row>, states: seq<CountryState>, users: seq<User>, s: Store,
                         fetched: Prefetched, reject: Listing -> Option<string>)
    requires fetched.gujarat < |states| && fetched.maharashtra < |states|
    ensures var r := RunRows(rows, ImportPass(states, users, fetched, reject), s);
      |r.0.listings| - |s.listings| + |r.1| == NamedRows(rows)
  {
    forall s': Store, row: Row ensures CountsRow(ImportPass(states, users, fetched, reject), s', row) {
      ImportPassCountsRow(states, users, fetched, reject, s', row);
    }
    RunRowsCounts(rows, ImportPass(states, users, fetched, reject), s);
  }

  /** Every listing the import creates is admissible and placed in India. */
  lemma ImportAddsInIndia(rows: seq<Row>, states: seq<CountryState>, users: seq<User>, s: Store,
                          fetched: Prefetched, reject: Listing -> Option<string>)
    requires fetched.gujarat < |states| && fetched.maharashtra < |states|
    ensures ImportedFrom(RunRows(rows, ImportPass(states, users, fetched, reject), s).0.listings, |s.listings|, fetched.india)
  {
    forall s': Store, row: Row
      ensures KeepsRows(ImportPass(states, users, fetched, reject), s', row)
              && AddsInIndia(ImportPass(states, users, fetched, reject), s', row, fetched.india)
    {
      ImportPassKeepsRows(states, users, fetched, reject, s', row);
      ImportPassAddsInIndia(states, users, fetched, reject, s', row);
    }
    RunRowsInIndia(rows, ImportPass(states, users, fetched, reject), s, fetched.india);
  }

  /**
   * When the database accepts every listing, nothing fails and each named row creates one
   * listing under its owner name, in file order.
   */
  lemma NoneRefusedCreatesInOrder(rows: seq<Row>, states: seq<CountryState>, users: seq<User>, s: Store,
                                  fetched: Prefetched, reject: Listing -> Option<string>)
    requires fetched.gujarat < |states| && fetched.maharashtra < |states|
    requires forall l :: reject(l).None?
    ensures var r := RunRows(rows, ImportPass(states, users, fetched, reject), s);
      r.1 == [] && ListingNames(r.0.listings) == ListingNames(s.listings) + OwnerNames(rows)
  {
    forall s': Store, row: Row ensures CreatesNamed(ImportPass(states, users, fetched, reject), s', row) {
      ImportPassCreatesNamed(states, users, fetched, reject, s', row);
    }
    RunRowsCreatesNamed(rows, ImportPass(states, users, fetched, reject), s);
  }

  /**
   * When the database refuses every listing, nothing is created and the failures carry the
   * owner names of the named rows, in file order.
   */
  lemma AllRefusedFailInOrder(rows: seq<Row>, states: seq<CountryState>, users: seq<User>, s: Store,
                              fetched: Prefetched, reject: Listing -> Option<string>)
    requires fetched.gujarat < |states| && fetched.maharashtra < |states|
    requires forall l :: reject(l).Some?
    ensures var r := RunRows(rows, ImportPass(states, users, fetched, reject), s);
      r.0.listings == s.listings && FailureNames(r.1) == OwnerNames(rows)
  {
    forall s': Store, row: Row ensures FailsNamed(ImportPass(states, users, fetched, reject), s', row) {
      ImportPassFailsNamed(states, users, fetched, reject, s', row);
    }
    RunRowsFailsNamed(rows, ImportPass(states, users, fetched, reject), s);
  }

  /**
   * `action_import_properties`. `reject` stands for the database refusing one create inside
   * its savepoint (the message it raises), something the model's tables do not show.
   */
  method ImportProperties(file: Option<seq<Row>>, countries: seq<Country>, states: seq<CountryState>,
                          users: seq<User>, cities: CityTable, locations: LocationTable,
                          listings: ListingTable, reject: Listing -> Option<string>)
    returns (result: Outcome<ImportError>)
    requires cities.Valid(states) && locations.Valid(|cities.rows|)
    modifies cities, locations, listings
    ensures cities.Valid(states) && locations.Valid(|cities.rows|)
    ensures file.None? ==> result == Fail(NoFile)
    ensures file.Some? && Prefetch(countries, states).Err? ==> result == Fail(Prefetch(countries, states).error)
    ensures file.None? || Prefetch(countries, states).Err? ==>
              unchanged(cities) && unchanged(locations) && unchanged(listings)
    ensures file.Some? && Prefetch(countries, states).Ok? ==>
      var r := RunRows(file.value, ImportPass(states, users, Prefetch(countries, states).value, reject),
                       Store(old(cities.rows), old(locations.rows), old(listings.rows)));
      && Store(cities.rows, locations.rows, listings.rows) == r.0
      && (r.1 == [] ==> result == Pass)
      && (r.1 != [] ==> result == Fail(RowsFailed(r.1)))
    ensures old(cities.rows) <= cities.rows
    ensures old(locations.rows) <= locations.rows
    ensures old(listings.rows) <= listings.rows
    ensures file.Some? && Prefetch(countries, states).Ok? ==>
      && |listings.rows| - |old(listings.rows)| + FailureCount(result) == NamedRows(file.value)
      && ImportedFrom(listings.rows, |old(listings.rows)|, Prefetch(countries, states).value.india)
  {
    if file.None? {
      return Fail(NoFile);
    }
    var fetched := Prefetch(countries, states);
    if fetched.Err? {
      return Fail(fetched.error);
    }
    ghost var s0 := Store(cities.rows, locations.rows, listings.rows);
    ImportKeepsRows(file.value, states, users, s0, fetched.value, reject);
    ImportCountsRows(file.value, states, users, s0, fetched.value, reject);
    ImportAddsInIndia(file.value, states, users, s0, fetched.value, reject);
    var failures := ImportRows(file.value, states, users, cities, locations, listings, fetched.value, reject);
    if failures != [] {
      return Fail(RowsFailed(failures));
    }
    return Pass;
  }
}
