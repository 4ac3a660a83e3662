/**
 * The geographic lookup tables: countries and their states (read only here), and the
 * `res.city` and `res.location` tables that the property import extends
 * (custom_addons/property_listings/models/res_city.py, res_location.py).
 * A record's id is its index in its table.
 */
module Geography {
  import opened Wrappers
  import opened Text
  import opened Tables

  datatype Country = Country(name: string, code: string)

  datatype CountryState = CountryState(name: string, countryId: nat)

  /** A `res.city` record; `countryId` is the stored related field `state_id.country_id`. */
  datatype City = City(name: string, stateId: nat, countryId: nat)

  /** A `res.location` record: a locality of a city. */
  datatype Location = Location(name: string, cityId: nat)

  /** The domain `[('name', '=', name), ('state_id', '=', stateId)]`. */
  function CityNamed(name: string, stateId: nat): City -> bool {
    (c: City) => c.name == name && c.stateId == stateId
  }

  /** The domain `[('name', '=ilike', name), ('city_id', '=', cityId)]`. */
  function LocationLike(name: string, cityId: nat): Location -> bool {
    (l: Location) => ILikeEq(l.name, name) && l.cityId == cityId
  }

  /** The SQL constraint `unique (name, state_id)`. */
  predicate CitiesUnique(rows: seq<City>) {
    forall i, j :: 0 <= i < j < |rows| ==> rows[i].name != rows[j].name || rows[i].stateId != rows[j].stateId
  }

  /** The SQL constraint `unique (name, city_id)`. */
  predicate LocationsUnique(rows: seq<Location>) {
    forall i, j :: 0 <= i < j < |rows| ==> rows[i].name != rows[j].name || rows[i].cityId != rows[j].cityId
  }

  /**
   * The invariants of `res.city`: the name and the state are required, the stored country
   * is the state's country, and no two cities share a name within a state.
   */
  predicate ValidCities(rows: seq<City>, states: seq<CountryState>) {
    && (forall i :: 0 <= i < |rows| ==> rows[i].name != [])
    && (forall i :: 0 <= i < |rows| ==>
          rows[i].stateId < |states| && rows[i].countryId == states[rows[i].stateId].countryId)
    && CitiesUnique(rows)
  }

  /** Adding a named city of a known state, under a name its state does not use yet, keeps the table valid. */
  lemma ValidCitiesAppend(rows: seq<City>, states: seq<CountryState>, name: string, stateId: nat)
    requires ValidCities(rows, states) && name != [] && stateId < |states|
    requires FindFirst(rows, CityNamed(name, stateId)).None?
    ensures ValidCities(rows + [City(name, stateId, states[stateId].countryId)], states)
  {
    var c := City(name, stateId, states[stateId].countryId);
    CitiesUniqueAppend(rows, c);
    var rows' := rows + [c];
    forall i | 0 <= i < |rows'|
      ensures rows'[i].name != [] && rows'[i].stateId < |states| && rows'[i].countryId == states[rows'[i].stateId].countryId
    {
      if i < |rows| {
        assert rows'[i] == rows[i];
      }
    }
  }

  class CityTable {
    var rows: seq<City>

    constructor (initial: seq<City>)
      ensures rows == initial
    {
      rows := initial;
    }

    /** The invariants of `res.city`, on this table. */
    predicate Valid(states: seq<CountryState>)
      reads this
    {
      ValidCities(rows, states)
    }
  }

  /**
   * The invariants of `res.location`: the name and the city are required and no two
   * locations share a name within a city.
   */
  predicate ValidLocations(rows: seq<Location>, cityCount: nat) {
    && (forall i :: 0 <= i < |rows| ==> rows[i].name != [] && rows[i].cityId < cityCount)
    && LocationsUnique(rows)
  }

  /** Adding a title-cased location of a known city that no location there matches keeps the table valid. */
  lemma ValidLocationsAppend(rows: seq<Location>, cityCount: nat, name: string, cityId: nat)
    requires ValidLocations(rows, cityCount) && name != [] && cityId < cityCount
    requires FindFirst(rows, LocationLike(name, cityId)).None?
    ensures ValidLocations(rows + [Location(Title(name), cityId)], cityCount)
  {
    LocationsUniqueAppend(rows, name, cityId);
    var rows' := rows + [Location(Title(name), cityId)];
    forall i | 0 <= i < |rows'|
      ensures rows'[i].name != [] && rows'[i].cityId < cityCount
    {
      if i < |rows| {
        assert rows'[i] == rows[i];
      }
    }
  }

  class LocationTable {
    var rows: seq<Location>

    constructor (initial: seq<Location>)
      ensures rows == initial
    {
      rows := initial;
    }

    /** The invariants of `res.location`, on this table. */
    predicate Valid(cityCount: nat)
      reads this
    {
      ValidLocations(rows, cityCount)
    }
  }

  /** Adding a city no other city of its state is named like keeps the table unique. */
  lemma CitiesUniqueAppend(rows: seq<City>, c: City)
    requires CitiesUnique(rows)
    requires FindFirst(rows, CityNamed(c.name, c.stateId)).None?
    ensures CitiesUnique(rows + [c])
  {
    var rows' := rows + [c];
    forall i, j | 0 <= i < j < |rows'|
      ensures rows'[i].name != rows'[j].name || rows'[i].stateId != rows'[j].stateId
    {
      if j == |rows| {
        assert !CityNamed(c.name, c.stateId)(rows[i]);
      }
    }
  }

  /**
   * Adding a location under a title-cased name keeps the table unique when no location of
   * that city matches the name case-insensitively: a clash would itself be such a match.
   */
  lemma LocationsUniqueAppend(rows: seq<Location>, name: string, cityId: nat)
    requires LocationsUnique(rows)
    requires FindFirst(rows, LocationLike(name, cityId)).None?
    ensures LocationsUnique(rows + [Location(Title(name), cityId)])
  {
    var rows' := rows + [Location(Title(name), cityId)];
    TitleILike(name);
    forall i, j | 0 <= i < j < |rows'|
      ensures rows'[i].name != rows'[j].name || rows'[i].cityId != rows'[j].cityId
    {
      if j == |rows| {
        assert !LocationLike(name, cityId)(rows[i]);
      }
    }
  }

  /** Adding cities keeps every location's city reference valid. */
  lemma LocationsValidGrow(t: LocationTable, a: nat, b: nat)
    requires t.Valid(a) && a <= b
    ensures t.Valid(b)
  {
  }
}
