/**
 * The two dashboard back ends (custom_addons/property_dashboard/models/property_dashboard.py
 * and leads_dashboard.py): counts and one chart over the listing table and over the lead
 * table. Nothing is changed; each call builds a result value.
 */
module Dashboards {
  import opened Wrappers
  import opened Calendar
  import opened Tables
  import opened Grouping
  import opened Listings
  import opened Leads

  /** A chart's `labels` and `values` lists. */
  datatype Chart<K> = Chart(labels: seq<K>, values: seq<nat>)

  /** The chart `read_group` gives for `rows` grouped by `key`. */
  function ChartOf<T, K(==)>(rows: seq<T>, key: T -> K): Chart<K> {
    var g := GroupBy(rows, key);
    Chart(Labels(g), Values(g))
  }

  /** What one chart states: one entry per value present, with its count, adding up to all rows. */
  ghost predicate ChartCounts<T, K(!new)>(c: Chart<K>, rows: seq<T>, key: T -> K) {
    && |c.labels| == |c.values|
    && (forall i, j :: 0 <= i < j < |c.labels| ==> c.labels[i] != c.labels[j])
    && (forall i :: 0 <= i < |c.labels| ==> c.values[i] == Count(rows, KeyIs(key, c.labels[i])))
    && (forall k :: k in c.labels <==> Count(rows, KeyIs(key, k)) > 0)
    && Sum(c.values) == |rows|
  }

  /** `ChartOf` is such a chart. */
  lemma ChartOfCounts<T, K(!new)>(rows: seq<T>, key: T -> K)
    ensures ChartCounts(ChartOf(rows, key), rows, key)
  {
    GroupByChart(rows, key);
  }

  // ---------------------------------------------------------------- property dashboard

  /** The result of `get_kpis`; `error` is the key present only in the fallback. */
  datatype PropertyKpis = PropertyKpis(
    activeListings: nat,
    soldListings: nat,
    newThisMonth: nat,
    listingsByType: Chart<Option<string>>,
    error: Option<string>)

  function IsLive(l: Listing): bool { l.status == Some(Live) }

  function IsSold(l: Listing): bool { l.status == Some(Sold) }

  /** The domain `[('property_register_date', '>=', start)]`; an unset date never matches. */
  function RegisteredSince(start: Day): Listing -> bool {
    (l: Listing) => l.registerDate.Some? && l.registerDate.value >= start
  }

  /** The chart's domain `[('property_status', '=', 'live'), ('property_price', '>', 0)]`. */
  function LivePriced(l: Listing): bool { IsLive(l) && l.price > 0.0 }

  function PropertyTypeOf(l: Listing): Option<string> { l.propertyType }

  function KeepLivePriced(l: Listing): Option<Listing> {
    if LivePriced(l) then Some(l) else None
  }

  /** The live listings with a positive price, the rows the chart groups. */
  function LivePricedRows(listings: seq<Listing>): seq<Listing> {
    Collect(listings, KeepLivePriced)
  }

  /**
   * `get_kpis` on day `today`. `failure` is the exception one of the ORM calls raises, if
   * any; it turns the whole result into the zeroed fallback carrying the message.
   */
  function GetKpis(listings: seq<Listing>, today: Day, failure: Option<string>): PropertyKpis {
    if failure.Some? then PropertyKpis(0, 0, 0, Chart([], []), failure)
    else
      PropertyKpis(
        Count(listings, IsLive),
        Count(listings, IsSold),
        Count(listings, RegisteredSince(MonthStart(today))),
        ChartOf(LivePricedRows(listings), PropertyTypeOf),
        None)
  }

  /** The fallback never raises and reports nothing but zeros, empty lists and the message. */
  lemma KpisFallback(listings: seq<Listing>, today: Day, failure: string)
    ensures var r := GetKpis(listings, today, Some(failure));
            r.activeListings == 0 && r.soldListings == 0 && r.newThisMonth == 0
            && r.listingsByType.labels == [] && r.listingsByType.values == [] && r.error == Some(failure)
  {
  }

  /** On success the live and sold counts are disjoint parts of the table. */
  lemma KpisCounts(listings: seq<Listing>, today: Day)
    ensures var r := GetKpis(listings, today, None);
            && r.error.None?
            && r.activeListings + r.soldListings <= |listings|
            && r.newThisMonth <= |listings|
  {
    CountDisjoint(listings, IsLive, IsSold);
  }

  /**
   * On success the chart has one entry per property type among the live listings with a
   * positive price, with its number of such listings; the counts add up to the number of
   * those listings, which is at most the number of live listings.
   */
  lemma KpisChart(listings: seq<Listing>, today: Day)
    ensures var r := GetKpis(listings, today, None);
            && ChartCounts(r.listingsByType, LivePricedRows(listings), PropertyTypeOf)
            && Sum(r.listingsByType.values) == Count(listings, LivePriced) <= r.activeListings
  {
    ChartOfCounts(LivePricedRows(listings), PropertyTypeOf);
    CollectCount(listings, KeepLivePriced, LivePriced);
    CountMonotone(listings, LivePriced, IsLive);
  }

  /** The chart's rows are exactly live listings with a positive price. */
  lemma LivePricedRowsAre(listings: seq<Listing>)
    ensures forall k :: 0 <= k < |LivePricedRows(listings)| ==> LivePriced(LivePricedRows(listings)[k])
  {
    CollectAll(listings, KeepLivePriced, LivePriced);
  }

  // ---------------------------------------------------------------- leads dashboard

  /** The result of `get_leads_kpis`: the error dictionary, or the counts and the stage chart. */
  datatype LeadsKpis =
    | LeadsUnavailable(error: string)
    | LeadsKpis(totalLeads: nat, actionableLeads: nat, stageChart: Chart<Status>)

  const LeadsMissing := "The 'leads' module or  'lead.score' model is not available."

  function IsActionable(l: Lead): bool { l.isActionable }

  function StatusOf(l: Lead): Status { l.currentStatus }

  /** `get_leads_kpis`; `installed` says whether the `lead.score` model is in the registry. */
  function GetLeadsKpis(leads: seq<Lead>, installed: bool): LeadsKpis {
    if !installed then LeadsUnavailable(LeadsMissing)
    else LeadsKpis(|leads|, Count(leads, IsActionable), ChartOf(leads, StatusOf))
  }

  /**
   * Without the model the result is only the error. Otherwise the actionable leads are
   * some of all leads, and the stage chart has one entry per current status in use, with
   * its number of leads; since every lead has a status, the counts add up to the total.
   */
  lemma LeadsKpisCounts(leads: seq<Lead>, installed: bool)
    ensures GetLeadsKpis(leads, installed).LeadsUnavailable? <==> !installed
    ensures installed ==>
              var r := GetLeadsKpis(leads, installed);
              && r.totalLeads == |leads|
              && r.actionableLeads <= r.totalLeads
              && ChartCounts(r.stageChart, leads, StatusOf)
              && Sum(r.stageChart.values) == r.totalLeads
  {
    ChartOfCounts(leads, StatusOf);
  }
}
