# Cleardeals real-estate addons: a verified model of the data handling

This project models, in Dafny, the record-keeping logic of the Cleardeals Odoo addons:

- the property CSV import with its field cleaners, its state rule and the search-or-create of
  cities and locations;
- the lead CSV import with its status table and user fallback;
- the BigQuery lead fetch, which upserts `lead.score` records keyed by phone;
- the computed follow-up and "actionable today" fields of a lead;
- the WhatsApp reply classification, the renewal message onchanges and the listing expiry sweep;
- the training `estate` addon: total area, best price, sold/cancel transitions, offer
  deadline/validity and the one-accepted-offer rule;
- the two dashboard back ends, which count records and group them into a chart;
- the uniqueness constraints of cities and locations.

Conventions:

- Every ORM model is a table: a class whose `rows: seq<...>` field its methods update in
  place. A record's id is its index.
- `search(domain, limit=1)` is `Tables.FindFirst`, `search_count` is `Tables.Count`, and
  `read_group` on one field is `Grouping.GroupBy`.
- Dates are day numbers in the style of Python's `date.toordinal()`. "Today" and "now" are
  parameters. A lead's computes read two dates, `Leads.Clocks`: the user's date
  (`context_today`) for the follow-up and the server's date (`date.today()`) for the
  actionable flag.
- Floats are `real`. Python's `float`, `int`, `str.strip`, `str.lower`, `str.title` and
  `strptime` for `%Y-%m-%d` and `%d/%m/%Y` are written out as functions.
- The two wizards define `_clean_string` identically, so it is modelled once, as
  `Cleaning.CleanString`.
- CSV files are already-decoded rows: maps from column name to text.
- The BigQuery service is a value holding the connection error, the query error and the
  table it would read.

Modules:

- Basic modules: `Wrappers`, `Text`, `Calendar`, `Tables`, `Users` and `Grouping`.
- Source modules, one per source file or pair of files: `Cleaning`, `Geography`,
  `PropertyImport`, `Listings`, `LeadImport`, `Leads`, `BqFetch`, `WhatsApp`, `Renewal`,
  `Estate` and `Dashboards`.

## Behaviour of the code worth knowing

- **State of an imported property.** The code returns Maharashtra exactly when the cleaned
  city contains "pune". Every other branch, including the table of misspellings, returns
  Gujarat, so the state column never changes the result
  (`PropertyImport.ResolveStateIgnoresStateColumn`).
- **Errors during the BigQuery fetch.** The BigQuery loop has no per-row `try`. A rejected
  `create` or `write` aborts the whole run instead of skipping the row.
- **"No Requirements" status.** The lead status table has the key `'no requiremnets'`, so
  the status text "No Requirements" maps to `lead` (`LeadImport.NoRequirementsOnlyWhenMisspelt`).

## Model

| member | source | states |
|---|---|---|
| Tables.FindFirst | custom_addons/property_listings/models/property_import_wizard.py:157-160 | `search(..., limit=1)`: the first record in table order matching the domain, and no match when none does |
| Tables.Count | custom_addons/property_dashboard/models/property_dashboard.py:22-23 | `search_count`: at most the table size; 0 exactly when no record matches; the size exactly when all do |
| Tables.CollectedFrom | custom_addons/estate/models/estate_property.py:73 | every value of a `mapped` list comes from some record |
| Text.Strip | custom_addons/property_listings/models/property_import_wizard.py:23 | `str.strip()`: no longer than the input, no whitespace at either end |
| Text.StripExact | custom_addons/property_listings/models/property_import_wizard.py:23 | for any runs of white space before and after a text that neither starts nor ends with white space, stripping gives exactly that text |
| Text.StripIdempotent | custom_addons/property_listings/models/property_import_wizard.py:23 | stripping twice is stripping once |
| Text.TitleILike | custom_addons/property_listings/models/property_import_wizard.py:190 | a title-cased name still matches the original under `=ilike` |
| Text.AfterLastFinds | custom_addons/property_renewal/models/renewal_message.py:55-59 | `split(h)[-1]` is the text after an occurrence exactly when `h` occurs |
| Text.AfterLastIsLast | custom_addons/property_renewal/models/renewal_message.py:55-59 | the text after the last occurrence of `h` contains no `h` |
| Text.AfterLastPreceded | custom_addons/property_renewal/models/renewal_message.py:55-59 | `h` followed by `split(h)[-1]` is a suffix of the name |
| Calendar.ParseFormatIso | custom_addons/property_listings/models/property_import_wizard.py:55-62 | `strptime(..., '%Y-%m-%d')` reads back any valid date written in that format |
| Calendar.ParseFormatDmy | custom_addons/leads/models/lead_score_bq_wizard.py:99 | `strptime(..., '%d/%m/%Y')` reads back any valid date written in that format |
| Calendar.FormatsDisjoint | custom_addons/property_listings/models/property_import_wizard.py:55 | no text parses under both default date formats |
| Cleaning.CleanString | custom_addons/property_listings/models/property_import_wizard.py:19-26 | None exactly for a missing value or one whose trimmed, lower-cased text is '', 'not filled', 'n/a' or 'null'; otherwise non-empty trimmed text equal to the input ignoring case, lower-case when asked, the trimmed text otherwise |
| Cleaning.CleanStringIdempotent | custom_addons/leads/models/lead_import_wizard.py:18-25 | cleaning a cleaned value again changes nothing |
| Cleaning.CleanFloat | custom_addons/property_listings/models/property_import_wizard.py:28-42 | never fails: a missing value or text `float()` rejects gives the default |
| Cleaning.CleanFloatLakhs | custom_addons/property_listings/models/property_import_wizard.py:34-36 | a number followed by "Lacs" in any case and spacing is scaled by 100000 |
| Cleaning.CleanFloatCrores | custom_addons/property_listings/models/property_import_wizard.py:34-38 | a number followed by "Cr" is scaled by 10000000, the 'lacs' test failing first |
| Cleaning.CleanFloatPlain | custom_addons/property_listings/models/property_import_wizard.py:39-42 | a plain number is read as is, the default when `float()` rejects it |
| Cleaning.CleanFloatExample | custom_addons/property_listings/models/property_import_wizard.py:34-36 | "12.5 Lacs" gives 1250000.0 |
| Cleaning.CleanInt | custom_addons/property_listings/models/property_import_wizard.py:44-53 | never fails: a missing value or text `int()` rejects after dropping commas gives the default |
| Cleaning.CleanIntGrouped | custom_addons/property_listings/models/property_import_wizard.py:44-53 | digits grouped with commas give the number the digits spell once the commas are dropped, whatever the default |
| Cleaning.ParseFirstFormat | custom_addons/property_listings/models/property_import_wizard.py:60-66 | the date of the first format in list order that parses, else today |
| Cleaning.CleanDate | custom_addons/property_listings/models/property_import_wizard.py:55-66 | None exactly when the cleaned value is missing; otherwise the first-format date or today |
| Cleaning.FirstParsedUnique | custom_addons/property_listings/models/property_import_wizard.py:60-64 | when some format parses, the first-format rule admits one result |
| Cleaning.DefaultFormatsReadIso | custom_addons/property_listings/models/property_import_wizard.py:55-62 | with the default formats, an ISO date text gives that date |
| Cleaning.DefaultFormatsReadDmy | custom_addons/property_listings/models/property_import_wizard.py:55-62 | with the default formats, a DD/MM/YYYY text gives that date, the ISO format having failed |
| Cleaning.MapSelectionField | custom_addons/property_listings/models/property_import_wizard.py:68-121 | None for a missing value or one whose lower-cased text is '', 'not filled' or 'n/a'; otherwise the field table's entry for the lower-cased value; any result is a key of the field's selection |
| Cleaning.MapSelectionIgnoresCase | custom_addons/property_listings/models/property_import_wizard.py:118 | the lookup is case-insensitive |
| Cleaning.MapSelectionUnknownField | custom_addons/property_listings/models/property_import_wizard.py:118 | a field without a table always gives None |
| Cleaning.MapSelectionFourMonths | custom_addons/property_listings/models/property_import_wizard.py:94-95 | '4-Months' and '5-Months' map to '3' |
| Cleaning.MapSelectionUntrimmed | custom_addons/property_listings/models/property_import_wizard.py:116-118 | the value is not trimmed: ' live' is not found |
| Geography.CitiesUniqueAppend | custom_addons/property_listings/models/res_city.py:12-14 | adding a city no city of its state is named like keeps (name, state) unique |
| Geography.LocationsUniqueAppend | custom_addons/property_listings/models/res_location.py:11-13 | adding a title-cased location no location of its city matches case-insensitively keeps (name, city) unique |
| Geography.ValidCitiesAppend | custom_addons/property_listings/models/res_city.py:7-14 | adding a named city, with its state's country, that no city of its state matches keeps the city table valid |
| Geography.ValidLocationsAppend | custom_addons/property_listings/models/res_location.py:7-13 | adding a named title-cased location of a known city that no location there matches keeps the location table valid |
| PropertyImport.ResolveState | custom_addons/property_listings/models/property_import_wizard.py:123-146 | the state is always Gujarat or Maharashtra |
| PropertyImport.ResolveStateMaharashtraIff | custom_addons/property_listings/models/property_import_wizard.py:125-127 | Maharashtra exactly when the cleaned city contains "pune" |
| PropertyImport.ResolveStateIgnoresStateColumn | custom_addons/property_listings/models/property_import_wizard.py:129-146 | the state column never changes the result |
| PropertyImport.CityNameOf | custom_addons/property_listings/models/property_import_wizard.py:150-154 | no name exactly when the cleaned city is missing; otherwise a non-empty title-cased name equal to the trimmed cell ignoring case |
| PropertyImport.CityLookup | custom_addons/property_listings/models/property_import_wizard.py:148-167 | no name: no city and the table unchanged; otherwise the first city of that name and state, with the table unchanged when one exists and exactly that one city appended when none does |
| PropertyImport.GetOrCreateCity | custom_addons/property_listings/models/property_import_wizard.py:148-167 | the city table and the result are those `CityLookup` gives for the cell's name; the table stays valid |
| PropertyImport.LocationName | custom_addons/property_listings/models/property_import_wizard.py:175-180 | a non-empty name no longer than the text |
| PropertyImport.LocationNameAfterFirstHyphen | custom_addons/property_listings/models/property_import_wizard.py:176-177 | only the trimmed text after the first hyphen is kept |
| PropertyImport.LocationNameWithoutHyphen | custom_addons/property_listings/models/property_import_wizard.py:175-176 | without a hyphen the cleaned text is the name |
| PropertyImport.LocationNameOf | custom_addons/property_listings/models/property_import_wizard.py:171-180 | a missing location gives no name; a name is never empty |
| PropertyImport.LocationLookup | custom_addons/property_listings/models/property_import_wizard.py:169-193 | no name: no location and the table unchanged; otherwise the first location of the city matching under `=ilike`, or exactly one new title-cased location appended when none matches |
| PropertyImport.GetOrCreateLocation | custom_addons/property_listings/models/property_import_wizard.py:169-193 | the location table and the result are those `LocationLookup` gives for the cell's name; the table stays valid |
| PropertyImport.FindUserByName | custom_addons/property_listings/models/property_import_wizard.py:195-204 | None for a missing name; otherwise the first user matching under `=ilike`, and None only when no user matches |
| PropertyImport.ListingVals | custom_addons/property_listings/models/property_import_wizard.py:246-299 | the row's values pass the listing's checks and carry the owner name and the resolved country, state, city and location |
| PropertyImport.RelationshipManagerColumn | custom_addons/property_listings/models/property_import_wizard.py:242 | the RM is the user `_find_user_by_name` finds for the column 'Assignee)' and matches that cell under `=ilike`; without that column there is no RM |
| PropertyImport.SalesExecutiveColumn | custom_addons/property_listings/models/property_import_wizard.py:243 | the sales executive is the user found for the 'Sales_Executive' cell, and none when the column is missing |
| PropertyImport.ListingValsTextCells | custom_addons/property_listings/models/property_import_wizard.py:248-292 | phone, address, tag, BHK, residential and commercial type and link are each the trimmed cell, or unset exactly when the cell is missing, blank or a placeholder |
| PropertyImport.ListingValsSelections | custom_addons/property_listings/models/property_import_wizard.py:258-263 | property type, listing type and current status are the mapped selection cells; the fields the values leave out keep their defaults |
| PropertyImport.Prefetch | custom_addons/property_listings/models/property_import_wizard.py:215-224 | India and its Gujarat and Maharashtra, or the error naming what is missing |
| PropertyImport.PrefetchFailsIff | custom_addons/property_listings/models/property_import_wizard.py:217-224 | the prefetch fails exactly when India or one of the two states is missing |
| PropertyImport.ResolveAddress | custom_addons/property_listings/models/property_import_wizard.py:236-240 | the state rule's state, a city when found or created, and a location only under a city |
| PropertyImport.ImportRow | custom_addons/property_listings/models/property_import_wizard.py:229-308 | a row without a name changes nothing; otherwise the city and location tables are the lookups' results, and the row fails exactly when `create` refuses its values: with that error under the owner name and no listing, or else with exactly those values appended |
| PropertyImport.ImportRows | custom_addons/property_listings/models/property_import_wizard.py:229-308 | the tables and the failures are those of running the rows one after another in file order |
| PropertyImport.ImportKeepsRows | custom_addons/property_listings/models/property_import_wizard.py:229-308 | a run only appends: every city, location and listing there before is still there |
| PropertyImport.ImportCountsRows | custom_addons/property_listings/models/property_import_wizard.py:229-308 | each named row adds one listing or one failure, and an unnamed row neither |
| PropertyImport.ImportAddsInIndia | custom_addons/property_listings/models/property_import_wizard.py:229-308 | every listing a run adds is admissible and in India |
| PropertyImport.NoneRefusedCreatesInOrder | custom_addons/property_listings/models/property_import_wizard.py:229-308 | when `create` refuses nothing, there are no failures and the new listings carry the rows' owner names in file order |
| PropertyImport.AllRefusedFailInOrder | custom_addons/property_listings/models/property_import_wizard.py:229-314 | when `create` refuses everything, no listing is added and the failures name the rows' owners in file order |
| PropertyImport.ImportProperties | custom_addons/property_listings/models/property_import_wizard.py:206-316 | no file or a failed prefetch: that error and no change; otherwise the tables are those of running every row, and the result is success exactly when no row failed, else the consolidated error listing the failures |
| Listings.DefaultListing | custom_addons/property_listings/models/property_listing.py:17-33 | listing type 'sell' and country India by default |
| Listings.ExpireOne | custom_addons/property_listings/models/property_listing.py:90-94 | the status changes, to expired, exactly when the listing is live, has a validity and a register date, and today is after the register date plus the validity in months |
| Listings.SweptIdempotent | custom_addons/property_listings/models/property_listing.py:88-94 | a second sweep on the same day changes nothing |
| Listings.ExpiryPersists | custom_addons/property_listings/models/property_listing.py:92-94 | a listing that expires today would expire on any later day |
| Listings.SweepOnlyExpiresLive | custom_addons/property_listings/models/property_listing.py:90-94 | the sweep touches only live listings and only makes them expired |
| Listings.ListingTable.ExpireListings | custom_addons/property_listings/models/property_listing.py:88-94 | the table becomes the swept table |
| Leads.FindStatus | custom_addons/leads/models/lead_score.py:18-35 | a status found has the key; none found means no candidate has it |
| Leads.StatusOfKey | custom_addons/leads/models/lead_score.py:18-35 | a status read from a stored key has that key |
| Leads.KeyInjective | custom_addons/leads/models/lead_score.py:18-35 | the 16 statuses have distinct keys |
| Leads.StatusKeyRoundTrip | custom_addons/leads/models/lead_score.py:18-35 | reading a status's key gives the status back |
| Leads.StatusOfKeyAcceptsKeys | custom_addons/leads/models/lead_score.py:18-85 | a stored text is accepted exactly when it is one of the keys |
| Leads.FollowUp | custom_addons/leads/models/lead_score.py:101-110 | a booked site visit gives the day after the visit; otherwise an unset date becomes the user's today and a set one is kept |
| Leads.Inverse | custom_addons/leads/models/lead_score.py:112-119 | fails only for a scheduled visit without a follow-up date; it changes only the site-visit date, to the follow-up minus one day |
| Leads.OnchangeStatus | custom_addons/leads/models/lead_score.py:121-125 | any status other than site_visit_scheduled sets the follow-up to the user's today; nothing else changes |
| Leads.FollowUpIdempotent | custom_addons/leads/models/lead_score.py:101-110 | recomputing the follow-up changes nothing |
| Leads.InverseIdempotent | custom_addons/leads/models/lead_score.py:112-119 | applying the inverse twice is applying it once |
| Leads.ComputeThenInverse | custom_addons/leads/models/lead_score.py:105-119 | a booked visit gives the follow-up visit + 1, and the inverse then restores the visit date |
| Leads.InverseThenCompute | custom_addons/leads/models/lead_score.py:105-119 | a follow-up set by hand becomes visit + 1 after the inverse, and recomputing gives it back |
| Leads.OnchangeMakesActionable | custom_addons/leads/models/lead_score.py:96-125 | after the onchange to another status, the lead is actionable exactly when the user's date is not ahead of the server's |
| Leads.NewLead | custom_addons/leads/models/lead_score.py:10-110 | `create` succeeds exactly when the name is set and both statuses are keys; the stored lead has the given name, phone, RM, score, details and visit date, `state` defaults to lead, the follow-up is the day after a scheduled visit and otherwise the user's today, and the lead is actionable exactly when that follow-up is not after the server's today |
| Leads.Written | custom_addons/leads/models/lead_score.py:10-110 | `write` succeeds on the same condition; the given fields replace the old ones, absent keys keep their old values, the follow-up is recomputed (the day after a scheduled visit, else the old date, or the user's today when unset), and the actionable flag compares it with the server's today |
| Leads.LeadTable.Create | custom_addons/leads/models/lead_score.py:10-110 | when `NewLead` accepts the values, exactly its lead, with the user's follow-up and the server's actionable flag, is appended under the next id; otherwise nothing changes; the table stays valid |
| Leads.LeadTable.Write | custom_addons/leads/models/lead_score.py:10-110 | when `Written` accepts the values, the lead at the id becomes exactly its lead, with the user's follow-up and the server's actionable flag; otherwise nothing changes; the table stays valid |
| Leads.LeadTable.ComputeNextFollowUp | custom_addons/leads/models/lead_score.py:101-110 | each lead of the recordset gets its computed follow-up; others are unchanged |
| Leads.LeadTable.InverseNextFollowUp | custom_addons/leads/models/lead_score.py:112-119 | the leads before the first failing one get the inverse; the failure position is reported |
| Leads.LeadTable.ComputeIsActionable | custom_addons/leads/models/lead_score.py:93-98 | a lead of the recordset is actionable exactly when its follow-up is unset or not after the server's today; nothing else changes |
| LeadImport.FindUserOrAdmin | custom_addons/leads/models/lead_import_wizard.py:27-42 | the admin for a missing name or no match; otherwise the first user matching under `=ilike` |
| LeadImport.FindPropertyByName | custom_addons/leads/models/lead_import_wizard.py:44-51 | None for empty, 'not filled' or 'n/a'; otherwise the first listing matching under `=ilike`, and None only when none does |
| LeadImport.NullIsAPropertyName | custom_addons/leads/models/lead_import_wizard.py:46 | unlike the cleaner, 'null' is searched for as a name |
| LeadImport.LookupOrLead | custom_addons/leads/models/lead_import_wizard.py:77 | an unknown text gives lead; any other result comes from the table |
| LeadImport.CleanLeadStatus | custom_addons/leads/models/lead_import_wizard.py:53-56 | a missing or empty status gives lead |
| LeadImport.NoRequirementsTableEntry | custom_addons/leads/models/lead_import_wizard.py:66 | no_requirements is reached only through the key 'no requiremnets' |
| LeadImport.MisspeltKeyFound | custom_addons/leads/models/lead_import_wizard.py:66 | the misspelt key is in the table |
| LeadImport.CorrectKeyMissing | custom_addons/leads/models/lead_import_wizard.py:58-76 | the correctly spelt 'no requirements' is not |
| LeadImport.NoRequirementsOnlyWhenMisspelt | custom_addons/leads/models/lead_import_wizard.py:66-77 | a CSV status gives no_requirements exactly when it reads 'no requiremnets'; "No Requirements" gives lead |
| LeadImport.ScoreOf | custom_addons/leads/models/lead_import_wizard.py:105 | a missing or empty score is 0.0 |
| LeadImport.SiteVisitOf | custom_addons/leads/models/lead_import_wizard.py:131 | a missing or empty visit date is no date |
| LeadImport.RowVals | custom_addons/leads/models/lead_import_wizard.py:89-132 | a row gives values exactly when its name is not empty and its score and date convert |
| LeadImport.RowValsFields | custom_addons/leads/models/lead_import_wizard.py:95-131 | the values carry the name, the mapped status as both statuses, the score, the RM or admin and the visit date |
| LeadImport.RowValsAccepted | custom_addons/leads/models/lead_import_wizard.py:99-133 | `create` accepts every such row, and the lead's state equals its current status |
| LeadImport.ImportedLeadsWellFormed | custom_addons/leads/models/lead_import_wizard.py:89-133 | every imported lead has a name and equal statuses |
| LeadImport.ImportedLeadsCount | custom_addons/leads/models/lead_import_wizard.py:89-136 | one lead per row that is not skipped |
| LeadImport.DuplicateRowsCreateTwice | custom_addons/leads/models/lead_import_wizard.py:89-133 | no dedup: the same row twice creates two equal leads |
| LeadImport.BadScoreSkipsRow | custom_addons/leads/models/lead_import_wizard.py:105-136 | an unreadable score skips the row |
| LeadImport.ImportLeadRows | custom_addons/leads/models/lead_import_wizard.py:89-136 | the table gains exactly the imported leads, in row order |
| LeadImport.ImportLeads | custom_addons/leads/models/lead_import_wizard.py:79-138 | no file: the error and no change; otherwise the imported leads are appended |
| BqFetch.QueryRowsHavePhones | custom_addons/leads/models/lead_score_bq_wizard.py:43-47 | every fetched row has a phone |
| BqFetch.AssignedRm | custom_addons/leads/models/lead_score_bq_wizard.py:86-92 | an RM is set only for a user of exactly that name, and is set whenever one exists |
| BqFetch.BqVals | custom_addons/leads/models/lead_score_bq_wizard.py:61-102 | the values carry the row's name and phone and never a `state` |
| BqFetch.BqValsAccepted | custom_addons/leads/models/lead_score_bq_wizard.py:62-110 | `create` accepts the row exactly when it has a name and an empty or valid status; an empty status gives lead |
| BqFetch.FindPhone | custom_addons/leads/models/lead_score_bq_wizard.py:105 | the phone search finds a lead exactly when one has the phone |
| BqFetch.Upsert | custom_addons/leads/models/lead_score_bq_wizard.py:105-111 | one row is one create or one update |
| BqFetch.UpsertPhones | custom_addons/leads/models/lead_score_bq_wizard.py:105-111 | an accepted row creates exactly when its phone is new, and its phone is then present |
| BqFetch.UpsertCreates | custom_addons/leads/models/lead_score_bq_wizard.py:109-111 | a new phone appends the created lead and counts a creation |
| BqFetch.UpsertWrites | custom_addons/leads/models/lead_score_bq_wizard.py:106-107 | a known phone writes the first lead with it |
| BqFetch.UpsertRefused | custom_addons/leads/models/lead_score_bq_wizard.py:107-110 | values `create` rejects fail the row |
| BqFetch.AsWrittenCompletesIff | custom_addons/leads/models/lead_score_bq_wizard.py:105-111 | as written, the run completes exactly when every row is accepted and all phones are new and distinct |
| BqFetch.AsWrittenCounts | custom_addons/leads/models/lead_score_bq_wizard.py:57-115 | a completed run as written created one lead per row and updated none |
| BqFetch.AsWrittenCreatesAll | custom_addons/leads/models/lead_score_bq_wizard.py:109-111 | a completed run as written appended the created leads in row order |
| BqFetch.ExistingPhoneAborts | custom_addons/leads/models/lead_score_bq_wizard.py:106-108 | as written, a row whose phone is known aborts the run |
| BqFetch.SamePhoneTwiceAborts | custom_addons/leads/models/lead_score_bq_wizard.py:106-111 | as written, two rows with one phone abort the run |
| BqFetch.RunCompletesIff | custom_addons/leads/models/lead_score_bq_wizard.py:60-111 | with the counter fixed, the run completes exactly when every row is accepted |
| BqFetch.RunTotals | custom_addons/leads/models/lead_score_bq_wizard.py:57-111 | creations plus updates are the rows; the table grows by the creations; every row's phone is then present |
| BqFetch.KnownPhonesAllUpdate | custom_addons/leads/models/lead_score_bq_wizard.py:105-108 | when every phone is known, the run only updates |
| BqFetch.CorrectedAgreesWhereAsWrittenCompletes | custom_addons/leads/models/lead_score_bq_wizard.py:105-111 | wherever the code as written completes, the fixed loop gives the same result |
| BqFetch.FetchCompletesIff | custom_addons/leads/models/lead_score_bq_wizard.py:29-111 | a configured, reachable project completes exactly when every fetched row is accepted |
| BqFetch.FetchTotals | custom_addons/leads/models/lead_score_bq_wizard.py:57-117 | creations plus updates are the fetched rows, and every fetched phone has a lead |
| BqFetch.RunTwiceCreatesNothing | custom_addons/leads/models/lead_score_bq_wizard.py:105-111 | running the same rows again creates nothing and updates every row |
| BqFetch.FetchTwiceCreatesNothing | custom_addons/leads/models/lead_score_bq_wizard.py:24-117 | a second fetch of the same table creates nothing |
| BqFetch.LeadScoreBqWizard.FetchFromBigQuery | custom_addons/leads/models/lead_score_bq_wizard.py:24-126 | an error leaves the leads and the wizard unchanged; a completed fetch stores the leads, the two counters and state done |
| WhatsApp.ResponseOfKey | custom_addons/leads/models/whatsapp_response.py:13-20 | a stored reply has that key; none when no reply has it |
| WhatsApp.ResponseKeyRoundTrip | custom_addons/leads/models/whatsapp_response.py:13-20 | reading a reply's key gives the reply back |
| WhatsApp.Classify | custom_addons/leads/models/whatsapp_response.py:63-72 | positive exactly for yes_interested and liked_property, neutral otherwise |
| WhatsApp.Mirror | custom_addons/leads/models/whatsapp_response.py:23-29 | the related fields are the lead's RM, address, BHK, score, name, project and status |
| WhatsApp.NewResponse | custom_addons/leads/models/whatsapp_response.py:9-50 | `create` succeeds exactly when an existing lead, a number and a valid reply are given; defaults now and unprocessed; the record is consistent with its lead |
| WhatsApp.Processed | custom_addons/leads/models/whatsapp_response.py:74-77 | a record is processed exactly when it was or is in the recordset; nothing else changes |
| WhatsApp.ProcessedIdempotent | custom_addons/leads/models/whatsapp_response.py:74-77 | processing twice is processing once |
| WhatsApp.Classified | custom_addons/leads/models/whatsapp_response.py:63-72 | each record of the recordset is positive exactly for a positive reply; nothing else changes |
| WhatsApp.ClassifiedConsistent | custom_addons/leads/models/whatsapp_response.py:35-72 | classifying restores consistency of the recordset's records |
| WhatsApp.ProcessedConsistent | custom_addons/leads/models/whatsapp_response.py:74-77 | processing keeps every record consistent |
| WhatsApp.ResponseTable.Create | custom_addons/leads/models/whatsapp_response.py:47-50 | one record appended when accepted, none otherwise |
| WhatsApp.ResponseTable.ComputeResponseType | custom_addons/leads/models/whatsapp_response.py:63-72 | the table becomes the classified table |
| WhatsApp.ResponseTable.ProcessResponses | custom_addons/leads/models/whatsapp_response.py:74-77 | the table becomes the processed table |
| WhatsApp.ResponseForm.OnchangeLeadId | custom_addons/leads/models/whatsapp_response.py:40-45 | a chosen lead's phone becomes the number; without a lead nothing changes |
| Renewal.EventState | custom_addons/property_renewal/models/renewal_message.py:31-38 | out_of_funnel exactly for the two refusals, responded exactly for renewal and see-lead, pending for no event |
| Renewal.FromLastHonorific | custom_addons/property_renewal/models/renewal_message.py:54-59 | a suffix of the name that starts with the honorific and holds no later occurrence of it |
| Renewal.OwnerName | custom_addons/property_renewal/models/renewal_message.py:51-61 | 'Mr. ' first, then 'Ms. ', then 'Mrs. ': the text from its last occurrence; with none, the whole name |
| Renewal.RenewalForm.OnchangeEventType | custom_addons/property_renewal/models/renewal_message.py:31-38 | the state becomes the event's state; nothing else changes |
| Renewal.RenewalForm.OnchangePropertyTag | custom_addons/property_renewal/models/renewal_message.py:41-73 | an empty tag changes nothing; a known tag copies the first listing, its RM, its phone and the owner name; an unknown tag clears them and returns the warning |
| Estate.NewProperty | custom_addons/estate/models/estate_property.py:16-54 | state new, 2 bedrooms, active, available 3 months from today, created by the user |
| Estate.MaxPrice | custom_addons/estate/models/estate_property.py:73 | `max`: one of the prices and no price above it |
| Estate.BestPriceIsMaximum | custom_addons/estate/models/estate_property.py:69-75 | the best price is one of the property's offer prices and none is higher; 0.0 without offers |
| Estate.TransitionFails | custom_addons/estate/models/estate_property.py:78-90 | the action raises exactly when a record of the recordset is in the forbidden state |
| Estate.TransitionSets | custom_addons/estate/models/estate_property.py:78-90 | otherwise every record of the recordset gets the target state and nothing else changes |
| Estate.SoldCannotBeCanceled | custom_addons/estate/models/estate_property.py:85-88 | properties just sold cannot then be canceled |
| Estate.CanceledCannotBeSold | custom_addons/estate/models/estate_property.py:78-81 | properties just canceled cannot then be sold |
| Estate.NewOffer | custom_addons/estate/models/estate_property_offer.py:21-28 | validity 7, no status, deadline today + 7 |
| Estate.Deadline | custom_addons/estate/models/estate_property_offer.py:24-28 | the deadline is the validity in days after the creation date, or after today without one |
| Estate.ValidityFor | custom_addons/estate/models/estate_property_offer.py:30-33 | the validity is the days from the start to the deadline, 7 without a deadline |
| Estate.DeadlineThenValidity | custom_addons/estate/models/estate_property_offer.py:27-33 | compute then inverse restores the validity |
| Estate.ValidityThenDeadline | custom_addons/estate/models/estate_property_offer.py:27-33 | inverse then compute restores the deadline |
| Estate.AcceptOne | custom_addons/estate/models/estate_property_offer.py:39-41 | accepting keeps both tables' sizes and every offer's property valid |
| Estate.AcceptOneSingle | custom_addons/estate/models/estate_property_offer.py:37-39 | accepting an offer whose property has none accepted keeps one accepted offer per property |
| Estate.AcceptKeepsSingle | custom_addons/estate/models/estate_property_offer.py:35-43 | a completed accept keeps one accepted offer per property |
| Estate.AcceptBlocked | custom_addons/estate/models/estate_property_offer.py:37-38 | an offer whose property has an accepted offer, this one included, makes the action raise |
| Estate.AcceptSamePropertyTwice | custom_addons/estate/models/estate_property_offer.py:35-41 | two offers of one property in the recordset make the action raise |
| Estate.AcceptSetsSale | custom_addons/estate/models/estate_property_offer.py:39-41 | a completed accept marks each offer accepted and gives its property the offer's price and partner |
| Estate.AcceptUntouched | custom_addons/estate/models/estate_property_offer.py:35-43 | an accepted offer and its property's sale are left alone by a completed accept |
| Estate.RefuseAll | custom_addons/estate/models/estate_property_offer.py:46-49 | the recordset's offers become refused; other fields and offers do not change |
| Estate.RefuseKeepsSingle | custom_addons/estate/models/estate_property_offer.py:46-49 | refusing keeps one accepted offer per property |
| Estate.PropertyTable.ComputeTotalArea | custom_addons/estate/models/estate_property.py:64-67 | each record of the recordset gets living plus garden area |
| Estate.PropertyTable.ComputeBestPrice | custom_addons/estate/models/estate_property.py:69-75 | each record of the recordset gets its best price |
| Estate.PropertyTable.SetSold | custom_addons/estate/models/estate_property.py:78-83 | raises exactly when a record is canceled, with nothing changed; otherwise all become sold |
| Estate.PropertyTable.Cancel | custom_addons/estate/models/estate_property.py:85-90 | raises exactly when a record is sold, with nothing changed; otherwise all become canceled |
| Estate.OfferTable.ComputeDateDeadline | custom_addons/estate/models/estate_property_offer.py:24-28 | each offer of the recordset gets its deadline |
| Estate.OfferTable.InverseDateDeadline | custom_addons/estate/models/estate_property_offer.py:30-33 | each offer of the recordset gets its validity |
| Estate.OfferTable.AcceptOffer | custom_addons/estate/models/estate_property_offer.py:35-43 | the accept over both tables, with nothing changed when it raises |
| Estate.OfferTable.RefuseOffer | custom_addons/estate/models/estate_property_offer.py:46-49 | the table becomes the refused table |
| Grouping.AddKeyLookup | custom_addons/property_dashboard/models/property_dashboard.py:30-34 | one more record raises its value's count by one and no other |
| Grouping.GroupByCounts | custom_addons/property_dashboard/models/property_dashboard.py:30-34 | the groups have distinct values and positive counts, each the number of records with the value |
| Grouping.GroupBySum | custom_addons/property_dashboard/models/leads_dashboard.py:25-29 | the counts add up to the number of records |
| Grouping.GroupByLabels | custom_addons/property_dashboard/models/leads_dashboard.py:25-33 | a value is listed exactly when some record has it |
| Grouping.GroupByChart | custom_addons/property_dashboard/models/property_dashboard.py:30-39 | labels and values of one length, distinct labels, each value the label's count, summing to all records |
| Dashboards.ChartOfCounts | custom_addons/property_dashboard/models/property_dashboard.py:36-39 | a chart built from the groups has those properties |
| Dashboards.KpisFallback | custom_addons/property_dashboard/models/property_dashboard.py:51-62 | on an exception: zeros, empty lists and the message |
| Dashboards.KpisCounts | custom_addons/property_dashboard/models/property_dashboard.py:22-26 | no error; live plus sold listings are at most all, and so are the new ones |
| Dashboards.KpisChart | custom_addons/property_dashboard/models/property_dashboard.py:30-39 | the type chart counts the live priced listings, and its total is at most the active count |
| Dashboards.LivePricedRowsAre | custom_addons/property_dashboard/models/property_dashboard.py:31 | the grouped rows are live with a positive price |
| Dashboards.LeadsKpisCounts | custom_addons/property_dashboard/models/leads_dashboard.py:12-40 | only the error without the model; otherwise the total, actionable leads among them, and a stage chart summing to the total |

## Left out

- I/O and foreign code are left out: base64 and CSV decoding, the BigQuery client, logging,
  and the action dictionaries the buttons return. Rows are already-decoded maps, and the
  BigQuery project is a value.
- Odoo's ORM is left out: persistence, triggering of computes and onchanges, access rules,
  and savepoints. Each compute and onchange is a method called on a recordset.
- The order of the tables is left out. `_order` on leads, replies, renewal messages, cities
  and locations, and the order of `read_group` groups, are not modelled. Records are kept
  in creation order, and groups are listed in the model's own order.
- PropertyImport.ImportRow: why a listing's `create` fails is a parameter. `reject` gives
  the database's error text for a listing.
- PropertyImport.ImportProperties: keeps the listings created before the consolidated
  error. Rolling back the request that raised it is Odoo's request handling.
- BqFetch.LeadScoreBqWizard.FetchFromBigQuery: models the loop with the update counter
  fixed. The loop as written is `BqFetch.RunAsWritten` (see Findings).
- BqFetch: BigQuery values are typed as text, real or absent. Non-text scores or dates,
  which would take the `TypeError` branch, are not modelled.
- Cleaning.ParseFloat: handles a sign, digits and one decimal point. Exponents, `inf`,
  `nan` and underscores are not accepted.
- Calendar.AddMonths: is `relativedelta(months=n)` for an integer `n`, clamping to the end
  of the month.
- Floats are `real`: Cleaning.ParseFloat, Cleaning.CleanFloat, the listing and estate prices
  and areas, and the lead's predicted score are exact. Floating-point rounding is not
  modelled.
- Listings: the listing status, service validity, register date and price are declared
  only in comments in the listing model.
  - The expiry sweep and the property dashboard are modelled as if those declarations
    were in force.
  - Against the shipped model those ORM calls raise, which is why
    `Dashboards.GetKpis` takes the exception as its `failure` parameter.
- Listings.ExpireOne: reads the service validity as its number of months. The commented
  declaration is a Selection whose keys are the texts '1', '3', '6' and '12'. The sweep
  passes that key to `fields.Date.add(..., months=...)`, and `relativedelta` raises
  `ValueError` for a month count that is not an integer. So under that declaration the cron
  would raise at the first live listing with a validity and a register date, and this model
  expires the listing instead.
- Listings.ListingTable.ExpireListings: shares ExpireOne's reading of the service validity
  as a number of months, so it completes where the cron as declared would raise.
- Dashboards.GetLeadsKpis: whether the lead model is installed is the `installed`
  parameter.
- LeadImport.DetailsOf: the descriptive lead columns are one map from field to text. They
  are not copied field by field.
- The related fields of a reply are stored copies. Keeping them in step when a lead later
  changes is not modelled, and `Consistent` states them only for the records a method
  touches.
- Estate: integer fields are unbounded. PostgreSQL's 32-bit limit is not modelled.
- Estate: the `tag_ids` many-to-many field and the property type record are not modelled.
- LeadImport.FindPropertyByName: is modelled, but the import loop never calls it. Its call
  and the `property_id` value are commented out in the lead wizard.
- `action_view_lead` on replies only opens a form, so it is not modelled.
- Text.ILikeEq: is `=ilike` without wildcards. A `%` or `_` in a searched name would match
  other names in PostgreSQL, but here it matches only itself.
- Text.Strip: `Strip`, `Lower`, `Title` and the digit tests are ASCII-only. Python's
  `str.strip` also removes other Unicode whitespace such as U+00A0, and `lower` and `title`
  also change non-ASCII letters.
- Cleaning.ParseInt: accepts a sign and ASCII digits. The underscores and non-ASCII digits
  that Python's `int()` accepts are rejected.
- LeadImport.ImportLeads: a CSV row shorter than the header gives `None` cells, and
  `row.get(...).strip()` then raises `AttributeError`. The per-row `except` catches only
  `ValueError` and `TypeError`, so the whole import aborts. Rows here are maps from column
  to text, so such cells cannot occur.
- Leads.LeadTable.InverseNextFollowUp: when it fails, the leads before the failing one keep
  their new visit dates. Odoo rolls the request back, which is not modelled.
- WhatsApp.NewResponse: an empty number is stored, since the database's NOT NULL accepts
  it. The same holds for a lead's empty name.

## Findings

| source | as written | input that shows it | evidently intended | confidence | as-written member | corrected member |
|---|---|---|---|---|---|---|
| custom_addons/leads/models/lead_score_bq_wizard.py:108 | `updateed_count += 1` names a local that is never assigned, so the update branch raises `UnboundLocalError` (a `NameError`). The run aborts before the final `self.write`, so neither counter is ever written | one fetched row whose `standardized_phone` equals a stored lead's phone, or two fetched rows with one phone | `updated_count += 1`: the write is counted and the run goes on | not executed | BqFetch.ExistingPhoneAborts | BqFetch.RunTotals |
