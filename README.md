# Georgian currency-exchange bot: a verified model of its core

This project models the core of a Telegram bot that shows currency exchange rates in Georgia, and of
the service that keeps its database in step with the rate provider. Every statement about the model is
checked by the Dafny verifier.

- **Store.** The four tables are organizations, offices, rates and schedules. A row is a map from column
  to value, so a column the model does not have reads as NULL (`Records`). A repository is a `Table`
  object whose rows are updated in place (`BaseRepository`). It offers create, get, get_multi, update,
  delete, find_by, find_one_by and exists. On top of it sit:
  - organization, office and rate queries and upserts;
  - soft deletion of the rows not seen in a cycle (`SoftDelete`);
  - ORDER BY as a stable sort (`Ordering`);
  - the async rate repository and the schedule repository.
- **Sync cycle** (`SyncService`). Each organization and office of a provider snapshot is looked up by
  external id, then updated or created. Every rate entry is upserted by (office, currency). Active rows
  not seen in the cycle are soft-deleted. A second snapshot then writes coordinates and replaces
  schedules with the rows of the schedule parser (`ScheduleParser`). The two fetched snapshots are
  inputs, None when the fetch raised.
- **Rates table** (`CurrencyService`). The National Bank row, the three online banks in a fixed order,
  then up to six other organizations ranked by USD rate.
- **Bot handlers.**
  - `RatesRouter`: the main-menu table, the sell/get currency dialogue, and the best-rates table with its
    staleness check.
  - `LocationRouter` and `CurrencyRouter`: the two copies of the office search. Each is a class holding
    the per-user search state and filtering the offices by type, name, open-now and best rate before
    picking the nearest. The shared parts are in `OfficeMatcher`.
  - `Keyboards` and `MapLinks`: the inline keyboards and the multi-pin map links.
- **HTTP client** (`BaseRequester`). URL building, and the retry loop with exponential back-off and the
  pre-request hook. The retry loop is a method proved against a recursive function of the attempt
  outcomes.

The clock, the user's distance to an office, the network, and `get_best_rates_for_pair` (whose source
is not available) are parameters of the operations that use them.

Where the code and its accompanying description disagree, the model follows the code:

- **Per-organization errors.** The description says an error on one organization or office is caught
  and the cycle goes on. The sync code has no handler, so an error ends the cycle, and the rows written
  before it stay written.
- **Online banks and the National Bank.** The description says online banks fall back to
  organization-level rates and that the National Bank is upserted from the snapshot's `best` field. The
  code does neither.
- **Counters.** The description expects `rates_created=1` after a first sync of one rate. In the code
  `rates_created` is always 0 and every upserted rate counts as updated, because no repository sets
  `_is_new` (`SyncService.SaveRates`). A second sync of the same snapshot does create no organization
  or office, as described (`SyncService.SyncService.ProcessOrganizationsAndOffices`). `stats.update` also replaces the organization phase's
  `offices_updated` with the map phase's count (`SyncService.SyncService.SyncData`).
- **Organization type.** The description gives organizations a type (`Bank`, `MicrofinanceOrganization`,
  …). The organization model (src/schemas/organization.py:5-14, src/db/models/organization.py:11-17)
  has no such column.
  - `getattr(o, "type", None)` is therefore None for every stored organization.
  - Both location searches thus answer "No offices found." once the user and the state checks pass
    (`OfficeMatcher.StoredOrganizationsUntyped`, `LocationRouter.LocationRouter.SearchFindsNothing`,
    `CurrencyRouter.CurrencyRouter.SearchFindsNothing`).
  - The later filters are still modelled over arbitrary rows, so that what they promise is proved too.
- **Get currency in location.py.** The handler `handle_find_best_get_currency` in location.py never
  stores the chosen get currency. A best-rate search started from that router always looks for GEL
  (`OfficeMatcher.GetDefaultsToGel`). The copy in currency.py does store it.
- **Placeholder names.** The rates table's placeholders are "Bank of Georgia", "TBC Bank" and
  "Credo Bank", as in the code, not the bracketed display names that appear elsewhere.

## Model

| member | source | states |
|---|---|---|
| Common.Split | src/bot/routers/location.py:104 | `str.split` with a one-character separator always gives at least one part |
| Common.LStrip | src/utils/base_requester.py:231 | `lstrip`: a suffix of the string that does not start with the character, and only that character was removed |
| Common.RStrip | src/utils/base_requester.py:77 | `rstrip`: a prefix of the string that does not end with the character, and only that character was removed |
| Common.Lower | src/bot/routers/location.py:177 | `lower()` keeps the length and lowers each ASCII letter in place |
| Common.Take | src/services/currency_service.py:97 | a slice `[:n]` keeps the first n elements, or all when there are fewer |
| Common.Window | src/db/repositories/base_repository.py:84 | OFFSET then LIMIT: at most `limit` elements, starting at position `skip`, in order |
| Common.SplitNoSep | src/bot/routers/location.py:86 | a string without the separator splits into itself |
| Common.SplitConcat | src/bot/routers/location.py:86 | a first part without the separator is split off exactly |
| Common.SplitJoin | src/bot/utils/map_links.py:13 | splitting a join gives the parts back when none holds the separator |
| Common.JoinPartCount | src/bot/utils/map_links.py:13 | so the number of parts is kept |
| Records.Restrict | src/db/repositories/base_repository.py:106-108 | the columns an update or a constructor accepts are exactly the keys of the data that are model columns, with the data's values |
| BaseRepository.Lookup | src/db/repositories/base_repository.py:57-68 | a row found by primary key carries that key; nothing is found only when no row carries it |
| BaseRepository.FirstMatch | src/db/repositories/base_repository.py:180-185 | `.first()` of the filtered query: the row returned matches and no earlier row does; nothing is returned only when no row matches |
| BaseRepository.FilterUnique | src/db/repositories/base_repository.py:162-167 | selecting rows keeps primary keys pairwise distinct |
| BaseRepository.Table.constructor | src/db/repositories/base_repository.py:26-33 | a repository starts over an empty, well-formed table of its model |
| BaseRepository.Table.Build | src/db/repositories/base_repository.py:46-48 | the constructed row holds the model's time stamps and constant defaults, overridden by the model columns of the data, and a new primary key; keys that are not columns are dropped |
| BaseRepository.Table.Create | src/db/repositories/base_repository.py:35-55 | exactly one row is appended, it is the constructed row, its primary key is new, and the table stays well formed |
| BaseRepository.Table.Get | src/db/repositories/base_repository.py:57-68 | the row with that primary key, or None exactly when no row has it |
| BaseRepository.Table.GetMulti | src/db/repositories/base_repository.py:70-85 | at most `limit` rows, the ones at positions skip, skip+1, … in table order, fewer only when the table runs out |
| BaseRepository.Table.FindBy | src/db/repositories/base_repository.py:151-167 | a row is returned exactly when it is stored and equals the criteria on every key that is a column (other keys are ignored) |
| BaseRepository.Table.FindOneBy | src/db/repositories/base_repository.py:169-185 | the first matching row in table order, or None exactly when no row matches |
| BaseRepository.Table.Exists | src/db/repositories/base_repository.py:132-149 | true exactly when some row matches, that is when `find_by` returns rows |
| BaseRepository.Table.Update | src/db/repositories/base_repository.py:87-113 | the stored row gets every model column of the data and keeps its other columns; every other row, the row count and the key counter are unchanged |
| BaseRepository.Table.UpsertBy | src/db/repositories/organization_repository.py:92-104 | the first row matching the key is updated in place, otherwise one row is created; the result matches the key, and a key held by at most one row stays so |
| BaseRepository.Table.Delete | src/db/repositories/base_repository.py:115-130 | the row with that key is removed and returned; with no such row, None is returned and the table is unchanged |
| BaseRepository.Table.DeleteEach | src/repositories/schedule_repository.py:39-42 | deleting the selected rows one by one removes exactly them, keeps the other rows in order, and counts one per row |
| BaseRepository.DeleteStep | src/repositories/schedule_repository.py:39-42 | deleting the next selected row by primary key leaves exactly the rows outside the selected rows so far, when primary keys are unique |
| BaseRepository.Table.DeleteWhere | src/db/repositories/rate_repository.py:111-119 | the rows failing the condition remain in order, and the count is the number of rows that held it |
| BaseRepository.AppendKeepsAtMostOne | src/db/repositories/organization_repository.py:102-104 | creating the first row under a key leaves exactly one row with that key |
| BaseRepository.ReplaceKeepsAtMostOne | src/db/repositories/organization_repository.py:98-101 | updating the only row under a key with data that keeps the key leaves it the only one |
| SoftDelete.DeactivateEffect | src/db/repositories/organization_repository.py:73-76 | a deactivated row is inactive, carries the new updated_at, and keeps every other column |
| SoftDelete.SoftDeletedActive | src/db/repositories/organization_repository.py:66-76 | after a pass a row is active exactly when it was active and its id is listed |
| SoftDelete.StaleCountNone | src/db/repositories/organization_repository.py:66-71 | when no active row is unlisted the pass selects nothing |
| SoftDelete.SoftDeleteIdempotent | src/db/repositories/organization_repository.py:50-79 | a second pass with the same ids deactivates nothing and changes no row |
| SoftDelete.DeactivateUnlisted | src/db/repositories/organization_repository.py:66-79 | exactly the active rows whose id is not listed are deactivated with the new updated_at, and they are counted |
| SoftDelete.DeactivateRow | src/db/repositories/organization_repository.py:73-76 | one row is deactivated in place; every other row and every primary key stay, so the table stays well formed |
| SoftDelete.ActiveWindow | src/db/repositories/organization_repository.py:42-47 | the active rows at positions `skip` .. `skip`+`limit`-1 of the active rows, as many as exist there, in table order |
| OrganizationRepository.GetActiveOrganizations | src/db/repositories/organization_repository.py:28-48 | the OFFSET/LIMIT window of the active organizations: its exact length and the active row at each position, all stored and active |
| OrganizationRepository.MarkInactiveIfNotInList | src/db/repositories/organization_repository.py:50-79 | an empty list returns 0 and changes nothing; otherwise the unlisted active organizations are deactivated and counted |
| OrganizationRepository.Upsert | src/db/repositories/organization_repository.py:81-104 | the organization with this name is updated with the data and a new updated_at, else one is created; a unique name stays unique |
| OrganizationRepository.GetWithOffices | src/db/repositories/organization_repository.py:106-133 | the organizations are the OFFSET/LIMIT window of the active ones, position by position, each with exactly the offices that refer to it |
| OfficeRepository.GetActiveOffices | src/db/repositories/office_repository.py:28-42 | the OFFSET/LIMIT window of the active offices: its exact length and the active row at each position, all stored and active |
| OfficeRepository.GetByOrganization | src/db/repositories/office_repository.py:44-55 | exactly the stored offices whose organization_id is the given one, active or not |
| OfficeRepository.GetByCoordinates | src/db/repositories/office_repository.py:57-86 | exactly the active offices whose latitude and longitude both lie within radius/111 degrees of the point |
| OfficeRepository.MarkInactiveIfNotInList | src/db/repositories/office_repository.py:88-114 | an empty list returns 0 and changes nothing; otherwise the unlisted active offices are deactivated and counted |
| OfficeRepository.Upsert | src/db/repositories/office_repository.py:116-138 | the office with this name and organization is updated with a new updated_at, else one is created; a unique (name, organization) stays unique |
| Ordering.Insert | src/db/repositories/rate_repository.py:39 | inserting keeps the elements (as a multiset) and a sorted sequence sorted |
| Ordering.Sort | src/db/repositories/rate_repository.py:39 | ORDER BY gives a permutation of the selected rows |
| Ordering.PrecedesTotal | src/db/repositories/rate_repository.py:93-96 | any two rows can be ordered by the key, in either direction |
| Ordering.InsertSorted | src/db/repositories/rate_repository.py:39 | inserting into a sorted sequence leaves it sorted |
| Ordering.SortSorted | src/db/repositories/rate_repository.py:60 | the result of ORDER BY is ordered by the key, newest or largest first when descending |
| Ordering.InsertSameKey | src/services/currency_service.py:94-96 | inserting an element keeps the relative order of the elements that share a key |
| Ordering.SortStable | src/services/currency_service.py:94-96 | rows with equal keys keep their input order |
| Ordering.TakeSorted | src/repositories/rate_repository.py:62-67 | LIMIT after ORDER BY keeps a top-k: no row left out comes before a row kept |
| RateRepository.Ordered | src/db/repositories/rate_repository.py:39 | the selected rows, sorted by the key in the requested direction, as a permutation |
| RateRepository.GetLatestRates | src/db/repositories/rate_repository.py:27-47 | every rate passing the filters given with a truthy argument, newest first, and no other rate |
| RateRepository.GetRatesByOffice | src/db/repositories/rate_repository.py:49-61 | exactly the office's rates, newest first |
| RateRepository.GetRatesByCurrency | src/db/repositories/rate_repository.py:63-75 | exactly the currency's rates, newest first |
| RateRepository.GetBestRates | src/db/repositories/rate_repository.py:77-98 | exactly the currency's rates, by buy_rate lowest first when buying, by sell_rate highest first otherwise |
| RateRepository.DeleteOldRates | src/db/repositories/rate_repository.py:100-119 | exactly the rates stamped before now minus the given hours are deleted and counted; the others remain in order |
| RateRepository.Upsert | src/db/repositories/rate_repository.py:121-144 | the rate for this (office, currency) is updated with the data, else one is created; a unique (office, currency) stays unique |
| AsyncRateRepository.TopRows | src/repositories/rate_repository.py:32-34 | exactly min(`limit`, selected) of the selected rows, as a sub-multiset, in key order, and no row left out comes before a row kept |
| AsyncRateRepository.GetLatestRates | src/repositories/rate_repository.py:17-36 | exactly min(`limit`, matching) rates, a sub-multiset of those passing every filter whose argument is not None, newest first, none newer left out |
| AsyncRateRepository.GetByOrganization | src/repositories/rate_repository.py:38-46 | the rate model has no organization_id attribute, so the query fails and no rows are returned |
| AsyncRateRepository.GetRatesByOffice | src/repositories/rate_repository.py:58-69 | exactly min(`limit`, matching) of the office's rates, as a sub-multiset, newest first, none newer left out |
| AsyncRateRepository.GetRatesByCurrency | src/repositories/rate_repository.py:71-82 | exactly min(`limit`, matching) of the currency's rates, as a sub-multiset, newest first, none newer left out |
| AsyncRateRepository.GetBestRates | src/repositories/rate_repository.py:84-99 | exactly min(`limit`, matching) of the currency's rates, as a sub-multiset, highest buy_rate first when buying, lowest sell_rate first otherwise, none better left out |
| AsyncRateRepository.DeleteOldRates | src/repositories/rate_repository.py:101-118 | exactly the rates stamped before the threshold are deleted, and the count is one per deleted row |
| ScheduleRepository.GetByOfficeId | src/repositories/schedule_repository.py:19-30 | exactly the schedules of the office, in table order |
| ScheduleRepository.DeleteByOfficeId | src/repositories/schedule_repository.py:32-42 | every schedule of the office is deleted; the others remain in order |
| ScheduleRepository.OtherOfficeKept | src/repositories/schedule_repository.py:32-42 | deleting one office's schedules leaves every other office's schedules as they were |
| ScheduleRepository.BuildHolds | src/repositories/schedule_repository.py:54-58 | a stored schedule holds the model's defaults overridden by its own columns |
| ScheduleRepository.CreateMany | src/repositories/schedule_repository.py:44-59 | every given schedule is added, in order, after the existing rows, and returned |
| ScheduleRepository.ReplaceSchedules | src/services/sync_service.py:182-193 | deleting an office's schedules and then adding rows of that office leaves exactly the added rows as its schedules |
| ScheduleParser.TrimSpaces | src/utils/schedule_parser.py:18 | the whitespace `int()` tolerates is removed at both ends, and nothing is added |
| ScheduleParser.ParseTimeToMinutes | src/utils/schedule_parser.py:8-19 | a time parses only when it splits on ':' into exactly two parts |
| ScheduleParser.ParseIntDigits | src/utils/schedule_parser.py:18 | `int()` of a digit string is its decimal value |
| ScheduleParser.ParseIntValue | src/utils/schedule_parser.py:18 | whatever `int()` accepts is a digit string's value or its negation |
| ScheduleParser.ClockTime | src/utils/schedule_parser.py:8-19 | "HH:MM" with digit strings of values h and m is 60·h + m minutes |
| ScheduleParser.SplitTime | src/utils/schedule_parser.py:18 | two digit strings joined by ':' split back into exactly those two parts |
| ScheduleParser.TimeFromParts | src/utils/schedule_parser.py:18-19 | a time whose two parts parse as integers h and m is 60·h + m, with no bound on either |
| ScheduleParser.ParseTimeNeedsOneColon | src/utils/schedule_parser.py:18 | a time without exactly one ':' raises |
| ScheduleParser.ParseDayToInt | src/utils/schedule_parser.py:22-41 | the day is always 0..6; a non-zero day is the position of the name in Monday..Sunday, and any other name gives 0 (Monday) |
| ScheduleParser.DayNamesRoundTrip | src/utils/schedule_parser.py:32-41 | every English weekday name maps back to its position |
| ScheduleParser.IntervalKeepsTimes | src/utils/schedule_parser.py:65-72 | an interval "A-B" whose sides parse keeps both times, except "00:00-00:00", which becomes 0 to 1440 |
| ScheduleParser.AllDayExample | src/utils/schedule_parser.py:69-72 | "00:00-00:00" is open the whole day, minute 0 to 1440 |
| ScheduleParser.OfficeHoursInterval | src/utils/schedule_parser.py:65-67 | "09:00-18:00" is open from minute 540 to 1080 |
| ScheduleParser.SingleDayEntry | src/utils/schedule_parser.py:58-62 | an entry with no end, or with an empty end name, covers its start day only |
| ScheduleParser.IntervalsErrorSticks | src/utils/schedule_parser.py:64-67 | one malformed interval makes the whole entry raise |
| ScheduleParser.ScheduleErrorSticks | src/utils/schedule_parser.py:56-67 | one malformed entry makes the whole schedule raise: no partial list is returned |
| ScheduleParser.AppendDays | src/utils/schedule_parser.py:75-84 | the day loop appends one row per day from start to end, in order, and none when the end precedes the start |
| ScheduleParser.ParseInterval | src/utils/schedule_parser.py:65-72 | splitting at '-', parsing both sides and widening the 24/7 case gives the interval's times, or the error |
| ScheduleParser.ParseEntry | src/utils/schedule_parser.py:57-84 | one entry appends its rows, interval by interval, after the rows so far, or raises |
| ScheduleParser.ParseSchedule | src/utils/schedule_parser.py:44-86 | the loop over entries returns exactly the rows of the whole schedule, entry by entry, or raises |
| ScheduleParser.IntervalsRowCount | src/utils/schedule_parser.py:64-84 | an entry gives one row per interval and day: count of intervals × (end − start + 1), and none when the end precedes the start |
| ScheduleParser.IntervalsRowDays | src/utils/schedule_parser.py:75-84 | every row of an entry has a day between its start and end days |
| ScheduleParser.ScheduleRowDays | src/utils/schedule_parser.py:44-86 | every parsed row has a day in 0..6 |
| ScheduleParser.WeekdaysEntry | src/utils/schedule_parser.py:56-84 | a Monday-to-Friday entry with "09:00-18:00" gives days 0..4 from 540 to 1080 |
| ScheduleParser.WeekdaysExample | src/utils/schedule_parser.py:44-86 | a schedule of that one entry parses to exactly those five rows |
| MapLinks.Waypoints | src/bot/utils/map_links.py:13 | one "lat,lng" waypoint per office, in order |
| MapLinks.Pins | src/bot/utils/map_links.py:21 | one "q=lat,lng" pin per office, in order |
| MapLinks.GoogleWaypoints | src/bot/utils/map_links.py:8-14 | no office gives the bare Google address; otherwise the "dir/" prefix followed by the waypoints, which splitting on '/' gives back, one per office |
| MapLinks.ApplePins | src/bot/utils/map_links.py:17-22 | no office gives the bare Apple address; otherwise "?" followed by the pins, which splitting on '&' gives back, each starting "q=" |
| Keyboards.Builder.constructor | src/bot/keyboards/inline.py:15 | a builder starts with no rows |
| Keyboards.Builder.Row | src/bot/keyboards/inline.py:16-20 | adding a row appends exactly that row |
| Keyboards.MainMenuKeyboard | src/bot/keyboards/inline.py:9-37 | five single-button rows, "Find Nearest Office" first, with the callbacks in their order |
| Keyboards.CurrencySelectionKeyboard | src/bot/keyboards/inline.py:40-62 | one row per currency in order, each with callback "prefix:currency", then the back row |
| Keyboards.OrganizationKeyboard | src/bot/keyboards/inline.py:65-80 | one row per organization in order, each with callback "org:name", then the back row |
| Keyboards.BackToMainMenuKeyboard | src/bot/keyboards/inline.py:83-93 | a single "main_menu" button |
| Keyboards.FindOfficeMenuKeyboard | src/bot/keyboards/inline.py:96-124 | four rows: nearest, best-rate, by-organization, back, in that order |
| Keyboards.LocationOrFallbackKeyboard | src/bot/keyboards/inline.py:127-145 | share location, list organizations, back, in that order |
| Keyboards.CallbacksOfSingles | src/bot/keyboards/inline.py:9-37 | with one button per row, the callbacks are the rows' callbacks in order |
| Keyboards.SplitFirstPart | src/bot/routers/location.py:86 | the part before the first separator holds none, and is shorter when the string holds one |
| Keyboards.CallbackRoundTrip | src/bot/routers/location.py:86 | `data.split(":")[1]` gives the item back exactly when the item holds no ':' |
| Keyboards.PairCallbackParts | src/bot/routers/currency.py:521-524 | "find_best_get_currency:S:G" splits into exactly the prefix, S and G when neither currency holds ':' |
| CurrencyService.LastBuyIsLast | src/services/currency_service.py:105-114 | a currency with no rate gives None; otherwise the row holds the buy rate of its last rate in the list |
| CurrencyService.LastBuyNone | src/services/currency_service.py:105-114 | with no rate of the currency the row holds None |
| CurrencyService.LastBuyAt | src/services/currency_service.py:105-114 | the last rate of the currency in the list gives the row its buy rate |
| CurrencyService.MakeRow | src/services/currency_service.py:105-114 | the loop builds the row of the organization's name and, per currency, the buy rate of its last rate |
| CurrencyService.NewestAreStored | src/services/currency_service.py:42-44 | the at most ten rates read for an office are stored rates of that office |
| CurrencyService.CurrencyService.constructor | src/services/currency_service.py:20-28 | the service holds the three repositories it is given |
| CurrencyService.CurrencyService.TableShape | src/services/currency_service.py:99-103 | the table has four to ten rows: the National Bank row, the three online banks in their fixed order, then the ranked rows |
| CurrencyService.CurrencyService.BankRowsAt | src/services/currency_service.py:57-71 | one row per online bank, position by position |
| CurrencyService.CurrencyService.NbgRowCases | src/services/currency_service.py:35-47 | without an active first "NBG" organization with an office, the row is the "NBG" placeholder; otherwise it carries the organization's name and the rates of the newest ten rates of its first office |
| CurrencyService.CurrencyService.BankRowFallback | src/services/currency_service.py:69-70 | a missing or inactive online bank shows its placeholder with no rates |
| CurrencyService.CurrencyService.CandidatesAre | src/services/currency_service.py:77-92 | the candidates are exactly the rows of the listed organizations that are not excluded by external id, not already shown and have an office |
| CurrencyService.CurrencyService.RankedOrder | src/services/currency_service.py:93-97 | at most six rows, sorted by USD rate from the highest with None last, drawn from the candidates, none below a candidate left out |
| CurrencyService.CurrencyService.RankedStable | src/services/currency_service.py:94-96 | candidates with the same USD rate keep their listing order |
| CurrencyService.CurrencyService.NoActiveNamed | src/services/currency_service.py:58-60 | a name no active organization carries finds no active bank |
| CurrencyService.CurrencyService.NothingRanked | src/services/currency_service.py:78-84 | when every active organization has an excluded external id, no row is ranked |
| CurrencyService.CurrencyService.OnlyNbgActive | src/services/currency_service.py:30-103 | with only the National Bank active, the table has exactly four rows and the online-bank rows carry no rates |
| CurrencyService.CurrencyService.SampleOrg | src/services/currency_service.py:87-91 | an organization's row is built from the newest rates of its first office, None when it has no office |
| CurrencyService.CurrencyService.FindActive | src/services/currency_service.py:37-38 | the first matching organization, kept only when it is active |
| CurrencyService.CurrencyService.GetNbgRow | src/services/currency_service.py:35-47 | the National Bank row as specified above |
| CurrencyService.CurrencyService.GetBankRow | src/services/currency_service.py:58-70 | an online bank's row, and the active organization found for it |
| CurrencyService.CurrencyService.ListBanks | src/services/currency_service.py:55-71 | the online-bank rows in order, and the ids of the banks found active, with or without an office |
| CurrencyService.CurrencyService.CollectCandidates | src/services/currency_service.py:75-92 | the loop collects exactly the candidate rows, in listing order |
| CurrencyService.CurrencyService.RankOthers | src/services/currency_service.py:73-97 | the ranked rows of the active organizations listed |
| CurrencyService.CurrencyService.GetLatestRatesTable | src/services/currency_service.py:30-103 | the whole table, as described by the lemmas above |
| RatesRouter.MainMenuRows | src/bot/routers/rates.py:61-69 | the main menu shows the first four rows of the latest table: the National Bank row and the three online-bank rows |
| RatesRouter.FixedRowsShown | src/bot/routers/rates.py:69 | for any table contents, the four rows shown never include a ranked organization |
| RatesRouter.CallbackArgument | src/bot/routers/rates.py:99 | `data.split(":")[1]` is everything after the prefix exactly when that holds no ':' |
| RatesRouter.GetOptions | src/bot/routers/rates.py:100 | a currency is offered exactly when it is a bot currency other than the one sold |
| RatesRouter.GetOptionsCount | src/bot/routers/rates.py:100 | choosing a bot currency leaves the four others; any other value leaves all five, in order |
| RatesRouter.OnlyOneEqual | src/bot/routers/rates.py:100 | a bot currency occurs once in the list, so exactly one option is removed |
| RatesRouter.WordRun | src/bot/routers/rates.py:125 | the longest leading run of `\w` characters |
| RatesRouter.LongestFit | src/bot/routers/rates.py:124-126 | the backtracking of `(\w+)`: the longest group after which the rest of the pattern matches, None when no length does |
| RatesRouter.MatchSell | src/bot/routers/rates.py:124-128 | a text not starting with "Selected " does not match; otherwise the group is the longest leading run of `\w` after which the rest of the pattern matches, and there is no match exactly when no such run exists |
| RatesRouter.SellCurrency | src/bot/routers/rates.py:122-130 | the sell currency is the captured group whenever there is one, and "USD" when there is no text or no match |
| RatesRouter.SellPromptRoundTrip | src/bot/routers/rates.py:103-128 | the prompt written for a currency of word characters gives that currency back |
| RatesRouter.SellPromptSplits | src/bot/routers/rates.py:103-105 | the prompt starts with "Selected " followed by the currency and the fixed question |
| RatesRouter.SellPromptTailFits | src/bot/routers/rates.py:124-128 | after the currency, the rest of the pattern matches the fixed question |
| RatesRouter.WordRunStops | src/bot/routers/rates.py:124-128 | the greedy word-character group stops exactly at the first character that is not a word character |
| RatesRouter.SellCurrencyReachesGetHandler | src/bot/routers/rates.py:99-130 | a bot currency chosen as sell reaches the get handler unchanged |
| RatesRouter.NonWordSellFallsBack | src/bot/routers/rates.py:124-130 | a sell currency that is empty or starts with an ASCII non-word character falls back to "USD" |
| RatesRouter.StampsFromRows | src/bot/routers/rates.py:165-171 | every timestamp taken comes from a stored rate of the sell or the get currency |
| RatesRouter.EntryStampsFromPair | src/bot/routers/rates.py:151-171 | so do the timestamps of one best-rate entry |
| RatesRouter.PairStampsFromPair | src/bot/routers/rates.py:147-171 | so do all timestamps, and no entry gives no timestamp |
| RatesRouter.StampsOf | src/bot/routers/rates.py:165-171 | the inner loop takes the set timestamp of each rate of either currency, in order |
| RatesRouter.EntryStampsOf | src/bot/routers/rates.py:152-171 | an entry with no organization of that name, or with no office, contributes nothing; otherwise the timestamps of its first office's newest ten rates |
| RatesRouter.CollectStamps | src/bot/routers/rates.py:146-171 | the timestamps of all entries, in entry order |
| RatesRouter.Newest | src/bot/routers/rates.py:173 | `max`: a timestamp in the list, no smaller than any other |
| RatesRouter.TrimName | src/bot/routers/rates.py:215-216 | a name within the width is kept; a longer one keeps width − 1 characters and ends in '…', so it never exceeds the width |
| RatesRouter.DisplayName | src/bot/routers/rates.py:240-241 | a shown name is never wider than fifteen characters |
| RatesRouter.GroupRows | src/bot/routers/rates.py:232-250 | the grouping loop keeps the last official line, and the online and the other lines in entry order |
| RatesRouter.GroupsPartition | src/bot/routers/rates.py:243-250 | every entry falls in exactly one of the three groups |
| RatesRouter.LastOfficialWins | src/bot/routers/rates.py:243-244 | a National Bank line exists exactly when some entry is official, and it is the last official entry's |
| RatesRouter.KnownNames | src/bot/routers/rates.py:207-213 | the online banks' stored names are grouped as online; both National Bank names as official |
| RatesRouter.LayoutShape | src/bot/routers/rates.py:226-258 | header and separator, the National Bank line and a separator when present, the online lines and a separator when any, then the other lines |
| RatesRouter.PairReplyOf | src/bot/routers/rates.py:173-266 | "no rates" exactly when there is no timestamp or no entry; otherwise the newest timestamp, stale exactly when more than three hours old |
| RatesRouter.NoEntriesNoStamps | src/bot/routers/rates.py:147-224 | with no entry there is no timestamp, so the reply is "no rates" before the later empty-list check |
| RatesRouter.BuildReply | src/bot/routers/rates.py:173-266 | the reply built step by step is the one specified |
| RatesRouter.HandleGetCurrency | src/bot/routers/rates.py:111-273 | the get currency from the data, the sell currency from the prompt, then the reply for their best rates and timestamps |
| OfficeMatcher.StoredOrganizationsUntyped | src/bot/routers/location.py:166-170 | the organization model has no `type` column, so no stored organization passes the type filter |
| OfficeMatcher.Attach | src/bot/routers/location.py:174-175 | every office of an organization gets that organization attached, one place per office, in order |
| OfficeMatcher.PlacesOfMembers | src/bot/routers/location.py:171-176 | every place pairs a stored office with one of the organizations, and the office belongs to it; no organization gives no place |
| OfficeMatcher.CollectPlaces | src/bot/routers/location.py:171-176 | the loop gives every office of each organization, organization by organization |
| OfficeMatcher.TypedPlaces | src/bot/routers/location.py:165-176 | an office that reaches the filters is stored and belongs to an active organization of an allowed type |
| OfficeMatcher.NameExclusionIsExact | src/bot/routers/location.py:177 | the name must equal "express" or "pawn" in any letter case to be dropped: "Express Exchange" stays, "EXPRESS" goes |
| OfficeMatcher.CheckOpen | src/bot/routers/location.py:195-202 | open exactly when some schedule row has this weekday and opens_at ≤ minute < closes_at |
| OfficeMatcher.StatusOfPlaces | src/bot/routers/location.py:181-230 | every office has a status entry, and it says whether that office is open now |
| OfficeMatcher.FirstMin | src/bot/routers/location.py:247 | `min` with a key: no element is nearer, and no earlier element is as near |
| OfficeMatcher.NearestOfChosen | src/bot/routers/location.py:247 | the office `min` picks is no farther than any other candidate |
| OfficeMatcher.ResetMode | src/bot/routers/location.py:324-326 | a known user's search becomes just the mode; every other user's search is unchanged |
| OfficeMatcher.SetKey | src/bot/routers/location.py:288-291 | a known user's search gets the key, starting from the default when there was none; other keys and other users are unchanged |
| OfficeMatcher.PairFromCallback | src/bot/routers/location.py:104-110 | three parts give the second and third as the pair; anything else gives USD and GEL |
| OfficeMatcher.PairRoundTrip | src/bot/routers/location.py:96-107 | the data of a pair button gives that pair back when neither currency holds ':' |
| OfficeMatcher.TransitionsKeepNoGetCurrency | src/bot/routers/location.py:70-117 | no handler of this router ever stores a get currency |
| OfficeMatcher.GetDefaultsToGel | src/bot/routers/location.py:235-237 | so a best-rate search always looks for GEL, whatever the user picked |
| LocationRouter.NoStateExpires | src/bot/routers/location.py:144-154 | without a user or a location the reply is "Could not determine"; without a stored search it is "Session expired" |
| LocationRouter.FoundFacts | src/bot/routers/location.py:165-177 | an office found is stored, belongs to an active organization of an allowed type, and its name is not excluded |
| LocationRouter.ChosenFacts | src/bot/routers/location.py:181-246 | an office left after the filters was found, is open now when open offices were asked for, and has a best rate in best-rate mode |
| LocationRouter.NearestIsClosest | src/bot/routers/location.py:143-281 | the office answered passed every filter, belongs to an active organization of an allowed type, is open now when open offices were asked for, and no office left is strictly nearer |
| LocationRouter.UntypedFindsNothing | src/bot/routers/location.py:165-180 | with no organization of an allowed type, every search that gets past the first checks answers "No offices found." |
| LocationRouter.LocationRouter.constructor | src/bot/routers/location.py:34 | the router starts with no search state, over the given tables |
| LocationRouter.LocationRouter.SearchFindsNothing | src/bot/routers/location.py:166-180 | over a real organization table, every such search answers "No offices found." |
| LocationRouter.LocationRouter.HandleFindBestRateOffice | src/bot/routers/location.py:70-79 | a known user's search restarts in best-rate mode |
| LocationRouter.LocationRouter.HandleFindNearestOffice | src/bot/routers/location.py:323-332 | a known user's search restarts in nearest-office mode |
| LocationRouter.LocationRouter.HandleOpenFilter | src/bot/routers/location.py:285-318 | only the user's open_only flag changes, to true or false |
| LocationRouter.LocationRouter.HandleFindBestSellCurrency | src/bot/routers/location.py:84-98 | the sell currency is stored (a best-rate search is created when none exists) and the other currencies are offered under "find_best_get_currency:S" |
| LocationRouter.LocationRouter.ScanSchedules | src/bot/routers/location.py:193-230 | the loop gives every office's open status and, in order, the offices open now |
| LocationRouter.LocationRouter.FoundPlaces | src/bot/routers/location.py:165-177 | the offices found, as read from the tables |
| LocationRouter.LocationRouter.Search | src/bot/routers/location.py:165-281 | the reply of a search with a stored state, as read from the tables |
| LocationRouter.LocationRouter.Describe | src/bot/routers/location.py:248-281 | the answer carries the office, its organization, its newest rates, its schedules and its status, closed when unknown |
| LocationRouter.LocationRouter.HandleLocation | src/bot/routers/location.py:143-282 | the reply is the specified one, and the user's search is removed exactly when an office was answered |
| CurrencyRouter.LocationReplyAsWritten | src/bot/routers/currency.py:586-662 | as written, an answered office never lists a rate: an office with rates fails while its rate lines are rendered |
| CurrencyRouter.RatesBreakReply | src/bot/routers/currency.py:640-644 | the handler as written fails exactly when the corrected one would list rates, and otherwise replies the same |
| CurrencyRouter.NearestAnswered | src/bot/routers/currency.py:586-656 | the corrected reply: the office passed every filter, belongs to an active organization of an allowed type, is nearest, and lists at most ten stored rates of its own |
| CurrencyRouter.UntypedFindsNothing | src/bot/routers/currency.py:602-617 | with no organization of an allowed type, a search with a user and a location answers "No offices found.", as written or corrected |
| CurrencyRouter.StorePair | src/bot/routers/currency.py:528-531 | a known user's search gets the pair, a best-rate search is created when none exists, and nothing else changes |
| CurrencyRouter.PickedPairIsSearched | src/bot/routers/currency.py:520-531 | the pair picked on the keyboards is the pair the location search reads |
| CurrencyRouter.CurrencyRouter.constructor | src/bot/routers/currency.py:42 | the router starts with no search state, over the given tables |
| CurrencyRouter.CurrencyRouter.SearchFindsNothing | src/bot/routers/currency.py:602-617 | over a real organization table, every such search answers "No offices found." |
| CurrencyRouter.CurrencyRouter.HandleFindNearestOffice | src/bot/routers/currency.py:457-472 | a known user's search restarts in nearest-office mode |
| CurrencyRouter.CurrencyRouter.HandleFindBestRateOffice | src/bot/routers/currency.py:476-491 | a known user's search restarts in best-rate mode |
| CurrencyRouter.CurrencyRouter.HandleFindBestSellCurrency | src/bot/routers/currency.py:495-512 | the sell currency is stored and the other currencies are offered under "find_best_get_currency:S" |
| CurrencyRouter.CurrencyRouter.HandleFindBestGetCurrency | src/bot/routers/currency.py:516-540 | the pair from the data is stored, USD and GEL when the data has not three parts |
| CurrencyRouter.CurrencyRouter.FindNearest | src/bot/routers/currency.py:602-637 | the nearest chosen office as read from the tables, or the reply to send instead |
| CurrencyRouter.CurrencyRouter.HandleLocation | src/bot/routers/currency.py:586-658 | the corrected reply, and the user's search is removed exactly when an office was answered |
| SyncService.ScheduleDicts | src/services/sync_service.py:183-191 | one schedule per parsed row, in order, each holding that row under the office |
| SyncService.FindByExternalRef | src/services/sync_service.py:292-294 | looking a row up by external id finds one exactly when that id is stored, and the row found carries it |
| SyncService.ReplaceKeepsImage | src/db/repositories/base_repository.py:87-113 | overwriting a row with one that agrees on a column keeps that column's values over the table |
| SyncService.SoftDeletedKeepsImages | src/db/repositories/office_repository.py:103-114 | a deactivation pass keeps every external id and primary key |
| SyncService.AssignCols | src/db/repositories/base_repository.py:106-108 | an update assigns the model columns of the data and keeps every column the data does not name |
| SyncService.BuildCols | src/db/repositories/base_repository.py:46-48 | a created row holds every model column of the data and is active unless the data says otherwise |
| SyncService.ActiveAreListed | src/services/sync_service.py:359-366 | after a deactivation pass with a list, every active row is listed |
| SyncService.SoftDeletedNoneReactivated | src/services/sync_service.py:359-366 | a deactivation pass only ever clears is_active |
| SyncService.SaveByExternalRef | src/services/sync_service.py:291-305 | the row under the external id is updated when found and created (active) otherwise; the id is then stored, no id or key is lost, the row holds the data, and an update keeps its key and activity |
| SyncService.SaveRate | src/services/sync_service.py:342-353 | after the upsert the (office, currency) pair has a stored rate, and the row returned has no truthy `_is_new` |
| SyncService.SaveRates | src/services/sync_service.py:342-357 | every entry of an office is upserted once: rates_created stays 0, rates_updated counts every entry, and every pair of the entries has a stored rate |
| SyncService.CoordinatesAssigned | src/services/sync_service.py:157-163 | the map update sets lat and lng and keeps the external id, the key and the activity |
| SyncService.KnownCount | src/services/sync_service.py:149-164 | offices_updated of the map pass counts the stored offices it meets, at most one per entry |
| SyncService.ScheduleTotalFails | src/services/sync_service.py:166-195 | the map pass fails exactly when some stored office has a non-empty schedule that does not parse |
| SyncService.KnownCountBounds | src/services/sync_service.py:149-164 | a response of stored offices updates all of them; one of unknown offices updates none and creates no schedule |
| SyncService.ScheduleTotalFailsLater | src/services/sync_service.py:149-195 | once the pass failed on some office it fails as a whole: nothing after it makes it succeed |
| SyncService.FirstMatchReplace | src/db/repositories/base_repository.py:169-185 | after an update a lookup by the same criteria still finds the updated row, or the same row as before |
| SyncService.BuiltSchedule | src/services/sync_service.py:184-191 | a schedule created from a parsed row holds its day, times and office, and is active |
| SyncService.CreateSchedules | src/services/sync_service.py:183-194 | one schedule is created per parsed row of the office, each holding its row |
| SyncService.PlaceOffice | src/services/sync_service.py:151-164 | the first office stored under the map office's id, if any, gets its coordinates; nothing else changes |
| SyncService.SyncService.constructor | src/services/sync_service.py:30-49 | the service works over four distinct, well-formed tables of the right models |
| SyncService.SyncService.ProcessOffice | src/services/sync_service.py:311-357 | an office is updated or created under its external id with its organization and coordinates 0.0; no office is reactivated; its rates all count as updated |
| SyncService.SyncService.ProcessOffices | src/services/sync_service.py:311-357 | the offices of one organization, in order, with their counts and the ids seen |
| SyncService.SyncService.ProcessNextOffice | src/services/sync_service.py:311-357 | one more office of the loop: the saved rows, the ids seen and the counts move on |
| SyncService.SyncService.ProcessOrganization | src/services/sync_service.py:282-357 | an organization is updated or created under its external id with the snapshot's name, link and icon, then its offices |
| SyncService.SyncService.ProcessNextOrganization | src/services/sync_service.py:282-357 | one more organization of the loop: the tallies and the ids seen move on |
| SyncService.SyncService.ProcessOrganizations | src/services/sync_service.py:282-357 | the loop over the organizations of the snapshot, with what it leaves behind |
| SyncService.SyncService.ProcessOrganizationsAndOffices | src/services/sync_service.py:255-368 | every organization and office of the snapshot is stored, counted once as created or updated; a snapshot of known ids creates nothing; rates_created is 0; afterwards every active row was seen; offices_deactivated counts the offices deactivated |
| SyncService.SyncService.ReplaceOfficeSchedules | src/services/sync_service.py:167-195 | an office's schedules become exactly the parsed rows; when they do not parse, the office is left with none and the pass raises; other offices' schedules are kept |
| SyncService.SyncService.ProcessMapOffice | src/services/sync_service.py:149-195 | an office not stored is skipped; a stored one gets its coordinates and, with a schedule, its schedules replaced |
| SyncService.SyncService.ProcessNextMapOffice | src/services/sync_service.py:149-195 | one more office of the map pass: its counts are added, or the pass has failed |
| SyncService.SyncService.ProcessMapData | src/services/sync_service.py:132-197 | the map pass keeps each office's id, key and activity, fails exactly when a schedule does not parse, and otherwise counts the stored offices met and the schedules created and leaves every stored office placed |
| SyncService.SyncService.SyncData | src/services/sync_service.py:199-253 | no exchange data changes nothing; the exchange phase's writes stay even when the map phase fails; a result exists exactly when both fetches worked and every schedule parsed, and then has the map pass's offices_updated |
| BaseRequester.NormalizeBase | src/utils/base_requester.py:77 | `rstrip("/")`: a prefix of the base URL that does not end in '/', and only slashes were removed |
| BaseRequester.BuildUrlShape | src/utils/base_requester.py:218-232 | an absolute endpoint is kept as it is; a relative one is the base, exactly one '/', then the endpoint without its leading slashes |
| BaseRequester.BuildUrlIdempotent | src/utils/base_requester.py:228-232 | with an absolute base, building a URL from a built URL changes nothing |
| BaseRequester.NoAttempts | src/utils/base_requester.py:119-216 | with no attempt allowed nothing is sent and the "failed after N attempts" exception is raised |
| BaseRequester.RunAttempts | src/utils/base_requester.py:119-216 | at most `retries` attempts, at most one request and one hook run per attempt, one sleep fewer than attempts; the "after N attempts" exception is never raised once an attempt is allowed; a retryable error is raised only by the last attempt |
| BaseRequester.WaitDoubles | src/utils/base_requester.py:192-204 | the first sleep is backoff_factor and each next one is twice the one before |
| BaseRequester.RunWaits | src/utils/base_requester.py:189-206 | the k-th sleep is backoff_factor · 2^(k−1), counting the failed attempts before it |
| BaseRequester.FirstFailure | src/utils/base_requester.py:167-212 | a second attempt is made exactly when the first fails with a listed status, a status of 500 or more, or a connection error; any other error is raised as it is, and a success is returned at once |
| BaseRequester.HookSkippedWhileRunning | src/utils/base_requester.py:123 | while the hook flag is set the hook is never started, whatever it would do, and the flag stays set |
| BaseRequester.HookFailureSticks | src/utils/base_requester.py:123-129 | a hook that raises leaves the flag set: its attempt sends nothing and later attempts send requests without running the hook |
| BaseRequester.Requester.constructor | src/utils/base_requester.py:65-84 | the base URL is stripped of trailing slashes, a missing retry list is empty, and the hook flag starts cleared |
| BaseRequester.Requester.Try | src/utils/base_requester.py:122-172 | one attempt: hook, request and status check, with the flag after it, as the retry policy defines |
| BaseRequester.Requester.SendRequest | src/utils/base_requester.py:86-216 | the URL is the built one, and the response, requests sent, sleeps, hook runs and final flag are those of the retry policy from attempt 0 |

## Left out

- Network I/O, the rate limiter, request headers, logging and response content decoding: the attempt outcomes are parameters of `BaseRequester.Requester.SendRequest`.
- Sessions, commits and SQL itself: a repository works on an in-memory sequence of rows in insertion order. Rows that tie under ORDER BY keep their insertion order, which is one order SQL allows.
- Time: `datetime.utcnow()` and `datetime.now()` are an integer `now`. Timestamps are integer seconds, and the Tbilisi weekday and minute are parameters.
- `haversine_distance`: the distance from the user to an office is a parameter. Floating-point rounding is not modelled, and coordinates and rates are reals.
- `get_best_rates_for_pair`: its source is not part of this model. The organization names it returns, and its entries, are parameters.
- `format_weekly_schedule`, the `:.4f`/`:.2f` formatting, the emoji and the HTML text of the replies: replies are datatypes that carry what the text shows.
- src/repositories/base_repository.py is an async copy of the synchronous base repository, which models it. src/repositories/organization_repository.py and office_repository.py are synchronous copies of the src/db ones (with `offset` in place of `skip`), which model them.
- The classes `AsyncOrganizationRepository`, `AsyncOfficeRepository` and `AsyncScheduleRepository` are imported by src/services/currency_service.py:3-4, src/bot/routers/rates.py:15-16, currency.py:24-25 and location.py:19-20 and 161, but no source file defines them, so those imports raise ImportError. The model lets the synchronous `OrganizationRepository`, `OfficeRepository` and `ScheduleRepository` stand in for them, as if they existed with the same queries.
- The async rate repository's `upsert` behaves as `RateRepository.Upsert`, which models it.
- `BaseRepository.Table.Create`, `BaseRepository.Table.Update`: require that the data holds no primary key, since no caller passes one.
- `ScheduleParser.ParseTimeToMinutes`: Python's `int()` is modelled on ASCII digits, an optional sign and ASCII whitespace. Unicode digits, underscores between digits and other Unicode whitespace are not.
- RatesRouter.IsWordChar: `\w` is modelled on ASCII (letters, digits, underscore). Python's `\w` on a str pattern also matches every other Unicode letter and digit, such as "Ё".
- RatesRouter.WordRun, RatesRouter.MatchSell, RatesRouter.SellCurrency: they inherit the ASCII `\w`. On a prompt whose currency holds a non-ASCII letter, the source captures it while the model stops before it. `RatesRouter.NonWordSellFallsBack` is stated only for a first character that is ASCII, where both agree.
- `Common.Lower`: lowers ASCII letters only. The name filter compares with ASCII words, so no other letter can matter.
- Telegram itself, including message edits, `callback.answer()` and the reply keyboards (`handle_share_location`, `handle_find_office_menu`), is not modelled. Nor are the rendering of a keyboard object and the conversion, organization-list and start routers, which are not part of the core.
- `fetch_exchange_data`, `fetch_map_data` and the provider's pydantic validation: the parsed snapshots are inputs of `SyncService.SyncService.SyncData`. Their types are the fields the cycle reads.
- `SyncService.SyncService.constructor`: takes the repositories to hold the cycle's session, as if the constructor and method signatures matched. As written, construction raises TypeError: src/services/sync_service.py:44 and 46 pass `session=` to `OrganizationRepository()` and `RateRepository()`, whose `__init__` takes no argument (src/db/repositories/organization_repository.py:23, rate_repository.py:23), and `OfficeRepository` passes `session=` on to `BaseRepository.__init__`, which takes only the model class (src/db/repositories/base_repository.py:26). The later `find_one_by`, `update` and `create` calls (sync_service.py:151, 163, 292-304, 323-335) also leave out the `session` argument those methods require (base_repository.py:35, 87, 169). The imported module src/db/repositories/schedule_repository.py does not exist; the schedule repository modelled is src/repositories/schedule_repository.py. Every `SyncService.SyncService` member describes the cycle under that reading.
- `BaseRequester.HookFailureSticks`: the hook flag that stays set after a failing hook is stated as the code does it. It is not corrected.

## Findings

| source | as written | input that shows it | evidently intended | confidence | as-written member | corrected member |
|---|---|---|---|---|---|---|
| src/bot/routers/currency.py:640-644 | each rate line reads `rate.buy` and `rate.sell`, but the rate model's columns are `buy_rate` and `sell_rate` (src/db/models/rate.py:15-16), so the line raises AttributeError | a search whose nearest office has at least one stored rate; this needs an organization that passes the type filter, which the stored organization model never does | list the office's newest rates as "currency: buy / sell" from `buy_rate` and `sell_rate`, as location.py:250-253 does | medium; not executed | CurrencyRouter.LocationReplyAsWritten, CurrencyRouter.RatesBreakReply | CurrencyRouter.LocationReply, CurrencyRouter.NearestAnswered |
