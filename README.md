# Dataset downloads and usage tracking, modelled in Dafny

This project models the download path and the usage statistics of the datasets
plugin.

- **Legacy endpoint.** A dataset migrated from the legacy multisite carries the
  origin site and post IDs in post meta. These choose a site slug and rewrite
  the dataset's REST route into a URL on `https://legacy.pewresearch.org`.
- **Download handler.** The handler checks the nonce, the user ID and the
  dataset ID, in that order. It then serves the attachment URL. With no
  attachment it refuses a dataset that still carries a cached legacy
  `dataset_download_url`. Otherwise it asks the legacy archive. Only when the
  archive yields a URL does it queue a recovery job for the dataset, and not
  while one for that dataset is still pending.
- **Logging.** A successful download, and every call of the `log-download`
  endpoint that passes its nonce, user and dataset checks, runs three logging
  steps in order:
  - the download total;
  - the current month's count inside the year's month map;
  - the user's download history, which gets a one-time v1 to v2 migration.
- **Stats endpoint.** It reads the total and one value per year from 2020 to the
  current year, through a one-day transient cache.
- **Editor panel.** It zero-fills the selected year to twelve months, orders
  them, lists their counts and shows their sum.

Modules:

- `Decimal` (`decimal.dfy`): decimal text of integers, and the parse that undoes it.
- `PhpValues` (`php_values.dfy`): what `get_post_meta(..., true)` returns, and
  PHP truthiness, `is_numeric`, `(int)` and `str_replace` on it.
- `Calendar` (`calendar.dfy`): clock readings, the two-digit month keys and the
  `_downloads_<year>` meta keys.
- `LegacyEndpoint` (`legacy_endpoint.dfy`): the pure `legacy__*` helpers.
- `UsageLog` (`usage_log.dfy`): what each logging step computes from what it
  read, and the recovery job queue.
- `RestApi` (`rest_api.dfy`): class `DatasetsApi`, whose fields are the post
  meta, user data, transient and job stores, with one method per handler.
  - A ghost `trace` records the archive request and the logging steps, in order.
  - Nonce checks, attachment URLs, REST routes, the archive's answer,
    permalinks, titles and the clock are given as an `Env` value.
  - Whether each store write succeeds is given as a `Backend` value.
- `StatsFacts` (`rest_api.dfy`): what the stats report, and how each logging
  step changes them.
- `StatsPanel` (`stats_panel.dfy`): the panel's `years`, `data` and `total`.
  Class `Panel` holds the fetched log, because the fill loop writes into the
  year object it finds there.

Behaviour kept as the code has it:

- A month's first download stores 2: the count starts at 1 and is then
  incremented.
- The "already logged" test in the user history searches entry values, not
  keys, so the insert branch always runs.
- A cached `dataset_download_url` makes the download fail with
  `failed-to-get-file-url`.
- `range(2020, $current_year)` counts down when the clock is before 2020.
- The archive request fails only on a transport error. A non-2xx answer is
  decoded like any other body, so it fails only through a missing or empty
  `dataset_download_url`. The model follows the code here.

## Model

| member | source | states |
|---|---|---|
| Decimal.IntToStringRoundTrip | includes/class-rest-api.php:133-135 | an integer written as decimal text is an `is_numeric` string, and parses back to the same integer |
| Decimal.IntToStringInjective | includes/class-rest-api.php:468 | different integers have different decimal texts, so different datasets get different cache keys |
| PhpValues.NumericOrNull | includes/class-rest-api.php:132-154 | an original blog or post ID is present exactly when the stored meta is numeric |
| PhpValues.StoredIntReadsBack | includes/class-rest-api.php:133-135 | meta holding an integer's decimal text yields that integer, from `(int)` and from the ID parsers |
| PhpValues.MissingIsZero | includes/class-rest-api.php:500-501 | absent meta is falsy, casts to 0 and is not numeric, so a first increment starts from 0 |
| PhpValues.StrReplaceAbsent | includes/class-rest-api.php:199-201 | `str_replace` leaves a subject without an occurrence of the search text unchanged |
| PhpValues.StrReplaceSkipsPrefix | includes/class-rest-api.php:199-201 | a prefix in which no occurrence starts is kept as is, and replacement goes on after it |
| PhpValues.StrReplaceTrailing | includes/class-rest-api.php:199-201 | a subject that ends with its only occurrence gets that occurrence replaced |
| PhpValues.StrReplaceSelf | includes/class-rest-api.php:199-201 | replacing a text by itself changes nothing |
| PhpValues.StrReplaceAtOccurrence | includes/class-rest-api.php:200 | the first occurrence is replaced and the scan resumes right after it |
| PhpValues.StrReplace | includes/class-rest-api.php:200 | `str_replace` with one search string; what it does is stated by StrReplaceAbsent, StrReplaceSkipsPrefix, StrReplaceAtOccurrence, StrReplaceTrailing and StrReplaceSelf |
| PhpValues.IntVal | includes/class-rest-api.php:409 | the `(int)` cast; StoredIntReadsBack states that an integer's decimal text casts back to it, and MissingIsZero that absent meta casts to 0 |
| Calendar.MonthKey | includes/class-rest-api.php:519 | a month's key has two digits and denotes that month |
| Calendar.MonthKeyOfValue | includes/inspector-sidebar-panel/src/stats-panel.js:90-92 | every two-digit key denoting a month is that month's zero-padded key |
| Calendar.MonthKeyInjective | includes/class-rest-api.php:519 | different months have different keys |
| Calendar.AllMonthKeysAreMonthKeys | includes/inspector-sidebar-panel/src/stats-panel.js:90-92 | the twelve padded keys are exactly the two-digit keys of a month |
| Calendar.YearKeyInjective | includes/class-rest-api.php:520 | different years use different `_downloads_<year>` meta keys |
| LegacyEndpoint.SiteSlug | includes/class-rest-api.php:162-189 | the slug is empty exactly for a null or unlisted site ID; a listed ID gets a `/`-prefixed slug |
| LegacyEndpoint.SiteSlugInjective | includes/class-rest-api.php:162-189 | the eleven listed sites have eleven different slugs |
| LegacyEndpoint.RouteWithoutIdUnchanged | includes/class-rest-api.php:199-201 | a route that does not contain the post ID is kept as is |
| LegacyEndpoint.RouteEndingInId | includes/class-rest-api.php:199-201 | a route ending in its only occurrence of the post ID ends in the original ID instead, or in nothing when that ID is null |
| LegacyEndpoint.SamePostKeepsRoute | includes/class-rest-api.php:199-201 | when the original ID equals the post ID the route is unchanged |
| LegacyEndpoint.OriginalRestRoute | includes/class-rest-api.php:199-201 | `str_replace` of the post ID by the original ID; its behaviour is stated by RouteWithoutIdUnchanged, RouteEndingInId, RouteIdReplaced and SamePostKeepsRoute |
| LegacyEndpoint.ArchiveEndpoint | includes/class-rest-api.php:223 | the archive URL; KnownSiteEndpoint states its shape for every site |
| LegacyEndpoint.RouteIdReplaced | includes/class-rest-api.php:199-201 | for any route, the first occurrence of the post ID, wherever it stands, becomes the original ID (or nothing), and the rest of the route is rewritten the same way, so every occurrence is replaced |
| LegacyEndpoint.IdInVersionSegmentIsReplaced | includes/class-rest-api.php:199-201 | worked example of the unanchored replacement: post 2 of route `/wp/v2/dataset/2` becomes `/wp/v99/dataset/99` |
| LegacyEndpoint.KnownSiteEndpoint | includes/class-rest-api.php:211-223 | for any site and any route `<base><post id>` whose base does not contain the post ID: a listed site gives host + its non-empty slug + `/wp-json` + `<base><original id>`; an unlisted or missing site gives host + `/wp-json` + `<base><original id>` |
| LegacyEndpoint.PoliticsEndpointExample | includes/class-rest-api.php:211-223 | worked example: dataset 42 from site 4, originally post 99, is fetched from `https://legacy.pewresearch.org/politics/wp-json/wp/v2/dataset/99` |
| UsageLog.TotalCountsIncrements | includes/class-rest-api.php:499-502 | k successful increments raise the total read back by exactly k |
| UsageLog.BumpMonth | includes/class-rest-api.php:517-535 | only the current month key is added or changed: an existing count goes up by 1, a missing one ends at 2, a non-array is first replaced by an empty map |
| UsageLog.Migrate | includes/class-rest-api.php:557-567 | after the upgrade a `v2` map exists, a history that already had one is untouched, and a history a PHP array can hold stays one |
| UsageLog.MigrateIdempotent | includes/class-rest-api.php:557-567 | upgrading twice is upgrading once |
| UsageLog.MigrateKeepsLegacyPayload | includes/class-rest-api.php:557-567 | a non-empty history without `v2` becomes `{v1: old, v2: {}}` |
| UsageLog.RecordDownload | includes/class-rest-api.php:570-578 | `v2[dataset_id]` exists with date = now; other `v2` entries and everything outside `v2` are those of the upgraded history; a history a PHP array can hold stays one |
| UsageLog.RecordDownloadAlwaysInserts | includes/class-rest-api.php:571 | the value search never finds the dataset ID among entries, so the fresh entry `{date, url, title}` is always written |
| UsageLog.InValues | includes/class-rest-api.php:571 | `in_array` with loose comparison over the `v2` values; RecordDownloadAlwaysInserts states that it never finds the ID among entry arrays |
| UsageLog.RepeatDownloadKeepsOneEntry | includes/class-rest-api.php:570-578 | logging the same dataset again adds no key, keeps everything outside `v2`, and replaces its entry with a fresh one holding the new date, url and title |
| UsageLog.FirstDownloadHistory | includes/class-rest-api.php:557-578 | an empty history becomes `{v2: {id: entry}}` with no `v1` |
| UsageLog.EnqueueUnique | includes/class-rest-api.php:257-266 | the queue keeps one pending action per hook and group; it is unchanged while one with the action's hook and group is pending, and otherwise gains exactly that action at its end |
| UsageLog.RecoveryEnqueueIdempotent | includes/class-rest-api.php:257-266 | a second recovery request for the same dataset leaves the queue as the first left it |
| UsageLog.RecoveryGroupsDistinct | includes/class-rest-api.php:257-266 | recovery jobs of different datasets are in different groups |
| RestApi.ArchiveResult | includes/class-rest-api.php:225-255 | a transport error and a missing or empty URL give their two errors; a decoded non-empty URL is returned, and it is the only way to succeed |
| RestApi.PhpRange | includes/class-rest-api.php:413-415 | the years run from 2020 to the current year by steps of one, downward when the current year is earlier |
| RestApi.LogOver | includes/class-rest-api.php:417-420 | the log has an entry for exactly the listed years, each holding that year's stored meta |
| RestApi.LogOverAgree | includes/class-rest-api.php:417-420 | two stores that agree on a dataset's year keys give the same log |
| RestApi.DatasetsApi.AttemptDownloadFromArchive | includes/class-rest-api.php:211-270 | requests the computed endpoint once; a failure leaves the queue alone, success enqueues the unique recovery job |
| RestApi.DatasetsApi.ResolveFileUrl | includes/class-rest-api.php:300-317 | an attachment URL is used as is; otherwise a cached URL gives `failed-to-get-file-url`; otherwise the archive's result is returned, its request is recorded and success enqueues the recovery job |
| RestApi.DatasetsApi.SourceFor | includes/class-rest-api.php:300-317 | the attachment is used exactly when its ID is truthy and gives a non-empty URL; otherwise the cached URL is chosen exactly when it is truthy, and the archive when it is not |
| RestApi.DatasetsApi.LogSteps | includes/class-rest-api.php:446-452 | the total, monthly and user steps run in that order whatever the earlier ones returned, and the report holds each step's result |
| RestApi.DatasetsApi.DownloadDataset | includes/class-rest-api.php:278-334 | nonce, then uid, then ID are checked first, and each refusal carries status 400; a failure to find the file carries 500; then attachment, else the cached-URL error, else the archive; only success logs total, monthly and user, in order; the cache is untouched |
| RestApi.DatasetsApi.IncrementDownloadTotal | includes/class-rest-api.php:499-509 | the stored total becomes the old value plus one when the write succeeds, else `could-not-increment-total` |
| RestApi.DatasetsApi.LogMonthlyDownloadCount | includes/class-rest-api.php:517-542 | only the current year's meta changes, to the bumped month map; a failed write gives `could-not-log-monthly` |
| RestApi.DatasetsApi.LogDatasetToUser | includes/class-rest-api.php:551-585 | a read error is returned and nothing is patched; otherwise the whole upgraded history with the new entry is patched |
| RestApi.DatasetsApi.LogDownload | includes/class-rest-api.php:431-453 | an error is 403 exactly for a bad nonce and 400 for a missing uid or ID; after the three checks all three steps run in order and each result is reported |
| RestApi.DatasetsApi.GetDownloadLog | includes/class-rest-api.php:405-423 | the loop over the years yields the int-cast total and each year's stored meta |
| RestApi.DatasetsApi.GetDownloadStats | includes/class-rest-api.php:461-492 | a missing ID gives 400; an unexpired cache entry is returned unchanged; a miss computes the stats and caches them for a day |
| StatsFacts.StatsYears | includes/class-rest-api.php:480-487 | the log has exactly the years 2020 to the current year, as many as the span |
| StatsFacts.RangeMembers | includes/class-rest-api.php:413-415 | a year is in `range(2020, $current_year)` exactly when it lies between the two ends |
| StatsFacts.StoreOneYear | includes/class-rest-api.php:417-420 | storing one year's meta changes that year's log entry to the stored value and no other entry |
| StatsFacts.StatsYearIsStoredMeta | includes/class-rest-api.php:484-487 | each year holds its stored meta, and a year without downloads holds `''` |
| StatsFacts.TotalStepCounts | includes/class-rest-api.php:499-502 | a saved total step raises the reported total by one and no year changes |
| StatsFacts.MonthlyStepTouchesOneYear | includes/class-rest-api.php:517-535 | a saved monthly step changes only the current year's entry, by bumping its month |
| StatsFacts.OtherDatasetsUnaffected | includes/class-rest-api.php:499-535 | logging one dataset leaves another dataset's stats as they were |
| StatsPanel.SlotOf | includes/inspector-sidebar-panel/src/stats-panel.js:88 | an absent year, `''` or 0 gives a fresh object; a stored month map is used itself; exactly a non-empty string (`"0"` included) or a non-zero number is kept as a primitive |
| StatsPanel.LoggerWritesMonthKeysOnly | includes/class-rest-api.php:525-535 | the logger's month maps hold only month keys |
| StatsPanel.ZeroFilled | includes/inspector-sidebar-panel/src/stats-panel.js:90-96 | all twelve month keys are present, existing counts are kept and missing months are 0 |
| StatsPanel.FillMonths | includes/inspector-sidebar-panel/src/stats-panel.js:90-96 | the fill loop produces the zero-filled map |
| StatsPanel.MonthKeysFrom | includes/inspector-sidebar-panel/src/stats-panel.js:98 | the sorted keys are keys of the map, are month keys, and ascend strictly by numeric value |
| StatsPanel.MonthKeysFromExact | includes/inspector-sidebar-panel/src/stats-panel.js:98 | the sort keeps every month key of the map |
| StatsPanel.AllMonthsSorted | includes/inspector-sidebar-panel/src/stats-panel.js:98 | the twelve month keys sort as `01` to `12` |
| StatsPanel.Project | includes/inspector-sidebar-panel/src/stats-panel.js:100 | the values come in the order of the sorted keys |
| StatsPanel.DensifyMonthOrder | includes/inspector-sidebar-panel/src/stats-panel.js:88-100 | the output has twelve values, month i+1 at index i, with 0 for a missing month |
| StatsPanel.Densify | includes/inspector-sidebar-panel/src/stats-panel.js:88-100 | fill, sort and project; DensifyMonthOrder states that it gives the twelve month counts in month order |
| StatsPanel.FillKeepsCounts | includes/inspector-sidebar-panel/src/stats-panel.js:90-96 | filling adds zeros only where a month was missing |
| StatsPanel.DataFor | includes/inspector-sidebar-panel/src/stats-panel.js:86-101 | no log gives no data, and the computation throws exactly on a truthy scalar |
| StatsPanel.AbsentYearShowsZeros | includes/inspector-sidebar-panel/src/stats-panel.js:88-100 | a year absent from the log, or stored as `''`, shows twelve zeros |
| StatsPanel.StoredYearShowsMonths | includes/inspector-sidebar-panel/src/stats-panel.js:88-100 | a stored year shows its month counts in month order |
| StatsPanel.Panel.Data | includes/inspector-sidebar-panel/src/stats-panel.js:86-101 | gives the densified data; a stored year object in the held log is replaced by its zero-filled form and nothing else changes |
| StatsPanel.FillInPlaceIsHarmless | includes/inspector-sidebar-panel/src/stats-panel.js:88-96 | the in-place fill changes neither the year options nor what the next render shows |
| StatsPanel.TotalIsSum | includes/inspector-sidebar-panel/src/stats-panel.js:103-105 | the `reduce` total is the sum of the data |
| StatsPanel.Total | includes/inspector-sidebar-panel/src/stats-panel.js:103-105 | the `reduce` from 0; TotalIsSum states that it is the sum of the data |
| StatsPanel.BumpChangesOneMonth | includes/class-rest-api.php:525-533 | a download changes only its own month's count, by 1, or by 2 for the month's first download |
| StatsPanel.DownloadRaisesTotal | includes/inspector-sidebar-panel/src/stats-panel.js:86-105 | one logged download raises the panel's yearly total by 1, or by 2 for the month's first download |
| StatsPanel.AscendingYears | includes/inspector-sidebar-panel/src/stats-panel.js:81 | the listed years are exactly the set's years, in ascending order |
| StatsPanel.AscendingYearsLength | includes/inspector-sidebar-panel/src/stats-panel.js:81 | the year options list each of the log's years once |
| StatsPanel.Years | includes/inspector-sidebar-panel/src/stats-panel.js:79-82 | there are no options without a log; otherwise the options are exactly the log's years, ascending |
| StatsPanel.FetchedYearsOffered | includes/inspector-sidebar-panel/src/stats-panel.js:79-82 | fetched stats offer exactly the years 2020 to the current year |

## Left out

- HTTP and JSON: the archive's answer is the `fetch` function of `Env`, giving a transport error or the decoded `dataset_download_url`. A body that does not decode to an object is not modelled (PHP 8 throws on it). Neither is a URL that is not a string.
- Nonce verification, `wp_get_attachment_url`, `rest_get_route_for_post`, `get_permalink`, `get_the_title`, `wp_date`, `gmdate`, `current_time` and `time()` are given as `Env`. They are WordPress core functions (and a nonce check) that the plugin calls.
- `User_Data`'s storage is not part of this model. Its `get_data` and `patch_data` outcomes are the `Backend` value, and a user's data is reduced to its `datasets` value.
- Whether `update_post_meta` succeeds is given as `Backend`. This includes its `false` for an unchanged value, which cannot arise after an increment.
- PhpValues.IntVal: numeric strings are an optional sign followed by digits. Leading and trailing whitespace, decimals, exponents and the leading-digits cast (`(int) "12abc"`) are not modelled. Neither is the saturation of `(int)` and `intval` at the 64-bit bounds for longer numeric strings; the value is unbounded here.
- RestApi.MetaOf: post meta is keyed on the dataset ID as given. WordPress's metadata API passes object IDs through `absint`, so a negative `dataset_id` such as -42 reads and writes the meta of post 42; the model treats -42 as a post of its own, so `DownloadDataset` and the logging steps for a negative ID do not see or change post 42's meta.
- RestApi.DatasetsApi.IncrementDownloadTotal: PHP integers are 64-bit, and `++` past `PHP_INT_MAX` gives a float. Counts are unbounded here; a download counter does not reach that value.
- RestApi.DatasetsApi.IncrementDownloadTotal: `++` on a non-numeric string (PHP's string increment) and on an array is not modelled. The total is read through `(int)`, as the stats path reads it.
- RestApi.Request: `dataset_id` is an optional integer. Non-numeric ID strings are not modelled.
- RestApi.Request: a request body without an object (PHP 8 throws in `array_key_exists`) is not modelled.
- UsageLog.RecordDownload: an existing `v2[dataset_id]` that is a scalar (PHP 8 throws on `['date'] =`) is not modelled. This code only writes arrays there.
- PHP array order in maps is not modelled; keyed maps stand for PHP arrays.
- Action Scheduler's execution of the recovery job is not modelled. Uniqueness is taken as "one pending action with the same hook and group".
- Concurrent requests racing on the same counter are not modelled. Every handler runs on its own.
- `restfully_check_atp_acceptance` and `restfully_accept_atp` only forward to `User_Data`, which is not part of this model.
- `register_dataset_endpoints`, `register_field`, the constructor and the hooks are configuration.
- StatsPanel.DataFor: covers year objects whose keys are all month keys, the only keys the logger writes (`LoggerWritesMonthKeysOnly`). JavaScript's ordering and numeric sort of arbitrary keys are not modelled.
- StatsPanel.DataFor: month counts are integers. A string count (which `+` would concatenate) cannot come from the logger.
- StatsPanel.Panel.Data: the selected year from the select control is a string in JavaScript and an integer here. Property lookup treats both alike.
- `getHeatLevel` (floating-point percentages), `CalendarChart` rendering, the React hooks and `apiFetch` are UI and I/O.
