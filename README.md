# Consumption anomaly analysis, modelled in Dafny

The backend (`backend/server.js`) of a small electricity-consumption dashboard
answers `/api/analizar-anomalias`. It reads the client directory and an
hour-by-hour aggregation of consumption from the database. It enriches every
aggregated bucket with the owner's address, then runs three threshold rules
over the ordered buckets (`detectAnomalies`). Finally it summarises the
anomalies four ways:

- per neighbourhood (`barrioStats`);
- per address, as a top-50 leaderboard (`topLocations`);
- per day (`timeline`);
- overall (`resumen`).

This project models everything after the two database reads, and proves what
each step promises.

- `records.dfy` (module `Records`): the buckets, clients, directory entries,
  enriched records and anomalies. It also holds the two risk labels and the
  three rule kinds.
- `collections.dfy` (module `Collections`): occurrence counts, first-occurrence
  de-duplication, and sums of counts over a key list. De-duplication gives the
  key order of a JavaScript object that a loop fills.
- `directory.dfy` (module `ClientDirectory`): `clientesMap` (a later duplicate
  id overwrites an earlier one), the neighbourhood owner filter, the default
  date range of the match stage, and the enrichment with its
  `'Desconocida'`/`'Desconocido'`/`''` fallbacks.
- `anomalies.dfy` (module `AnomalyRules`):
  - `detectAnomalies` as a method with a loop, proved equal to a function
    `Detect`;
  - lemmas that each rule yields exactly one anomaly per bucket where it fires;
  - lemmas on output order, the size bound and the copied fields.
- `barrio_stats.dfy` (module `BarrioStats`): the two counting loops over
  `barrioStats`, proved against per-neighbourhood counters, with the lemmas
  that the counts add up.
- `leaderboard.dfy` (module `Leaderboard`):
  - the grouping loop over `direccionAnomalies`;
  - finishing each group with its rounded average and risk;
  - the stable descending sort and the top 50.
- `timeline.dfy` (module `Timeline`): the loop over `timelineMap`, the stable
  sort by date, and its strict ascending order.
- `handler.dfy` (module `Handler`): the summary, the response, and the handler
  body as one method proved equal to a function `Analysis`, with the
  consistency of the whole response.

Consumption is a `real`, so thresholds such as `necesidad < 0.5` stay exact.
Hour and day are fields of the bucket: `hora` and the `"%Y-%m-%d"` string
`fecha`.

Where the specification and the code disagree, the model follows the code:

- The sudden-increase rule compares with the bucket just before it in the
  sequence, whoever owns it. It has no guard for a previous consumption of 0,
  so any positive consumption after a zero fires
  (`AnomalyRules.SuddenAcrossOwners`). The specification asks for rule 3 not
  to fire when the previous consumption is 0.
- The fallbacks for an owner missing from the directory are the strings
  `'Desconocida'` (address) and `'Desconocido'` (neighbourhood). The
  specification says "Unknown".
- The leaderboard's risk label compares the unrounded average
  `puntuacionTotal / alertas` with 80, which is the same as
  `puntuacionTotal > 80 * alertas` (`Leaderboard.Finish`). The specification
  compares the rounded average.

One departure goes the other way: the model does not follow the code on the
leaderboard's grouping key. The code keys a group by the string
`direccion + "_" + barrio`, which merges two different places whenever an `_`
inside the street number or the neighbourhood makes the joined strings equal
(see "## Findings"). The model groups by the (address, neighbourhood) pair,
which is what the key is evidently meant to do. It models the string key
separately (`Leaderboard.LegacyKey`) to exhibit the merge. So
`Handler.AnalyzeAnomalies` equals `Analysis` with the pair key. For inputs
where two places collide, the code's leaderboard has one merged location
where the model has two.

## Model

| member | source | states |
|---|---|---|
| `ClientDirectory.EntryOf` | backend/server.js:91-97 | the directory value of a client holds its name, neighbourhood, city and province, and its address is street and number joined by one space |
| `ClientDirectory.BuildDirectory` | backend/server.js:87-98 | the loop over the clients builds exactly the map `Directory(clientes)` (stores in list order) |
| `ClientDirectory.DirectoryKeys` | backend/server.js:90-98 | the directory has exactly one key per distinct external id of the clients |
| `ClientDirectory.DirectoryLastWins` | backend/server.js:90-98 | with duplicate external ids, the entry of an id is that of the last client carrying it |
| `ClientDirectory.DirectoryFrom` | backend/server.js:90-98 | every directory entry is the entry of some client with that external id |
| `ClientDirectory.OwnersInBarrio` | backend/server.js:112-114 | an id is in the owner list exactly when some client of that neighbourhood has it; the list is no longer than the client list |
| `ClientDirectory.BuildMatchStage` | backend/server.js:103-116 | the date range defaults to 2022-01-01 .. 2022-12-31; an owner filter is present exactly when a neighbourhood other than 'todos' is asked for, and then it is exactly `OwnersInBarrio`: an id is listed if and only if some client of that neighbourhood has it |
| `ClientDirectory.EnrichOne` | backend/server.js:160-168 | the bucket is kept; address and neighbourhood are never empty; an unknown owner gets 'Desconocida', 'Desconocido' and empty city and province; a known owner gets the directory's address and neighbourhood, or the same sentinels where those are empty (the `||` fallback), and its city and province |
| `ClientDirectory.Enrich` | backend/server.js:159-169 | the enrichment keeps length and order and treats every bucket on its own |
| `ClientDirectory.EnrichAgainstClients` | backend/server.js:90-98 | a bucket takes the address and neighbourhood of the last client with its owner id |
| `ClientDirectory.EnrichUnknownOwner` | backend/server.js:160-165 | a bucket whose owner no client has gets the two sentinels |
| `ClientDirectory.FilteredOwnerBarrio` | backend/server.js:110-116 | with unique ids, a bucket of an owner selected by the neighbourhood filter is enriched with that neighbourhood |
| `AnomalyRules.RecordAnomalies` | backend/server.js:24-74 | one bucket yields at most three anomalies, in rule order 1, 2, 3, each the table anomaly of a rule that fires on that bucket |
| `AnomalyRules.DetectUpTo` | backend/server.js:22-77 | the anomalies of the first n buckets number at most 3n |
| `AnomalyRules.Origin` | backend/server.js:24-74 | every anomaly comes from an earlier-or-same bucket where its rule fires, with the fields of that bucket |
| `AnomalyRules.DetectAnomalies` | backend/server.js:22-77 | the loop pushes exactly the anomalies of `Detect`: per bucket, in order, the rules that fire |
| `AnomalyRules.RuleOutput` | backend/server.js:29-73 | for one bucket, rule k yields exactly its table anomaly when its condition holds and nothing otherwise (nocturnal: hour in [0,6) and more than 15 kWh, score 85/'Alto' above 25 kWh, else 65/'Medio'; low need: need below 0.5 and more than 20 kWh, 90/'Alto'; sudden increase: position above 0 and more than three times the previous consumption, 70/'Medio') |
| `AnomalyRules.KindTotals` | backend/server.js:22-77 | the anomalies of kind k are exactly the table anomalies of the buckets where rule k fires, in bucket order |
| `AnomalyRules.DetectOrder` | backend/server.js:24-74 | anomalies of earlier buckets come first, then those of the bucket in rule order, then those of later buckets |
| `AnomalyRules.DetectSound` | backend/server.js:24-74 | every reported anomaly is the table anomaly of a rule firing on some bucket |
| `AnomalyRules.DetectComplete` | backend/server.js:24-74 | every rule that fires on a bucket is reported |
| `AnomalyRules.DetectMembers` | backend/server.js:22-77 | an anomaly is reported if and only if it is the table anomaly of a rule firing on some bucket |
| `AnomalyRules.DetectFields` | backend/server.js:30-72 | every anomaly has a score of 65, 70, 85 or 90, risk 'Alto' exactly above 80, and owner, address, neighbourhood, date and value copied from a bucket |
| `AnomalyRules.NightExample` | backend/server.js:29-42 | a night bucket of 20 kWh followed by one of 5 kWh yields only a nocturnal anomaly, score 65, risk 'Medio' |
| `AnomalyRules.SuddenExample` | backend/server.js:60-73 | 35 kWh after 10 kWh is reported as a sudden increase with score 70, risk 'Medio' |
| `AnomalyRules.SuddenAcrossOwners` | backend/server.js:60-73 | the previous bucket of another owner with 0 kWh makes any positive consumption a sudden increase |
| `BarrioStats.BarrioStatsOf` | backend/server.js:176-197 | one accumulator per distinct neighbourhood of the records, in order of first appearance, with distinct neighbourhoods |
| `BarrioStats.AddRecord` | backend/server.js:177-188 | one record creates its neighbourhood's accumulator when missing and adds its consumption and one record to it |
| `BarrioStats.AccumulateRecords` | backend/server.js:176-189 | after the record loop, the keys are the distinct neighbourhoods in first-appearance order and each accumulator holds that neighbourhood's totals |
| `BarrioStats.AccumulateAnomalies` | backend/server.js:191-197 | after the anomaly loop, each accumulator also holds the anomaly and risk counts of its neighbourhood; anomalies of other neighbourhoods are skipped |
| `BarrioStats.ComputeBarrioStats` | backend/server.js:176-197 | the two loops and `Object.entries` yield exactly `BarrioStatsOf` |
| `BarrioStats.Report` | backend/server.js:251-257 | the average consumption times the record count is the total consumption; the counts are copied |
| `BarrioStats.Reports` | backend/server.js:251-257 | one response row per accumulator, in order |
| `BarrioStats.BarriosCovered` | backend/server.js:176-189 | every neighbourhood of the records has an entry and every entry is a neighbourhood of the records |
| `BarrioStats.RiskCountsAddUp` | backend/server.js:191-197 | every entry counts at least one record, and riesgoAlto + riesgoMedio = anomalias |
| `BarrioStats.CountsAddUp` | backend/server.js:176-189 | the record counts of all entries add up to the number of records |
| `BarrioStats.AnomaliesAddUp` | backend/server.js:191-197 | when every anomaly lies in a neighbourhood of the records, the anomaly counts add up to the number of anomalies |
| `Leaderboard.GroupsOf` | backend/server.js:200-218 | one group per distinct (address, neighbourhood) key, in order of first appearance |
| `Leaderboard.AddAnomaly` | backend/server.js:201-215 | one anomaly creates its key's group when missing and adds one alert, its score and its kind to it |
| `Leaderboard.GroupStep` | backend/server.js:203-215 | after one more anomaly every group is the group of the longer list |
| `Leaderboard.GroupLoop` | backend/server.js:200-216 | after the loop, the keys are the distinct keys in first-appearance order and each group is that key's group |
| `Leaderboard.GroupByAddress` | backend/server.js:200-218 | the loop and `Object.values` yield exactly `GroupsOf` |
| `Leaderboard.AlertasIsCount` | backend/server.js:213 | a group's alerts are the number of anomalies with its key |
| `Leaderboard.KindsInExact` | backend/server.js:210-215 | a group's kinds are distinct and are exactly the kinds of the anomalies with its key |
| `Leaderboard.FirstOwnerIsFirst` | backend/server.js:203-211 | a group's owner is that of the first anomaly with its key |
| `Leaderboard.GroupKeys` | backend/server.js:200-216 | groups have distinct keys and every anomaly's key has a group |
| `Leaderboard.AlertasAddUp` | backend/server.js:200-216 | the alerts of all groups add up to the number of anomalies |
| `Leaderboard.GroupsNonEmpty` | backend/server.js:203-213 | every group holds at least one alert |
| `Leaderboard.RoundedAverage` | backend/server.js:222 | the rounded average r satisfies r - 1/2 <= total / alerts < r + 1/2 (halves round up) |
| `Leaderboard.AverageAbove80` | backend/server.js:223 | the average is above 80 exactly when total > 80 * alerts |
| `Leaderboard.Finish` | backend/server.js:219-224 | risk 'Alto' exactly when total > 80 * alerts; the rounded average within half a point; the other fields copied |
| `Leaderboard.FinishAll` | backend/server.js:218-224 | one location per group, in order |
| `Leaderboard.InsertByTotal` | backend/server.js:225 | insertion adds exactly one element and keeps the others |
| `Leaderboard.InsertSorted` | backend/server.js:225 | insertion into a list sorted by descending total keeps it sorted |
| `Leaderboard.SortByTotal` | backend/server.js:225 | the sort is a permutation of its input |
| `Leaderboard.SortSorted` | backend/server.js:225 | the sort's output is non-increasing by total |
| `Leaderboard.SortStable` | backend/server.js:225 | locations with equal totals keep their relative order |
| `Leaderboard.TopLocations` | backend/server.js:225-226 | exactly min(50, n) locations: the first ones of the stable descending sort of the input, drawn from the input without repetition (a sub-multiset), sorted by descending total |
| `Leaderboard.TopIsMaximal` | backend/server.js:225-226 | every location cut off has a total no greater than every location kept |
| `Leaderboard.LeaderboardOf` | backend/server.js:218-226 | `topLocations` has min(50, number of groups) entries, each the finished form of a group of the anomalies, sorted by descending total |
| `Leaderboard.LegacyGroupCount` | backend/server.js:202 | the string key yields no more groups than anomalies |
| `Leaderboard.LegacyKeyMerges` | backend/server.js:202 | clients on "Mitre" with number "1" in "B_Centro" and number "1_B" in "Centro" get addresses "Mitre 1" and "Mitre 1_B"; their anomalies share the string key "Mitre 1_B_Centro" and fall into one group, while the pair key keeps two |
| `Timeline.TimelineGroups` | backend/server.js:229-240 | one entry per distinct anomaly day, in order of first appearance |
| `Timeline.OldDayStep` | backend/server.js:237-239 | an anomaly of a known day is counted in that day's entry, and in its risk |
| `Timeline.NewDayStep` | backend/server.js:234-239 | an anomaly of a new day gets a new entry counting it |
| `Timeline.AddToTimeline` | backend/server.js:230-240 | one anomaly creates its day's entry when missing and counts it and its risk |
| `Timeline.TimelineLoop` | backend/server.js:229-240 | after the loop, the keys are the distinct days in first-appearance order and each entry holds that day's counts |
| `Timeline.BuildTimelineGroups` | backend/server.js:229-242 | the loop and `Object.values` yield exactly `TimelineGroups` |
| `Timeline.StrLtIrreflexive` | backend/server.js:242 | no date sorts before itself |
| `Timeline.StrLtTransitive` | backend/server.js:242 | the date order is transitive |
| `Timeline.StrLtTotal` | backend/server.js:242 | any two different dates are ordered one way or the other |
| `Timeline.InsertByDate` | backend/server.js:242 | insertion adds exactly one element and keeps the others |
| `Timeline.SortByDate` | backend/server.js:242 | the sort is a permutation of its input |
| `Timeline.InsertAscending` | backend/server.js:242 | inserting an entry of a new date into a strictly ascending list keeps it strictly ascending |
| `Timeline.SortAscending` | backend/server.js:242 | with distinct dates, the sorted list is strictly ascending |
| `Timeline.SortTotal` | backend/server.js:242 | sorting keeps the sum of the counts |
| `Timeline.TimelineCountsAddUp` | backend/server.js:229-242 | the counts of all entries add up to the number of anomalies |
| `Timeline.TimelineAscending` | backend/server.js:229-242 | the timeline is strictly ascending by date |
| `Timeline.TimelineEntries` | backend/server.js:229-242 | each entry is an anomaly day with a positive count equal to alto + medio, and every anomaly day has an entry |
| `Handler.CountRisk` | backend/server.js:261-262 | a risk count is at most the number of anomalies |
| `Handler.RiskCountsSplit` | backend/server.js:259-263 | high and medium alerts add up to the number of anomalies |
| `Handler.Summary` | backend/server.js:259-263 | totalAnomalias is the number of anomalies and alertasAltas + alertasMedias = totalAnomalias |
| `Handler.FirstAnomalias` | backend/server.js:249 | the response lists the first min(100, n) anomalies, a prefix of all of them |
| `Handler.AnalyzeAnomalies` | backend/server.js:87-263 | the handler body after the two reads yields exactly `Analysis` (the full response), which groups the leaderboard by the (address, neighbourhood) pair instead of the string key of line 202 |
| `Handler.AnomalyBarriosCovered` | backend/server.js:159-197 | every anomaly's neighbourhood is that of an enriched record, so none is skipped by the neighbourhood statistics |
| `Handler.ResponseConsistent` | backend/server.js:246-263 | the response is consistent: success; count of records; summary, neighbourhood statistics and timeline each account for every anomaly once; list capped at 100 and a prefix; leaderboard of min(50, number of groups) finished groups, sorted; timeline strictly ascending |

## Left out

- Express routing, the MongoDB connection, `res.json` and the error answers
  (HTTP 500) are network and database I/O. `Handler.AnalyzeAnomalies` starts
  after the two database reads and takes their results as parameters.
- The aggregation pipeline runs inside the database, so it is a foreign
  call. The model takes its result as an input sequence. Nothing proved here
  depends on its sort order (owner, day, hour) or on its 50000-row cap, so
  neither is a precondition.
- `/api/barrios` and `/api/detalle-direccion` are pure database queries.
- Date and timezone handling is left out:
  - `getHours()` takes the bucket hour `hora`, which is right on a host
    running in UTC;
  - the match-stage dates are kept as strings, not `Date` values;
  - the timeline day takes the bucket day `fecha`, which is what the ISO
    string of a UTC-built date gives.
- Float formatting is left out: the `toFixed` calls, the description texts
  and the percentage of the sudden-increase description. Consumption is an
  exact `real`, not an IEEE double.
- `localeCompare` is modelled as lexicographic order by character code. That
  is its order on "YYYY-MM-DD" strings, but not on arbitrary strings.
- JavaScript object-key quirks are not modelled:
  - a neighbourhood, address or day named like an `Object.prototype` member
    (`constructor`, `toString`) makes `!obj[key]` false before any write;
  - integer-like keys are enumerated first by `Object.values`/`Object.entries`.

  The model treats every key as a plain map key kept in insertion order.
- The frontend (`frontend/src/App.js`) and console logging.
- `Leaderboard.AverageAbove80`, `Leaderboard.Finish` and
  `Leaderboard.RoundedAverage` divide exact rationals, where the source
  divides doubles.
- `BarrioStats.Report` returns the exact average, where the response string
  is rounded to two decimals.

## Findings

| source | as written | input that shows it | evidently intended | confidence | as-written member | corrected member |
|---|---|---|---|---|---|---|
| backend/server.js:202 | the leaderboard key is the string `direccion + "_" + barrio` | client A on calle "Mitre", numero "1", barrio "B_Centro" and client B on calle "Mitre", numero "1_B", barrio "Centro" have addresses "Mitre 1" and "Mitre 1_B"; both keys are "Mitre 1_B_Centro", so their anomalies are merged into one location | one location per distinct (address, neighbourhood) pair | low, not executed | `Leaderboard.LegacyKeyMerges` | `Leaderboard.GroupKeys` |
