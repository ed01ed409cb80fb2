# UK grid connection: cache and gap-fill engine

A Dafny model of the caching core of the `UKGridConnection` class. That class
prices an energy profile against half-hourly UK electricity prices. It keeps
every upstream answer as a batch file in a local record store, and it reads the
store back into an in-memory cache. Before pricing, it fills holes in the
cache by calling the upstream API again.

The model covers five parts, each with proofs:

- **Keep-latest deduplication and refresh** (`Dedup`, `Grid`).
  - Rows are grouped by `id`; the row with the greatest `created` is kept, the first in table order on ties.
  - The table is then sorted by `id`.
  - The refresh and consolidation routines are methods of `Grid.GridConnection`; they reassign the cache fields and the stores.
- **The composite key** (`Text`, `Records`).
  - Built as `region_voltageLevel_from` (or `region_postcode_from`), with spaces replaced by `_` and letters upper-cased.
  - The timestamp can be read back out of the key, so distinct start times give distinct keys.
- **Window chunking** (`Chunking`, `Fetcher`, `Grid`).
  - A request longer than 31 days (price) or 14 days (intensity) is cut by a `while` loop into 30-day (or 13-day) chunks.
  - Each chunk is fetched by a nested request that skips the store.
  - The loops are methods, proved against the functional reference `Fetcher.ChunkedRun`.
- **The completeness test and the four-attempt loop of `get_price`** (`Completeness`, `Grid`).
  - The verdicts, in order: no data, leading gap, trailing gap, wrong slot count, complete.
  - Each verdict has a window to fetch.
  - The profile is grouped by distinct (region, voltage level).
  - A left join by start time writes prices into the caller's column. The column is an `array`, updated in place.
- **Row normalisation and the lookup tables** (`Fetcher`, `Tables`).
  - Rows get `to = from + 30 min`, `"NA"` defaults for absent names, and one fetch id per base-case call.
  - The tables are `region_map`, `region_dno` and `voltage_level_enums`.

Modelling choices:

- **Time** is integer Unix seconds; a slot is 1800 s.
- **The clock** (`time.time_ns()`) is the field `clock`, which moves up by one at each reading.
- **The HTTP APIs** are oracle function fields `priceApi` and `intensityApi`. Each takes a query and the clock reading at which it is asked.
- **A store** is a sequence of named batches in listing order. Writing a batch whose name already exists overwrites that file in place.
- **Prices and intensities** are the opaque `Metric = Present(v) | Missing`.
- The ghost fields `priceCalls` and `co2Calls` record the windows for which the upstream was called.
- **Method specifications.** Each method is specified by a function of the old state: `PriceFetch`, `GroupRun`, `PricingRun`, `PriceView`, `Table`, `Put`. The properties are then proved about those functions.

### Where the code behaves unexpectedly (the model follows the code)

- **Separate `created` per chunk.** One would expect one top-level fetch to stamp all its chunks with one `created` value. In the code each nested chunk request reads the clock itself (`src/UKGridConnection.py:420`, 568). `Fetcher.PriceFetchChunked` states this: chunk k carries clock reading t + 1 + k.
- **No completeness flag.** A result priced against a cache that is still incomplete carries no mark of it. After four attempts the code joins against whatever focus is bound.
- **Unbound or stale focus.**
  - When no attempt of the first group reached the count test, `focused_cached_data` is unbound and the join raises. That case is `PriceError.UnboundFocus`.
  - On a later group in the same situation, the previous group's rows are used (`Grid.GroupFocusFreshOrStale`).
- **Empty store.** One would expect an empty store to load as an empty table. That holds for the price refresh, which has an explicit guard (`src/UKGridConnection.py:177-179`). The CO2 refresh and the consolidation raise on a store with no file, because the empty frame has no `id` column (`Grid.Co2View`, `Grid.GridConnection.ConsolidateCache`).
- **"Scotland".** The comment beside the entry (`src/UKGridConnection.py:79`) treats "Scotland" as "South Scotland" (18), as lines 78 and 80 map "England" and "Wales" to their southern regions. The value written is 16, the North West DNO (`Tables.ScotlandSharesNorthWestDno`).
- **The count test is not a coverage test.**
  - It compares the number of rows inside the window with `(to - from) / 1800`. A row off the half-hour grid can stand in for a missing slot (`Completeness.CountCheckMissesOffGridHole`).
  - On grid-aligned one-slot rows with distinct starts, it does imply coverage (`Completeness.CompleteOnGridCoversEverySlot`).
- **`use_cache` off.** With `use_cache` false nothing fetched is ever stored. Every attempt then reaches the same verdict, so the loop cannot make progress (`Grid.NoCacheMeansNoProgress`).

## Model

| member | source | states |
|---|---|---|
| Tables.RegionId | src/UKGridConnection.py:42-60 | defined exactly on the table's regions; every Carbon Intensity region id is in 1..17 |
| Tables.RegionDno | src/UKGridConnection.py:62-81 | defined exactly on the table's regions; every DNO is in 10..23, the range the price API accepts |
| Tables.VoltageCode | src/UKGridConnection.py:83-87 | defined exactly on the three voltage labels; every code is one the price API accepts |
| Tables.SameRegionsForBothApis | src/UKGridConnection.py:42-81 | both region tables have the same set of region names |
| Tables.EveryDnoReachable | src/UKGridConnection.py:382-397 | every DNO number 10..23 of the price API is the image of some region |
| Tables.VoltageCodesBijective | src/UKGridConnection.py:83-87 | distinct voltage labels give distinct codes, and the codes are exactly LV, LV-Sub and HV |
| Tables.ScotlandSharesNorthWestDno | src/UKGridConnection.py:69-79 | "Scotland" maps to 16, the same DNO as "North West England", while "South Scotland" is 18 |
| Text.ParseInt | src/UKGridConnection.py:471 | succeeds exactly on an optional `-` followed by decimal digits, the form `str(n)` prints; it reads the start time back out of a key |
| Text.IntToDecimalRoundTrip | src/UKGridConnection.py:471 | `str(n)` is an integer literal and parses back to n |
| Text.IntToDecimalInjective | src/UKGridConnection.py:471 | distinct integers print to distinct strings |
| Text.IntToDecimalChars | src/UKGridConnection.py:471 | a printed integer holds only digits and possibly a minus sign |
| Text.NormaliseKey | src/UKGridConnection.py:473-474 | key normalisation keeps the length |
| Text.NormaliseKeyConcat | src/UKGridConnection.py:473-474 | normalisation distributes over concatenation |
| Text.NormaliseKeyCharset | src/UKGridConnection.py:473-474 | no space and no lower-case ASCII letter survives normalisation |
| Text.NormaliseKeyIdempotent | src/UKGridConnection.py:473-474 | normalising twice equals normalising once |
| Text.NormaliseKeyDecimal | src/UKGridConnection.py:471-474 | a printed integer is left unchanged by normalisation |
| Text.AfterLastUnderscoreSuffix | src/UKGridConnection.py:470-472 | the field after the last `_` of `p_d` is d when d has no `_` |
| Text.StrLessTotal | src/UKGridConnection.py:194 | the string order used to sort by key is total |
| Text.StrLessTransitive | src/UKGridConnection.py:194 | the string order is transitive |
| Text.StrLessIrreflexive | src/UKGridConnection.py:194 | the string order is irreflexive |
| Text.StrLessAsymmetric | src/UKGridConnection.py:194 | the string order is asymmetric |
| Text.StrLessEqAntisymmetric | src/UKGridConnection.py:194 | the non-strict order is antisymmetric |
| Records.OrNA | src/UKGridConnection.py:465-466 | the result is never empty, and a non-empty name is kept |
| Records.FromOfCompositeId | src/UKGridConnection.py:469-476 | the key's start time reads back from the key, whatever the region and voltage level or postcode |
| Records.CompositeIdDistinguishesTimes | src/UKGridConnection.py:469-476 | rows with distinct start times never share a key |
| Records.Put | src/UKGridConnection.py:488-490 | after a write the store holds the new batch under its name; a new name is appended, an existing name is overwritten in place with the file count kept, and every file of another name is unchanged |
| Dedup.LatestIndexIn | src/UKGridConnection.py:182-185 | returns -1 exactly when the key does not occur, otherwise an index carrying the key that no row outranks |
| Dedup.LatestExists | src/UKGridConnection.py:182-186 | every key that occurs has a rank-1 row |
| Dedup.KeepLatestFromMembers | src/UKGridConnection.py:182-186 | the kept rows are exactly the rank-1 rows of the table |
| Dedup.KeepLatestOnePerId | src/UKGridConnection.py:181-187 | after keep-latest no key repeats (the source's assertion at line 187) and the key set equals the input's |
| Dedup.KeepLatestPicksLatest | src/UKGridConnection.py:182-186 | each kept row is an input row with the greatest `created` of its key, and no earlier row of that key ties with it |
| Dedup.KeepLatestIdempotent | src/UKGridConnection.py:181-187 | keep-latest applied twice equals keep-latest once |
| Dedup.KeepLatestIgnoresDominatedSuffix | src/UKGridConnection.py:108-124 | appending rows each matched or outranked by an existing row of its key leaves keep-latest unchanged |
| Dedup.InsertById | src/UKGridConnection.py:194 | inserting into a sorted table keeps it sorted, and the result is the table plus that row as a multiset |
| Dedup.SortById | src/UKGridConnection.py:194 | the result is sorted by key and is a permutation of the input |
| Dedup.SortByIdStrict | src/UKGridConnection.py:194 | sorting a table with unique keys gives a strictly increasing order of keys |
| Dedup.SortedUniqueIsDetermined | src/UKGridConnection.py:194 | two sorted permutations of a table with unique keys are equal, so the sort algorithm does not matter after dedup |
| Chunking.ChunksTile | src/UKGridConnection.py:423-438 | the chunk windows start at `from_time`, end at `to_time`, each starts where the previous ended, and each is non-empty and at most one chunk long |
| Chunking.ChunksCount | src/UKGridConnection.py:427-438 | the loop makes ceil(span / chunk) iterations |
| Chunking.PriceChunksFitOneCall | src/UKGridConnection.py:428-436 | every 30-day chunk is at most 31 days, so its nested request does not split again |
| Chunking.IntensityChunksFitOneCall | src/UKGridConnection.py:580-588 | every 13-day chunk is at most 14 days, so its nested request does not split again |
| Fetcher.ThenAssoc | src/UKGridConnection.py:427-440 | sequencing request runs is associative |
| Fetcher.ThenNothing | src/UKGridConnection.py:425-440 | the empty run is a unit for sequencing |
| Fetcher.Separately | src/UKGridConnection.py:427-440 | the reference has one row table per window |
| Fetcher.SeparatelyAt | src/UKGridConnection.py:427-440 | window k of the reference is fetched at clock reading t + k |
| Fetcher.ChunkedRunOk | src/UKGridConnection.py:427-441 | a successful chunk loop of single-call requests calls the upstream for exactly the chunks, reads the clock once per chunk, succeeds on every chunk, and returns the chunks' rows fetched separately, in order |
| Fetcher.ChunkStep | src/UKGridConnection.py:427-438 | the run still to come from `lo` is the first chunk's request followed by the run from its end |
| Fetcher.ChunkFails | src/UKGridConnection.py:429-437 | a failed chunk ends the loop and drops what follows |
| Fetcher.PriceFetchShort | src/UKGridConnection.py:423-478 | a window of at most 31 days takes the single-call branch, reading the clock once |
| Fetcher.PriceChunkTurn | src/UKGridConnection.py:427-438 | one turn of the price chunk loop is the nested request for the chunk, which reads the clock once, followed by the rest of the loop |
| Fetcher.IntensityFetchShort | src/UKGridConnection.py:575-661 | a window of at most 14 days takes the single-call branch, reading the clock once |
| Fetcher.IntensityChunkTurn | src/UKGridConnection.py:579-590 | one turn of the intensity chunk loop is the nested request for the chunk followed by the rest of the loop |
| Fetcher.PriceRows | src/UKGridConnection.py:455-478 | one row per entry of the response, in order; row i starts at entry i's `Timestamp` and carries its `Overall` price as `pennies_per_kwh` |
| Fetcher.PriceOutcome | src/UKGridConnection.py:443-478 | success implies a known region and voltage and at least one row |
| Fetcher.PriceRowsAreSlots | src/UKGridConnection.py:464-477 | every row lasts one slot, carries the call's fetch id and the region and voltage or "NA", and is keyed by its own region, voltage level and start |
| Fetcher.PriceRowsDistinctIds | src/UKGridConnection.py:469-476 | entries of one response with distinct timestamps get distinct keys |
| Fetcher.PriceBaseKeepsNames | src/UKGridConnection.py:465-477 | a successful single-call request keeps the caller's region and voltage and stamps its own clock reading |
| Fetcher.PriceBaseSingleCall | src/UKGridConnection.py:443-450 | with a known region and voltage, every single-call request reads the clock once and calls the upstream once, for its window |
| Fetcher.PriceFetchOneCall | src/UKGridConnection.py:423-450 | a span of at most 31 days makes exactly one upstream call, for the whole window |
| Fetcher.PriceFetchChunked | src/UKGridConnection.py:423-441 | a successful request over more than 31 days calls the upstream exactly for the 30-day chunks, which tile the window; it reads the clock once per chunk plus once; and its rows are the chunks' rows fetched separately, chunk k at reading t + 1 + k |
| Fetcher.IntensityRows | src/UKGridConnection.py:635-661 | one row per entry of the response, in order; row i copies entry i's from, to, forecast, actual, index and mix, with "NA" for an absent index |
| Fetcher.IntensityOutcome | src/UKGridConnection.py:601-661 | success implies a route could be chosen and at least one row |
| Fetcher.IntensityRowsShape | src/UKGridConnection.py:635-661 | every row carries the fetch id, the region and postcode or "NA", the source name and its composite key; absent route columns are "NA" |
| Fetcher.IntensityRowsDistinctIds | src/UKGridConnection.py:641-648 | entries with distinct start times get distinct keys |
| Fetcher.IntensityBaseSingleCall | src/UKGridConnection.py:601-616 | with a route that can be chosen, every single-call request calls the upstream once, for its window |
| Fetcher.IntensityFetchOneCall | src/UKGridConnection.py:575-616 | a span of at most 14 days makes exactly one upstream call, for the whole window |
| Fetcher.IntensityFetchChunked | src/UKGridConnection.py:575-593 | a successful request over more than 14 days calls the upstream exactly for the 13-day chunks, which tile the window, and returns their rows fetched separately, chunk k at reading t + 1 + k |
| Completeness.DistinctKeys | src/UKGridConnection.py:289-291 | the combinations are pairwise distinct and are exactly those of the profile's rows |
| Completeness.FirstIndex | src/UKGridConnection.py:289-291 | the first row carrying a combination |
| Completeness.DistinctKeysInFirstAppearanceOrder | src/UKGridConnection.py:289-295 | groups are processed in the order in which their combination first appears in the profile |
| Completeness.GroupRows | src/UKGridConnection.py:297 | the `ixs` mask selects exactly the group's rows |
| Completeness.MinFrom | src/UKGridConnection.py:298 | the minimum start, attained by some row |
| Completeness.MaxTo | src/UKGridConnection.py:299 | the maximum end, attained by some row |
| Completeness.GroupWindow | src/UKGridConnection.py:297-299 | the window contains every row of the group, and its two ends are attained by rows of the group |
| Completeness.Serving | src/UKGridConnection.py:302-304 | `cache_ixs` selects exactly the cached rows of the group's region and voltage |
| Completeness.Focused | src/UKGridConnection.py:337-343 | `focused_cache_ixs` selects exactly the group's cached rows inside the window, each as many times as it occurs in the cache, so its length is the count the test compares |
| Completeness.FirstAvailable | src/UKGridConnection.py:313 | the minimum cached start, attained |
| Completeness.LastAvailable | src/UKGridConnection.py:314 | the maximum cached end, attained |
| Completeness.TruncDiv | src/UKGridConnection.py:344-346 | Python's `int(a / b)` truncates toward zero on both signs |
| Completeness.CheckMeans | src/UKGridConnection.py:301-354 | each verdict means what the tests found, in order: no row of the group (both directions); first cached start after the window's start; start covered but last cached end before the window's end; both ends covered, with the rows inside the window counted unequal (gap) or equal (complete) to the expected slots |
| Completeness.FillWindow | src/UKGridConnection.py:305-353 | no data and a count mismatch refetch the whole window, a leading gap fetches up to the first start, a trailing gap fetches from the last end, and only completeness fetches nothing |
| Completeness.BoundaryFillsAreNonEmpty | src/UKGridConnection.py:316-336 | the leading and trailing fill windows are non-empty and anchored at the window's start and end |
| Completeness.SlotStarts | src/UKGridConnection.py:344-346 | the window has exactly n slot starts, `lo + k * 1800` |
| Completeness.StartsOf | src/UKGridConnection.py:343 | the start times that occur among the rows |
| Completeness.GridRowsCoverSlots | src/UKGridConnection.py:344-346 | grid-aligned one-slot rows with distinct starts, as many as the window's slots, cover every slot |
| Completeness.CompleteOnGridCoversEverySlot | src/UKGridConnection.py:337-354 | on grid-aligned one-slot cached rows with distinct starts, a complete verdict means every slot of the window has a cached row of the group |
| Completeness.CountCheckMissesOffGridHole | src/UKGridConnection.py:337-354 | rows starting at 0, 900 and 3600 pass the count test for the window [0, 3600) although no row starts at 1800 |
| Completeness.CountAtZero | src/UKGridConnection.py:357-364 | no cached row starts at t exactly when the count at t is zero |
| Completeness.LookupPrice | src/UKGridConnection.py:357-364 | the left merge fails exactly when several cached rows start at the row's time; otherwise it gives Missing when none does, and that row's price when one does |
| Completeness.Join | src/UKGridConnection.py:357-364 | the join either gives one entry per profile row or fails with a length mismatch |
| Completeness.JoinMeans | src/UKGridConnection.py:357-364 | the join succeeds exactly when no row of the group meets several cached rows; then rows of other groups get no entry and the group's rows get their lookup's price |
| Completeness.JoinSucceedsOnKeyedFocus | src/UKGridConnection.py:357-364 | on a focus with unique keys derived from one region and voltage level, the join never fails |
| Completeness.DistinctStartsCountOnce | src/UKGridConnection.py:357-364 | on rows with distinct starts, at most one matches any time |
| Grid.RefreshedTableIsLatest | src/UKGridConnection.py:181-194 | a refreshed keep-latest table is strictly sorted by key, holds each stored key exactly once, is a permutation of the keep-latest rows, and holds for each key the stored row with the greatest `created`, the first on a tie; hence the uniqueness assertions at lines 125-130, 187 and 223 always hold |
| Grid.RefreshedTableKeepsAll | src/UKGridConnection.py:177-194 | without keep-latest the table is the whole store, sorted by key |
| Grid.EmptyStores | src/UKGridConnection.py:177-180 | a price store without rows refreshes to an empty cache; a CO2 store without files raises |
| Grid.TableRowsAreStored | src/UKGridConnection.py:105-134 | every row of a table is a stored row |
| Grid.FirstConsolidationKeepsTable | src/UKGridConnection.py:99-150 | after the first consolidation, the refreshed keep-latest table is what it was before |
| Grid.AttemptLoopShape | src/UKGridConnection.py:301-354 | the loop makes at most `left` attempts; every attempt but the last was incomplete; it ends early only when complete or on a failed request; a final complete verdict is the final cache's verdict and its rows are the focus |
| Grid.AttemptLoopFocus | src/UKGridConnection.py:337-359 | the final focus is the initial one, or the rows of some count test; it is the initial one when no attempt reached the count test |
| Grid.AttemptLoopStuck | src/UKGridConnection.py:301-354 | when fills never change the store or the cache, every attempt reaches the same verdict |
| Grid.GroupRunBounded | src/UKGridConnection.py:301-354 | a group makes 1 to 4 attempts, all incomplete but the last; it stops early only when complete or on a failed request; a final complete verdict is the final cache's verdict and its rows are the focus |
| Grid.GroupFocusFreshOrStale | src/UKGridConnection.py:337-359 | the group's focus is the previous one (stale, or unbound), or it holds only this group's rows inside this group's window; it is the previous one whenever no attempt reached the count test |
| Grid.NoCacheMeansNoProgress | src/UKGridConnection.py:482 | with `use_cache` off the store never changes, and every attempt reaches the verdict of the original store |
| Grid.Overlay | src/UKGridConnection.py:357-364 | the group's joined entries overwrite the column at its own rows; every other row keeps its value |
| Grid.PricingLoop | src/UKGridConnection.py:292-364 | the group loop keeps the column's length |
| Grid.PricingLoopWritesJoin | src/UKGridConnection.py:292-364 | when the loop succeeds, every group is processed, every row of a processed group holds its left-join price against that group's focus, and every other row keeps its value |
| Grid.RestKeysFresh | src/UKGridConnection.py:292 | the remaining groups stay distinct and unprocessed |
| Grid.OverlayRecordsJoin | src/UKGridConnection.py:357-364 | writing one group's join keeps the left-join prices of the groups already written, adds the group's own rows, and leaves the rest |
| Grid.PricingPricesEveryRow | src/UKGridConnection.py:282-364 | when `get_price` succeeds, every profile row holds the left-join price of its own group against the focus that group used |
| Grid.PutFresh | src/UKGridConnection.py:420-490 | a batch named by a clock reading newer than every stored fetch id is appended as a new file, and the store stays below any later reading |
| Grid.GridConnection.constructor | src/UKGridConnection.py:241-259 | the connection starts with the given oracles, clock and stores, the cache in use, and empty caches |
| Grid.GridConnection.Connect | src/UKGridConnection.py:241-261 | construction fails exactly when the CO2 store has no file; otherwise both caches hold the refreshed keep-latest views of the stores |
| Grid.GridConnection.ReadClock | src/UKGridConnection.py:420 | returns the current reading and advances the clock by one |
| Grid.GridConnection.RefreshPriceCache | src/UKGridConnection.py:159-195 | the price cache becomes the refreshed view of the price store |
| Grid.GridConnection.RefreshCo2Cache | src/UKGridConnection.py:197-239 | the CO2 cache becomes the refreshed view of the CO2 store, or the refresh raises on a store with no file |
| Grid.GridConnection.ConsolidateCache | src/UKGridConnection.py:99-150 | fails, writing nothing, exactly when either store has no file; otherwise each store gets its whole (deduplicated) sorted table as its consolidated file |
| Grid.GridConnection.PriceChunks | src/UKGridConnection.py:423-441 | the chunk loop returns what the reference chunked run returns, advances the clock by its readings and calls the upstream for its windows; the store is untouched |
| Grid.GridConnection.PriceChunkCall | src/UKGridConnection.py:428-438 | one chunk: the next start is `min(lo + 30 d, hi)`, and the nested request is the first step of the rest of the reference run |
| Grid.GridConnection.PriceApiRequest | src/UKGridConnection.py:420-491 | returns the request's result, advances the clock and records the upstream calls as `PriceFetch` says; it stores a batch named by its own clock reading exactly when the cache is in use, the store is not skipped and the request succeeded |
| Grid.GridConnection.IntensityChunks | src/UKGridConnection.py:575-593 | the intensity chunk loop returns what the reference chunked run returns, advances the clock and calls the upstream accordingly; the store is untouched |
| Grid.GridConnection.IntensityChunkCall | src/UKGridConnection.py:580-590 | one chunk: the next start is `min(lo + 13 d, hi)`, and the nested request is the first step of the rest of the reference run |
| Grid.GridConnection.IntensityApiRequest | src/UKGridConnection.py:568-672 | returns the result `IntensityFetch` gives, advances the clock and records the calls; it stores a batch exactly when the cache is in use, the store is not skipped and the request succeeded |
| Grid.GridConnection.FillGroup | src/UKGridConnection.py:309-352 | one gap fill: the request for the window, stored, then a keep-latest refresh, as `FillStep` says |
| Grid.GridConnection.Attempt | src/UKGridConnection.py:302-354 | one attempt either ends the loop with its outcome or leaves the loop with one attempt fewer to go, from the new state |
| Grid.GridConnection.ResolveGroup | src/UKGridConnection.py:301-354 | the four-attempt loop ends in the state, focus and error that `GroupRun` gives |
| Grid.GridConnection.WriteJoin | src/UKGridConnection.py:357-364 | the column is overwritten in place at the group's rows only |
| Grid.GridConnection.PriceKey | src/UKGridConnection.py:292-364 | one group either ends `get_price` with its outcome, or leaves the loop over the remaining groups from the new state |
| Grid.GridConnection.GetPrice | src/UKGridConnection.py:282-364 | the final state, the in-place price column and the outcome are those of `PricingRun`; the pricing lemmas above state what that run promises |

## Left out

- HTTP requests (`requests.get`) and JSON decoding: the upstream APIs are oracles returning a parsed response or an error. URL text and `strftime` formatting are reduced to day (price) and minute (intensity) truncation of the window's ends.
- Parquet reading and writing and the all-strings conversion before storing. A store is an in-memory sequence of batches. `created` is compared as an integer; the stored decimal strings of equal length order the same way.
- The order in which `read_parquet` lists a directory: the model takes the order in which the batches were written.
- Column coercions at refresh (`to_float`, `to_int`, `to_datetime`, `json.loads`): values are typed from the start, and an unparseable value is the `Missing` variant.
- Floating point: prices and intensities are opaque.
- `get_c02` and its emissions arithmetic: an uncached fetch plus an inner merge, outside the cache engine.
- Logging. `src/utils.py`, `src/build_cache.py` and `test/test_grid_connection.py` are not part of this model.
- Text.ParseInt: reads only the form `str(n)` prints, not the rest of Python's `int()` grammar (surrounding whitespace, a leading `+`, `_` separators, non-ASCII digits); the model parses only keys it built itself, and `created` (line 193) is an integer from the start.
- `None` arguments for region or postcode are the empty string. `str.upper()` is modelled on ASCII letters only.
- The `clear_rest` argument of `consolidate_cache`, which the code never reads.
- The `price_cache` contents before the refresh in `__init__`: `Connect` states only the refreshed caches.
- Missing-column handling for individual intensity fields (`missing_cols` filled with "NA") beyond the route's own columns (regionid, dnoregion, shortname, source_postcode), index and mix.
- The partly updated data frames a raising call can leave behind, other than the CO2 cache a failed refresh leaves empty.
- Sort instability: pandas `sort_values` is not stable. The model uses a stable insertion sort. After keep-latest the keys are unique, so any sort gives the same table (`Dedup.SortedUniqueIsDetermined`). Without keep-latest, the order of equal keys is not modelled.
- Fetcher.PriceFetchChunked: does not repeat that every chunk request succeeded; `Fetcher.ChunkedRunOk` states it for the generic loop.
- Fetcher.IntensityFetchChunked: does not repeat that every chunk request succeeded; `Fetcher.ChunkedRunOk` states it for the generic loop.
- Grid.GridConnection.PriceApiRequest: states the batch write through `Records.Put`; that the name is always a new file is the separate lemma `Grid.PutFresh`, under a clock ahead of every stored fetch id.
- Grid.GridConnection.IntensityApiRequest: the same as for PriceApiRequest; new file names follow from `Grid.PutFresh` under the same clock condition.
