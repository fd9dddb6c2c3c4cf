# numharvest in Dafny

A Dafny model of the logic of the numharvest scrapers that sits between the
browser and the databases. The browser, the databases, the file system and
the clock are inputs to the model. It covers:

- **Task lock** (`task_lock.py`): the cross-process lock file. It holds the
  owner's pid, start time, heartbeat and timeout, and the model covers
  expiry, stale cleanup, acquire with one retry, release, the owner-checked
  heartbeat, status reporting and the context-manager entry and exit. The
  file is a `LockStore` object shared by every `TaskLock` on the same path.
- **Crawl history** (`progress_tracker.py`): the `(task, key)` upsert store
  with its freshness query.
- **excellentnumbers harvester** (`excellentnumberstask/`), covering:
  - listing URLs built from the state/area-code index, with sort parameters
    merged into the query;
  - the retrying, deduplicating harvest loop and its counters and pause
    schedule;
  - phone formatting and row deduplication;
  - the "next page" test;
  - the insert/update/skip decision against the numbers collection;
  - the visited-set page walk;
  - the parsing, aggregation and freshness of the area-code index.
- **State codes** (`state_codes.py`): the 69-entry code table, its name
  index, input normalisation, code validation and the NumberBarn search URL.
- **MongoDB-to-PostgreSQL synchroniser** (`mongo_to_postgresql_sync.py`),
  covering:
  - price parsing;
  - document normalisation;
  - deduplication by phone (newest wins), then batched upserts;
  - the collection filter;
  - the success rules of syncing one collection and all of them.
- **numberbarn scrapers** (`numberbarntask/`), covering:
  - the toll-free scraper's per-entry insert/update/skip, its HTML snapshot
    upsert, the `max_pages` stop rule and the default NPA list;
  - the local-number scraper's combination parsing over three JSON layouts,
    its ten-page bound and its pause schedule;
  - the `NumberbarnTask` entry point's week-old cache rule, its API entry filter and
    its file-then-API fallback.

Shared modules:
- `Wrappers`: `Option` and `Result`.
- `Text`: the Python `str` operations used.
- `Json`: parsed JSON values.
- `Dicts`: insertion-ordered dicts.
- `Seqs`: deduplication and "keep the present values".
- `UrlEncoding`: `quote_plus` and `urlencode`.

Code that updates state in place is modelled as classes with `modifies`
clauses:
- the lock file;
- the crawl history;
- the numbers collection;
- the synchroniser's table;
- the toll-free scraper's two collections.

Loops become methods with invariants. Each method is proved against a
specification function, and the properties are lemmas about those functions.

## Model

| member | source | states |
|---|---|---|
| TaskLocks.ExpiryRule | task_lock.py:66-82 | a readable record is expired iff its age is strictly greater than its stored timeout (else the instance's) or its heartbeat is strictly older than twice the interval |
| TaskLocks.ExpiryIsMonotone | task_lock.py:66-82 | once expired, a record stays expired at any later time |
| TaskLocks.FreshRecordIsLive | task_lock.py:66-82 | the record `_write_lock_info` writes at `now` is not expired at `now` (non-negative timeout and interval) |
| TaskLocks.HeartbeatRenews | task_lock.py:155-166 | after a heartbeat at `now` only the age test decides expiry |
| TaskLocks.CleanupDecision | task_lock.py:84-105 | no file or a falsy one means nothing to clean; a non-object file makes `lock_info.get` raise; the record is kept exactly when its pid is truthy, running and the record is not expired; otherwise it is removed |
| TaskLocks.LockStatusOf | task_lock.py:168-197 | "no lock" iff the file is absent or falsy; the query raises iff the file is not an object or the record has no pid; `locked` only for a running, unexpired record |
| TaskLocks.StatusAgreesWithCleanup | task_lock.py:168-197 | for files whose record, if any, has a truthy pid, status and cleanup raise on the same files, the status says locked exactly when cleanup keeps the record, and stale exactly when cleanup removes it |
| TaskLocks.LockStore.constructor | task_lock.py:42-52 | the shared lock file starts in the given state |
| TaskLocks.TaskLock.constructor | task_lock.py:16-24 | timeout in seconds is minutes times 60; no descriptor held |
| TaskLocks.TaskLock.OwnInfo | task_lock.py:26-33 | the written record holds own pid, start = heartbeat = now, and the instance timeout |
| TaskLocks.TaskLock.CleanupStale | task_lock.py:84-113 | raises on a non-object file; otherwise returns "free" unless the record is held by a live process, and removes the file exactly when the record is stale |
| TaskLocks.TaskLock.CreateExclusive | task_lock.py:123-136 | exclusive creation succeeds iff no file is there (after another process's action), and then the file holds the own record and the descriptor is set |
| TaskLocks.TaskLock.Acquire | task_lock.py:115-142 | at most two creation attempts; success leaves the own record and a descriptor; a live holder gives false with no attempt and no change; an unparseable file gives false and is kept; a non-object file gives false with no attempt; a non-object file appearing after the first cleanup makes `acquire` raise; a stale or absent file gives success when no one races |
| TaskLocks.TaskLock.Release | task_lock.py:144-153 | the descriptor is dropped and the file is removed, whoever owns it (so a second release changes nothing more) |
| TaskLocks.TaskLock.UpdateHeartbeat | task_lock.py:155-166 | only while holding a descriptor and only for a record with own pid, the heartbeat becomes `now`; otherwise the file is unchanged; it raises iff a descriptor is held and the file is not an object |
| TaskLocks.TaskLock.GetLockStatus | task_lock.py:168-197 | a reported live lock with a non-zero pid is one the cleanup would keep |
| TaskLocks.TaskLock.Enter | task_lock.py:199-204 | success holds the lock with the own record; failure is an error and leaves the descriptor unchanged; a live holder gives the busy error and an untouched file |
| TaskLocks.TaskLock.Exit | task_lock.py:206-208 | always releases |
| TaskLocks.MutualExclusion | task_lock.py:115-142 | two instances on one file: the first acquires, the second is refused while the first runs, and the file keeps the first's record |
| ProgressTracker.ShouldCrawlIn | progress_tracker.py:42-47 | due when there is no record or no `last_crawled`; otherwise due iff `last_crawled < now - hours` (strict) |
| ProgressTracker.MetaOrEmpty | progress_tracker.py:56 | `meta or {}`: a truthy meta is kept, otherwise an empty dict |
| ProgressTracker.Marked | progress_tracker.py:49-62 | the upsert adds exactly the key; sets `last_crawled = updated_at = now` and the meta; `created_at` is `now` only on insert; other records unchanged |
| ProgressTracker.FreshAfterMark | progress_tracker.py:47-55 | right after a mark the key is not due at the same instant for any window of zero or more hours |
| ProgressTracker.MarkTouchesOnlyKey | progress_tracker.py:40-53 | marking one key leaves every other key's answer unchanged |
| ProgressTracker.MarkPreservesCreated | progress_tracker.py:59 | a second mark keeps the creation time of the first |
| ProgressTracker.CrawlHistory.constructor | progress_tracker.py:28-40 | the history starts empty |
| ProgressTracker.CrawlHistory.ShouldCrawl | progress_tracker.py:42-47 | answers the freshness query on the current records, changing nothing |
| ProgressTracker.CrawlHistory.MarkCrawled | progress_tracker.py:49-62 | the records become the upsert of the key |
| Harvester.AppendSortParams | excellentnumberstask/excellentnumberstask.py:72-80 | the rebuilt URL differs only in its query, and that query has distinct keys |
| Harvester.SortParamsValues | excellentnumberstask/excellentnumberstask.py:72-80 | the query says `sort=newest`, keeps the last `sortcode` or adds an empty one, and every other key keeps its last value |
| Harvester.SortParamsIdempotent | excellentnumberstask/excellentnumberstask.py:72-80 | appending the sort parameters twice is the same as once |
| Harvester.QueryStringHasSort | excellentnumberstask/excellentnumberstask.py:76-79 | the emitted query holds the `sort=newest` pair and splits at `&` into one encoded pair per parameter |
| Harvester.AreaCodeUrlsExact | excellentnumberstask/excellentnumberstask.py:85-88 | a region yields exactly one triple per entry with truthy code and url, carrying its state, its code and `_append_sort_params(url)`, in list order; it raises iff some entry is not a dict or a qualifying url is not a string |
| Harvester.RegionUrlsExact | excellentnumberstask/excellentnumberstask.py:84-88 | the regions together yield exactly the qualifying entries' triples, region by region, and raise iff some region is malformed |
| Harvester.IterStateUrlsExact | excellentnumberstask/excellentnumberstask.py:82-88 | `list(_iter_state_urls(data))` is one triple per qualifying area-code entry of `regions`, in index order |
| Harvester.RegionUrlsSorted | excellentnumberstask/excellentnumberstask.py:82-88 | every yielded URL carries `sort=newest` and a `sortcode` |
| Harvester.AreaCodeUrlsSorted | excellentnumberstask/excellentnumberstask.py:85-88 | the same for one region's URLs |
| Harvester.RegionOrder | excellentnumberstask/excellentnumberstask.py:84-88 | the URLs come region by region, in index order |
| Harvester.Truncate | excellentnumberstask/excellentnumberstask.py:121-122 | `urls[:limit]` only for a truthy limit: a prefix, the whole list for none or 0, Python slice lengths for positive and negative limits |
| Harvester.FirstSuccess | excellentnumberstask/excellentnumberstask.py:136-147 | the attempt whose rows are taken succeeds and every earlier attempt failed; no attempt is found only when all fail |
| Harvester.TryUrl | excellentnumberstask/excellentnumberstask.py:135-151 | success iff some attempt in `1..retries+1` returns rows; the rows are the first success's; a backoff follows each failed attempt except the last |
| Harvester.ProcessedIsDistinctCount | excellentnumberstask/excellentnumberstask.py:128-133 | `processed_urls` is the number of distinct URLs |
| Harvester.SummaryBalances | excellentnumberstask/excellentnumberstask.py:148-160 | processed equals the distinct URLs handled and is success plus failed |
| Harvester.FailuresCaptureNothing | excellentnumberstask/excellentnumberstask.py:139-140 | when every attempt fails nothing is captured and nothing succeeds |
| Harvester.PauseScheduleSpec | excellentnumberstask/excellentnumberstask.py:91-153 | a long pause follows 1-based position `i` iff `i` holds a first occurrence and `i` is a positive multiple of `long_pause_every` |
| Harvester.PauseScheduleBound | excellentnumberstask/excellentnumberstask.py:128-153 | pauses only follow positions of the list |
| Harvester.Run | excellentnumberstask/excellentnumberstask.py:105-163 | the counters are those of the distinct URLs of the truncated list, and the pauses follow the schedule above |
| Extractor.DigitsOfFormatTen | excellentnumberstask/excellentnumbers_extractor.py:120-121 | formatting ten digits keeps them in order and gives `(ddd) ddd-dddd` |
| Extractor.CleanPhoneCases | excellentnumberstask/excellentnumbers_extractor.py:116-122 | ten digits are formatted; eleven starting with 1 drop the 1 and are formatted; anything else gives the stripped input |
| Extractor.CleanPhoneIdempotent | excellentnumberstask/excellentnumbers_extractor.py:116-122 | cleaning a cleaned phone changes nothing |
| Extractor.DigitsOfStrip | excellentnumberstask/excellentnumbers_extractor.py:122 | stripping keeps every digit |
| Extractor.RemoveSpaces | excellentnumberstask/excellentnumbers_extractor.py:136 | the price holds no space afterwards; every other character is kept as often as before, and a price without spaces is unchanged |
| Extractor.RemoveSpacesAppend | excellentnumberstask/excellentnumbers_extractor.py:136 | removing spaces works piece by piece, so the other characters keep their order |
| Extractor.BlockRows | excellentnumberstask/excellentnumbers_extractor.py:128-136 | at most one row per block |
| Extractor.ExtractBlocks | excellentnumberstask/excellentnumbers_extractor.py:125-152 | the rows have no repeated (phone, price) and are exactly the block rows |
| Extractor.FallbackAddsNothing | excellentnumberstask/excellentnumbers_extractor.py:155-161 | the generic pass runs only when the site-specific one found nothing, and then finds nothing either |
| Extractor.NextTextReduced | excellentnumberstask/excellentnumbers_extractor.py:169-171 | a label is a "next" label iff it is one of `>`, `»`, `older`, `下一页` or contains "next" |
| Extractor.FindNextUrl | excellentnumberstask/excellentnumbers_extractor.py:164-182 | no next URL iff no qualifying pager link and no `rel="next"` link |
| Extractor.FindNextUrlFirst | excellentnumberstask/excellentnumbers_extractor.py:173-179 | the first qualifying link with a non-empty href wins |
| Extractor.FindNextUrlRel | excellentnumberstask/excellentnumbers_extractor.py:181-182 | without one, the `rel="next"` link decides |
| Extractor.Writes | excellentnumberstask/excellentnumbers_extractor.py:190-215 | a row becomes a write iff its phone is not stored or is stored with another price |
| Extractor.Apply | excellentnumberstask/excellentnumbers_extractor.py:217-219 | no document is lost; untouched phones keep theirs; every written phone records the page URL, the source and the time, and the last write's price (for repeated phones an order the unordered bulk write does not promise) |
| Extractor.ApplyKeys | excellentnumberstask/excellentnumbers_extractor.py:217-219 | the stored phones are exactly the old ones plus the written ones |
| Extractor.ApplyStoresEveryPrice | excellentnumberstask/excellentnumbers_extractor.py:190-219 | with distinct phones, every written price is stored |
| Extractor.WritesDistinctPhones | excellentnumberstask/excellentnumbers_extractor.py:190-215 | writes of rows with distinct phones have distinct phones |
| Extractor.WritesNone | excellentnumberstask/excellentnumbers_extractor.py:190-223 | when every row matches its stored price there is nothing to write |
| Extractor.SecondUpsertWritesNothing | excellentnumberstask/excellentnumbers_extractor.py:185-223 | upserting the same page again writes nothing |
| Extractor.WalkVisitsOnce | excellentnumberstask/excellentnumbers_extractor.py:242-260 | every page is fetched at most once, and no fetched URL is empty |
| Extractor.PagePausesSpec | excellentnumberstask/excellentnumbers_extractor.py:264-267 | a long pause follows page `k` iff `k` is not the last page and is a multiple of `long_pause_every` (never when it is 0) |
| Extractor.TimeoutStep | excellentnumberstask/excellentnumbers_extractor.py:249-251 | a page that times out adds no rows and no writes |
| Extractor.PageStep | excellentnumberstask/excellentnumbers_extractor.py:254-256 | a fetched page adds its rows and its writes, judged against the collection as it stands |
| Extractor.ScrapingDone | excellentnumberstask/excellentnumbers_extractor.py:242-272 | when the loop stops, the pages fetched, rows, writes and pauses are those of the whole walk |
| Extractor.LongPause | excellentnumberstask/excellentnumbers_extractor.py:264-267 | a pause is recorded exactly when `long_pause_every` is non-zero and divides the page count |
| Extractor.NumbersCollection.constructor | excellentnumberstask/excellentnumbers_extractor.py:42-90 | the collection starts with the given documents |
| Extractor.NumbersCollection.BulkUpsert | excellentnumberstask/excellentnumbers_extractor.py:185-223 | the writes are decided against the collection before the call and then applied; `skipped` is the rest of the rows |
| Extractor.NumbersCollection.VisitPage | excellentnumberstask/excellentnumbers_extractor.py:254-270 | the page's rows are added and upserted; the next URL is followed only when it is non-empty and not visited |
| Extractor.NumbersCollection.Scrape | excellentnumberstask/excellentnumbers_extractor.py:230-278 | the fetched pages are the walk from `url`; the result is the walk's rows without repeated (phone, price); the collection holds every page's upsert, each stamped with its own clock reading |
| StateArea.Parse | excellentnumberstask/excellentnumbers_state_area.py:33-35 | a parsed code is all digits |
| StateArea.ParseIff | excellentnumberstask/excellentnumbers_state_area.py:33-35 | a path parses to (state, code) exactly when its non-empty segments are those of `/categories/<segment>/<digits>...` with the segment unquoting to the state |
| StateArea.ParseNeedsCategories | excellentnumberstask/excellentnumbers_state_area.py:35 | a path whose first non-empty segment is not `categories` gives nothing |
| StateArea.Segments | excellentnumberstask/excellentnumbers_state_area.py:34 | the kept path segments are non-empty and hold no `/` |
| StateArea.ParseCategoryPath | excellentnumberstask/excellentnumbers_state_area.py:33-35 | `/categories/<state>/<digits>...` gives the unquoted state and the code |
| StateArea.ParseDoubledSlash | excellentnumberstask/excellentnumbers_state_area.py:34 | empty path segments are ignored |
| StateArea.EntryOf | excellentnumberstask/excellentnumbers_state_area.py:66-67 | a recorded entry has a non-empty state and a digit code and keeps its link |
| StateArea.RecordedOnce | excellentnumberstask/excellentnumbers_state_area.py:64-68 | each (state, code) is recorded once, from a link that names it |
| StateArea.RecordedInOrder | excellentnumberstask/excellentnumbers_state_area.py:65 | links are taken in page order |
| StateArea.RecordedComplete | excellentnumberstask/excellentnumbers_state_area.py:65-68 | every link that names a (state, code) is accounted for |
| StateArea.GroupedCodes | excellentnumberstask/excellentnumbers_state_area.py:69 | a state's region lists exactly its recorded codes in recording order; other states have no region |
| StateArea.CodesOfFrom | excellentnumberstask/excellentnumbers_state_area.py:69 | every listed code comes from a recorded entry of that state |
| StateArea.GroupedKeys | excellentnumberstask/excellentnumbers_state_area.py:69 | the region keys are distinct |
| StateArea.GroupedTotal | excellentnumberstask/excellentnumbers_state_area.py:69 | the regions list every recorded entry exactly once |
| StateArea.CodeIndexLastWins | excellentnumberstask/excellentnumbers_state_area.py:70 | each code maps to the last recorded entry with that code |
| StateArea.CodeIndexSize | excellentnumberstask/excellentnumbers_state_area.py:70 | the code index has no more codes than recorded entries |
| StateArea.Collect | excellentnumberstask/excellentnumbers_state_area.py:64-70 | the loop builds exactly the grouped regions and the code index of the recorded entries |
| StateArea.SortByCodeSpec | excellentnumberstask/excellentnumbers_state_area.py:72 | a region's codes end up sorted by integer value and form a permutation of the originals |
| StateArea.SortByKeySpec | excellentnumberstask/excellentnumbers_state_area.py:76-77 | `sorted(d.items())` is strictly ascending by key and keeps every item |
| StateArea.Finish | excellentnumberstask/excellentnumbers_state_area.py:71-73 | each region keeps its key and is sorted and counted |
| StateArea.GroupedNumeric | excellentnumberstask/excellentnumbers_state_area.py:67-72 | every gathered code is ASCII digits, so in the ASCII-digit model `int(code)` never fails |
| StateArea.BuildIndex | excellentnumberstask/excellentnumbers_state_area.py:56-79 | the result is the index of the links |
| StateArea.FinishedTotals | excellentnumberstask/excellentnumbers_state_area.py:73 | the regions' `total_area_codes` add up to the number of listed codes |
| StateArea.IndexShape | excellentnumberstask/excellentnumbers_state_area.py:71-79 | both dictionaries are sorted by key; each region is sorted and counted; the summary counts match; no more distinct codes than listed ones |
| StateArea.IndexRegions | excellentnumberstask/excellentnumbers_state_area.py:69-76 | each finished region lists its state's recorded codes, sorted and counted |
| StateArea.FreshUntil | excellentnumberstask/excellentnumbers_state_area.py:82-83 | a file is fresh iff it exists and is strictly younger than `max_age_days` days |
| StateCodes.NormalizeKey | state_codes.py:85-89 | the key has no outer space, single spaces and no upper case |
| StateCodes.NormalizeKeyIdempotent | state_codes.py:85-89 | normalising a key again changes nothing |
| StateCodes.NormalizeKeyOfStrip | state_codes.py:85-89 | surrounding whitespace does not matter |
| StateCodes.NameToCode | state_codes.py:92 | the index maps a key to a code only when that code's name normalises to the key |
| StateCodes.NameIsClean | state_codes.py:9-82 | every official name is clean, so its key is its lower-case form |
| StateCodes.NameKeysDistinct | state_codes.py:9-92 | no two names share a key, so the index loses no entry |
| StateCodes.NameIndexCoversTable | state_codes.py:92 | every table name's key leads back to its code |
| StateCodes.NameIndexIsTable | state_codes.py:92 | the index holds exactly the pairs (key of name, code) of the table |
| StateCodes.TableShape | state_codes.py:9-82 | every code is two upper-case letters and every name is longer than two characters |
| StateCodes.NormalizeState | state_codes.py:95-113 | an error for empty or whitespace-only input iff the stripped input is empty; any other error is "unknown"; a result is a table code: the upper-cased stripped input, or the code whose name has the input's key |
| StateCodes.NormalizeCode | state_codes.py:104-107 | a code in any case and spacing normalises to itself |
| StateCodes.NormalizeName | state_codes.py:109-111 | a name in any case and spacing that is not two characters long gives its code |
| StateCodes.NormalizeCodes | state_codes.py:104-107 | every code, in upper or lower case, normalises to itself |
| StateCodes.NormalizeNames | state_codes.py:109-111 | every official name normalises to its code |
| StateCodes.IsValidStateCode | state_codes.py:116-120 | a valid code is two characters once stripped and normalises to its upper-case form; conversely a two-character input that normalises at all is valid |
| StateCodes.NameNeedsLongInput | state_codes.py:109-111 | an input that matches a state name by its key is longer than two characters once stripped |
| StateCodes.ValidCodes | state_codes.py:116-120 | every table code is valid in either case |
| StateCodes.NameIsNotValidCode | state_codes.py:116-120 | a full name is never a valid code |
| StateCodes.StateName | state_codes.py:123-126 | a name iff the input normalises, and it is that code's name; otherwise the same error |
| StateCodes.StateNameOfTable | state_codes.py:123-126 | a code and its own name both give the name |
| StateCodes.BuildNumberbarnUrl | state_codes.py:129-147 | a URL iff the state normalises, else its error; the URL is the search base, `?`, and the six parameters encoded in order |
| StateCodes.SearchTermField | state_codes.py:138-140 | the search text is `quote_plus`-encoded |
| StateCodes.StateField | state_codes.py:141 | the state code is sent as it is |
| StateCodes.SortField | state_codes.py:144 | the sort order is sent as `price%2B` |
| StateExamples.NormalizeCodeExample | state_codes.py:104-107 | `" ny "` normalises to `NY` |
| StateExamples.NormalizeNameExample | state_codes.py:109-111 | `new`, any run of spaces, `mexico` normalises to `NM` |
| StateExamples.NormalizeEmptyExamples | state_codes.py:101-102 | empty and whitespace-only input are the empty-state error |
| UrlEncoding.QuotePlusRoundTrip | state_codes.py:147 | percent-decoding `quote_plus(s)` gives the UTF-8 bytes of `s` |
| UrlEncoding.EncodePairRoundTrip | state_codes.py:147 | an encoded pair splits at its one `=` into the encoded key and value, each decoding back |
| UrlEncoding.UrlEncodeSplits | state_codes.py:147 | splitting `urlencode` output at `&` gives one encoded pair per parameter, in order |
| Dicts.FromPairsLastWins | excellentnumberstask/excellentnumberstask.py:75 | in `dict(pairs)` every key maps to the value of its last pair |
| Seqs.DedupSpec | excellentnumberstask/excellentnumbers_extractor.py:276-277 | deduplication keeps exactly the input's elements, each once |
| Seqs.DedupLength | excellentnumberstask/excellentnumberstask.py:128-133 | the deduplicated list has one element per distinct input element |
| PgSync.BeforeDot | mongo_to_postgresql_sync.py:83-84 | the cut is the text before the first dot, and nothing after it |
| PgSync.PriceStrToInt | mongo_to_postgresql_sync.py:70-94 | empty input gives None; a result is `int()` of the non-empty residue without `$`, whitespace, the decimals and commas |
| PgSync.PriceRoundTrip | mongo_to_postgresql_sync.py:70-94 | `"$" + f"{n:,}"`, with or without cents, reads back as `n` |
| PgSync.PriceExample | mongo_to_postgresql_sync.py:73 | `$1,234.56` reads as 1234 |
| PgSync.PriceWithLetter | mongo_to_postgresql_sync.py:90-94 | a letter before the decimal point makes the price unreadable |
| PgSync.RowOfSome | mongo_to_postgresql_sync.py:245-263 | a document yields a row iff its phone is truthy and its price is a string that parses |
| PgSync.RowOfFields | mongo_to_postgresql_sync.py:253-261 | a row keeps the phone, price string, parsed price, URL and source, with the adjusted price at 1.2 times and the clock reading |
| PgSync.Outcomes | mongo_to_postgresql_sync.py:223-267 | each document is normalised on its own, at its own clock reading |
| PgSync.NormalizedSound | mongo_to_postgresql_sync.py:221-270 | every row comes from a document, and there are no more rows than documents |
| PgSync.NormalizedComplete | mongo_to_postgresql_sync.py:221-270 | no document that yields a row is lost |
| PgSync.NumberbarnSource | mongo_to_postgresql_sync.py:232-236 | rows from `numberbarn_numbers` carry the source `numberbarn` |
| PgSync.LatestShape | mongo_to_postgresql_sync.py:280-293 | the deduplicated records have distinct phones, each stored under its own phone |
| PgSync.LatestKeys | mongo_to_postgresql_sync.py:280-293 | one record per phone of the input, and no other |
| PgSync.LatestWins | mongo_to_postgresql_sync.py:284-290 | each phone keeps its newest record, the first of equally new ones |
| PgSync.UpsertValues | mongo_to_postgresql_sync.py:304-335 | upserting keyed records stores each under its phone and leaves other phones alone |
| PgSync.InsertedRows | mongo_to_postgresql_sync.py:272-347 | after an insert, a phone is stored iff it was or the data has it; a data phone holds its newest record; others are unchanged |
| PgSync.InsertedKeys | mongo_to_postgresql_sync.py:272-347 | the table's phones are the old ones plus the data's |
| PgSync.BatchesCover | mongo_to_postgresql_sync.py:300-301 | the batches are non-empty, at most `batch_size` long, all full but the last, and concatenate back to the rows |
| PgSync.AppliedKeys | mongo_to_postgresql_sync.py:386-393 | committing batches in order adds exactly their phones |
| PgSync.FirstFailureSpec | mongo_to_postgresql_sync.py:386-393 | every batch before the first failure is inserted; the first failure, if any, is not |
| PgSync.FilterNames | mongo_to_postgresql_sync.py:141 | a name is kept iff it is listed and its lower-case form contains "number" |
| PgSync.PhoneCollectionsListed | mongo_to_postgresql_sync.py:133-152 | the chosen collections are listed ones; a non-empty listing gives a non-empty choice; with a matching name only matching names are chosen |
| PgSync.CollectionOutcomes | mongo_to_postgresql_sync.py:408-413 | each collection is synced on its own |
| PgSync.AllSynced | mongo_to_postgresql_sync.py:397-418 | the sync of all collections returns True iff there is a collection and each one syncs |
| PgSync.TallyAll | mongo_to_postgresql_sync.py:407-418 | the combined outcome succeeds iff every step does |
| PgSync.RaisedNeedsZero | mongo_to_postgresql_sync.py:385-386 | a collection's sync raises iff the batch size is 0 and there are rows |
| PgSync.DryRunKeepsTable | mongo_to_postgresql_sync.py:331-333 | a dry run leaves the table unchanged |
| PgSync.ZeroBatchKeepsTable | mongo_to_postgresql_sync.py:385-386 | a zero batch size leaves the table unchanged |
| PgSync.RowsSyncedKeys | mongo_to_postgresql_sync.py:384-396 | a successful sync adds exactly the rows' phones |
| PgSync.RaisedStops | mongo_to_postgresql_sync.py:408-413 | a collection that raises ends the run raised, and later collections change nothing |
| PgSync.Deduplicate | mongo_to_postgresql_sync.py:279-293 | a result iff every phone is hashable, and then it is the newest-wins dictionary |
| PgSync.NormalizeMongoData | mongo_to_postgresql_sync.py:205-270 | the loop returns exactly the normalised rows |
| PgSync.Synchroniser.constructor | mongo_to_postgresql_sync.py:17-53 | the synchroniser starts with its batch size, dry-run flag and table |
| PgSync.Synchroniser.InsertToPostgresql | mongo_to_postgresql_sync.py:272-356 | True iff the data is empty, or its phones are hashable, the batch size is non-zero and no database error occurs outside dry-run mode; the table changes only on a commit |
| PgSync.Synchroniser.ExecuteBatches | mongo_to_postgresql_sync.py:299-347 | fails iff a database error hits a real insert; otherwise the pending table is the upsert of every row, or unchanged in a dry run |
| PgSync.Synchroniser.SyncCollection | mongo_to_postgresql_sync.py:368-395 | the outcome and table are those of syncing today's normalised documents |
| PgSync.Synchroniser.SyncRows | mongo_to_postgresql_sync.py:377-395 | no rows is a success; inserts batch by batch and stops at the first failed batch |
| PgSync.Synchroniser.SyncAllCollections | mongo_to_postgresql_sync.py:397-418 | the outcome and table are those of syncing the chosen collections in order |
| PgSync.Synchroniser.SyncEach | mongo_to_postgresql_sync.py:407-418 | the loop's outcome and table match the specification |
| PgSync.Synchroniser.SyncNext | mongo_to_postgresql_sync.py:408-413 | one collection's sync extends the prefix's table; the success count keeps pace with the prefix |
| PgSync.Synchroniser.Run | mongo_to_postgresql_sync.py:420-440 | True iff both databases connect and every collection syncs; the table changes only after both connect |
| TollFree.Written | numberbarntask/numberbarn_tollfree_scraper.py:177-206 | the written fields carry the entry's price, the toll-free markers and the crawl time, never the phone |
| TollFree.EffectsAt | numberbarntask/numberbarn_tollfree_scraper.py:167-213 | an entry has no effect iff it has no phone, and a write fails only where the store failed |
| TollFree.SaveCounts | numberbarntask/numberbarn_tollfree_scraper.py:167-213 | inserted + updated + skipped + failed writes is the number of entries with a phone; with no failing writes there are none |
| TollFree.CountAll | numberbarntask/numberbarn_tollfree_scraper.py:167-213 | every entry's effect is one of the five kinds |
| TollFree.SaveKeepsOthers | numberbarntask/numberbarn_tollfree_scraper.py:167-213 | no document is removed, and phones no entry carries are unchanged |
| TollFree.SaveKeys | numberbarntask/numberbarn_tollfree_scraper.py:167-213 | without failed writes, every entry phone ends up stored |
| TollFree.SaveLastPrice | numberbarntask/numberbarn_tollfree_scraper.py:176-213 | without failed writes, each phone holds the price of its last entry |
| TollFree.SaveKeepsKeyed | numberbarntask/numberbarn_tollfree_scraper.py:176-209 | every document stays under the phone it records |
| TollFree.NewPhoneIsTollFree | numberbarntask/numberbarn_tollfree_scraper.py:176-206 | a phone new to the collection is stored as a toll-free number from numberbarn |
| TollFree.RepeatSeesInsert | numberbarntask/numberbarn_tollfree_scraper.py:167-213 | a phone repeated in one batch is inserted, then skipped |
| TollFree.SnapshotKeepsCreated | numberbarntask/numberbarn_tollfree_scraper.py:111-132 | after two snapshots of a URL, the page and times are the later one's and the creation time is the first insert's |
| TollFree.SnapshotKeepsOthers | numberbarntask/numberbarn_tollfree_scraper.py:111-132 | a snapshot touches no other URL |
| TollFree.TagPage | numberbarntask/numberbarn_tollfree_scraper.py:255-263 | one tagged entry per page entry, in order |
| TollFree.TagFields | numberbarntask/numberbarn_tollfree_scraper.py:256-262 | a tagged entry carries the NPA, page number and page URL, and keeps its number and price |
| TollFree.PagesVisitedBounds | numberbarntask/numberbarn_tollfree_scraper.py:244-292 | the walk visits no more pages than exist, at least one when the search opens, at most `max_pages`, and all of them without a limit |
| TollFree.CollectedTagged | numberbarntask/numberbarn_tollfree_scraper.py:255-263 | every collected entry carries the NPA and the number of a processed page |
| TollFree.NpasOrDefaultChoice | numberbarntask/numberbarn_tollfree_scraper.py:395-397 | a missing or empty list means the seven default NPAs; any other list is used as given |
| TollFree.SearchUrlQuery | numberbarntask/numberbarn_tollfree_scraper.py:352-355 | the search URL splits at `&` into the address with `type=tollfree`, `npa`, `moreResults`, `sort` and `limit` |
| TollFree.PauseAfter | numberbarntask/numberbarn_tollfree_scraper.py:371-373 | the extra pause follows NPA index `k` iff `k % 5 == 4` |
| TollFree.TollFreeExtractor.constructor | numberbarntask/numberbarn_tollfree_scraper.py:52-81 | the scraper starts with its client flags, page limit and collections |
| TollFree.TollFreeExtractor.SaveNumbersToMongodb | numberbarntask/numberbarn_tollfree_scraper.py:156-223 | False without a client or entries; otherwise each entry is applied in turn and the counters are the effects |
| TollFree.TollFreeExtractor.SaveOne | numberbarntask/numberbarn_tollfree_scraper.py:168-213 | one entry's effect and its change to the collection |
| TollFree.TollFreeExtractor.SaveHtmlSnapshot | numberbarntask/numberbarn_tollfree_scraper.py:111-132 | the snapshot is upserted only with a collection, a URL and HTML, and a write that does not fail |
| TollFree.TollFreeExtractor.ProcessPage | numberbarntask/numberbarn_tollfree_scraper.py:248-266 | one page is snapshotted, tagged and saved |
| TollFree.TollFreeExtractor.ExtractNumbersFromUrl | numberbarntask/numberbarn_tollfree_scraper.py:234-337 | the pages processed are as bounded above; the result and the collections are those of those pages |
| TollFree.TollFreeExtractor.SearchNpa | numberbarntask/numberbarn_tollfree_scraper.py:352-368 | one NPA's search extends the entries and collections |
| TollFree.TollFreeExtractor.NpaStep | numberbarntask/numberbarn_tollfree_scraper.py:348-373 | one pass of the NPA loop, with its pause |
| TollFree.TollFreeExtractor.ExtractFromNpas | numberbarntask/numberbarn_tollfree_scraper.py:339-378 | the entries of every NPA in order, with a pause after every fifth |
| TollFree.TollFreeExtractor.Run | numberbarntask/numberbarn_tollfree_scraper.py:395-397 | searches the given NPAs, or the default list when none are given |
| NumberbarnScraper.GroupCandidates | numberbarntask/numberbarn_scraper.py:75-88 | the `data` key is skipped; a list gives one combination per item; any other value gives one combination |
| NumberbarnScraper.Iterated | numberbarntask/numberbarn_scraper.py:69-97 | a list's items, or a dict's keys or a string's characters as strings; other values make `len()` raise |
| NumberbarnScraper.Check | numberbarntask/numberbarn_scraper.py:103-115 | a combination iff the state and npa are truthy and the npa's text has three characters; its state is upper-case |
| NumberbarnScraper.Validated | numberbarntask/numberbarn_scraper.py:96-115 | each candidate is validated on its own |
| NumberbarnScraper.GetAllStateNpaCombinations | numberbarntask/numberbarn_scraper.py:47-129 | the loops return the valid combinations of the file's candidates, and nothing for a missing or unreadable file |
| NumberbarnScraper.AddGroup | numberbarntask/numberbarn_scraper.py:78-88 | one state's combinations are appended |
| NumberbarnScraper.CombinationsWellFormed | numberbarntask/numberbarn_scraper.py:103-115 | every combination has a non-empty upper-case state and a three-character npa |
| NumberbarnScraper.CombinationsKept | numberbarntask/numberbarn_scraper.py:96-125 | a combination is returned iff some candidate validates to it |
| NumberbarnScraper.ValidatedAppend | numberbarntask/numberbarn_scraper.py:97 | candidates are validated in order |
| NumberbarnScraper.ValidateGrouped | numberbarntask/numberbarn_scraper.py:80-107 | a grouped combination validates iff its state is non-empty and its npa has three characters |
| NumberbarnScraper.FalsyStateWins | numberbarntask/numberbarn_scraper.py:99 | an empty `state` hides `stateCode` |
| NumberbarnScraper.FallbackOnlyWhenAbsent | numberbarntask/numberbarn_scraper.py:99-100 | without `state` and `npa` keys, `stateCode` and `areaCode` are used |
| NumberbarnScraper.ListCandidates | numberbarntask/numberbarn_scraper.py:108-115 | a two-element list is `[state, npa]`; a wrong npa length or list length is dropped |
| NumberbarnScraper.TagFields | numberbarntask/numberbarn_scraper.py:273-278 | a tagged entry carries the state and npa values unchanged, the page number and the page URL |
| NumberbarnScraper.TagGet | numberbarntask/numberbarn_scraper.py:273-278 | tagging sets exactly the four keys and leaves every other key as it was |
| NumberbarnScraper.PageEntries | numberbarntask/numberbarn_scraper.py:272-280 | one tagged entry per page entry, in order |
| NumberbarnScraper.PagesRead | numberbarntask/numberbarn_scraper.py:202-211 | at most ten pages, and all pages when there are fewer |
| NumberbarnScraper.ExtractNumbersFromUrl | numberbarntask/numberbarn_scraper.py:198-342 | the entries of the pages read, in order; the page counter ends past the last page read when the ten-page bound stops the walk |
| NumberbarnScraper.WalkedTagged | numberbarntask/numberbarn_scraper.py:270-280 | every entry carries the given state and npa values unchanged and a page number from 1 to 10 |
| NumberbarnScraper.ExtractFromCombinations | numberbarntask/numberbarn_scraper.py:344-385 | the entries of every combination in order, with a pause after every fifth |
| NumberbarnScraper.SearchOf | numberbarntask/numberbarn_scraper.py:354-360 | a validated combination is searched with its two strings, which appear in the URL as they are |
| NumberbarnScraper.CombosEntriesTagged | numberbarntask/numberbarn_scraper.py:353-366 | every entry carries the raw state and npa values of one of the combinations and a page from 1 to 10 |
| NumberbarnTask.CombinationsFromFile | numberbarntask/numberbarntask.py:74-101 | nothing for a missing or stale file; a fresh list is used as is; a non-empty result comes from a fresh file and has a length |
| NumberbarnTask.FreshnessBoundary | numberbarntask/numberbarntask.py:80-85 | a file exactly seven days old is still used; one second later it is not |
| NumberbarnTask.FileDictShape | numberbarntask/numberbarntask.py:90-97 | a dict file gives its `combinations` value, or nothing without that key |
| NumberbarnTask.ApiChecked | numberbarntask/numberbarntask.py:125-132 | each dict entry is checked on its own |
| NumberbarnTask.GetCombinationsFromApi | numberbarntask/numberbarntask.py:112-139 | the loop returns the API's valid combinations |
| NumberbarnTask.FilterEntries | numberbarntask/numberbarntask.py:125-139 | the valid combinations when every entry is a dict, otherwise nothing (the exception is caught) |
| NumberbarnTask.ApiKeptIff | numberbarntask/numberbarntask.py:125-132 | a combination is kept iff some entry checks to it |
| NumberbarnTask.NonDictEntryVoids | numberbarntask/numberbarntask.py:126-139 | a single non-dict entry voids the whole response |
| NumberbarnTask.ApiWellFormed | numberbarntask/numberbarntask.py:128-132 | every API combination has a non-empty upper-case state and a three-character npa |
| NumberbarnTask.CombosJson | numberbarntask/numberbarntask.py:129-132 | one dict per combination |
| NumberbarnTask.CombosRoundTrip | numberbarntask/numberbarntask.py:129-132 | reading the dicts back gives the combinations, as string values |
| NumberbarnTask.AsCombos | numberbarntask/numberbarntask.py:376-382 | a list of dicts holding both keys is read item by item, keeping the raw values and showing them with `str()` in the URL; anything else raises |
| NumberbarnTask.Run | numberbarntask/numberbarntask.py:407-419 | the API is asked iff the file gives nothing; the crawl uses the file's combinations, else the API's |
| NumberbarnTask.ApiRunSearches | numberbarntask/numberbarntask.py:411-416 | API combinations are crawled in order |
| NumberbarnTask.CombosTruthy | numberbarntask/numberbarntask.py:414 | the list is truthy iff it is non-empty |
| NumberbarnTask.CrawlList | numberbarntask/numberbarntask.py:414-416 | a combination list crawls its entries |
| NumberbarnTask.CrawlTagsRawValues | numberbarntask/numberbarntask.py:377-378 | every crawled entry carries the "state" and "npa" values of one file combination unchanged, not their `str()` |
| NumberbarnTask.IntegerNpaKept | numberbarntask/numberbarntask.py:377-378 | a file npa of 212 (an integer) stays the integer 212 on the entries |
| NumberbarnTask.NothingToCrawl | numberbarntask/numberbarntask.py:417-419 | no combinations anywhere gives no numbers |

## Left out
- Browser driving (Playwright `goto`, `evaluate`, scrolling, CSS selectors, the JavaScript extraction scripts), BeautifulSoup traversal and the `PHONE_RE`/`PRICE_RE` heuristics: each page is given as its extracted rows and its next-page URL, because they depend on live HTML.
- MongoDB and PostgreSQL clients (connection setup, `create_index`, SQL text, `execute_values`, commit, rollback, `close_connections`, `close_mongodb`, `__del__`): collections are maps and the connections are up/down flags, because only the decisions over them are logic of this repository.
- `get_today_mongo_data` (mongo_to_postgresql_sync.py:154-203): its date query runs inside MongoDB, so each collection's documents for the day are a parameter.
- Clocks, time zones and timestamp parsing (`datetime.now`, `_as_aware`, `fromisoformat`): time is whole seconds given as a parameter; a toll-free page uses one clock reading for all its writes.
- Random and floating-point timing (`random.uniform` delays, `_human_sleep`, `_retry_sleep`'s exponential backoff with jitter): only which steps pause or back off is modelled, not how long.
- Floating point: the synchroniser's `original_price * 1.2` is kept exactly as integer tenths (price times 12), so rounding of the float is not modelled.
- Text: `lower`, `upper` and `isdigit` are modelled on ASCII letters and digits only; `strip` and the `\s` of the key normaliser use the exact Unicode whitespace set of `str.isspace`.
- JSON: parsed values have no floats, objects are ordered lists of fields, and a duplicate key in a source text is not modelled; Python's cross-type equality (`1 == 1.0`, `True == 1`) and MongoDB's query equality are modelled as equality of JSON values.
- Json.Repr: a string is shown between single quotes with its contents unchanged; Python's `repr` switches to double quotes when the string holds `'` and escapes backslashes and control characters, so `str()` of a list or dict holding such a string differs from the model's.
- StateArea.GroupedNumeric: digits are ASCII only, as everywhere in the model; Python's `str.isdigit` also accepts characters such as `'²'`, which `_parse` (excellentnumberstask/excellentnumbers_state_area.py:35) lets through and on which `int()` in the sort at line 72 then raises, a crash the model does not reach.
- Filesystem and JSON file I/O: `_pick_index_file`, `_load_index`, `_ts_name`, `run`'s file writes in the state-area scraper, `save_combinations_to_file` (numberbarntask/numberbarntask.py:103-110) and `base_scraper.py`'s `save_json`; a file is given as whether it exists, its modification time and its parsed content.
- AreaCodeNumbersHarvester.run: building the index with `StateAreaCodeScraper` when no index file is found is not modelled; the index is given.
- StateArea: the link collection of `_links` (selectors and absolute URLs) is not modelled; the links are given in page order.
- HeartbeatManager (task_lock.py:210-232): it runs on SIGALRM signal handlers, i.e. concurrently with the guarded work.
- TaskLocks: `_is_process_running` (`os.kill(pid, 0)`) and the process's own pid are parameters; a write that fails half-way through is not modelled.
- TaskLocks.TaskLock.Release: `_remove_lock_file` swallows a failing `unlink` and `release` swallows a failing `os.close`; the model always removes the file, so a lock file that cannot be deleted is not modelled.
- TaskLocks.LockInfo: a pid that is present but not an integer (for which the process check raises a `TypeError`) is not modelled; a pid is missing or an integer.
- Extractor.NumbersCollection.Scrape: only a page that fails with a timeout is modelled (it ends the walk, excellentnumberstask/excellentnumbers_extractor.py:247-251). Any other fetch error, a raising `find_one` (line 196) or a raising `bulk_write` (line 221) leaves `scrape` with an exception. The upserts of the earlier pages then stay written and no rows are returned. `excellentnumberstask.py:137-146` then retries the whole URL. The model's `Scrape` always returns, so it does not capture this path.
- Extractor.Apply: the writes are applied in list order. `bulk_write(..., ordered=False)` leaves the order open, and two writes to one phone occur when a page lists a phone at two prices; which of those prices stays is then the model's choice. With distinct phones the result does not depend on the order (Extractor.ApplyStoresEveryPrice).
- main.py (the `schedule` loop, `ThreadPoolExecutor`, the `is_running` guard) and settings.py (environment variables): scheduling, concurrency and configuration with no logic of their own.
- The first `get_combinations_from_api` (numberbarntask/numberbarntask.py:47-72): it is shadowed by the definition at line 112 and is never called.
- numberbarn_scraper.py `save_numbers_to_mongodb` (131-186) and its copy in numberbarntask/numberbarntask.py:141-191: the local scraper's MongoDB writes are not modelled; the branch at numberbarntask/numberbarntask.py:176-178 reads a `number` key the documents do not carry and its error is swallowed, so it never updates anything.
- numberbarntask/numberbarntask.py `extract_numbers_from_url`, `extract_from_combinations` and `extract_single_url`: copies of the numberbarn_scraper.py walk, modelled once in NumberbarnScraper.
- numberbarn_scraper.py and numberbarn_tollfree_scraper.py walks: the search for the ">" next button and an exception in the middle of a walk (which makes the whole walk return nothing) are not modelled; the pages reached are given as a list.
- `extract_single_url`, `extract_single_npa`, `extract_from_single_url`, `extract_from_all_combinations`, `extract_from_single_npa`, `extract_from_all_tollfree` and the `main` functions: thin wrappers that start the event loop around the modelled operations.
- `_save_error_page` (numberbarntask/numberbarn_tollfree_scraper.py:134-154) and a `find_one` that raises in the toll-free store: the error page is diagnostics only, and every lookup is taken to answer; a raising `insert_one` or `update_one` and a failing snapshot write are modelled.
- PgSync.Synchroniser.Run: `connect_mongodb` and `connect_postgresql` are given by their results (up or down); `close_connections` in the `finally` is not modelled.
- `setup_logging` and every log line: output only.
- StateCodes.BuildNumberbarnUrl: the full literal URL of the example with ("car", "New Mexico") is not stated as one fact; its search, state and sort fields and the `%2B` encoding of "price+" are proved separately.
- StateCodes.NormalizeName: requires the stripped input not to be two characters long; no full state name normalises from two characters, so no matching input is excluded, but the lemma does not say so.
- Harvester.AppendSortParams: states only the new query and that the scheme, host, path and fragment are kept; how `urlencode` then spells the query is given by UrlEncoding.UrlEncode, not by this member.
