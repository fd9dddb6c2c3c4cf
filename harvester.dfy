/**
 * The area-code harvester: it turns the state/area-code index into a list of
 * listing URLs, then visits each distinct URL once with a bounded number of
 * retries, counting successes, failures and captured numbers.
 *
 * The page scraper is an oracle `scrape(url, attempt)` answering, for each
 * attempt, with the rows it stored or a failure. Sleeping is not modelled;
 * the model records which steps would sleep.
 */
module Harvester {
  import opened Wrappers
  import opened Json
  import Dicts
  import UrlEncoding
  import opened Seqs

  // ---------------------------------------------------------------- sort parameters

  /** A URL split into its six components, the query already parsed into pairs. */
  datatype UrlParts = UrlParts(
    scheme: string, netloc: string, path: string, params: string,
    query: seq<(string, string)>, fragment: string)

  /**
   * `_append_sort_params`: the query becomes a dict of its pairs (last value
   * wins), `sort` is set to `newest`, and `sortcode` is added empty when absent.
   */
  function AppendSortParams(u: UrlParts): (r: UrlParts)
    ensures r == u.(query := r.query)
    ensures Dicts.DistinctKeys(r.query)
  {
    var q := Dicts.FromPairs(u.query);
    var q1 := Dicts.Set(q, "sort", "newest");
    Dicts.SetKeys(q, "sort", "newest");
    var q2 := if Dicts.Get(q1, "sortcode").None? then Dicts.Set(q1, "sortcode", "") else q1;
    Dicts.SetKeys(q1, "sortcode", "");
    u.(query := q2)
  }

  /** The query string put back into the URL: `urlencode` of the new pairs. */
  function QueryString(u: UrlParts): string {
    UrlEncoding.UrlEncode(u.query)
  }

  /**
   * After `_append_sort_params` the query says `sort=newest`, keeps an
   * existing `sortcode` (its last value) or has an empty one, and every other
   * key keeps the last value it had.
   */
  lemma SortParamsValues(u: UrlParts, k: string)
    ensures Dicts.Get(AppendSortParams(u).query, "sort") == Some("newest")
    ensures Dicts.Get(AppendSortParams(u).query, "sortcode")
         == Some(Dicts.LastValue(u.query, "sortcode").GetOr(""))
    ensures k != "sort" && k != "sortcode" ==>
              Dicts.Get(AppendSortParams(u).query, k) == Dicts.LastValue(u.query, k)
  {
    var q := Dicts.FromPairs(u.query);
    var q1 := Dicts.Set(q, "sort", "newest");
    Dicts.FromPairsLastWins(u.query, k);
    Dicts.FromPairsLastWins(u.query, "sortcode");
    Dicts.SetGet(q, "sort", "newest", k);
    Dicts.SetGet(q, "sort", "newest", "sort");
    Dicts.SetGet(q, "sort", "newest", "sortcode");
    Dicts.SetGet(q1, "sortcode", "", k);
    Dicts.SetGet(q1, "sortcode", "", "sort");
    Dicts.SetGet(q1, "sortcode", "", "sortcode");
  }

  /** Appending the sort parameters a second time changes nothing. */
  lemma SortParamsIdempotent(u: UrlParts)
    ensures AppendSortParams(AppendSortParams(u)) == AppendSortParams(u)
  {
    var r := AppendSortParams(u);
    Dicts.FromPairsOfDict(r.query);
    SortParamsValues(u, "sort");
    Dicts.SetExisting(r.query, "sort", "newest");
  }

  /** Once the parameters are there, the emitted query string contains the `sort=newest` pair. */
  lemma QueryStringHasSort(u: UrlParts)
    ensures exists i :: 0 <= i < |AppendSortParams(u).query| && AppendSortParams(u).query[i] == ("sort", "newest")
    ensures Text.Split(QueryString(AppendSortParams(u)), '&')
         == seq(|AppendSortParams(u).query|, i requires 0 <= i < |AppendSortParams(u).query| =>
                  UrlEncoding.EncodePair(AppendSortParams(u).query[i]))
  {
    SortParamsValues(u, "sort");
    UrlEncoding.UrlEncodeSplits(AppendSortParams(u).query);
  }

  // ---------------------------------------------------------------- index walk

  /** One listing page to harvest. */
  datatype StateUrl = StateUrl(state: string, code: Json, url: UrlParts)

  datatype IndexError = NotADict | NotIterable | EntryNotADict | UrlNotAString

  /** What `for x in j` iterates over: list items, dict keys or string characters. */
  function Iterate(j: Json): Option<seq<Json>> {
    match j
    case JArray(items) => Some(items)
    case JObject(fields) => Some(seq(|fields|, i requires 0 <= i < |fields| => JString(fields[i].0)))
    case JString(s) => Some(seq(|s|, i requires 0 <= i < |s| => JString([s[i]])))
    case _ => None
  }

  /**
   * The triples of one region's `area_codes` list:
   * entries whose code and url are both truthy, in list order.
   * `parse` stands for `urlparse` with `parse_qsl`.
   */
  function AreaCodeUrls(state: string, acs: seq<Json>, parse: string -> UrlParts): (r: Result<seq<StateUrl>, IndexError>)
    ensures r.Ok? ==> |r.value| <= |acs|
    ensures r.Ok? ==> forall t :: t in r.value ==> Truthy(t.code) && t.state == state
  {
    if acs == [] then Ok([])
    else
      var ac := acs[0];
      if !ac.JObject? then Err(EntryNotADict)
      else
        var code, url := GetOr(ac, "code", JNull), GetOr(ac, "url", JNull);
        if Truthy(code) && Truthy(url) && !url.JString? then Err(UrlNotAString)
        else
          var rest := AreaCodeUrls(state, acs[1..], parse);
          if rest.Err? then rest
          else if Truthy(code) && Truthy(url) then
            Ok([StateUrl(state, code, AppendSortParams(parse(url.s)))] + rest.value)
          else rest
  }

  /** The triples of the regions, region by region. */
  function RegionUrls(regions: seq<(string, Json)>, parse: string -> UrlParts): (r: Result<seq<StateUrl>, IndexError>)
  {
    if regions == [] then Ok([])
    else
      var info := regions[0].1;
      if !info.JObject? then Err(NotADict)
      else
        var acs := Iterate(GetOr(info, "area_codes", JArray([])));
        if acs.None? then Err(NotIterable)
        else
          var here := AreaCodeUrls(regions[0].0, acs.value, parse);
          var rest := RegionUrls(regions[1..], parse);
          if here.Err? then here
          else if rest.Err? then rest
          else Ok(here.value + rest.value)
  }

  /**
   * `list(_iter_state_urls(data))`: the whole list, or the error that the
   * first malformed part of the index raises.
   */
  function IterStateUrls(data: Json, parse: string -> UrlParts): Result<seq<StateUrl>, IndexError> {
    if !data.JObject? then Err(NotADict)
    else
      var regions := GetOr(data, "regions", JObject([]));
      if !regions.JObject? then Err(NotADict)
      else RegionUrls(regions.fields, parse)
  }

  /** Every yielded URL carries `sort=newest` and a `sortcode`, whatever its index entry looked like. */
  lemma {:induction false} RegionUrlsSorted(regions: seq<(string, Json)>, parse: string -> UrlParts)
    requires RegionUrls(regions, parse).Ok?
    ensures forall t :: t in RegionUrls(regions, parse).value ==>
              Dicts.Get(t.url.query, "sort") == Some("newest") && Dicts.HasKey(t.url.query, "sortcode")
  {
    if regions != [] {
      var acs := Iterate(GetOr(regions[0].1, "area_codes", JArray([]))).value;
      AreaCodeUrlsSorted(regions[0].0, acs, parse);
      RegionUrlsSorted(regions[1..], parse);
    }
  }

  lemma {:induction false} AreaCodeUrlsSorted(state: string, acs: seq<Json>, parse: string -> UrlParts)
    requires AreaCodeUrls(state, acs, parse).Ok?
    ensures forall t :: t in AreaCodeUrls(state, acs, parse).value ==>
              Dicts.Get(t.url.query, "sort") == Some("newest") && Dicts.HasKey(t.url.query, "sortcode")
  {
    if acs != [] {
      AreaCodeUrlsSorted(state, acs[1..], parse);
      var url := GetOr(acs[0], "url", JNull);
      if Truthy(GetOr(acs[0], "code", JNull)) && Truthy(url) {
        SortParamsValues(parse(url.s), "sort");
      }
    }
  }

  /** A region's triples come before the next region's: the list is the concatenation per region. */
  lemma RegionOrder(first: (string, Json), rest: seq<(string, Json)>, parse: string -> UrlParts)
    requires RegionUrls([first] + rest, parse).Ok?
    ensures first.1.JObject?
    ensures RegionUrls([first] + rest, parse).value
         == AreaCodeUrls(first.0, Iterate(GetOr(first.1, "area_codes", JArray([]))).value, parse).value
            + RegionUrls(rest, parse).value
  {
    assert ([first] + rest)[1..] == rest;
  }

  /** `if code and url`: the test an area-code entry must pass to be yielded. */
  predicate Qualifies(ac: Json)
    requires ac.JObject?
  {
    Truthy(GetOr(ac, "code", JNull)) && Truthy(GetOr(ac, "url", JNull))
  }

  /** An entry the loop gets past: a dict whose `url`, when it qualifies, is a string. */
  predicate WellFormedEntry(ac: Json) {
    ac.JObject? && (Qualifies(ac) ==> GetOr(ac, "url", JNull).JString?)
  }

  /** What one area-code entry contributes on its own: its state, its code and its sorted URL, when it qualifies. */
  function Yielded(state: string, ac: Json, parse: string -> UrlParts): Option<StateUrl> {
    if WellFormedEntry(ac) && Qualifies(ac) then
      Some(StateUrl(state, GetOr(ac, "code", JNull), AppendSortParams(parse(GetOr(ac, "url", JNull).s))))
    else None
  }

  /** Each entry of a region considered on its own, in list order. */
  function YieldedAll(state: string, acs: seq<Json>, parse: string -> UrlParts): seq<Option<StateUrl>> {
    seq(|acs|, i requires 0 <= i < |acs| => Yielded(state, acs[i], parse))
  }

  /** A region's `area_codes`, when its info is a dict and the value can be iterated. */
  function AreaCodesOf(info: Json): Option<seq<Json>> {
    if info.JObject? then Iterate(GetOr(info, "area_codes", JArray([]))) else None
  }

  /** A region the walk gets past: iterable area codes, all well formed. */
  predicate WellFormedRegion(info: Json) {
    AreaCodesOf(info).Some? && forall i :: 0 <= i < |AreaCodesOf(info).value| ==> WellFormedEntry(AreaCodesOf(info).value[i])
  }

  /** Every entry of every region considered on its own, region by region. */
  function RegionsYielded(regions: seq<(string, Json)>, parse: string -> UrlParts): seq<seq<Option<StateUrl>>> {
    seq(|regions|, i requires 0 <= i < |regions| => YieldedAll(regions[i].0, AreaCodesOf(regions[i].1).GetOr([]), parse))
  }

  /**
   * One region yields exactly one triple per entry with truthy code and url,
   * carrying that entry's code and sorted URL, in list order; it fails
   * exactly when some entry is not a dict or a qualifying url is not a string.
   */
  lemma {:induction false} AreaCodeUrlsExact(state: string, acs: seq<Json>, parse: string -> UrlParts)
    ensures AreaCodeUrls(state, acs, parse).Ok? <==> forall i :: 0 <= i < |acs| ==> WellFormedEntry(acs[i])
    ensures AreaCodeUrls(state, acs, parse).Ok? ==>
              AreaCodeUrls(state, acs, parse).value == Present(YieldedAll(state, acs, parse))
  {
    if acs != [] {
      AreaCodeUrlsExact(state, acs[1..], parse);
      AreaCodeUrlsHead(state, acs, parse);
      EntriesTail(acs);
      YieldedCons(state, acs, parse);
    }
  }

  /** The first entry's triple, if any, comes before the rest's. */
  lemma YieldedCons(state: string, acs: seq<Json>, parse: string -> UrlParts)
    requires acs != []
    ensures var y := Yielded(state, acs[0], parse);
            Present(YieldedAll(state, acs, parse))
            == (if y.Some? then [y.value] else []) + Present(YieldedAll(state, acs[1..], parse))
  {
    assert YieldedAll(state, acs, parse) == [Yielded(state, acs[0], parse)] + YieldedAll(state, acs[1..], parse);
    PresentCons(Yielded(state, acs[0], parse), YieldedAll(state, acs[1..], parse));
  }

  /** One step of the region loop: the first entry decides an error or its own triple, the rest follow. */
  lemma AreaCodeUrlsHead(state: string, acs: seq<Json>, parse: string -> UrlParts)
    requires acs != []
    ensures !WellFormedEntry(acs[0]) ==> AreaCodeUrls(state, acs, parse).Err?
    ensures WellFormedEntry(acs[0]) ==>
              AreaCodeUrls(state, acs, parse)
              == (var rest := AreaCodeUrls(state, acs[1..], parse);
                  if rest.Err? then rest
                  else Ok((var y := Yielded(state, acs[0], parse); if y.Some? then [y.value] else []) + rest.value))
  {
    if WellFormedEntry(acs[0]) && !Qualifies(acs[0]) {
      var rest := AreaCodeUrls(state, acs[1..], parse);
      if rest.Ok? {
        assert [] + rest.value == rest.value;
      }
    }
  }

  /** All entries are well formed iff the first and all the rest are. */
  lemma EntriesTail(acs: seq<Json>)
    requires acs != []
    ensures (forall i :: 0 <= i < |acs| ==> WellFormedEntry(acs[i]))
        <==> WellFormedEntry(acs[0]) && forall i :: 0 <= i < |acs[1..]| ==> WellFormedEntry(acs[1..][i])
  {
    if WellFormedEntry(acs[0]) && forall i :: 0 <= i < |acs[1..]| ==> WellFormedEntry(acs[1..][i]) {
      forall i | 0 < i < |acs| ensures WellFormedEntry(acs[i]) {
        assert acs[i] == acs[1..][i - 1];
      }
    }
  }

  /** The regions together: exactly the qualifying entries of every region, region by region, and no error iff every region is well formed. */
  lemma {:induction false} RegionUrlsExact(regions: seq<(string, Json)>, parse: string -> UrlParts)
    ensures RegionUrls(regions, parse).Ok? <==> forall i :: 0 <= i < |regions| ==> WellFormedRegion(regions[i].1)
    ensures RegionUrls(regions, parse).Ok? ==>
              RegionUrls(regions, parse).value == Present(Concat(RegionsYielded(regions, parse)))
  {
    if regions != [] {
      RegionUrlsExact(regions[1..], parse);
      AreaCodeUrlsExact(regions[0].0, AreaCodesOf(regions[0].1).GetOr([]), parse);
      RegionUrlsHead(regions, parse);
      RegionsTail(regions);
      RegionsYieldedCons(regions, parse);
    }
  }

  /** One step of the region loop: the first region decides an error or its own triples, the rest follow. */
  lemma RegionUrlsHead(regions: seq<(string, Json)>, parse: string -> UrlParts)
    requires regions != []
    ensures AreaCodesOf(regions[0].1).None? ==> RegionUrls(regions, parse).Err?
    ensures AreaCodesOf(regions[0].1).Some? ==>
              RegionUrls(regions, parse)
              == (var here := AreaCodeUrls(regions[0].0, AreaCodesOf(regions[0].1).value, parse);
                  var rest := RegionUrls(regions[1..], parse);
                  if here.Err? then here else if rest.Err? then rest else Ok(here.value + rest.value))
  {
  }

  /** All regions are well formed iff the first and all the rest are. */
  lemma RegionsTail(regions: seq<(string, Json)>)
    requires regions != []
    ensures (forall i :: 0 <= i < |regions| ==> WellFormedRegion(regions[i].1))
        <==> WellFormedRegion(regions[0].1) && forall i :: 0 <= i < |regions[1..]| ==> WellFormedRegion(regions[1..][i].1)
  {
    if WellFormedRegion(regions[0].1) && forall i :: 0 <= i < |regions[1..]| ==> WellFormedRegion(regions[1..][i].1) {
      forall i | 0 < i < |regions| ensures WellFormedRegion(regions[i].1) {
        assert regions[i] == regions[1..][i - 1];
      }
    }
  }

  /** The first region's entries come before the rest's. */
  lemma RegionsYieldedCons(regions: seq<(string, Json)>, parse: string -> UrlParts)
    requires regions != []
    ensures Present(Concat(RegionsYielded(regions, parse)))
         == Present(YieldedAll(regions[0].0, AreaCodesOf(regions[0].1).GetOr([]), parse))
            + Present(Concat(RegionsYielded(regions[1..], parse)))
  {
    var first := YieldedAll(regions[0].0, AreaCodesOf(regions[0].1).GetOr([]), parse);
    assert RegionsYielded(regions, parse) == [first] + RegionsYielded(regions[1..], parse);
    assert Concat(RegionsYielded(regions, parse)) == first + Concat(RegionsYielded(regions[1..], parse));
    PresentAppend(first, Concat(RegionsYielded(regions[1..], parse)));
  }

  /**
   * `list(_iter_state_urls(data))`: one (state, code, sorted URL) triple per
   * area-code entry with truthy code and url, region by region in list order.
   */
  lemma IterStateUrlsExact(data: Json, parse: string -> UrlParts)
    requires IterStateUrls(data, parse).Ok?
    ensures data.JObject? && GetOr(data, "regions", JObject([])).JObject?
    ensures IterStateUrls(data, parse).value
         == Present(Concat(RegionsYielded(GetOr(data, "regions", JObject([])).fields, parse)))
  {
    RegionUrlsExact(GetOr(data, "regions", JObject([])).fields, parse);
  }

  // ---------------------------------------------------------------- limit

  /** `urls[:limit]` when `limit` is truthy, else every URL (Python slice semantics). */
  function Truncate<T>(urls: seq<T>, limit: Option<int>): (r: seq<T>)
    ensures |r| <= |urls| && r == urls[..|r|]
    ensures limit.None? || limit == Some(0) ==> r == urls
    ensures limit.Some? && limit.value > 0 ==> |r| == if limit.value < |urls| then limit.value else |urls|
    ensures limit.Some? && limit.value < 0 ==> |r| == if -limit.value < |urls| then |urls| + limit.value else 0
  {
    if limit.None? || limit.value == 0 then urls
    else if limit.value > 0 then (if limit.value < |urls| then urls[..limit.value] else urls)
    else if -limit.value < |urls| then urls[..|urls| + limit.value]
    else []
  }

  // ---------------------------------------------------------------- retries

  datatype Attempt = Rows(count: nat) | Fail

  /** The scraper's answer for a URL at a given (1-based) attempt. */
  type Scraper = (string, nat) -> Attempt

  /** The first attempt in `from..last` that returns rows, if any. */
  function FirstSuccess(scrape: Scraper, url: string, from: nat, last: int): (r: Option<nat>)
    ensures r.Some? ==> from <= r.value <= last && scrape(url, r.value).Rows?
    ensures r.Some? ==> forall k: nat :: from <= k < r.value ==> scrape(url, k).Fail?
    ensures r.None? ==> forall k: nat :: from <= k <= last ==> scrape(url, k).Fail?
    decreases if from <= last then last - from + 1 else 0
  {
    if from > last then None
    else if scrape(url, from).Rows? then Some(from)
    else FirstSuccess(scrape, url, from + 1, last)
  }

  /** Rows captured for one URL: those of its first successful attempt among `1..retries+1`. */
  function UrlRows(scrape: Scraper, url: string, retries: int): Option<nat> {
    var k := FirstSuccess(scrape, url, 1, retries + 1);
    if k.Some? then Some(scrape(url, k.value).count) else None
  }

  /**
   * The retry loop for one URL: attempts `1..retries+1` until one returns
   * rows; a backoff sleep follows a failed attempt `k` only when `k <= retries`.
   */
  method TryUrl(scrape: Scraper, url: string, retries: int)
    returns (ok: bool, rows: nat, attempts: nat, backoffs: nat)
    ensures ok <==> UrlRows(scrape, url, retries).Some?
    ensures ok ==> rows == UrlRows(scrape, url, retries).value
    ensures ok ==> attempts == FirstSuccess(scrape, url, 1, retries + 1).value && backoffs == attempts - 1
    ensures ok ==> forall k: nat :: 1 <= k < attempts ==> scrape(url, k).Fail?
    ensures !ok ==> rows == 0
    ensures !ok ==> attempts == (if retries >= 0 then retries + 1 else 0)
    ensures !ok ==> backoffs == (if retries >= 0 then retries else 0)
    ensures !ok ==> forall k: nat :: 1 <= k <= retries + 1 ==> scrape(url, k).Fail?
  {
    ok, rows, attempts, backoffs := false, 0, 0, 0;
    var attempt: nat := 1;
    while attempt <= retries + 1
      invariant 1 <= attempt && (attempt == 1 || attempt <= retries + 2)
      invariant attempts == attempt - 1
      invariant FirstSuccess(scrape, url, 1, retries + 1) == FirstSuccess(scrape, url, attempt, retries + 1)
      invariant backoffs == if attempt >= 2 && attempt - 1 > retries then attempt - 2 else attempt - 1
      decreases retries + 2 - attempt
    {
      attempts := attempt;
      var outcome := scrape(url, attempt);
      if outcome.Rows? {
        ok, rows := true, outcome.count;
        return;
      }
      if attempt <= retries {
        backoffs := backoffs + 1;
      }
      attempt := attempt + 1;
    }
  }

  // ---------------------------------------------------------------- the run loop

  /** The number of processed URLs is the number of distinct URLs in the list. */
  lemma ProcessedIsDistinctCount(scrape: Scraper, retries: int, urls: seq<string>)
    ensures Summarize(scrape, retries, Dedup(urls)).processed == |set u | u in urls|
  {
    SummaryBalances(scrape, retries, Dedup(urls));
    DedupLength(urls);
  }

  datatype Summary = Summary(processed: nat, success: nat, failed: nat, numbersCaptured: nat)

  /** The counters after processing the distinct URLs `d`, in order. */
  function Summarize(scrape: Scraper, retries: int, d: seq<string>): Summary {
    if d == [] then Summary(0, 0, 0, 0)
    else
      var s := Summarize(scrape, retries, d[..|d| - 1]);
      var rows := UrlRows(scrape, d[|d| - 1], retries);
      if rows.Some? then s.(processed := s.processed + 1, success := s.success + 1,
                            numbersCaptured := s.numbersCaptured + rows.value)
      else s.(processed := s.processed + 1, failed := s.failed + 1)
  }

  /** `processed_urls == success_urls + failed_urls`, one per distinct URL. */
  lemma {:induction false} SummaryBalances(scrape: Scraper, retries: int, d: seq<string>)
    ensures Summarize(scrape, retries, d).processed == |d|
    ensures Summarize(scrape, retries, d).processed
         == Summarize(scrape, retries, d).success + Summarize(scrape, retries, d).failed
  {
    if d != [] {
      SummaryBalances(scrape, retries, d[..|d| - 1]);
    }
  }

  /** Only successful URLs add numbers: if every attempt fails, nothing is captured. */
  lemma {:induction false} FailuresCaptureNothing(scrape: Scraper, retries: int, d: seq<string>)
    requires forall u, k: nat :: u in d ==> scrape(u, k).Fail?
    ensures Summarize(scrape, retries, d).numbersCaptured == 0
    ensures Summarize(scrape, retries, d).success == 0
  {
    if d != [] {
      FailuresCaptureNothing(scrape, retries, d[..|d| - 1]);
    }
  }

  /** `_human_pause(i)` adds a long pause after 1-based position `i`. */
  predicate LongPause(i: int, every: int) {
    every != 0 && i > 0 && i % every == 0
  }

  /** The 1-based positions after which the run takes a long pause; skipped repeats take none. */
  function PauseSchedule(urls: seq<string>, every: int): seq<nat> {
    if urls == [] then []
    else
      var init := urls[..|urls| - 1];
      if urls[|urls| - 1] in init then PauseSchedule(init, every)
      else if LongPause(|urls|, every) then PauseSchedule(init, every) + [|urls|]
      else PauseSchedule(init, every)
  }

  /** Position `i` is in the pause schedule iff it holds a first occurrence and is a long-pause position. */
  lemma {:induction false} PauseScheduleSpec(urls: seq<string>, every: int, i: nat)
    ensures i in PauseSchedule(urls, every) <==>
              1 <= i <= |urls| && urls[i - 1] !in urls[..i - 1] && LongPause(i, every)
  {
    if urls != [] {
      var init := urls[..|urls| - 1];
      PauseScheduleSpec(init, every, i);
      PauseScheduleBound(init, every);
      if 1 <= i < |urls| {
        assert urls[..i - 1] == init[..i - 1];
      }
    }
  }

  lemma {:induction false} PauseScheduleBound(urls: seq<string>, every: int)
    ensures forall p :: p in PauseSchedule(urls, every) ==> p <= |urls|
  {
    if urls != [] {
      PauseScheduleBound(urls[..|urls| - 1], every);
    }
  }

  /** What one more URL does to the deduplicated list, the pause schedule and the seen set. */
  lemma RunStep(list: seq<string>, idx: nat, every: int)
    requires idx < |list|
    ensures forall u :: u in list[..idx + 1] <==> u in list[..idx] || u == list[idx]
    ensures list[idx] in list[..idx] ==>
              Dedup(list[..idx + 1]) == Dedup(list[..idx])
              && PauseSchedule(list[..idx + 1], every) == PauseSchedule(list[..idx], every)
    ensures list[idx] !in list[..idx] ==>
              Dedup(list[..idx + 1]) == Dedup(list[..idx]) + [list[idx]]
              && PauseSchedule(list[..idx + 1], every)
                 == PauseSchedule(list[..idx], every) + (if LongPause(idx + 1, every) then [idx + 1] else [])
  {
    assert list[..idx + 1] == list[..idx] + [list[idx]];
    assert list[..idx + 1][..idx] == list[..idx];
  }

  lemma SummarizeStep(scrape: Scraper, retries: int, d: seq<string>, url: string)
    ensures Summarize(scrape, retries, d + [url])
         == var s := Summarize(scrape, retries, d);
            var rows := UrlRows(scrape, url, retries);
            if rows.Some? then s.(processed := s.processed + 1, success := s.success + 1,
                                  numbersCaptured := s.numbersCaptured + rows.value)
            else s.(processed := s.processed + 1, failed := s.failed + 1)
  {
    assert (d + [url])[..|d + [url]| - 1] == d;
  }

  /**
   * `run` after the index is loaded: truncate, then visit each distinct URL
   * once with retries. Returns the summary and the long-pause positions.
   */
  method Run(urls: seq<string>, limit: Option<int>, retries: int, longPauseEvery: int, scrape: Scraper)
    returns (summary: Summary, pauses: seq<nat>)
    ensures summary == Summarize(scrape, retries, Dedup(Truncate(urls, limit)))
    ensures pauses == PauseSchedule(Truncate(urls, limit), longPauseEvery)
  {
    var list := Truncate(urls, limit);
    var processed, success, failures, totalNumbers := 0, 0, 0, 0;
    var seen: set<string> := {};
    pauses := [];
    var idx := 0;
    while idx < |list|
      invariant 0 <= idx <= |list|
      invariant forall u :: u in seen <==> u in list[..idx]
      invariant Summary(processed, success, failures, totalNumbers) == Summarize(scrape, retries, Dedup(list[..idx]))
      invariant pauses == PauseSchedule(list[..idx], longPauseEvery)
    {
      var url := list[idx];
      RunStep(list, idx, longPauseEvery);
      if url in seen {
        idx := idx + 1;
        continue;
      }
      seen := seen + {url};
      processed := processed + 1;
      var ok, rows, attempts, backoffs := TryUrl(scrape, url, retries);
      SummarizeStep(scrape, retries, Dedup(list[..idx]), url);
      if ok {
        success := success + 1;
        totalNumbers := totalNumbers + rows;
      } else {
        failures := failures + 1;
      }
      if LongPause(idx + 1, longPauseEvery) {
        pauses := pauses + [idx + 1];
      }
      idx := idx + 1;
    }
    assert list[..idx] == list;
    summary := Summary(processed, success, failures, totalNumbers);
  }
}
