/**
 * The numberbarn.com task entry point (numberbarntask/numberbarntask.py):
 * the combinations come from a cached JSON file while it is at most a week
 * old, otherwise from the site's NPA API, and each combination is then
 * searched as the local-number scraper does. The file, the clock, the API
 * response and the browser are parameters.
 */
module NumberbarnTask {
  import opened Wrappers
  import opened Json
  import Dicts
  import Seqs
  import TollFree
  import NumberbarnScraper

  /** A cached file older than this many seconds is ignored. */
  const MaxAge: int := 7 * 86400

  /**
   * The cache file: absent, or present with its modification time and its
   * parsed content (`None` when reading or parsing it fails).
   */
  datatype CacheFile = Absent | Present(mtime: int, content: Option<Json>)

  /** A JSON value whose `len()` is defined. */
  predicate Sized(j: Json) {
    j.JArray? || j.JObject? || j.JString?
  }

  /**
   * `get_combinations_from_file`: a list is returned as is, a dict's
   * "combinations" value is returned whatever it is (unless `len()` of it
   * raises), anything else gives the empty list.
   */
  function CombinationsFromFile(file: CacheFile, now: int): (r: Json)
    ensures file.Absent? ==> r == JArray([])
    ensures file.Present? && now - file.mtime > MaxAge ==> r == JArray([])
    ensures file.Present? && now - file.mtime <= MaxAge && file.content.Some? && file.content.value.JArray? ==>
              r == file.content.value
    ensures r != JArray([]) ==> file.Present? && now - file.mtime <= MaxAge && file.content.Some? && Sized(r)
  {
    match file
    case Absent => JArray([])
    case Present(mtime, content) =>
      if now - mtime > MaxAge then JArray([])
      else
        match content
        case None => JArray([])
        case Some(data) =>
          if data.JArray? then data
          else if data.JObject? && Dicts.HasKey(data.fields, "combinations") then
            var v := Dicts.Get(data.fields, "combinations").value;
            if Sized(v) then v else JArray([])
          else JArray([])
  }

  /** A file exactly a week old is still read; one second more and it is not. */
  lemma FreshnessBoundary(mtime: int, data: seq<Json>)
    ensures CombinationsFromFile(Present(mtime, Some(JArray(data))), mtime + MaxAge) == JArray(data)
    ensures CombinationsFromFile(Present(mtime, Some(JArray(data))), mtime + MaxAge + 1) == JArray([])
  {
  }

  /** A dict file yields its "combinations" value, unchecked; without that key it yields nothing. */
  lemma FileDictShape(mtime: int, now: int, fields: seq<(string, Json)>)
    requires now - mtime <= MaxAge
    ensures Dicts.HasKey(fields, "combinations") && Sized(Dicts.Get(fields, "combinations").value) ==>
              CombinationsFromFile(Present(mtime, Some(JObject(fields))), now) == Dicts.Get(fields, "combinations").value
    ensures !Dicts.HasKey(fields, "combinations") ==> CombinationsFromFile(Present(mtime, Some(JObject(fields))), now) == JArray([])
  {
  }

  // ---------------------------------------------------------------------
  // get_combinations_from_api (the definition at line 112, which shadows the one at line 47)

  /** The API filter of one entry: `entry.get('state')` and `entry.get('npa')`, no fallbacks. */
  function ApiCombo(entry: Json): Option<NumberbarnScraper.Combo>
    requires entry.JObject?
  {
    NumberbarnScraper.Check(GetOr(entry, "state", JNull), GetOr(entry, "npa", JNull))
  }

  /** Whether every value is a dict (`entry.get` raises on anything else). */
  predicate AllDicts(entries: seq<Json>) {
    forall i :: 0 <= i < |entries| ==> entries[i].JObject?
  }

  /** Every entry filtered, in order (a value that is not a dict is never reached: see `ApiEntries`). */
  function ApiChecked(entries: seq<Json>): (r: seq<Option<NumberbarnScraper.Combo>>)
    ensures |r| == |entries|
    ensures forall i :: 0 <= i < |entries| && entries[i].JObject? ==> r[i] == ApiCombo(entries[i])
  {
    seq(|entries|, i requires 0 <= i < |entries| => if entries[i].JObject? then ApiCombo(entries[i]) else None)
  }

  /**
   * The list of entries the API loop walks: the "data" list of a dict
   * response; `None` when the walk raises (a "data" value that is not a list
   * and not empty, or an entry that is not a dict); no entries otherwise.
   */
  function ApiEntries(response: Option<Json>): Option<seq<Json>> {
    match response
    case None => None
    case Some(data) =>
      if data.JObject? && Dicts.HasKey(data.fields, "data") then
        match Dicts.Get(data.fields, "data").value
        case JArray(items) => if AllDicts(items) then Some(items) else None
        case JObject(fields) => if fields == [] then Some([]) else None
        case JString(s) => if s == [] then Some([]) else None
        case _ => None
      else Some([])
  }

  /** What the API yields: the kept entries, or nothing when the request or the walk fails. */
  function ApiCombinations(response: Option<Json>): seq<NumberbarnScraper.Combo> {
    match ApiEntries(response)
    case Some(entries) => Seqs.Present(ApiChecked(entries))
    case None => []
  }

  /**
   * `get_combinations_from_api`: `response` is the decoded JSON body, `None`
   * when the request, the status check or the decoding fails.
   */
  method GetCombinationsFromApi(response: Option<Json>) returns (r: seq<NumberbarnScraper.Combo>)
    ensures r == ApiCombinations(response)
  {
    if response.None? {
      return [];
    }
    var data := response.value;
    if !(data.JObject? && Dicts.HasKey(data.fields, "data")) {
      return [];
    }
    var list := Dicts.Get(data.fields, "data").value;
    if !list.JArray? {
      return [];
    }
    r := FilterEntries(list.items);
  }

  /** The loop over the "data" list: an entry that is not a dict raises, and the caught error gives the empty list. */
  method FilterEntries(entries: seq<Json>) returns (r: seq<NumberbarnScraper.Combo>)
    ensures r == if AllDicts(entries) then Seqs.Present(ApiChecked(entries)) else []
  {
    r := [];
    for i := 0 to |entries|
      invariant forall k :: 0 <= k < i ==> entries[k].JObject?
      invariant r == Seqs.Present(ApiChecked(entries)[..i])
    {
      if !entries[i].JObject? {
        return [];
      }
      Seqs.PresentPrefix(ApiChecked(entries), i);
      var state := GetOr(entries[i], "state", JNull);
      var npa := GetOr(entries[i], "npa", JNull);
      var kept := NumberbarnScraper.Check(state, npa);
      if kept.Some? {
        r := r + [kept.value];
      }
    }
    assert entries[..|entries|] == entries;
    Seqs.PresentAll(ApiChecked(entries));
  }

  /**
   * A combination comes from the API exactly when some entry passes the
   * filter: state and NPA truthy and the NPA three characters long.
   */
  lemma ApiKeptIff(entries: seq<Json>, c: NumberbarnScraper.Combo)
    requires AllDicts(entries)
    ensures c in Seqs.Present(ApiChecked(entries)) <==> exists i :: 0 <= i < |entries| && ApiCombo(entries[i]) == Some(c)
  {
    var o := ApiChecked(entries);
    if c in Seqs.Present(o) {
      var k :| 0 <= k < |Seqs.Present(o)| && Seqs.Present(o)[k] == c;
      Seqs.PresentSound(o, k);
    }
    if exists i :: 0 <= i < |entries| && ApiCombo(entries[i]) == Some(c) {
      var i :| 0 <= i < |entries| && ApiCombo(entries[i]) == Some(c);
      Seqs.PresentComplete(o, i);
    }
  }

  /** An entry that is not a dict voids the whole response. */
  lemma NonDictEntryVoids(data: Json, i: nat)
    requires data.JObject? && Dicts.HasKey(data.fields, "data")
    requires Dicts.Get(data.fields, "data").value.JArray?
    requires i < |Dicts.Get(data.fields, "data").value.items| && !Dicts.Get(data.fields, "data").value.items[i].JObject?
    ensures ApiCombinations(Some(data)) == []
  {
  }

  /** Every API combination has a non-empty upper-case state and a three-character NPA. */
  lemma ApiWellFormed(response: Option<Json>, c: NumberbarnScraper.Combo)
    requires c in ApiCombinations(response)
    ensures c.state != [] && Text.IsUpperText(c.state) && |c.npa| == 3
  {
    var entries := ApiEntries(response).value;
    ApiKeptIff(entries, c);
  }

  // ---------------------------------------------------------------------
  // run

  /** The list the API combinations are handed on as: `[{'state': ..., 'npa': ...}, ...]`. */
  function CombosJson(cs: seq<NumberbarnScraper.Combo>): (r: Json)
    ensures r.JArray? && |r.items| == |cs|
  {
    JArray(seq(|cs|, i requires 0 <= i < |cs| => NumberbarnScraper.ComboDict(cs[i].state, cs[i].npa)))
  }

  /**
   * How `extract_from_combinations` reads a combinations value: each item
   * must be a dict holding "state" and "npa", whose values are taken as
   * they are (a file's combinations are not validated) and shown with
   * `str()` in the URL; `None` when `combo['state']` or `combo['npa']`
   * raises, which `run` does not catch.
   */
  function AsCombos(j: Json): (r: Option<seq<NumberbarnScraper.Search>>)
    ensures r.Some? <==> j.JArray? && AllComboShaped(j.items)
    ensures r.Some? ==> |r.value| == |j.items|
    ensures r.Some? ==> forall i :: 0 <= i < |j.items| ==>
              Dicts.Get(j.items[i].fields, "state") == Some(r.value[i].state) &&
              Dicts.Get(j.items[i].fields, "npa") == Some(r.value[i].npa) &&
              r.value[i].url == NumberbarnScraper.LocalSearchUrl(Str(r.value[i].state), Str(r.value[i].npa))
  {
    if j.JArray? && AllComboShaped(j.items) then
      Some(seq(|j.items|, i requires 0 <= i < |j.items| && ComboShaped(j.items[i]) =>
                 NumberbarnScraper.SearchFor(Dicts.Get(j.items[i].fields, "state").value,
                                             Dicts.Get(j.items[i].fields, "npa").value)))
    else None
  }

  /** Every item a dict holding both "state" and "npa". */
  predicate AllComboShaped(items: seq<Json>) {
    forall i :: 0 <= i < |items| ==> ComboShaped(items[i])
  }

  /** A dict holding both "state" and "npa". */
  predicate ComboShaped(item: Json) {
    item.JObject? && Dicts.HasKey(item.fields, "state") && Dicts.HasKey(item.fields, "npa")
  }

  /** The combinations the API produced come back unchanged from their JSON list, as strings. */
  lemma CombosRoundTrip(cs: seq<NumberbarnScraper.Combo>)
    ensures AsCombos(CombosJson(cs)) == Some(NumberbarnScraper.Searches(cs))
  {
    var j := CombosJson(cs);
    forall i | 0 <= i < |cs|
      ensures ComboShaped(j.items[i])
      ensures Dicts.Get(j.items[i].fields, "state") == Some(JString(cs[i].state))
      ensures Dicts.Get(j.items[i].fields, "npa") == Some(JString(cs[i].npa))
    {
      var f := j.items[i].fields;
      assert f == [("state", JString(cs[i].state)), ("npa", JString(cs[i].npa))];
      assert f[0].0 == "state" && f[1].0 == "npa";
      assert f[1..] == [("npa", JString(cs[i].npa))];
      assert Dicts.Get(f[1..], "npa") == Some(JString(cs[i].npa));
    }
    var r := AsCombos(j).value;
    assert r == NumberbarnScraper.Searches(cs);
  }

  /** The outcome of `run`: the extracted entries, or an error it lets escape. */
  datatype RunOutcome = Numbers(entries: seq<TollFree.Entry>) | Raised

  /** Extraction from a combinations value: nothing for a falsy value, otherwise every combination searched in turn. */
  function Crawl(combos: Json, site: string -> seq<NumberbarnScraper.Page>): RunOutcome {
    if !Truthy(combos) then Numbers([])
    else
      match AsCombos(combos)
      case Some(cs) => Numbers(NumberbarnScraper.CombosEntries(cs, |cs|, site))
      case None => Raised
  }

  /**
   * `run`: the file's combinations, or the API's when the file yields a
   * falsy value; `usedApi` says whether the API was asked.
   */
  method Run(file: CacheFile, now: int, response: Option<Json>, site: string -> seq<NumberbarnScraper.Page>)
    returns (out: RunOutcome, usedApi: bool)
    ensures usedApi <==> !Truthy(CombinationsFromFile(file, now))
    ensures !usedApi ==> out == Crawl(CombinationsFromFile(file, now), site)
    ensures usedApi ==> out == Crawl(CombosJson(ApiCombinations(response)), site)
  {
    var combinations := CombinationsFromFile(file, now);
    usedApi := !Truthy(combinations);
    if usedApi {
      var fromApi := GetCombinationsFromApi(response);
      combinations := CombosJson(fromApi);
    }
    if !Truthy(combinations) {
      return Numbers([]), usedApi;
    }
    var cs := AsCombos(combinations);
    if cs.None? {
      return Raised, usedApi;
    }
    var all, _ := NumberbarnScraper.ExtractFromCombinations(cs.value, site);
    out := Numbers(all);
  }

  /** When the API is asked, `run` never raises: it searches exactly the API's combinations, or returns nothing. */
  lemma ApiRunSearches(response: Option<Json>, site: string -> seq<NumberbarnScraper.Page>)
    ensures Crawl(CombosJson(ApiCombinations(response)), site) ==
            Numbers(NumberbarnScraper.CombosEntries(NumberbarnScraper.Searches(ApiCombinations(response)),
                                                    |ApiCombinations(response)|, site))
  {
    var cs := ApiCombinations(response);
    CombosRoundTrip(cs);
    CombosTruthy(cs);
    CrawlList(CombosJson(cs), NumberbarnScraper.Searches(cs), site);
  }

  /** The JSON list of some combinations is truthy exactly when there are some. */
  lemma CombosTruthy(cs: seq<NumberbarnScraper.Combo>)
    ensures Truthy(CombosJson(cs)) <==> cs != []
  {
    assert |CombosJson(cs).items| == |cs|;
  }

  /** A combinations value that reads as `cs`, and is truthy exactly when `cs` is not empty, is searched combination by combination. */
  lemma CrawlList(j: Json, cs: seq<NumberbarnScraper.Search>, site: string -> seq<NumberbarnScraper.Page>)
    requires AsCombos(j) == Some(cs) && (Truthy(j) <==> cs != [])
    ensures Crawl(j, site) == Numbers(NumberbarnScraper.CombosEntries(cs, |cs|, site))
  {
  }

  /**
   * Every entry a crawl returns carries the "state" and "npa" values of one
   * of the combinations exactly as the value holds them: an integer npa
   * stays an integer, a null state stays null.
   */
  lemma CrawlTagsRawValues(j: Json, site: string -> seq<NumberbarnScraper.Page>, e: TollFree.Entry)
    requires Crawl(j, site).Numbers? && e in Crawl(j, site).entries
    ensures j.JArray?
    ensures exists i :: 0 <= i < |j.items| && j.items[i].JObject? &&
                        Dicts.Get(e, "state") == Dicts.Get(j.items[i].fields, "state") &&
                        Dicts.Get(e, "npa") == Dicts.Get(j.items[i].fields, "npa")
  {
    var cs := AsCombos(j).value;
    NumberbarnScraper.CombosEntriesTagged(cs, |cs|, site, e);
    var i :| 0 <= i < |cs| && Dicts.Get(e, "state") == Some(cs[i].state) && Dicts.Get(e, "npa") == Some(cs[i].npa);
    assert ComboShaped(j.items[i]);
  }

  /** A file combination `{"state": "NY", "npa": 212}` is searched as `npa=212` and tags its entries with the integer 212. */
  lemma IntegerNpaKept(site: string -> seq<NumberbarnScraper.Page>, e: TollFree.Entry)
    requires var j := JArray([JObject([("state", JString("NY")), ("npa", JInt(212))])]);
             Crawl(j, site).Numbers? && e in Crawl(j, site).entries
    ensures Dicts.Get(e, "npa") == Some(JInt(212)) && Dicts.Get(e, "state") == Some(JString("NY"))
  {
    var j := JArray([JObject([("state", JString("NY")), ("npa", JInt(212))])]);
    var f := j.items[0].fields;
    assert f[1..] == [("npa", JInt(212))];
    assert Dicts.Get(f, "npa") == Some(JInt(212));
    assert Dicts.Get(f, "state") == Some(JString("NY"));
    CrawlTagsRawValues(j, site, e);
  }

  /** With neither a usable file nor API combinations, `run` returns the empty list. */
  lemma NothingToCrawl(file: CacheFile, now: int, response: Option<Json>, site: string -> seq<NumberbarnScraper.Page>)
    requires !Truthy(CombinationsFromFile(file, now)) && ApiCombinations(response) == []
    ensures Crawl(CombosJson(ApiCombinations(response)), site) == Numbers([])
  {
  }
}
