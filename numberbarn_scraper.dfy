/**
 * The local-number scraper of numberbarn.com
 * (numberbarntask/numberbarn_scraper.py): the state/NPA combinations are
 * read from a cached JSON file in one of three layouts and validated, each
 * combination's search results are walked page by page (at most ten pages),
 * and an extra pause is taken after every fifth combination. The file system
 * and the browser are oracles: the file is given as what reading it yields,
 * and a search URL as the pages reachable from it.
 */
module NumberbarnScraper {
  import opened Wrappers
  import opened Text
  import opened Json
  import Dicts
  import Seqs
  import TollFree

  /** A validated combination, the dict `{'state': ..., 'npa': ...}`. */
  datatype Combo = Combo(state: string, npa: string)

  /** What reading the JSON file yields: no file, an error while reading or parsing, or its content. */
  datatype Loaded = Missing | Unreadable | Parsed(data: Json)

  // ---------------------------------------------------------------------
  // get_all_state_npa_combinations

  /** The dict a grouped-by-state layout contributes for one NPA. */
  function ComboDict(state: string, npa: string): Json {
    JObject([("state", JString(state)), ("npa", JString(npa))])
  }

  /**
   * What one `state: npas` item of the grouped layout contributes: nothing
   * for the key "data", one dict per element of a list, otherwise one dict.
   */
  function GroupCandidates(state: string, npas: Json): (r: seq<Json>)
    ensures state == "data" ==> r == []
    ensures state != "data" && npas.JArray? ==>
              |r| == |npas.items| && forall j :: 0 <= j < |r| ==> r[j] == ComboDict(Upper(state), Str(npas.items[j]))
    ensures state != "data" && !npas.JArray? ==> r == [ComboDict(Upper(state), Str(npas))]
  {
    if state == "data" then []
    else if npas.JArray? then seq(|npas.items|, j requires 0 <= j < |npas.items| => ComboDict(Upper(state), Str(npas.items[j])))
    else [ComboDict(Upper(state), Str(npas))]
  }

  /** The candidates of the grouped layout, item after item. */
  function Grouped(fields: seq<(string, Json)>): seq<Json> {
    if fields == [] then []
    else
      var n := |fields| - 1;
      Grouped(fields[..n]) + GroupCandidates(fields[n].0, fields[n].1)
  }

  /**
   * The values `for item in v` visits: a list's elements, a dict's keys, a
   * string's characters; `None` where `len(v)` raises (the error is caught).
   */
  function Iterated(v: Json): (r: Option<seq<Json>>)
    ensures v.JArray? ==> r == Some(v.items)
    ensures r.None? <==> !(v.JArray? || v.JObject? || v.JString?)
    ensures r.Some? && !v.JArray? ==> forall j :: 0 <= j < |r.value| ==> r.value[j].JString?
  {
    match v
    case JArray(items) => Some(items)
    case JObject(fields) => Some(seq(|fields|, j requires 0 <= j < |fields| => JString(fields[j].0)))
    case JString(s) => Some(seq(|s|, j requires 0 <= j < |s| => JString([s[j]])))
    case _ => None
  }

  /**
   * The candidate list of a parsed file: a dict's "combinations" value, the
   * grouped layout of any other dict, a list itself; nothing for other values.
   */
  function Candidates(data: Json): Option<seq<Json>> {
    match data
    case JObject(fields) =>
      if Dicts.HasKey(fields, "combinations") then Iterated(Dicts.Get(fields, "combinations").value)
      else Some(Grouped(fields))
    case JArray(items) => Some(items)
    case _ => Some([])
  }

  /** The rule both item shapes share: state and NPA truthy and the NPA three characters long. */
  function Check(state: Json, npa: Json): (r: Option<Combo>)
    ensures r.Some? <==> Truthy(state) && Truthy(npa) && |Str(npa)| == 3
    ensures r.Some? ==> r.value.state != [] && IsUpperText(r.value.state) && |r.value.npa| == 3
  {
    if Truthy(state) && Truthy(npa) && |Str(npa)| == 3 then
      UpperIsUpper(Str(state));
      Some(Combo(Upper(Str(state)), Str(npa)))
    else None
  }

  /**
   * One candidate after validation: a dict reads "state" (else "stateCode")
   * and "npa" (else "areaCode"), a two-element list is `[state, npa]`, any
   * other value is dropped.
   */
  function Validate(item: Json): Option<Combo> {
    match item
    case JObject(_) =>
      Check(GetOr(item, "state", GetOr(item, "stateCode", JString(""))),
            GetOr(item, "npa", GetOr(item, "areaCode", JString(""))))
    case JArray(items) => if |items| == 2 then Check(items[0], items[1]) else None
    case _ => None
  }

  /** Every candidate validated, in order. */
  function Validated(cands: seq<Json>): (r: seq<Option<Combo>>)
    ensures |r| == |cands| && forall i :: 0 <= i < |cands| ==> r[i] == Validate(cands[i])
  {
    seq(|cands|, i requires 0 <= i < |cands| => Validate(cands[i]))
  }

  /** The combinations read from the file: none when it is missing or unreadable. */
  function StateNpaCombinations(file: Loaded): seq<Combo> {
    match file
    case Parsed(data) =>
      (match Candidates(data)
       case Some(cands) => Seqs.Present(Validated(cands))
       case None => [])
    case _ => []
  }

  /** `get_all_state_npa_combinations`: build the candidate list, then keep the valid ones. */
  method GetAllStateNpaCombinations(file: Loaded) returns (r: seq<Combo>)
    ensures r == StateNpaCombinations(file)
    ensures !file.Parsed? ==> r == []
  {
    if !file.Parsed? {
      return [];
    }
    var data := file.data;
    var combinations: seq<Json> := [];
    if data.JObject? {
      if Dicts.HasKey(data.fields, "combinations") {
        var it := Iterated(Dicts.Get(data.fields, "combinations").value);
        if it.None? {
          return [];
        }
        combinations := it.value;
      } else {
        var fields := data.fields;
        for i := 0 to |fields|
          invariant combinations == Grouped(fields[..i])
        {
          assert fields[..i + 1][..i] == fields[..i];
          combinations := AddGroup(combinations, fields[i].0, fields[i].1);
        }
        assert fields[..|fields|] == fields;
      }
    } else if data.JArray? {
      combinations := data.items;
    }
    assert Candidates(data) == Some(combinations);
    var valid: seq<Combo> := [];
    for i := 0 to |combinations|
      invariant valid == Seqs.Present(Validated(combinations)[..i])
    {
      Seqs.PresentPrefix(Validated(combinations), i);
      var v := Validate(combinations[i]);
      if v.Some? {
        valid := valid + [v.value];
      }
    }
    Seqs.PresentAll(Validated(combinations));
    return valid;
  }

  /** The grouped layout's inner step: append what one `state: npas` item contributes. */
  method AddGroup(cands: seq<Json>, state: string, npas: Json) returns (r: seq<Json>)
    ensures r == cands + GroupCandidates(state, npas)
  {
    r := cands;
    if state == "data" {
      return;
    }
    if npas.JArray? {
      var items := npas.items;
      for j := 0 to |items|
        invariant r == cands + GroupCandidates(state, npas)[..j]
      {
        assert GroupCandidates(state, npas)[..j + 1] == GroupCandidates(state, npas)[..j] + [ComboDict(Upper(state), Str(items[j]))];
        r := r + [ComboDict(Upper(state), Str(items[j]))];
      }
      assert GroupCandidates(state, npas)[..|items|] == GroupCandidates(state, npas);
    } else {
      r := r + [ComboDict(Upper(state), Str(npas))];
    }
  }

  /**
   * Every combination read has a non-empty upper-case state and a
   * three-character NPA.
   */
  lemma CombinationsWellFormed(file: Loaded, c: Combo)
    requires c in StateNpaCombinations(file)
    ensures c.state != [] && IsUpperText(c.state) && |c.npa| == 3
  {
    var cands := Candidates(file.data).value;
    var k :| 0 <= k < |StateNpaCombinations(file)| && StateNpaCombinations(file)[k] == c;
    Seqs.PresentSound(Validated(cands), k);
  }

  /**
   * A combination is read exactly when some candidate validates to it, and
   * no valid candidate is lost.
   */
  lemma CombinationsKept(data: Json, c: Combo)
    requires Candidates(data).Some?
    ensures c in StateNpaCombinations(Parsed(data)) <==>
            exists i :: 0 <= i < |Candidates(data).value| && Validate(Candidates(data).value[i]) == Some(c)
  {
    var cands := Candidates(data).value;
    var o := Validated(cands);
    if c in StateNpaCombinations(Parsed(data)) {
      var k :| 0 <= k < |Seqs.Present(o)| && Seqs.Present(o)[k] == c;
      Seqs.PresentSound(o, k);
    }
    if exists i :: 0 <= i < |cands| && Validate(cands[i]) == Some(c) {
      var i :| 0 <= i < |cands| && Validate(cands[i]) == Some(c);
      Seqs.PresentComplete(o, i);
    }
  }

  /** Validation keeps the candidates' order: two runs of candidates give their results one after the other. */
  lemma ValidatedAppend(a: seq<Json>, b: seq<Json>)
    ensures Seqs.Present(Validated(a + b)) == Seqs.Present(Validated(a)) + Seqs.Present(Validated(b))
    decreases |b|
  {
    var ab, va, vb := Validated(a + b), Validated(a), Validated(b);
    assert ab == va + vb by {
      forall i | 0 <= i < |ab|
        ensures ab[i] == (va + vb)[i]
      {
        if i < |a| {
          assert (a + b)[i] == a[i];
        } else {
          assert (a + b)[i] == b[i - |a|];
        }
      }
    }
    Seqs.PresentAppend(va, vb);
  }

  /**
   * In the grouped layout an NPA under state key `s` yields the combination
   * of the upper-cased key and the NPA's string exactly when the key is
   * non-empty and that string has three characters.
   */
  lemma ValidateGrouped(s: string, npa: Json)
    ensures Validate(ComboDict(Upper(s), Str(npa))) ==
            if s != [] && |Str(npa)| == 3 then Some(Combo(Upper(s), Str(npa))) else None
  {
    var d := ComboDict(Upper(s), Str(npa));
    assert Dicts.Get(d.fields, "state") == Some(JString(Upper(s)));
    assert d.fields[1..] == [("npa", JString(Str(npa)))];
    assert Dicts.Get(d.fields[1..], "npa") == Some(JString(Str(npa)));
    assert GetOr(d, "state", GetOr(d, "stateCode", JString(""))) == JString(Upper(s));
    assert GetOr(d, "npa", GetOr(d, "areaCode", JString(""))) == JString(Str(npa));
    assert Upper(Upper(s)) == Upper(s);
  }

  /** "state" is read even when falsy: "stateCode" is only a fallback for an absent key. */
  lemma FalsyStateWins()
    ensures Validate(JObject([("state", JString("")), ("stateCode", JString("NY")), ("npa", JString("212"))])) == None
  {
  }

  /** Without "state" and "npa" the fallbacks "stateCode" and "areaCode" are read, and an integer NPA becomes its string. */
  lemma FallbackOnlyWhenAbsent()
    ensures Validate(JObject([("stateCode", JString("ny")), ("areaCode", JInt(212))])) == Some(Combo("NY", "212"))
  {
    var d := JObject([("stateCode", JString("ny")), ("areaCode", JInt(212))]);
    assert GetOr(d, "state", GetOr(d, "stateCode", JString(""))) == JString("ny");
    assert GetOr(d, "npa", GetOr(d, "areaCode", JString(""))) == JInt(212);
    assert Str(JInt(212)) == "212" by {
      assert DecimalString(212) == "212";
    }
    assert Upper("ny") == "NY";
  }

  /** Two-element lists are `[state, npa]`; lists of any other length are dropped. */
  lemma ListCandidates()
    ensures Validate(JArray([JString("ca"), JString("415")])) == Some(Combo("CA", "415"))
    ensures Validate(JArray([JString("ca"), JString("4150")])) == None
    ensures Validate(JArray([JString("ca"), JString("415"), JString("x")])) == None
  {
    assert Upper("ca") == "CA";
  }

  // ---------------------------------------------------------------------
  // extract_numbers_from_url and extract_from_combinations

  /** One results page: the URL the browser shows and the entries read from it. */
  datatype Page = Page(url: string, entries: seq<TollFree.Entry>)

  /** `max_pages`: the page walk never goes past this page. */
  const MaxPages: nat := 10

  /**
   * One search of `extract_from_combinations`: the values of `combo['state']`
   * and `combo['npa']` as they are, which every entry is tagged with
   * unchanged, and the URL the f-string builds from them.
   */
  datatype Search = Search(state: Json, npa: Json, url: string)

  /** The search URL up to the state, and after the NPA. */
  const LocalSearchBase: string := "https://www.numberbarn.com/search?type=local&state="
  const LocalSearchTail: string := "&moreResults=true&sort=price%2B&limit=24"

  /** The search URL for a state and an NPA as the f-string shows them. */
  function LocalSearchUrl(state: string, npa: string): string {
    LocalSearchBase + state + "&npa=" + npa + LocalSearchTail
  }

  /** The search for a combination's two values; the URL shows them with `str()`. */
  function SearchFor(state: Json, npa: Json): Search {
    Search(state, npa, LocalSearchUrl(Str(state), Str(npa)))
  }

  /** The search of a validated combination: its two strings, shown as they are in the URL. */
  function SearchOf(c: Combo): (r: Search)
    ensures r.state == JString(c.state) && r.npa == JString(c.npa)
    ensures r.url == LocalSearchUrl(c.state, c.npa)
  {
    SearchFor(JString(c.state), JString(c.npa))
  }

  /** The searches of validated combinations, in order. */
  function Searches(cs: seq<Combo>): (r: seq<Search>)
    ensures |r| == |cs| && forall i :: 0 <= i < |cs| ==> r[i] == SearchOf(cs[i])
  {
    seq(|cs|, i requires 0 <= i < |cs| => SearchOf(cs[i]))
  }

  /** `number.update({'state': state, 'npa': npa, 'page': page, 'source_url': url})`. */
  function Tag(e: TollFree.Entry, state: Json, npa: Json, page: nat, url: string): TollFree.Entry {
    Dicts.Set(Dicts.Set(Dicts.Set(Dicts.Set(e, "state", state), "npa", npa), "page", JInt(page)), "source_url", JString(url))
  }

  /** A tagged entry carries the state and the NPA as given, the page number and the page URL. */
  lemma TagFields(e: TollFree.Entry, state: Json, npa: Json, page: nat, url: string)
    ensures Dicts.Get(Tag(e, state, npa, page, url), "state") == Some(state)
    ensures Dicts.Get(Tag(e, state, npa, page, url), "npa") == Some(npa)
    ensures Dicts.Get(Tag(e, state, npa, page, url), "page") == Some(JInt(page))
    ensures Dicts.Get(Tag(e, state, npa, page, url), "source_url") == Some(JString(url))
  {
    TagGet(e, state, npa, page, url, "state");
    TagGet(e, state, npa, page, url, "npa");
    TagGet(e, state, npa, page, url, "page");
    TagGet(e, state, npa, page, url, "source_url");
  }

  /** A tagged entry holds the four new values and whatever else it held. */
  lemma TagGet(e: TollFree.Entry, state: Json, npa: Json, page: nat, url: string, k: string)
    ensures Dicts.Get(Tag(e, state, npa, page, url), k) ==
            if k == "source_url" then Some(JString(url)) else if k == "page" then Some(JInt(page))
            else if k == "npa" then Some(npa) else if k == "state" then Some(state) else Dicts.Get(e, k)
  {
    var a := Dicts.Set(e, "state", state);
    var b := Dicts.Set(a, "npa", npa);
    var c := Dicts.Set(b, "page", JInt(page));
    Dicts.SetGet(e, "state", state, k);
    Dicts.SetGet(a, "npa", npa, k);
    Dicts.SetGet(b, "page", JInt(page), k);
    Dicts.SetGet(c, "source_url", JString(url), k);
  }

  /** The entries of page number `page` (counted from 1), tagged. */
  function PageEntries(p: Page, state: Json, npa: Json, page: nat): (r: seq<TollFree.Entry>)
    ensures |r| == |p.entries| && forall j :: 0 <= j < |r| ==> r[j] == Tag(p.entries[j], state, npa, page, p.url)
  {
    seq(|p.entries|, j requires 0 <= j < |p.entries| => Tag(p.entries[j], state, npa, page, p.url))
  }

  /** The tagged entries of the first `k` pages, in page order. */
  function Walked(pages: seq<Page>, state: Json, npa: Json, k: nat): seq<TollFree.Entry>
    requires k <= |pages|
  {
    if k == 0 then [] else Walked(pages, state, npa, k - 1) + PageEntries(pages[k - 1], state, npa, k)
  }

  /** How many pages the walk reads: all reachable ones, but at most `MaxPages`. */
  function PagesRead(available: nat): (r: nat)
    ensures r <= available && r <= MaxPages
    ensures r == available || r == MaxPages
  {
    if available < MaxPages then available else MaxPages
  }

  /**
   * `extract_numbers_from_url`: `pages` are the pages reachable from the
   * search URL by the next button (none when the URL cannot be opened).
   * Returns the tagged entries and the final `page_number`, which is one
   * past the last page read when the walk stops at the page bound.
   */
  method ExtractNumbersFromUrl(pages: seq<Page>, state: Json, npa: Json) returns (all: seq<TollFree.Entry>, pageNumber: nat)
    ensures all == Walked(pages, state, npa, PagesRead(|pages|))
    ensures pages != [] ==> pageNumber == if |pages| > MaxPages then MaxPages + 1 else |pages|
  {
    all := [];
    pageNumber := 1;
    if pages == [] {
      return;
    }
    while pageNumber <= MaxPages
      invariant 1 <= pageNumber <= |pages| && pageNumber <= MaxPages + 1
      invariant all == Walked(pages, state, npa, pageNumber - 1)
      decreases MaxPages + 1 - pageNumber
    {
      all := all + PageEntries(pages[pageNumber - 1], state, npa, pageNumber);
      if pageNumber < |pages| {
        pageNumber := pageNumber + 1;
      } else {
        break;
      }
    }
  }

  /** Every entry of a walk carries the combination and a page number between 1 and `MaxPages`. */
  lemma {:induction false} WalkedTagged(pages: seq<Page>, state: Json, npa: Json, k: nat, e: TollFree.Entry)
    requires k <= |pages| && k <= MaxPages && e in Walked(pages, state, npa, k)
    ensures Dicts.Get(e, "state") == Some(state) && Dicts.Get(e, "npa") == Some(npa)
    ensures exists p :: 1 <= p <= MaxPages && Dicts.Get(e, "page") == Some(JInt(p))
  {
    if e in Walked(pages, state, npa, k - 1) {
      WalkedTagged(pages, state, npa, k - 1, e);
    } else {
      var es := PageEntries(pages[k - 1], state, npa, k);
      var j :| 0 <= j < |es| && es[j] == e;
      TagFields(pages[k - 1].entries[j], state, npa, k, pages[k - 1].url);
    }
  }

  /** The entries the walk of one search yields; `site` gives the pages reachable from a URL. */
  function ComboEntries(c: Search, site: string -> seq<Page>): seq<TollFree.Entry> {
    var pages := site(c.url);
    Walked(pages, c.state, c.npa, PagesRead(|pages|))
  }

  /** The entries of the first `k` combinations, in order. */
  function CombosEntries(combos: seq<Search>, k: nat, site: string -> seq<Page>): seq<TollFree.Entry>
    requires k <= |combos|
  {
    if k == 0 then [] else CombosEntries(combos, k - 1, site) + ComboEntries(combos[k - 1], site)
  }

  /**
   * `extract_from_combinations`: walk each combination's search URL in
   * turn; `pauses` lists the indices after which the extra pause is taken.
   */
  method ExtractFromCombinations(combos: seq<Search>, site: string -> seq<Page>) returns (all: seq<TollFree.Entry>, pauses: seq<nat>)
    ensures all == CombosEntries(combos, |combos|, site)
    ensures pauses == TollFree.PauseAfter(|combos|)
  {
    all, pauses := [], [];
    for i := 0 to |combos|
      invariant all == CombosEntries(combos, i, site)
      invariant pauses == TollFree.PauseAfter(i)
    {
      var numbers, _ := ExtractNumbersFromUrl(site(combos[i].url), combos[i].state, combos[i].npa);
      all := all + numbers;
      if i % 5 == 4 {
        pauses := pauses + [i];
      }
    }
  }

  /** Every entry collected carries the state and NPA of one of the combinations, and a page number within the bound. */
  lemma {:induction false} CombosEntriesTagged(combos: seq<Search>, k: nat, site: string -> seq<Page>, e: TollFree.Entry)
    requires k <= |combos| && e in CombosEntries(combos, k, site)
    ensures exists i :: 0 <= i < k && Dicts.Get(e, "state") == Some(combos[i].state)
                                    && Dicts.Get(e, "npa") == Some(combos[i].npa)
    ensures exists p :: 1 <= p <= MaxPages && Dicts.Get(e, "page") == Some(JInt(p))
  {
    if e in CombosEntries(combos, k - 1, site) {
      CombosEntriesTagged(combos, k - 1, site, e);
    } else {
      var c := combos[k - 1];
      var pages := site(c.url);
      WalkedTagged(pages, c.state, c.npa, PagesRead(|pages|), e);
    }
  }
}
