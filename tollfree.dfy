/**
 * The toll-free scraper of numberbarn.com
 * (numberbarntask/numberbarn_tollfree_scraper.py): extracted entries are
 * saved into the `numbers` collection one at a time (insert, update or
 * skip by phone), every page's HTML is upserted into `page_html`, the page
 * walk stops at `max_pages`, and `run` falls back to the default toll-free
 * NPAs. The browser is an oracle: the pages reachable from a search URL
 * are given, each with its URL, HTML, extracted entries, the clock reading
 * taken while it is processed and the writes that raise.
 */
module TollFree {
  import opened Wrappers
  import opened Text
  import opened Json
  import Dicts
  import Seqs

  /** An extracted entry: a dict such as `{"number": ..., "price": ...}`. */
  type Entry = seq<(string, Json)>

  /** A stored document without its `_id`; `crawled_at` holds the clock reading. */
  type Doc = map<string, Json>

  // ---------------------------------------------------------------------
  // save_numbers_to_mongodb

  /** `number_data.get(key, default)`. */
  function Field(e: Entry, key: string, default: Json): Json {
    Dicts.Get(e, key).GetOr(default)
  }

  /** `number_data.get("number") or number_data.get("phone", "")`. */
  function PhoneOf(e: Entry): Json {
    var n := Field(e, "number", JNull);
    if Truthy(n) then n else Field(e, "phone", JString(""))
  }

  /** `number_data.get("price", "")`. */
  function PriceOf(e: Entry): Json {
    Field(e, "price", JString(""))
  }

  /** `existing.get("price")`. */
  function StoredPrice(d: Doc): Json {
    if "price" in d then d["price"] else JNull
  }

  /** The fields an insert or an update writes, the phone aside. */
  function Written(e: Entry, now: int): (w: Doc)
    ensures "phone" !in w && "price" in w && w["price"] == PriceOf(e)
    ensures TollFreeDoc(w) && "crawled_at" in w && w["crawled_at"] == JInt(now)
  {
    map["price" := PriceOf(e), "npa" := Field(e, "npa", JString("")), "page" := Field(e, "page", JInt(1)),
        "source_url" := Field(e, "source_url", JString("")), "source" := JString("numberbarn"),
        "type" := JString("tollfree"), "crawled_at" := JInt(now)]
  }

  /** A document marked as a toll-free number from numberbarn. */
  predicate TollFreeDoc(d: Doc) {
    && "source" in d && d["source"] == JString("numberbarn")
    && "type" in d && d["type"] == JString("tollfree")
  }

  /** What happens to one entry; a write that raises is reported and counted nowhere. */
  datatype Effect = NoPhone | Inserted | Updated | Skipped | WriteFailed

  /** The effect of an entry on the collection as it stands when the entry's turn comes. */
  function EffectOf(coll: map<Json, Doc>, e: Entry, fails: bool): Effect {
    var phone := PhoneOf(e);
    if !Truthy(phone) then NoPhone
    else if phone !in coll then (if fails then WriteFailed else Inserted)
    else if StoredPrice(coll[phone]) != PriceOf(e) then (if fails then WriteFailed else Updated)
    else Skipped
  }

  /** The collection after one entry: an insert adds the whole document, an update `$set`s the written fields. */
  function SaveEntry(coll: map<Json, Doc>, e: Entry, fails: bool, now: int): map<Json, Doc> {
    var phone := PhoneOf(e);
    match EffectOf(coll, e, fails)
    case Inserted => coll[phone := Written(e, now)["phone" := phone]]
    case Updated => coll[phone := coll[phone] + Written(e, now)]
    case _ => coll
  }

  /** The collection after the entries, each judged against the collection left by the ones before it. */
  function SaveAll(coll: map<Json, Doc>, entries: seq<Entry>, failing: set<nat>, now: int): map<Json, Doc> {
    if entries == [] then coll
    else
      var n := |entries| - 1;
      SaveEntry(SaveAll(coll, entries[..n], failing, now), entries[n], n in failing, now)
  }

  /** The effect of each entry, in order. */
  function Effects(coll: map<Json, Doc>, entries: seq<Entry>, failing: set<nat>, now: int): (r: seq<Effect>)
    ensures |r| == |entries|
  {
    if entries == [] then []
    else
      var n := |entries| - 1;
      Effects(coll, entries[..n], failing, now) + [EffectOf(SaveAll(coll, entries[..n], failing, now), entries[n], n in failing)]
  }

  /** How many of the effects are `x`. */
  function Count(effects: seq<Effect>, x: Effect): nat {
    multiset(effects)[x]
  }

  /** The number of entries that carry a phone. */
  function WithPhone(entries: seq<Entry>): (r: nat)
    ensures r <= |entries|
  {
    if entries == [] then 0
    else
      var n := |entries| - 1;
      WithPhone(entries[..n]) + if Truthy(PhoneOf(entries[n])) then 1 else 0
  }

  /** The phones the entries carry. */
  function PhoneSet(entries: seq<Entry>): set<Json> {
    if entries == [] then {}
    else
      var n := |entries| - 1;
      PhoneSet(entries[..n]) + if Truthy(PhoneOf(entries[n])) then {PhoneOf(entries[n])} else {}
  }

  /** The price of the last entry with phone `p`. */
  function LastPrice(entries: seq<Entry>, p: Json): Option<Json> {
    if entries == [] then None
    else
      var n := |entries| - 1;
      if Truthy(PhoneOf(entries[n])) && PhoneOf(entries[n]) == p then Some(PriceOf(entries[n]))
      else LastPrice(entries[..n], p)
  }

  /** Every document is stored under the phone it records. */
  predicate PhoneKeyed(coll: map<Json, Doc>) {
    forall p :: p in coll ==> "phone" in coll[p] && coll[p]["phone"] == p
  }

  /** The state after one more entry. */
  lemma SaveStep(coll: map<Json, Doc>, entries: seq<Entry>, i: nat, failing: set<nat>, now: int)
    requires i < |entries|
    ensures SaveAll(coll, entries[..i + 1], failing, now) ==
            SaveEntry(SaveAll(coll, entries[..i], failing, now), entries[i], i in failing, now)
    ensures Effects(coll, entries[..i + 1], failing, now) ==
            Effects(coll, entries[..i], failing, now) + [EffectOf(SaveAll(coll, entries[..i], failing, now), entries[i], i in failing)]
  {
    Seqs.PrefixPrefix(entries, i, i + 1);
  }

  /**
   * Each entry without a phone has no effect, the others are inserted,
   * updated, skipped or fail to write; only an entry whose write raises
   * fails.
   */
  lemma {:induction false} EffectsAt(coll: map<Json, Doc>, entries: seq<Entry>, failing: set<nat>, now: int, i: nat)
    requires i < |entries|
    ensures Effects(coll, entries, failing, now)[i] == NoPhone <==> !Truthy(PhoneOf(entries[i]))
    ensures Effects(coll, entries, failing, now)[i] == WriteFailed ==> i in failing
  {
    var n := |entries| - 1;
    if i < n {
      EffectsAt(coll, entries[..n], failing, now, i);
    }
  }

  /**
   * The counters add up: inserted + updated + skipped, with the failed
   * writes, is the number of entries that carry a phone; without failed
   * writes there are none of the latter.
   */
  lemma {:induction false} SaveCounts(coll: map<Json, Doc>, entries: seq<Entry>, failing: set<nat>, now: int)
    ensures var effs := Effects(coll, entries, failing, now);
      Count(effs, Inserted) + Count(effs, Updated) + Count(effs, Skipped) + Count(effs, WriteFailed) == WithPhone(entries)
    ensures failing == {} ==> Count(Effects(coll, entries, failing, now), WriteFailed) == 0
  {
    var effs := Effects(coll, entries, failing, now);
    forall i | 0 <= i < |entries|
      ensures (effs[i] == NoPhone <==> !Truthy(PhoneOf(entries[i]))) && (effs[i] == WriteFailed ==> i in failing)
    {
      EffectsAt(coll, entries, failing, now, i);
    }
    NoPhoneCount(effs, entries);
    CountAll(effs);
    if failing == {} {
      assert WriteFailed !in effs;
    }
  }

  /** The effects split into the five kinds. */
  lemma {:induction false} CountAll(effs: seq<Effect>)
    ensures Count(effs, Inserted) + Count(effs, Updated) + Count(effs, Skipped) + Count(effs, WriteFailed)
            + Count(effs, NoPhone) == |effs|
  {
    if effs != [] {
      var n := |effs| - 1;
      CountAll(effs[..n]);
      assert effs == effs[..n] + [effs[n]];
      assert multiset(effs) == multiset(effs[..n]) + multiset{effs[n]};
      match effs[n]
      case Inserted =>
      case Updated =>
      case Skipped =>
      case WriteFailed =>
      case NoPhone =>
    }
  }

  /** The entries without a phone are exactly the ones with no effect. */
  lemma {:induction false} NoPhoneCount(effs: seq<Effect>, entries: seq<Entry>)
    requires |effs| == |entries|
    requires forall i :: 0 <= i < |entries| ==> (effs[i] == NoPhone <==> !Truthy(PhoneOf(entries[i])))
    ensures Count(effs, NoPhone) + WithPhone(entries) == |entries|
  {
    if effs != [] {
      var n := |effs| - 1;
      NoPhoneCount(effs[..n], entries[..n]);
      assert effs == effs[..n] + [effs[n]];
      assert multiset(effs) == multiset(effs[..n]) + multiset{effs[n]};
    }
  }

  /** Documents of phones no entry carries are left alone; no document is removed. */
  lemma {:induction false} SaveKeepsOthers(coll: map<Json, Doc>, entries: seq<Entry>, failing: set<nat>, now: int, p: Json)
    ensures p in coll ==> p in SaveAll(coll, entries, failing, now)
    ensures p !in PhoneSet(entries) ==>
              (p in SaveAll(coll, entries, failing, now) <==> p in coll) &&
              (p in coll ==> SaveAll(coll, entries, failing, now)[p] == coll[p])
  {
    if entries != [] {
      var n := |entries| - 1;
      SaveKeepsOthers(coll, entries[..n], failing, now, p);
    }
  }

  /** Without failed writes, every phone the entries carry ends up stored. */
  lemma {:induction false} SaveKeys(coll: map<Json, Doc>, entries: seq<Entry>, now: int)
    ensures SaveAll(coll, entries, {}, now).Keys == coll.Keys + PhoneSet(entries)
  {
    if entries != [] {
      var n := |entries| - 1;
      SaveKeys(coll, entries[..n], now);
    }
  }

  /** Without failed writes, each phone's stored price is the price of its last entry. */
  lemma {:induction false} SaveLastPrice(coll: map<Json, Doc>, entries: seq<Entry>, now: int, p: Json)
    requires p in PhoneSet(entries)
    ensures p in SaveAll(coll, entries, {}, now)
    ensures LastPrice(entries, p).Some? && StoredPrice(SaveAll(coll, entries, {}, now)[p]) == LastPrice(entries, p).value
  {
    var n := |entries| - 1;
    SaveKeys(coll, entries, now);
    var e := entries[n];
    if !(Truthy(PhoneOf(e)) && PhoneOf(e) == p) {
      SaveLastPrice(coll, entries[..n], now, p);
    }
  }

  /** Every document stays stored under the phone it records. */
  lemma {:induction false} SaveKeepsKeyed(coll: map<Json, Doc>, entries: seq<Entry>, failing: set<nat>, now: int)
    requires PhoneKeyed(coll)
    ensures PhoneKeyed(SaveAll(coll, entries, failing, now))
  {
    if entries != [] {
      var n := |entries| - 1;
      SaveKeepsKeyed(coll, entries[..n], failing, now);
    }
  }

  /** A phone new to the collection is stored as a toll-free number from numberbarn, whatever follows it. */
  lemma {:induction false} NewPhoneIsTollFree(coll: map<Json, Doc>, entries: seq<Entry>, failing: set<nat>, now: int, p: Json)
    requires p !in coll && p in SaveAll(coll, entries, failing, now)
    ensures TollFreeDoc(SaveAll(coll, entries, failing, now)[p])
  {
    var n := |entries| - 1;
    var before := SaveAll(coll, entries[..n], failing, now);
    if p in before {
      NewPhoneIsTollFree(coll, entries[..n], failing, now, p);
    }
    SaveEntryTollFree(before, entries[n], n in failing, now, p);
  }

  /** One entry keeps a toll-free document toll-free, and a document it creates is one. */
  lemma SaveEntryTollFree(coll: map<Json, Doc>, e: Entry, fails: bool, now: int, p: Json)
    requires p in SaveEntry(coll, e, fails, now)
    requires p in coll ==> TollFreeDoc(coll[p])
    ensures TollFreeDoc(SaveEntry(coll, e, fails, now)[p])
  {
  }

  /** A phone repeated in one batch meets its own earlier insert: the second entry is skipped. */
  lemma RepeatSeesInsert(coll: map<Json, Doc>, e: Entry, now: int)
    requires Truthy(PhoneOf(e)) && PhoneOf(e) !in coll
    ensures Effects(coll, [e, e], {}, now) == [Inserted, Skipped]
  {
    assert [e, e][..1] == [e];
    assert [e][..0] == [];
  }

  // ---------------------------------------------------------------------
  // _save_html_snapshot

  /** A `page_html` document of source "numberbarn"; one found without `created_at` keeps none. */
  datatype Snapshot = Snapshot(html: string, meta: Json, fetchedAt: int, updatedAt: int, createdAt: Option<int>)

  /** `meta or {}`. */
  function MetaOr(meta: Json): Json {
    if Truthy(meta) then meta else JObject([])
  }

  /** The upsert keyed by (source "numberbarn", url): `$set` the page, `$setOnInsert` the creation time. */
  function Snapshotted(snaps: map<string, Snapshot>, url: string, html: string, meta: Json, now: int): map<string, Snapshot> {
    var created := if url in snaps then snaps[url].createdAt else Some(now);
    snaps[url := Snapshot(html, MetaOr(meta), now, now, created)]
  }

  /**
   * After two snapshots of one URL the page is the later one, both times
   * are the later call's, and the creation time is the first insert's.
   */
  lemma SnapshotKeepsCreated(snaps: map<string, Snapshot>, url: string, h1: string, m1: Json, t1: int,
                             h2: string, m2: Json, t2: int)
    ensures var s := Snapshotted(Snapshotted(snaps, url, h1, m1, t1), url, h2, m2, t2);
      && s[url].html == h2 && s[url].fetchedAt == t2 && s[url].updatedAt == t2
      && s[url].createdAt == (if url in snaps then snaps[url].createdAt else Some(t1))
      && s.Keys == snaps.Keys + {url}
  {
  }

  /** A snapshot touches no other URL. */
  lemma SnapshotKeepsOthers(snaps: map<string, Snapshot>, url: string, html: string, meta: Json, now: int, u: string)
    requires u != url
    ensures (u in Snapshotted(snaps, url, html, meta, now) <==> u in snaps)
    ensures u in snaps ==> Snapshotted(snaps, url, html, meta, now)[u] == snaps[u]
  {
  }

  // ---------------------------------------------------------------------
  // extract_numbers_from_url, extract_from_npas and run

  /** One page reached from a search URL, with what the browser and the clock give while it is processed. */
  datatype PageData = PageData(url: string, html: string, entries: seq<Entry>, now: int,
                               failing: set<nat>, snapshotFails: bool)

  /** `number.update({"npa": npa, "page": page, "source_url": url})`. */
  function Tag(e: Entry, npa: string, page: nat, url: string): Entry {
    Dicts.Set(Dicts.Set(Dicts.Set(e, "npa", JString(npa)), "page", JInt(page)), "source_url", JString(url))
  }

  /** A page's entries, tagged with the NPA, the page number and the page URL. */
  function TagPage(entries: seq<Entry>, npa: string, page: nat, url: string): (r: seq<Entry>)
    ensures |r| == |entries| && forall i :: 0 <= i < |entries| ==> r[i] == Tag(entries[i], npa, page, url)
  {
    seq(|entries|, i requires 0 <= i < |entries| => Tag(entries[i], npa, page, url))
  }

  /** A tagged entry holds the three new values and whatever else it held. */
  lemma TagGet(e: Entry, npa: string, page: nat, url: string, k: string)
    ensures Dicts.Get(Tag(e, npa, page, url), k) ==
            if k == "source_url" then Some(JString(url)) else if k == "page" then Some(JInt(page))
            else if k == "npa" then Some(JString(npa)) else Dicts.Get(e, k)
  {
    var a := Dicts.Set(e, "npa", JString(npa));
    var b := Dicts.Set(a, "page", JInt(page));
    Dicts.SetGet(e, "npa", JString(npa), k);
    Dicts.SetGet(a, "page", JInt(page), k);
    Dicts.SetGet(b, "source_url", JString(url), k);
  }

  /** A tagged entry carries the NPA, the page number and the page URL, and keeps its number and price. */
  lemma TagFields(e: Entry, npa: string, page: nat, url: string)
    ensures Dicts.Get(Tag(e, npa, page, url), "npa") == Some(JString(npa))
    ensures Dicts.Get(Tag(e, npa, page, url), "page") == Some(JInt(page))
    ensures Dicts.Get(Tag(e, npa, page, url), "source_url") == Some(JString(url))
    ensures PhoneOf(Tag(e, npa, page, url)) == PhoneOf(e) && PriceOf(Tag(e, npa, page, url)) == PriceOf(e)
  {
    TagGet(e, npa, page, url, "npa");
    TagGet(e, npa, page, url, "page");
    TagGet(e, npa, page, url, "source_url");
    TagGet(e, npa, page, url, "number");
    TagGet(e, npa, page, url, "phone");
    TagGet(e, npa, page, url, "price");
  }

  /**
   * How many pages the walk processes: none when the search URL cannot be
   * opened, otherwise page after page while a next button is found, but
   * never past `max_pages` (the first page is always processed).
   */
  function PagesVisited(available: nat, maxPages: Option<int>): nat {
    if available == 0 then 0
    else
      match maxPages
      case None => available
      case Some(m) => if m <= 1 then 1 else if m < available then m else available
  }

  /** The walk stops at `max_pages`, and otherwise runs out of next buttons. */
  lemma PagesVisitedBounds(available: nat, maxPages: Option<int>)
    ensures PagesVisited(available, maxPages) <= available
    ensures available > 0 ==> PagesVisited(available, maxPages) >= 1
    ensures maxPages.Some? && maxPages.value >= 1 ==> PagesVisited(available, maxPages) <= maxPages.value
    ensures maxPages.None? ==> PagesVisited(available, maxPages) == available
  {
  }

  /** The entries collected from the first `k` pages. */
  function Collected(pages: seq<PageData>, npa: string, k: nat): seq<Entry>
    requires k <= |pages|
  {
    if k == 0 then []
    else Collected(pages, npa, k - 1) + TagPage(pages[k - 1].entries, npa, k, pages[k - 1].url)
  }

  /** The `page_html` snapshot meta of a page. */
  function PageMeta(npa: string, page: nat): Json {
    JObject([("npa", JString(npa)), ("page", JInt(page))])
  }

  /** `numbers` after the first `k` pages; a page without entries saves nothing. */
  function NumbersAfter(coll: map<Json, Doc>, pages: seq<PageData>, npa: string, k: nat, hasClient: bool): map<Json, Doc>
    requires k <= |pages|
  {
    if k == 0 then coll
    else
      var before := NumbersAfter(coll, pages, npa, k - 1, hasClient);
      var page := pages[k - 1];
      var current := TagPage(page.entries, npa, k, page.url);
      if hasClient && current != [] then SaveAll(before, current, page.failing, page.now) else before
  }

  /** `page_html` after the first `k` pages. */
  function SnapshotsAfter(snaps: map<string, Snapshot>, pages: seq<PageData>, npa: string, k: nat, hasHtml: bool): map<string, Snapshot>
    requires k <= |pages|
  {
    if k == 0 then snaps
    else
      var before := SnapshotsAfter(snaps, pages, npa, k - 1, hasHtml);
      var page := pages[k - 1];
      if hasHtml && page.url != [] && page.html != [] && !page.snapshotFails
      then Snapshotted(before, page.url, page.html, PageMeta(npa, k), page.now)
      else before
  }

  /** Every collected entry carries the NPA and the number of a processed page. */
  lemma {:induction false} CollectedTagged(pages: seq<PageData>, npa: string, k: nat, i: nat)
    requires k <= |pages| && i < |Collected(pages, npa, k)|
    ensures Dicts.Get(Collected(pages, npa, k)[i], "npa") == Some(JString(npa))
    ensures exists page: nat :: 1 <= page <= k && Dicts.Get(Collected(pages, npa, k)[i], "page") == Some(JInt(page))
  {
    var before := Collected(pages, npa, k - 1);
    if i < |before| {
      CollectedTagged(pages, npa, k - 1, i);
    } else {
      var j := i - |before|;
      var e := pages[k - 1].entries[j];
      assert Collected(pages, npa, k)[i] == Tag(e, npa, k, pages[k - 1].url);
      TagFields(e, npa, k, pages[k - 1].url);
    }
  }

  /** The toll-free NPAs searched by default. */
  const TollFreeNpas: seq<string> := ["800", "888", "877", "866", "855", "844", "833"]

  /** Entries per search page by default. */
  const DefaultLimit := 24

  /** `npas or TOLL_FREE_NPAS`. */
  function NpasOrDefault(npas: Option<seq<string>>): seq<string> {
    if npas.Some? && npas.value != [] then npas.value else TollFreeNpas
  }

  /** A missing or empty NPA list means the default list; any other list is used as given. */
  lemma NpasOrDefaultChoice(npas: Option<seq<string>>)
    ensures NpasOrDefault(npas) != []
    ensures npas.Some? && npas.value != [] ==> NpasOrDefault(npas) == npas.value
    ensures npas.None? || npas.value == [] ==> NpasOrDefault(npas) == TollFreeNpas
    ensures npas.None? ==> |NpasOrDefault(npas)| == 7
  {
  }

  /** The parameters of a search URL, the address with its first parameter leading. */
  function SearchParams(npa: string, limit: int): seq<string> {
    ["https://www.numberbarn.com/search?type=tollfree", "npa=" + npa, "moreResults=true", "sort=price%2B",
     "limit=" + IntString(limit)]
  }

  /** The search URL of one toll-free NPA. */
  function SearchUrl(npa: string, limit: int): string {
    var ps := SearchParams(npa, limit);
    ps[0] + "&" + (ps[1] + "&" + (ps[2] + "&" + (ps[3] + "&" + ps[4])))
  }

  /** Joining pieces free of the separator and splitting again gives the pieces back. */
  lemma {:induction false} SplitJoin(parts: seq<string>, sep: char)
    requires parts != [] && forall i :: 0 <= i < |parts| ==> sep !in parts[i]
    ensures Split(Join(parts, [sep]), sep) == parts
  {
    if |parts| == 1 {
      SplitWithoutSeparator(parts[0], sep);
    } else {
      SplitJoin(parts[1..], sep);
      SplitWithoutSeparator(parts[0], sep);
      SplitAtSeparator(parts[0], sep, Join(parts[1..], [sep]));
    }
  }

  lemma IntStringNoAmpersand(i: int)
    ensures '&' !in IntString(i)
  {
    var d := DecimalString(if i < 0 then -i else i);
    assert forall k :: 0 <= k < |d| ==> d[k] != '&';
  }

  lemma NoAmpersand(s: string)
    requires s == "moreResults=true" || s == "sort=price%2B"
    ensures '&' !in s
  {
  }

  /**
   * The query of a search URL: after the address and its first parameter
   * come the NPA, "moreResults", the sort and the limit, in that order,
   * when the NPA holds no '&'.
   */
  lemma SearchUrlQuery(npa: string, limit: int)
    requires '&' !in npa
    ensures Split(SearchUrl(npa, limit), '&') ==
            Split("https://www.numberbarn.com/search?type=tollfree", '&') +
            ["npa=" + npa, "moreResults=true", "sort=price%2B", "limit=" + IntString(limit)]
  {
    IntStringNoAmpersand(limit);
    var ps := SearchParams(npa, limit);
    SearchUrlJoin(npa, limit);
    NoAmpersand(ps[2]);
    NoAmpersand(ps[3]);
    assert '&' !in ps[1] && '&' !in ps[4];
    SplitJoin(ps[1..], '&');
    SplitAtSeparator(ps[0], '&', Join(ps[1..], "&"));
  }

  /** The search URL is its parameters joined by `&`. */
  lemma SearchUrlJoin(npa: string, limit: int)
    ensures SearchUrl(npa, limit) == Join(SearchParams(npa, limit), "&")
  {
    var ps := SearchParams(npa, limit);
    assert Join(ps[3..], "&") == ps[3] + "&" + ps[4];
    assert Join(ps[2..], "&") == ps[2] + "&" + (ps[3] + "&" + ps[4]);
    assert Join(ps[1..], "&") == ps[1] + "&" + (ps[2] + "&" + (ps[3] + "&" + ps[4]));
  }

  /** The NPA indices after which the extra pause is taken: every fifth. */
  function PauseAfter(n: nat): (r: seq<nat>)
    ensures forall k: nat :: k in r <==> k < n && k % 5 == 4
  {
    if n == 0 then [] else PauseAfter(n - 1) + if (n - 1) % 5 == 4 then [n - 1] else []
  }

  /** The entries one NPA's search yields, its reachable pages given by `site`. */
  function NpaEntries(npa: string, limit: int, site: string -> seq<PageData>, maxPages: Option<int>): seq<Entry> {
    var pages := site(SearchUrl(npa, limit));
    Collected(pages, npa, PagesVisited(|pages|, maxPages))
  }

  /** The entries of the first `k` NPAs, in order. */
  function NpasEntries(npas: seq<string>, k: nat, limit: int, site: string -> seq<PageData>, maxPages: Option<int>): seq<Entry>
    requires k <= |npas|
  {
    if k == 0 then [] else NpasEntries(npas, k - 1, limit, site, maxPages) + NpaEntries(npas[k - 1], limit, site, maxPages)
  }

  /** `numbers` after the first `k` NPAs. */
  function NumbersAfterNpas(coll: map<Json, Doc>, npas: seq<string>, k: nat, limit: int, site: string -> seq<PageData>,
                            maxPages: Option<int>, hasClient: bool): map<Json, Doc>
    requires k <= |npas|
  {
    if k == 0 then coll
    else
      var pages := site(SearchUrl(npas[k - 1], limit));
      NumbersAfter(NumbersAfterNpas(coll, npas, k - 1, limit, site, maxPages, hasClient), pages, npas[k - 1],
                   PagesVisited(|pages|, maxPages), hasClient)
  }

  /** `page_html` after the first `k` NPAs. */
  function SnapshotsAfterNpas(snaps: map<string, Snapshot>, npas: seq<string>, k: nat, limit: int, site: string -> seq<PageData>,
                              maxPages: Option<int>, hasHtml: bool): map<string, Snapshot>
    requires k <= |npas|
  {
    if k == 0 then snaps
    else
      var pages := site(SearchUrl(npas[k - 1], limit));
      SnapshotsAfter(SnapshotsAfterNpas(snaps, npas, k - 1, limit, site, maxPages, hasHtml), pages, npas[k - 1],
                     PagesVisited(|pages|, maxPages), hasHtml)
  }

  /** The numbers scraper with its two collections. */
  class TollFreeExtractor {
    /** `mongo_client` is set (the connection was made). */
    const hasClient: bool
    /** `html_collection` is set. */
    const hasHtml: bool
    const maxPages: Option<int>
    /** `numbers`, keyed by phone (the collection has a unique index on it). */
    var numbers: map<Json, Doc>
    /** `page_html` documents of source "numberbarn", keyed by URL. */
    var snapshots: map<string, Snapshot>

    constructor(hasClient: bool, hasHtml: bool, maxPages: Option<int>, numbers: map<Json, Doc>, snapshots: map<string, Snapshot>)
      ensures this.hasClient == hasClient && this.hasHtml == hasHtml && this.maxPages == maxPages
      ensures this.numbers == numbers && this.snapshots == snapshots
    {
      this.hasClient := hasClient;
      this.hasHtml := hasHtml;
      this.maxPages := maxPages;
      this.numbers := numbers;
      this.snapshots := snapshots;
    }

    /**
     * `save_numbers_to_mongodb`: False without a client or entries;
     * otherwise every entry is applied in turn against the live collection
     * and the three counters are reported.
     */
    method SaveNumbersToMongodb(entries: seq<Entry>, failing: set<nat>, now: int)
      returns (ok: bool, inserted: nat, updated: nat, skipped: nat)
      modifies this
      ensures ok <==> hasClient && entries != []
      ensures numbers == if ok then SaveAll(old(numbers), entries, failing, now) else old(numbers)
      ensures snapshots == old(snapshots)
      ensures ok ==> var effs := Effects(old(numbers), entries, failing, now);
        inserted == Count(effs, Inserted) && updated == Count(effs, Updated) && skipped == Count(effs, Skipped)
    {
      if !hasClient || entries == [] {
        return false, 0, 0, 0;
      }
      inserted, updated, skipped := 0, 0, 0;
      for i := 0 to |entries|
        invariant numbers == SaveAll(old(numbers), entries[..i], failing, now)
        invariant snapshots == old(snapshots)
        invariant var effs := Effects(old(numbers), entries[..i], failing, now);
          inserted == Count(effs, Inserted) && updated == Count(effs, Updated) && skipped == Count(effs, Skipped)
      {
        SaveStep(old(numbers), entries, i, failing, now);
        var effect := SaveOne(entries[i], i in failing, now);
        match effect
        case Inserted => inserted := inserted + 1;
        case Updated => updated := updated + 1;
        case Skipped => skipped := skipped + 1;
        case _ =>
      }
      Seqs.PrefixAll(entries);
      ok := true;
    }

    /** One pass of the entry loop: find the stored document by phone, then insert, update or skip. */
    method SaveOne(e: Entry, fails: bool, now: int) returns (effect: Effect)
      modifies this
      ensures effect == EffectOf(old(numbers), e, fails)
      ensures numbers == SaveEntry(old(numbers), e, fails, now) && snapshots == old(snapshots)
    {
      var phone := PhoneOf(e);
      var price := PriceOf(e);
      if !Truthy(phone) {
        return NoPhone;
      }
      if phone !in numbers {
        if fails {
          return WriteFailed;
        }
        numbers := numbers[phone := Written(e, now)["phone" := phone]];
        return Inserted;
      } else if StoredPrice(numbers[phone]) != price {
        if fails {
          return WriteFailed;
        }
        numbers := numbers[phone := numbers[phone] + Written(e, now)];
        return Updated;
      }
      return Skipped;
    }

    /** `_save_html_snapshot`: nothing without a collection, a URL or HTML; a write that raises is reported. */
    method SaveHtmlSnapshot(url: string, html: string, meta: Json, fails: bool, now: int)
      modifies this
      ensures snapshots == if hasHtml && url != [] && html != [] && !fails
                           then Snapshotted(old(snapshots), url, html, meta, now) else old(snapshots)
      ensures numbers == old(numbers)
    {
      if !hasHtml || url == [] || html == [] {
        return;
      }
      if !fails {
        var created := if url in snapshots then snapshots[url].createdAt else Some(now);
        snapshots := snapshots[url := Snapshot(html, MetaOr(meta), now, now, created)];
      }
    }

    /** One page of the walk: snapshot it, tag its entries and save them. */
    method ProcessPage(npa: string, pages: seq<PageData>, pageNumber: nat,
                       ghost numbers0: map<Json, Doc>, ghost snapshots0: map<string, Snapshot>)
      returns (current: seq<Entry>)
      requires 1 <= pageNumber <= |pages|
      requires numbers == NumbersAfter(numbers0, pages, npa, pageNumber - 1, hasClient)
      requires snapshots == SnapshotsAfter(snapshots0, pages, npa, pageNumber - 1, hasHtml)
      modifies this
      ensures current == TagPage(pages[pageNumber - 1].entries, npa, pageNumber, pages[pageNumber - 1].url)
      ensures numbers == NumbersAfter(numbers0, pages, npa, pageNumber, hasClient)
      ensures snapshots == SnapshotsAfter(snapshots0, pages, npa, pageNumber, hasHtml)
    {
      var page := pages[pageNumber - 1];
      SaveHtmlSnapshot(page.url, page.html, PageMeta(npa, pageNumber), page.snapshotFails, page.now);
      current := TagPage(page.entries, npa, pageNumber, page.url);
      if current != [] {
        var ok, inserted, updated, skipped := SaveNumbersToMongodb(current, page.failing, page.now);
      }
    }

    /**
     * `extract_numbers_from_url`: no pages means the search URL could not
     * be opened. Each page is snapshotted, its entries tagged, collected and
     * saved; the walk stops at `max_pages` or when there is no next page.
     */
    method ExtractNumbersFromUrl(npa: string, pages: seq<PageData>) returns (all: seq<Entry>, visited: nat)
      modifies this
      ensures visited == PagesVisited(|pages|, maxPages)
      ensures all == Collected(pages, npa, visited)
      ensures numbers == NumbersAfter(old(numbers), pages, npa, visited, hasClient)
      ensures snapshots == SnapshotsAfter(old(snapshots), pages, npa, visited, hasHtml)
    {
      if pages == [] {
        return [], 0;
      }
      var pageNumber := 1;
      all := [];
      while true
        invariant 1 <= pageNumber <= |pages|
        invariant maxPages.Some? ==> pageNumber == 1 || pageNumber <= maxPages.value
        invariant all == Collected(pages, npa, pageNumber - 1)
        invariant numbers == NumbersAfter(old(numbers), pages, npa, pageNumber - 1, hasClient)
        invariant snapshots == SnapshotsAfter(old(snapshots), pages, npa, pageNumber - 1, hasHtml)
        decreases |pages| - pageNumber
      {
        var current := ProcessPage(npa, pages, pageNumber, old(numbers), old(snapshots));
        all := all + current;
        if maxPages.Some? && pageNumber >= maxPages.value {
          break;
        }
        if pageNumber < |pages| {
          pageNumber := pageNumber + 1;
        } else {
          break;
        }
      }
      visited := pageNumber;
    }

    /** One pass of the NPA loop: walk the pages of the NPA's search URL. */
    method SearchNpa(npas: seq<string>, i: nat, limit: int, site: string -> seq<PageData>,
                     ghost numbers0: map<Json, Doc>, ghost snapshots0: map<string, Snapshot>)
      returns (found: seq<Entry>)
      requires i < |npas|
      requires numbers == NumbersAfterNpas(numbers0, npas, i, limit, site, maxPages, hasClient)
      requires snapshots == SnapshotsAfterNpas(snapshots0, npas, i, limit, site, maxPages, hasHtml)
      modifies this
      ensures found == NpaEntries(npas[i], limit, site, maxPages)
      ensures numbers == NumbersAfterNpas(numbers0, npas, i + 1, limit, site, maxPages, hasClient)
      ensures snapshots == SnapshotsAfterNpas(snapshots0, npas, i + 1, limit, site, maxPages, hasHtml)
    {
      var npa := npas[i];
      var url := SearchUrl(npa, limit);
      var visited;
      found, visited := ExtractNumbersFromUrl(npa, site(url));
    }

    /**
     * `extract_from_npas`: search each NPA in turn, collecting its entries;
     * after every fifth NPA an extra pause is taken.
     */
    method ExtractFromNpas(npas: seq<string>, limit: int, site: string -> seq<PageData>) returns (all: seq<Entry>, pauses: seq<nat>)
      modifies this
      ensures all == NpasEntries(npas, |npas|, limit, site, maxPages)
      ensures pauses == PauseAfter(|npas|)
      ensures numbers == NumbersAfterNpas(old(numbers), npas, |npas|, limit, site, maxPages, hasClient)
      ensures snapshots == SnapshotsAfterNpas(old(snapshots), npas, |npas|, limit, site, maxPages, hasHtml)
    {
      all, pauses := [], [];
      for i := 0 to |npas|
        invariant all == NpasEntries(npas, i, limit, site, maxPages)
        invariant pauses == PauseAfter(i)
        invariant numbers == NumbersAfterNpas(old(numbers), npas, i, limit, site, maxPages, hasClient)
        invariant snapshots == SnapshotsAfterNpas(old(snapshots), npas, i, limit, site, maxPages, hasHtml)
      {
        all, pauses := NpaStep(npas, i, limit, site, all, pauses, old(numbers), old(snapshots));
      }
    }

    /** One pass of `extract_from_npas`: search NPA `i`, then pause after every fifth. */
    method NpaStep(npas: seq<string>, i: nat, limit: int, site: string -> seq<PageData>, all0: seq<Entry>, pauses0: seq<nat>,
                   ghost numbers0: map<Json, Doc>, ghost snapshots0: map<string, Snapshot>)
      returns (all: seq<Entry>, pauses: seq<nat>)
      requires i < |npas|
      requires all0 == NpasEntries(npas, i, limit, site, maxPages) && pauses0 == PauseAfter(i)
      requires numbers == NumbersAfterNpas(numbers0, npas, i, limit, site, maxPages, hasClient)
      requires snapshots == SnapshotsAfterNpas(snapshots0, npas, i, limit, site, maxPages, hasHtml)
      modifies this
      ensures all == NpasEntries(npas, i + 1, limit, site, maxPages) && pauses == PauseAfter(i + 1)
      ensures numbers == NumbersAfterNpas(numbers0, npas, i + 1, limit, site, maxPages, hasClient)
      ensures snapshots == SnapshotsAfterNpas(snapshots0, npas, i + 1, limit, site, maxPages, hasHtml)
    {
      var numbersFound := SearchNpa(npas, i, limit, site, numbers0, snapshots0);
      all := all0 + numbersFound;
      pauses := pauses0;
      if i % 5 == 4 {
        pauses := pauses + [i];
      }
    }

    /** `run`: the given NPAs, or the default toll-free list when none are given. */
    method Run(npas: Option<seq<string>>, limit: int, site: string -> seq<PageData>) returns (all: seq<Entry>)
      modifies this
      ensures all == NpasEntries(NpasOrDefault(npas), |NpasOrDefault(npas)|, limit, site, maxPages)
      ensures numbers == NumbersAfterNpas(old(numbers), NpasOrDefault(npas), |NpasOrDefault(npas)|, limit, site, maxPages, hasClient)
      ensures snapshots == SnapshotsAfterNpas(old(snapshots), NpasOrDefault(npas), |NpasOrDefault(npas)|, limit, site, maxPages, hasHtml)
    {
      var pauses;
      all, pauses := ExtractFromNpas(NpasOrDefault(npas), limit, site);
    }
  }
}
