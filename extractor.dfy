/**
 * The listing-page scraper for one area code: phone formatting, row
 * extraction with deduplication, the "next page" label test, the
 * insert/update/skip decision against the numbers collection, and the page
 * walk that follows "next" links without visiting a page twice.
 *
 * The browser and the HTML parser are not modelled: a page is given as the
 * text blocks found on it (with the phone and price matches of each block)
 * and the URL its pager points to.
 */
module Extractor {
  import opened Wrappers
  import opened Text
  import opened Seqs

  // ---------------------------------------------------------------- phones

  /** "(AAA) BBB-CCCC" from ten digits. */
  function FormatTen(d: string): string
    requires |d| == 10
  {
    "(" + d[0..3] + ") " + d[3..6] + "-" + d[6..10]
  }

  /** `_clean_phone`: ten digits (after dropping a leading 1 of eleven) are formatted, anything else is stripped. */
  function CleanPhone(s: string): string {
    var digits := Digits(s);
    var d := if |digits| == 11 && digits[0] == '1' then digits[1..] else digits;
    if |d| == 10 then FormatTen(d) else Strip(s)
  }

  predicate IsFormattedPhone(r: string) {
    |r| == 14 && r[0] == '(' && r[4] == ')' && r[5] == ' ' && r[9] == '-'
  }

  lemma DigitsOfFormatTen(d: string)
    requires |d| == 10 && forall i :: 0 <= i < |d| ==> IsDigitChar(d[i])
    ensures Digits(FormatTen(d)) == d
    ensures IsFormattedPhone(FormatTen(d))
  {
    var a, b, c := d[0..3], d[3..6], d[6..10];
    DigitsOfDigits(a);
    DigitsOfDigits(b);
    DigitsOfDigits(c);
    var x1 := "(" + a;
    assert Digits(x1) == a by { DigitsAppend("(", a); }
    var x2 := x1 + ") ";
    assert Digits(x2) == a by { DigitsAppend(x1, ") "); }
    var x3 := x2 + b;
    assert Digits(x3) == a + b by { DigitsAppend(x2, b); }
    var x4 := x3 + "-";
    assert Digits(x4) == a + b by { DigitsAppend(x3, "-"); }
    var x5 := x4 + c;
    assert Digits(x5) == a + b + c by { DigitsAppend(x4, c); }
    assert x5 == FormatTen(d);
    assert a + b + c == d;
  }

  /** Whitespace holds no digits, so stripping keeps every digit. */
  lemma DigitsOfStrip(s: string)
    ensures Digits(Strip(s)) == Digits(s)
  {
    DigitsOfTrimLeft(s);
    DigitsOfTrimRight(TrimLeft(s));
  }

  lemma DigitsOfTrimLeft(s: string)
    ensures Digits(TrimLeft(s)) == Digits(s)
  {
    var l := TrimLeft(s);
    var w := s[..|s| - |l|];
    assert s == w + l;
    DigitsAppend(w, l);
    DigitsOfSpaces(w);
  }

  lemma DigitsOfTrimRight(s: string)
    ensures Digits(TrimRight(s)) == Digits(s)
  {
    var r := TrimRight(s);
    var w := s[|r|..];
    assert s == r + w;
    DigitsAppend(r, w);
    DigitsOfSpaces(w);
  }

  lemma {:induction false} DigitsOfSpaces(w: string)
    requires forall i :: 0 <= i < |w| ==> IsSpace(w[i])
    ensures Digits(w) == []
  {
    if w != [] {
      DigitsOfSpaces(w[1..]);
    }
  }

  /**
   * The three cases of `_clean_phone`: exactly ten digits are formatted in
   * order; eleven digits starting with 1 lose the 1 and the rest are
   * formatted; any other count gives the stripped input.
   */
  lemma CleanPhoneCases(s: string)
    ensures |Digits(s)| == 10 ==>
              IsFormattedPhone(CleanPhone(s)) && Digits(CleanPhone(s)) == Digits(s)
    ensures |Digits(s)| == 11 && Digits(s)[0] == '1' ==>
              IsFormattedPhone(CleanPhone(s)) && Digits(CleanPhone(s)) == Digits(s)[1..]
    ensures !(|Digits(s)| == 10 || (|Digits(s)| == 11 && Digits(s)[0] == '1')) ==>
              CleanPhone(s) == Strip(s)
  {
    var digits := Digits(s);
    if |digits| == 10 {
      DigitsOfFormatTen(digits);
    } else if |digits| == 11 && digits[0] == '1' {
      DigitsOfFormatTen(digits[1..]);
    }
  }

  /** Cleaning a cleaned phone changes nothing. */
  lemma CleanPhoneIdempotent(s: string)
    ensures CleanPhone(CleanPhone(s)) == CleanPhone(s)
  {
    var r := CleanPhone(s);
    CleanPhoneCases(s);
    var digits := Digits(s);
    var d := if |digits| == 11 && digits[0] == '1' then digits[1..] else digits;
    if |d| == 10 {
      CleanPhoneCases(r);
    } else {
      DigitsOfStrip(s);
      StripIdempotent(s);
    }
  }

  // ---------------------------------------------------------------- rows

  datatype Row = Row(phone: string, price: string)

  /** A text block of the page with the phone and price matches found in it. */
  datatype Block = Block(text: string, phones: seq<string>, prices: seq<string>)

  /** `s.replace(" ", "")`. */
  function RemoveSpaces(s: string): (r: string)
    ensures forall i :: 0 <= i < |r| ==> r[i] != ' '
    ensures |r| <= |s|
    ensures multiset(r) == multiset(s)[' ' := 0]
    ensures (forall i :: 0 <= i < |s| ==> s[i] != ' ') ==> r == s
  {
    if s == [] then []
    else
      assert s == [s[0]] + s[1..];
      if s[0] == ' ' then RemoveSpaces(s[1..])
      else [s[0]] + RemoveSpaces(s[1..])
  }

  /** Spaces are removed piece by piece: every other character is kept, in order. */
  lemma {:induction false} RemoveSpacesAppend(a: string, b: string)
    ensures RemoveSpaces(a + b) == RemoveSpaces(a) + RemoveSpaces(b)
  {
    if a != [] {
      assert (a + b)[0] == a[0] && (a + b)[1..] == a[1..] + b;
      RemoveSpacesAppend(a[1..], b);
    } else {
      assert a + b == b;
    }
  }

  /** One row per block with text, a phone and a price: its first phone, cleaned, and first price. */
  function BlockRows(blocks: seq<Block>): (rows: seq<Row>)
    ensures |rows| <= |blocks|
  {
    if blocks == [] then []
    else
      var b := blocks[0];
      if b.text != [] && b.phones != [] && b.prices != [] then
        [Row(CleanPhone(b.phones[0]), RemoveSpaces(b.prices[0]))] + BlockRows(blocks[1..])
      else BlockRows(blocks[1..])
  }

  /**
   * `_extract_site_specific` and `_extract_generic`, which are the same
   * procedure: the block rows without repeated (phone, price).
   */
  function ExtractBlocks(blocks: seq<Block>): (rows: seq<Row>)
    ensures Distinct(rows)
    ensures forall r :: r in rows <==> r in BlockRows(blocks)
  {
    DedupSpec(BlockRows(blocks));
    Dedup(BlockRows(blocks))
  }

  /** `_extract_pairs_from_html`: the site-specific rows, or the generic ones when there are none. */
  function ExtractPairs(blocks: seq<Block>): seq<Row> {
    var rows := ExtractBlocks(blocks);
    if rows == [] then ExtractBlocks(blocks) else rows
  }

  /**
   * The generic fallback never changes the outcome: it runs exactly when
   * the site-specific pass found nothing, and then finds nothing either.
   */
  lemma FallbackAddsNothing(blocks: seq<Block>)
    ensures ExtractPairs(blocks) == ExtractBlocks(blocks)
    ensures Distinct(ExtractPairs(blocks))
  {
  }

  // ---------------------------------------------------------------- next page

  const NextTextCandidates: set<string> := {"next", ">", "»", "next »", "older", "下一页"}

  /** `is_next_text`: the stripped, lower-cased label is a candidate or contains "next". */
  predicate IsNextText(s: string) {
    var n := Lower(Strip(s));
    n in NextTextCandidates || Contains(n, "next")
  }

  lemma ContainsNext(n: string)
    requires IsPrefix("next", n)
    ensures Contains(n, "next")
  {
  }

  /** The candidates "next" and "next »" add nothing to the containment test. */
  lemma NextTextReduced(s: string)
    ensures IsNextText(s) <==>
              var n := Lower(Strip(s));
              n in {">", "»", "older", "下一页"} || Contains(n, "next")
  {
    CandidatesReduced(Lower(Strip(s)));
  }

  lemma CandidatesReduced(n: string)
    ensures (n in NextTextCandidates || Contains(n, "next"))
        <==> (n in {">", "»", "older", "下一页"} || Contains(n, "next"))
  {
    if n == "next" || n == "next »" {
      ContainsNext(n);
    }
  }

  /** A pager link: its visible text and its `href`. */
  datatype Anchor = Anchor(caption: string, href: string)

  /**
   * `_find_next_url`: the first pager link whose label passes `isNext` and
   * whose href is non-empty, joined to the current URL; else the
   * `rel="next"` link, if any. The scraper passes `IsNextText` as `isNext`;
   * `join` stands for `urljoin`.
   */
  function FindNextUrl(anchors: seq<Anchor>, relNext: Option<string>, current: string,
                       join: (string, string) -> string, isNext: string -> bool): (r: Option<string>)
    ensures r.None? <==> relNext.None? && forall i :: 0 <= i < |anchors| ==> !IsNextLink(anchors[i], isNext)
  {
    if anchors == [] then
      if relNext.Some? then Some(join(current, relNext.value)) else None
    else if IsNextLink(anchors[0], isNext) then
      Some(join(current, anchors[0].href))
    else
      var r := FindNextUrl(anchors[1..], relNext, current, join, isNext);
      assert forall i :: 0 < i < |anchors| ==> anchors[i] == anchors[1..][i - 1];
      r
  }

  predicate IsNextLink(a: Anchor, isNext: string -> bool) {
    isNext(a.caption) && a.href != []
  }

  /** The link followed is the first one that qualifies; only without one is `rel="next"` used. */
  lemma {:induction false} FindNextUrlFirst(anchors: seq<Anchor>, relNext: Option<string>, current: string,
                                            join: (string, string) -> string, isNext: string -> bool, i: nat)
    requires i < |anchors| && IsNextLink(anchors[i], isNext)
    requires forall j :: 0 <= j < i ==> !IsNextLink(anchors[j], isNext)
    ensures FindNextUrl(anchors, relNext, current, join, isNext) == Some(join(current, anchors[i].href))
  {
    if i > 0 {
      assert forall j :: 0 <= j < i - 1 ==> anchors[1..][j] == anchors[j + 1];
      FindNextUrlFirst(anchors[1..], relNext, current, join, isNext, i - 1);
    }
  }

  /** Without a qualifying link the `rel="next"` link decides. */
  lemma {:induction false} FindNextUrlRel(anchors: seq<Anchor>, relNext: Option<string>, current: string,
                                          join: (string, string) -> string, isNext: string -> bool)
    requires forall j :: 0 <= j < |anchors| ==> !IsNextLink(anchors[j], isNext)
    ensures FindNextUrl(anchors, relNext, current, join, isNext)
         == if relNext.Some? then Some(join(current, relNext.value)) else None
  {
    if anchors != [] {
      assert forall j :: 0 <= j < |anchors| - 1 ==> anchors[1..][j] == anchors[j + 1];
      FindNextUrlRel(anchors[1..], relNext, current, join, isNext);
    }
  }

  // ---------------------------------------------------------------- the collection

  /** A stored number; `price` is absent when the document has none. */
  datatype Doc = Doc(price: Option<string>, sourceUrl: string, source: string, crawledAt: int)

  const Source := "excellent_number"

  /** A row needs a write iff its phone is not stored or is stored with another price. */
  predicate NeedsWrite(docs: map<string, Doc>, r: Row) {
    r.phone !in docs || docs[r.phone].price != Some(r.price)
  }

  /** The rows `_bulk_upsert` turns into write operations, in order, all judged against `docs`. */
  function Writes(rows: seq<Row>, docs: map<string, Doc>): (ops: seq<Row>)
    ensures |ops| <= |rows|
    ensures forall r :: r in ops <==> r in rows && NeedsWrite(docs, r)
  {
    if rows == [] then []
    else
      var init := rows[..|rows| - 1];
      var last := rows[|rows| - 1];
      assert forall r :: r in rows <==> r in init || r == last;
      if NeedsWrite(docs, last) then Writes(init, docs) + [last] else Writes(init, docs)
  }

  /** The collection after the write operations are applied one after the other. */
  function Apply(docs: map<string, Doc>, ops: seq<Row>, sourceUrl: string, now: int): (r: map<string, Doc>)
    ensures forall p :: p in docs ==> p in r
    ensures forall p :: p in docs && (forall o :: o in ops ==> o.phone != p) ==> r[p] == docs[p]
    ensures forall o :: o in ops ==> o.phone in r && r[o.phone].sourceUrl == sourceUrl && r[o.phone].source == Source
                                     && r[o.phone].crawledAt == now
    ensures ops != [] ==> ops[|ops| - 1].phone in r && r[ops[|ops| - 1].phone].price == Some(ops[|ops| - 1].price)
  {
    if ops == [] then docs
    else
      var init := ops[..|ops| - 1];
      var last := ops[|ops| - 1];
      assert forall o :: o in ops <==> o in init || o == last;
      Apply(docs, init, sourceUrl, now)[last.phone := Doc(Some(last.price), sourceUrl, Source, now)]
  }

  /** The stored phones are the old ones plus the written ones, and no others. */
  lemma {:induction false} ApplyKeys(docs: map<string, Doc>, ops: seq<Row>, sourceUrl: string, now: int)
    ensures Apply(docs, ops, sourceUrl, now).Keys == docs.Keys + (set o | o in ops :: o.phone)
  {
    if ops != [] {
      var init := ops[..|ops| - 1];
      ApplyKeys(docs, init, sourceUrl, now);
      assert forall o :: o in ops <==> o in init || o == ops[|ops| - 1];
    }
  }

  predicate DistinctPhones(rows: seq<Row>) {
    forall i, j :: 0 <= i < j < |rows| ==> rows[i].phone != rows[j].phone
  }

  /** When no two operations share a phone, every operation's price ends up stored. */
  lemma {:induction false} ApplyStoresEveryPrice(docs: map<string, Doc>, ops: seq<Row>, sourceUrl: string, now: int)
    requires DistinctPhones(ops)
    ensures forall o :: o in ops ==> o.phone in Apply(docs, ops, sourceUrl, now)
                                     && Apply(docs, ops, sourceUrl, now)[o.phone].price == Some(o.price)
  {
    if ops != [] {
      var init := ops[..|ops| - 1];
      var last := ops[|ops| - 1];
      assert DistinctPhones(init);
      ApplyStoresEveryPrice(docs, init, sourceUrl, now);
      var before := Apply(docs, init, sourceUrl, now);
      assert Apply(docs, ops, sourceUrl, now) == before[last.phone := Doc(Some(last.price), sourceUrl, Source, now)];
      forall i | 0 <= i < |init|
        ensures Apply(docs, ops, sourceUrl, now)[init[i].phone].price == Some(init[i].price)
      {
        assert init[i] == ops[i] && ops[i].phone != last.phone;
        assert init[i] in init;
      }
      forall o | o in ops
        ensures Apply(docs, ops, sourceUrl, now)[o.phone].price == Some(o.price)
      {
        var i :| 0 <= i < |ops| && ops[i] == o;
        if i < |ops| - 1 {
          assert init[i] == o;
        }
      }
    }
  }

  lemma {:induction false} WritesDistinctPhones(rows: seq<Row>, docs: map<string, Doc>)
    requires DistinctPhones(rows)
    ensures DistinctPhones(Writes(rows, docs))
  {
    if rows != [] {
      var init := rows[..|rows| - 1];
      var last := rows[|rows| - 1];
      assert DistinctPhones(init);
      WritesDistinctPhones(init, docs);
      forall o | o in Writes(init, docs)
        ensures o.phone != last.phone
      {
        var i :| 0 <= i < |init| && init[i] == o;
        assert rows[i] == o;
      }
    }
  }

  lemma {:induction false} WritesNone(rows: seq<Row>, docs: map<string, Doc>)
    requires forall r :: r in rows ==> !NeedsWrite(docs, r)
    ensures Writes(rows, docs) == []
  {
    if rows != [] {
      WritesNone(rows[..|rows| - 1], docs);
      assert rows[|rows| - 1] in rows;
    }
  }

  /**
   * Upserting the same page twice writes nothing the second time, provided
   * the page lists each phone once.
   */
  lemma SecondUpsertWritesNothing(rows: seq<Row>, docs: map<string, Doc>, sourceUrl: string, now: int)
    requires DistinctPhones(rows)
    ensures Writes(rows, Apply(docs, Writes(rows, docs), sourceUrl, now)) == []
  {
    var ops := Writes(rows, docs);
    var after := Apply(docs, ops, sourceUrl, now);
    WritesDistinctPhones(rows, docs);
    ApplyStoresEveryPrice(docs, ops, sourceUrl, now);
    forall r | r in rows
      ensures !NeedsWrite(after, r)
    {
      if NeedsWrite(docs, r) {
        assert r in ops;
      } else {
        forall o | o in ops ensures o.phone != r.phone {
          var i :| 0 <= i < |rows| && rows[i] == o;
          var j :| 0 <= j < |rows| && rows[j] == r;
          assert i != j;
        }
      }
    }
    WritesNone(rows, after);
  }

  /** One page of the site: its blocks and the URL its pager leads to. */
  datatype Page = Page(blocks: seq<Block>, next: Option<string>)

  /** The pages fetched starting at `cur`; a URL missing from `site` times out and ends the walk. */
  function Walk(site: map<string, Page>, cur: string, visited: set<string>): (w: seq<string>)
    decreases site.Keys - visited
  {
    if cur == [] || cur in visited then []
    else if cur !in site then [cur]
    else
      var nxt := site[cur].next;
      if nxt.Some? && nxt.value != [] && nxt.value !in visited + {cur} then
        assert site.Keys - (visited + {cur}) < site.Keys - visited;
        [cur] + Walk(site, nxt.value, visited + {cur})
      else [cur]
  }

  /** Every page is fetched at most once, and never one visited before the walk. */
  lemma {:induction false} WalkVisitsOnce(site: map<string, Page>, cur: string, visited: set<string>)
    ensures Distinct(Walk(site, cur, visited))
    ensures forall u :: u in Walk(site, cur, visited) ==> u !in visited && u != []
    decreases site.Keys - visited
  {
    if cur != [] && cur !in visited && cur in site {
      var nxt := site[cur].next;
      if nxt.Some? && nxt.value != [] && nxt.value !in visited + {cur} {
        assert site.Keys - (visited + {cur}) < site.Keys - visited;
        WalkVisitsOnce(site, nxt.value, visited + {cur});
      }
    }
  }

  /** All rows of the fetched pages, page by page (a timed-out page has none). */
  function PageRows(site: map<string, Page>, fetched: seq<string>): seq<Row> {
    if fetched == [] then []
    else
      var init := fetched[..|fetched| - 1];
      var u := fetched[|fetched| - 1];
      PageRows(site, init) + (if u in site then ExtractPairs(site[u].blocks) else [])
  }

  /**
   * The collection after `_bulk_upsert` of each fetched page, in order;
   * `clock(k)` is the time read while the page at position `k` is stored.
   */
  function UpsertPages(docs: map<string, Doc>, site: map<string, Page>, fetched: seq<string>, clock: nat -> int): map<string, Doc> {
    if fetched == [] then docs
    else
      var before := UpsertPages(docs, site, fetched[..|fetched| - 1], clock);
      var u := fetched[|fetched| - 1];
      if u in site then Apply(before, Writes(ExtractPairs(site[u].blocks), before), u, clock(|fetched| - 1)) else before
  }

  /** The long pauses of a walk of `n` pages, in order. */
  function PagePauses(n: nat, every: int): seq<nat> {
    if n <= 1 then []
    else if every != 0 && (n - 1) % every == 0 then PagePauses(n - 1, every) + [n - 1]
    else PagePauses(n - 1, every)
  }

  /** Long pauses happen after exactly the pages `1..n-1` whose number is a multiple of `every`. */
  lemma {:induction false} PagePausesSpec(n: nat, every: int)
    ensures forall k :: k in PagePauses(n, every) <==> 1 <= k < n && every != 0 && k % every == 0
  {
    if n > 1 {
      PagePausesSpec(n - 1, every);
    }
  }

  predicate Continues(page: Page, visited: set<string>) {
    page.next.Some? && page.next.value != [] && page.next.value !in visited
  }

  /** One step of the walk: the page at `cur` is fetched, then the walk goes on at its next link, if any. */
  lemma WalkAdvance(site: map<string, Page>, cur: string, visited: set<string>)
    requires cur != [] && cur !in visited
    ensures cur !in site ==> Walk(site, cur, visited) == [cur]
    ensures cur in site && Continues(site[cur], visited + {cur}) ==>
              Walk(site, cur, visited) == [cur] + Walk(site, site[cur].next.value, visited + {cur})
    ensures cur in site && !Continues(site[cur], visited + {cur}) ==> Walk(site, cur, visited) == [cur]
  {
  }

  /** The walk bookkeeping of one loop iteration: the fetched prefix grows by the page at `cur`. */
  lemma WalkLoopStep(site: map<string, Page>, url: string, fetched: seq<string>, cur: string, visited: set<string>)
    requires fetched + Walk(site, cur, visited) == Walk(site, url, {})
    requires cur != [] && cur !in visited
    ensures cur !in site ==> fetched + [cur] == Walk(site, url, {})
    ensures cur in site ==>
              var next := if Continues(site[cur], visited + {cur}) then site[cur].next.value else [];
              (fetched + [cur]) + Walk(site, next, visited + {cur}) == Walk(site, url, {})
  {
    WalkAdvance(site, cur, visited);
    if cur in site && Continues(site[cur], visited + {cur}) {
      assert fetched + ([cur] + Walk(site, site[cur].next.value, visited + {cur}))
          == (fetched + [cur]) + Walk(site, site[cur].next.value, visited + {cur});
    } else {
      assert Walk(site, [], visited + {cur}) == [];
    }
  }

  /** Going on from page `n` to page `n + 1` adds a long pause after `n` when `n` is a multiple of `every`. */
  lemma PagePausesStep(n: nat, every: int)
    requires n >= 1
    ensures PagePauses(n + 1, every) == PagePauses(n, every) + (if every != 0 && n % every == 0 then [n] else [])
  {
  }

  /** A page that timed out adds no rows and no writes. */
  lemma TimeoutStep(site: map<string, Page>, fetched: seq<string>, u: string, docs: map<string, Doc>, clock: nat -> int)
    requires u !in site
    ensures PageRows(site, fetched + [u]) == PageRows(site, fetched)
    ensures UpsertPages(docs, site, fetched + [u], clock) == UpsertPages(docs, site, fetched, clock)
  {
    assert (fetched + [u])[..|fetched + [u]| - 1] == fetched;
  }

  /** A fetched page adds its rows, and its writes judged against the collection as it stands. */
  lemma PageStep(site: map<string, Page>, fetched: seq<string>, u: string, docs: map<string, Doc>, clock: nat -> int)
    requires u in site
    ensures PageRows(site, fetched + [u]) == PageRows(site, fetched) + ExtractPairs(site[u].blocks)
    ensures UpsertPages(docs, site, fetched + [u], clock)
         == var before := UpsertPages(docs, site, fetched, clock);
            Apply(before, Writes(ExtractPairs(site[u].blocks), before), u, clock(|fetched|))
  {
    assert (fetched + [u])[..|fetched + [u]| - 1] == fetched;
  }

  /**
   * The loop state of `scrape` before it looks at `cur`: the pages in `fetched`
   * are the start of the walk from `url`, their rows are collected in
   * `allRows`, their writes are in `docs`, and the long pauses taken so far
   * are those of a walk that goes on to `cur` if `cur` is still to be fetched.
   */
  ghost predicate Scraping(site: map<string, Page>, url: string, clock: nat -> int, start: map<string, Doc>, every: int,
                           fetched: seq<string>, cur: string, visited: set<string>,
                           allRows: seq<Row>, docs: map<string, Doc>, pauses: seq<nat>)
  {
    && fetched + Walk(site, cur, visited) == Walk(site, url, {})
    && allRows == PageRows(site, fetched)
    && docs == UpsertPages(start, site, fetched, clock)
    && pauses == PagePauses(if cur != [] && cur !in visited then |fetched| + 1 else |fetched|, every)
  }

  /** A page that times out ends the walk with everything already in place. */
  lemma ScrapingTimeout(site: map<string, Page>, url: string, clock: nat -> int, start: map<string, Doc>, every: int,
                        fetched: seq<string>, cur: string, visited: set<string>,
                        allRows: seq<Row>, docs: map<string, Doc>, pauses: seq<nat>)
    requires Scraping(site, url, clock, start, every, fetched, cur, visited, allRows, docs, pauses)
    requires cur != [] && cur !in visited && cur !in site
    ensures Scraping(site, url, clock, start, every, fetched + [cur], cur, visited + {cur}, allRows, docs, pauses)
  {
    WalkLoopStep(site, url, fetched, cur, visited);
    TimeoutStep(site, fetched, cur, start, clock);
  }

  /** A fetched page keeps the loop state, whether or not the walk goes on. */
  lemma ScrapingStep(site: map<string, Page>, url: string, clock: nat -> int, start: map<string, Doc>, every: int,
                     fetched: seq<string>, cur: string, visited: set<string>,
                     allRows: seq<Row>, docs: map<string, Doc>, pauses: seq<nat>,
                     pageRows: seq<Row>, next: string, docs': map<string, Doc>, pauses': seq<nat>)
    requires Scraping(site, url, clock, start, every, fetched, cur, visited, allRows, docs, pauses)
    requires cur != [] && cur !in visited && cur in site
    requires PageRows(site, fetched + [cur]) == PageRows(site, fetched) + pageRows
    requires docs' == UpsertPages(start, site, fetched + [cur], clock)
    requires next == if Continues(site[cur], visited + {cur}) then site[cur].next.value else []
    requires pauses' == if next != [] && every != 0 && (|fetched| + 1) % every == 0 then pauses + [|fetched| + 1] else pauses
    ensures Scraping(site, url, clock, start, every, fetched + [cur], next, visited + {cur}, allRows + pageRows, docs', pauses')
  {
    WalkLoopStep(site, url, fetched, cur, visited);
    if next != [] {
      PagePausesStep(|fetched| + 1, every);
    }
  }

  /** When the loop stops, the walk is complete. */
  lemma ScrapingDone(site: map<string, Page>, url: string, clock: nat -> int, start: map<string, Doc>, every: int,
                     fetched: seq<string>, cur: string, visited: set<string>,
                     allRows: seq<Row>, docs: map<string, Doc>, pauses: seq<nat>)
    requires Scraping(site, url, clock, start, every, fetched, cur, visited, allRows, docs, pauses)
    requires cur == [] || cur in visited
    ensures fetched == Walk(site, url, {})
    ensures allRows == PageRows(site, fetched)
    ensures docs == UpsertPages(start, site, fetched, clock)
    ensures pauses == PagePauses(|fetched|, every)
  {
  }

  /** The optional long pause after page `pageCount`, taken every `every` pages (never when `every` is 0). */
  method LongPause(pauses: seq<nat>, pageCount: nat, every: int) returns (ps: seq<nat>)
    ensures every != 0 && pageCount % every == 0 ==> ps == pauses + [pageCount]
    ensures !(every != 0 && pageCount % every == 0) ==> ps == pauses
  {
    ps := pauses;
    if every != 0 && pageCount % every == 0 {
      ps := ps + [pageCount];
    }
  }

  /** The numbers collection the scraper writes to. */
  class NumbersCollection {
    var docs: map<string, Doc>

    constructor(docs: map<string, Doc>)
      ensures this.docs == docs
    {
      this.docs := docs;
    }

    /**
     * `_bulk_upsert`: decides every row against the collection as it was
     * before the call, then applies the writes; `skipped` counts the rest.
     */
    method BulkUpsert(rows: seq<Row>, sourceUrl: string, now: int) returns (ops: seq<Row>, skipped: nat)
      modifies this
      ensures ops == Writes(rows, old(docs))
      ensures skipped == |rows| - |ops|
      ensures docs == Apply(old(docs), ops, sourceUrl, now)
    {
      ops := [];
      var i := 0;
      while i < |rows|
        invariant 0 <= i <= |rows|
        invariant ops == Writes(rows[..i], docs)
      {
        assert rows[..i + 1][..i] == rows[..i];
        var r := rows[i];
        if r.phone !in docs || docs[r.phone].price != Some(r.price) {
          ops := ops + [r];
        }
        i := i + 1;
      }
      assert rows[..i] == rows;
      skipped := |rows| - |ops|;
      var j := 0;
      while j < |ops|
        invariant 0 <= j <= |ops|
        invariant docs == Apply(old(docs), ops[..j], sourceUrl, now)
      {
        assert ops[..j + 1][..j] == ops[..j];
        docs := docs[ops[j].phone := Doc(Some(ops[j].price), sourceUrl, Source, now)];
        j := j + 1;
      }
      assert ops[..j] == ops;
    }

    /**
     * One page of `scrape`: its rows are extracted and upserted, and the
     * next link is followed only if it is non-empty and not yet visited
     * (`[]` stands for stopping).
     */
    method VisitPage(site: map<string, Page>, cur: string, visited: set<string>, now: int,
                     ghost clock: nat -> int, ghost start: map<string, Doc>, ghost fetched: seq<string>)
      returns (pageRows: seq<Row>, next: string)
      requires cur in site && now == clock(|fetched|)
      requires docs == UpsertPages(start, site, fetched, clock)
      modifies this
      ensures PageRows(site, fetched + [cur]) == PageRows(site, fetched) + pageRows
      ensures docs == UpsertPages(start, site, fetched + [cur], clock)
      ensures next == if Continues(site[cur], visited + {cur}) then site[cur].next.value else []
      ensures next != [] ==> next !in visited + {cur}
    {
      PageStep(site, fetched, cur, start, clock);
      var page := site[cur];
      pageRows := ExtractPairs(page.blocks);
      var ops, skipped := BulkUpsert(pageRows, cur, now);
      next := if Continues(page, visited + {cur}) then page.next.value else [];
    }

    /**
     * `scrape`: follows next links from `url`, fetching each page at most
     * once, upserting each page's rows, and returns the rows of all pages
     * without repeated (phone, price), the fetched URLs and the pages after
     * which a long pause is taken. Each page's upsert reads the clock anew:
     * `clock(k)` is the reading for the page at position `k`.
     */
    method Scrape(url: string, site: map<string, Page>, longPauseEvery: int, clock: nat -> int)
      returns (rows: seq<Row>, fetched: seq<string>, pauses: seq<nat>)
      modifies this
      ensures fetched == Walk(site, url, {})
      ensures rows == Dedup(PageRows(site, fetched))
      ensures pauses == PagePauses(|fetched|, longPauseEvery)
      ensures docs == UpsertPages(old(docs), site, fetched, clock)
    {
      var allRows: seq<Row> := [];
      var visited: set<string> := {};
      fetched, pauses := [], [];
      var cur := url;
      while cur != [] && cur !in visited
        invariant Scraping(site, url, clock, old(docs), longPauseEvery, fetched, cur, visited, allRows, docs, pauses)
        decreases site.Keys - visited
      {
        if cur !in site {
          ScrapingTimeout(site, url, clock, old(docs), longPauseEvery, fetched, cur, visited, allRows, docs, pauses);
          visited := visited + {cur};
          fetched := fetched + [cur];
          break;
        }
        ghost var before := docs;
        var pageRows, next := VisitPage(site, cur, visited, clock(|fetched|), clock, old(docs), fetched);
        var pauses' := pauses;
        if next != [] {
          pauses' := LongPause(pauses, |fetched| + 1, longPauseEvery);
        }
        ScrapingStep(site, url, clock, old(docs), longPauseEvery, fetched, cur, visited, allRows, before, pauses,
                     pageRows, next, docs, pauses');
        visited := visited + {cur};
        fetched := fetched + [cur];
        allRows := allRows + pageRows;
        pauses := pauses';
        cur := next;
      }
      ScrapingDone(site, url, clock, old(docs), longPauseEvery, fetched, cur, visited, allRows, docs, pauses);
      rows := Dedup(allRows);
    }
  }
}
