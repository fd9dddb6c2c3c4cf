/**
 * The state/area-code index scraper: which sidebar links name an area code
 * (`_parse`), how the links are gathered into regions and a code index and
 * put in order (the aggregation part of `scrape`), and when a saved index
 * is fresh enough to be reused (`_is_fresh`).
 *
 * The browser is not modelled: the links are given in page order, with
 * `pathOf` standing for `urlparse(href).path` and `unquote` for
 * `urllib.parse.unquote`.
 */
module StateArea {
  import opened Wrappers
  import opened Text
  import Dicts

  // ---------------------------------------------------------------- links

  /**
   * `_parse` on the path of a link: the decoded second and the third
   * non-empty segment, when the first is "categories" and the third is all
   * digits.
   */
  function Parse(path: string, unquote: string -> string): (r: Option<(string, string)>)
    ensures r.Some? ==> IsDigits(r.value.1)
  {
    var parts := Segments(path);
    if |parts| >= 3 && parts[0] == "categories" && IsDigits(parts[2]) then Some((unquote(parts[1]), parts[2]))
    else None
  }

  predicate NoSlash(s: string) {
    forall i :: 0 <= i < |s| ==> s[i] != '/'
  }

  /** `[p for p in path.split("/") if p]`: the segments are non-empty and hold no slash. */
  function Segments(path: string): (r: seq<string>)
    ensures forall i :: 0 <= i < |r| ==> r[i] != [] && NoSlash(r[i])
  {
    SplitPiecesFree(path, '/');
    NonEmptyFrom(Split(path, '/'));
    NonEmpty(Split(path, '/'))
  }

  /** A category link's parts: a non-empty state without a slash, a digit code, and what follows from a slash on. */
  predicate CategoryParts(state: string, code: string, rest: string) {
    state != [] && NoSlash(state) && IsDigits(code) && (rest == [] || rest[0] == '/')
  }

  /** `/categories/<state>/<code><rest>`. */
  function CategoryPath(state: string, code: string, rest: string): string {
    "/categories/" + state + "/" + code + rest
  }

  /**
   * `_parse` gives `(s, c)` exactly for a path with the segments of a
   * category path whose state unquotes to `s` and whose code is `c`; on
   * every other path it gives nothing.
   */
  lemma ParseIff(path: string, unquote: string -> string, s: string, c: string)
    ensures Parse(path, unquote) == Some((s, c)) <==>
            exists state, rest :: CategoryParts(state, c, rest) && s == unquote(state) &&
                                  Segments(path) == Segments(CategoryPath(state, c, rest))
  {
    if Parse(path, unquote) == Some((s, c)) {
      var parts := Segments(path);
      var state, more := parts[1], parts[3..];
      var rest := Slashed(more);
      SlashedSegments(more);
      CategorySegments(state, c, rest);
      assert parts == ["categories", state, c] + more;
      assert CategoryParts(state, c, rest);
    }
    if exists state, rest :: CategoryParts(state, c, rest) && s == unquote(state) &&
                             Segments(path) == Segments(CategoryPath(state, c, rest)) {
      var state, rest :| CategoryParts(state, c, rest) && s == unquote(state) &&
                         Segments(path) == Segments(CategoryPath(state, c, rest));
      ParseCategoryPath(state, c, rest, unquote);
    }
  }

  /** A path whose first segment is not "categories" names no area code. */
  lemma ParseNeedsCategories(path: string, unquote: string -> string)
    requires Segments(path) == [] || Segments(path)[0] != "categories"
    ensures Parse(path, unquote) == None
  {
  }

  /** Segments written back with a slash before each. */
  function Slashed(more: seq<string>): (r: string)
    ensures r == [] || r[0] == '/'
  {
    if more == [] then [] else "/" + more[0] + Slashed(more[1..])
  }

  /** The segments after a leading slash are read back as they were written. */
  lemma {:induction false} SlashedSegments(more: seq<string>)
    requires forall i :: 0 <= i < |more| ==> more[i] != [] && NoSlash(more[i])
    ensures RestSegments(Slashed(more)) == more
  {
    if more != [] {
      var t := Slashed(more[1..]);
      SlashedSegments(more[1..]);
      assert Slashed(more)[1..] == more[0] + t;
      SegmentsAfterCode(more[0], t);
    }
  }

  /**
   * A category path, `/categories/<state>/<code>` with or without more
   * segments after it, gives back the decoded state and the code.
   */
  lemma ParseCategoryPath(state: string, code: string, rest: string, unquote: string -> string)
    requires state != [] && NoSlash(state)
    requires IsDigits(code)
    requires rest == [] || rest[0] == '/'
    ensures Parse("/categories/" + state + "/" + code + rest, unquote) == Some((unquote(state), code))
  {
    CategorySegments(state, code, rest);
  }

  lemma CategorySegments(state: string, code: string, rest: string)
    requires state != [] && NoSlash(state)
    requires code != [] && NoSlash(code)
    requires rest == [] || rest[0] == '/'
    ensures NonEmpty(Split("/categories/" + state + "/" + code + rest, '/')) == ["categories", state, code] + RestSegments(rest)
  {
    var categories := "categories";
    assert NoSlash(categories);
    ThreeSegments(categories, state, code, rest);
    CategoryPathShape(state, code, rest);
    LeadingSlash(categories + ['/'] + (state + ['/'] + (code + rest)));
  }

  lemma ThreeSegments(w: string, state: string, code: string, rest: string)
    requires w != [] && NoSlash(w)
    requires state != [] && NoSlash(state)
    requires code != [] && NoSlash(code)
    requires rest == [] || rest[0] == '/'
    ensures NonEmpty(Split(w + ['/'] + (state + ['/'] + (code + rest)), '/')) == [w, state, code] + RestSegments(rest)
  {
    var after := state + ['/'] + (code + rest);
    var tail := RestSegments(rest);
    assert NonEmpty(Split(after, '/')) == [state, code] + tail by {
      SegmentsAfterWord(state, code + rest);
      SegmentsAfterCode(code, rest);
    }
    SegmentsAfterWord(w, after);
    assert [w] + ([state, code] + tail) == [w, state, code] + tail;
  }

  lemma CategoryPathShape(state: string, code: string, rest: string)
    ensures "/categories/" + state + "/" + code + rest == ['/'] + ("categories" + ['/'] + (state + ['/'] + (code + rest)))
  {
    assert "/categories/" == ['/'] + "categories" + ['/'];
  }

  /** The non-empty segments after the `/` that starts `rest`. */
  function RestSegments(rest: string): seq<string> {
    if rest == [] then [] else NonEmpty(Split(rest[1..], '/'))
  }

  lemma LeadingSlash(t: string)
    ensures NonEmpty(Split(['/'] + t, '/')) == NonEmpty(Split(t, '/'))
  {
    assert ['/'] + t == [] + ['/'] + t;
    SplitAtSeparator([], '/', t);
    NonEmptyAppend([""], Split(t, '/'));
  }

  lemma SegmentsAfterWord(w: string, t: string)
    requires w != [] && NoSlash(w)
    ensures NonEmpty(Split(w + ['/'] + t, '/')) == [w] + NonEmpty(Split(t, '/'))
  {
    SplitAtSeparator(w, '/', t);
    SplitWithoutSeparator(w, '/');
    NonEmptySingle(w);
    NonEmptyAppend([w], Split(t, '/'));
  }

  lemma SegmentsAfterCode(code: string, rest: string)
    requires code != [] && NoSlash(code)
    requires rest == [] || rest[0] == '/'
    ensures NonEmpty(Split(code + rest, '/')) == [code] + RestSegments(rest)
  {
    if rest != [] {
      assert code + rest == code + ['/'] + rest[1..];
      SegmentsAfterWord(code, rest[1..]);
    } else {
      assert code + rest == code;
      SplitWithoutSeparator(code, '/');
      NonEmptySingle(code);
    }
  }

  /** Empty segments are dropped, so a doubled slash reads like a single one. */
  lemma ParseDoubledSlash(a: string, b: string, unquote: string -> string)
    ensures Parse(a + "//" + b, unquote) == Parse(a + "/" + b, unquote)
  {
    assert a + "//" + b == a + ['/'] + ([] + ['/'] + b);
    SplitAtSeparator(a, '/', [] + ['/'] + b);
    SplitAtSeparator([], '/', b);
    assert a + "/" + b == a + ['/'] + b;
    SplitAtSeparator(a, '/', b);
    NonEmptyAppend(Split(a, '/'), Split([], '/') + Split(b, '/'));
    NonEmptyAppend(Split([], '/'), Split(b, '/'));
    NonEmptyAppend(Split(a, '/'), Split(b, '/'));
  }

  /** One (state, code) of the page, with the first link that named it. */
  datatype Entry = Entry(state: string, code: string, url: string)

  /** The entry a link names, if `_parse` gives a non-empty state and code. */
  function EntryOf(href: string, pathOf: string -> string, unquote: string -> string): (r: Option<Entry>)
    ensures r.Some? ==> r.value.url == href && r.value.state != [] && IsDigits(r.value.code)
  {
    match Parse(pathOf(href), unquote)
    case None => None
    case Some((state, code)) => if state != [] && code != [] then Some(Entry(state, code, href)) else None
  }

  function Pairs(es: seq<Entry>): set<(string, string)> {
    set e | e in es :: (e.state, e.code)
  }

  /** The entries `scrape` records, in link order: the first link of each (state, code). */
  function Recorded(links: seq<string>, pathOf: string -> string, unquote: string -> string): seq<Entry> {
    if links == [] then []
    else
      var prev := Recorded(links[..|links| - 1], pathOf, unquote);
      match EntryOf(links[|links| - 1], pathOf, unquote)
      case None => prev
      case Some(e) => if (e.state, e.code) in Pairs(prev) then prev else prev + [e]
  }

  /** No (state, code) occurs twice. */
  predicate PairsDistinct(es: seq<Entry>) {
    forall i, j :: 0 <= i < j < |es| ==> (es[i].state, es[i].code) != (es[j].state, es[j].code)
  }

  /** Every entry comes from one of the links, and that link names it. */
  predicate NamedBy(es: seq<Entry>, links: seq<string>, pathOf: string -> string, unquote: string -> string) {
    forall i :: 0 <= i < |es| ==> es[i].url in links && EntryOf(es[i].url, pathOf, unquote) == Some(es[i])
  }

  /** Each (state, code) is recorded once, from a link that names it, and every code is all digits. */
  lemma RecordedOnce(links: seq<string>, pathOf: string -> string, unquote: string -> string)
    ensures PairsDistinct(Recorded(links, pathOf, unquote))
    ensures NamedBy(Recorded(links, pathOf, unquote), links, pathOf, unquote)
    ensures forall e :: e in Recorded(links, pathOf, unquote) ==> IsDigits(e.code) && e.state != []
  {
    RecordedDistinct(links, pathOf, unquote);
    RecordedFrom(links, pathOf, unquote);
  }

  lemma {:induction false} RecordedDistinct(links: seq<string>, pathOf: string -> string, unquote: string -> string)
    ensures PairsDistinct(Recorded(links, pathOf, unquote))
  {
    if links != [] {
      var init := links[..|links| - 1];
      RecordedDistinct(init, pathOf, unquote);
      var prev := Recorded(init, pathOf, unquote);
      var named := EntryOf(links[|links| - 1], pathOf, unquote);
      if named.Some? && (named.value.state, named.value.code) !in Pairs(prev) {
        var e := named.value;
        var es := prev + [e];
        assert Recorded(links, pathOf, unquote) == es;
        forall i, j | 0 <= i < j < |es|
          ensures (es[i].state, es[i].code) != (es[j].state, es[j].code)
        {
          if j == |prev| {
            assert prev[i] in prev;
          }
        }
      }
    }
  }

  lemma {:induction false} RecordedFrom(links: seq<string>, pathOf: string -> string, unquote: string -> string)
    ensures NamedBy(Recorded(links, pathOf, unquote), links, pathOf, unquote)
  {
    if links != [] {
      var init, last := links[..|links| - 1], links[|links| - 1];
      var prev := Recorded(init, pathOf, unquote);
      RecordedFrom(init, pathOf, unquote);
      var es := Recorded(links, pathOf, unquote);
      assert forall u :: u in init ==> u in links;
      assert |prev| <= |es| && es[..|prev|] == prev;
      forall i | 0 <= i < |es|
        ensures es[i].url in links && EntryOf(es[i].url, pathOf, unquote) == Some(es[i])
      {
        if i < |prev| {
          assert es[i] == prev[i];
        } else {
          assert es[i] == EntryOf(last, pathOf, unquote).value;
        }
      }
    }
  }

  /** Links are taken in page order: the entries of a prefix of the links start the entries of all of them. */
  lemma {:induction false} RecordedInOrder(links: seq<string>, k: nat, pathOf: string -> string, unquote: string -> string)
    requires k <= |links|
    ensures var es := Recorded(links, pathOf, unquote);
            var pre := Recorded(links[..k], pathOf, unquote);
            |pre| <= |es| && es[..|pre|] == pre
    decreases |links|
  {
    if k < |links| {
      var init := links[..|links| - 1];
      assert links[..k] == init[..k];
      RecordedInOrder(init, k, pathOf, unquote);
    } else {
      assert links[..k] == links;
    }
  }

  /** Every link that names a (state, code) is accounted for. */
  lemma {:induction false} RecordedComplete(links: seq<string>, i: nat, pathOf: string -> string, unquote: string -> string)
    requires i < |links| && EntryOf(links[i], pathOf, unquote).Some?
    ensures var e := EntryOf(links[i], pathOf, unquote).value;
            (e.state, e.code) in Pairs(Recorded(links, pathOf, unquote))
    decreases |links|
  {
    var init := links[..|links| - 1];
    var prev := Recorded(init, pathOf, unquote);
    if i < |links| - 1 {
      assert init[i] == links[i];
      RecordedComplete(init, i, pathOf, unquote);
      var e := EntryOf(links[i], pathOf, unquote).value;
      var pe :| pe in prev && (pe.state, pe.code) == (e.state, e.code);
      assert pe in Recorded(links, pathOf, unquote);
    } else {
      var e := EntryOf(links[i], pathOf, unquote).value;
      if (e.state, e.code) !in Pairs(prev) {
        assert e in Recorded(links, pathOf, unquote);
      }
    }
  }

  // ---------------------------------------------------------------- regions and the code index

  datatype AreaCode = AreaCode(code: string, url: string)

  /** The `states` dictionary while links are read: each state's area codes, in the order they were recorded. */
  type Groups = seq<(string, seq<AreaCode>)>

  /** `states.setdefault(state, ...)["area_codes"].append(...)` for every recorded entry. */
  function Grouped(es: seq<Entry>): Groups {
    if es == [] then []
    else
      var g := Grouped(es[..|es| - 1]);
      var e := es[|es| - 1];
      Dicts.Set(g, e.state, Dicts.Get(g, e.state).GetOr([]) + [AreaCode(e.code, e.url)])
  }

  /** The area codes of `state`, in recording order. */
  function CodesOf(es: seq<Entry>, state: string): seq<AreaCode> {
    if es == [] then []
    else
      var e := es[|es| - 1];
      CodesOf(es[..|es| - 1], state) + (if e.state == state then [AreaCode(e.code, e.url)] else [])
  }

  predicate HasState(es: seq<Entry>, state: string) {
    exists i :: 0 <= i < |es| && es[i].state == state
  }

  /** A state's region holds exactly its recorded area codes, in recording order; other states have none. */
  lemma {:induction false} GroupedCodes(es: seq<Entry>, state: string)
    ensures Dicts.Get(Grouped(es), state) == if HasState(es, state) then Some(CodesOf(es, state)) else None
  {
    if es != [] {
      var init, e := es[..|es| - 1], es[|es| - 1];
      var g := Grouped(init);
      var listed := Dicts.Get(g, e.state).GetOr([]) + [AreaCode(e.code, e.url)];
      assert Grouped(es) == Dicts.Set(g, e.state, listed);
      Dicts.SetGet(g, e.state, listed, state);
      if state == e.state {
        assert HasState(es, state) by {
          assert es[|es| - 1].state == state;
        }
        assert listed == CodesOf(init, state) + [AreaCode(e.code, e.url)] by {
          GroupedCodes(init, state);
          CodesOfAbsent(init, state);
        }
      } else {
        assert Dicts.Get(Grouped(es), state) == Dicts.Get(g, state);
        GroupedCodes(init, state);
        assert HasState(es, state) == HasState(init, state) by {
          HasStateSnoc(es, state);
        }
        assert CodesOf(es, state) == CodesOf(init, state) + [];
        assert CodesOf(init, state) + [] == CodesOf(init, state);
      }
    }
  }

  lemma HasStateSnoc(es: seq<Entry>, state: string)
    requires es != [] && es[|es| - 1].state != state
    ensures HasState(es, state) == HasState(es[..|es| - 1], state)
  {
    var init := es[..|es| - 1];
    if HasState(init, state) {
      var i :| 0 <= i < |init| && init[i].state == state;
      assert es[i].state == state;
    }
    if HasState(es, state) {
      var i :| 0 <= i < |es| && es[i].state == state;
      assert init[i].state == state;
    }
  }

  /** A state with no recorded entry has no area codes. */
  lemma {:induction false} CodesOfAbsent(es: seq<Entry>, state: string)
    ensures !HasState(es, state) ==> CodesOf(es, state) == []
  {
    if es != [] && !HasState(es, state) {
      var init := es[..|es| - 1];
      assert es[|es| - 1].state != state;
      HasStateSnoc(es, state);
      CodesOfAbsent(init, state);
    }
  }

  /** Every area code listed under a state comes from a recorded entry of that state. */
  lemma {:induction false} CodesOfFrom(es: seq<Entry>, state: string)
    ensures forall a :: a in CodesOf(es, state) ==> Entry(state, a.code, a.url) in es
  {
    if es != [] {
      CodesOfFrom(es[..|es| - 1], state);
    }
  }

  /** The regions keep the state keys distinct. */
  lemma {:induction false} GroupedKeys(es: seq<Entry>)
    ensures Dicts.DistinctKeys(Grouped(es))
  {
    if es != [] {
      var g := Grouped(es[..|es| - 1]);
      var e := es[|es| - 1];
      GroupedKeys(es[..|es| - 1]);
      Dicts.SetKeys(g, e.state, Dicts.Get(g, e.state).GetOr([]) + [AreaCode(e.code, e.url)]);
    }
  }

  /** The number of area codes listed over all regions. */
  function TotalCodes(g: Groups): nat {
    if g == [] then 0 else |g[0].1| + TotalCodes(g[1..])
  }

  function ListedUnder(g: Groups, state: string): nat {
    match Dicts.Get(g, state)
    case None => 0
    case Some(l) => |l|
  }

  lemma {:induction false} SetTotal(g: Groups, state: string, l: seq<AreaCode>)
    ensures TotalCodes(Dicts.Set(g, state, l)) == TotalCodes(g) - ListedUnder(g, state) + |l|
  {
    if g != [] && g[0].0 != state {
      SetTotal(g[1..], state, l);
      assert Dicts.Set(g, state, l)[1..] == Dicts.Set(g[1..], state, l);
    }
  }

  /** Every recorded entry is listed under exactly one region. */
  lemma {:induction false} GroupedTotal(es: seq<Entry>)
    ensures TotalCodes(Grouped(es)) == |es|
  {
    if es != [] {
      var g := Grouped(es[..|es| - 1]);
      var e := es[|es| - 1];
      GroupedTotal(es[..|es| - 1]);
      SetTotal(g, e.state, Dicts.Get(g, e.state).GetOr([]) + [AreaCode(e.code, e.url)]);
    }
  }

  /** The `codes` dictionary: `codes[code] = {...}` for every recorded entry, so the last entry of a code wins. */
  function CodePairs(es: seq<Entry>): seq<(string, Entry)> {
    seq(|es|, i requires 0 <= i < |es| => (es[i].code, es[i]))
  }

  function CodeIndex(es: seq<Entry>): seq<(string, Entry)> {
    Dicts.FromPairs(CodePairs(es))
  }

  /** Each code maps to the last recorded entry with that code. */
  lemma CodeIndexLastWins(es: seq<Entry>, code: string)
    ensures Dicts.Get(CodeIndex(es), code) == Dicts.LastValue(CodePairs(es), code)
  {
    Dicts.FromPairsLastWins(CodePairs(es), code);
  }

  /** The code index never has more codes than there are recorded entries. */
  lemma CodeIndexSize(es: seq<Entry>)
    ensures |CodeIndex(es)| <= |es|
  {
    Dicts.FromPairsSize(CodePairs(es));
  }

  /**
   * The loop over the links (lines that fill `seen`, `states` and `codes`):
   * a link whose parse gives no state or code, or whose (state, code) was
   * seen, is skipped.
   */
  method Collect(links: seq<string>, pathOf: string -> string, unquote: string -> string)
    returns (states: Groups, codes: seq<(string, Entry)>)
    ensures states == Grouped(Recorded(links, pathOf, unquote))
    ensures codes == CodeIndex(Recorded(links, pathOf, unquote))
  {
    var seen: set<(string, string)> := {};
    states, codes := [], [];
    ghost var recorded: seq<Entry> := [];
    for i := 0 to |links|
      invariant Collecting(links[..i], pathOf, unquote, seen, states, codes, recorded)
    {
      var link := links[i];
      assert links[..i + 1] == links[..i] + [link];
      var parsed := Parse(pathOf(link), unquote);
      if parsed.Some? && parsed.value.0 != [] && parsed.value.1 != [] && parsed.value !in seen {
        var (state, code) := parsed.value;
        CollectRecord(links[..i], link, pathOf, unquote, seen, states, codes, recorded);
        seen := seen + {(state, code)};
        states := Dicts.Set(states, state, Dicts.Get(states, state).GetOr([]) + [AreaCode(code, link)]);
        codes := Dicts.Set(codes, code, Entry(state, code, link));
        recorded := recorded + [Entry(state, code, link)];
      } else {
        CollectSkip(links[..i], link, pathOf, unquote, seen, states, codes, recorded);
      }
    }
    assert links[..|links|] == links;
  }

  /** What the loop of `Collect` holds after reading `read`. */
  ghost predicate Collecting(read: seq<string>, pathOf: string -> string, unquote: string -> string,
                             seen: set<(string, string)>, states: Groups, codes: seq<(string, Entry)>, recorded: seq<Entry>)
  {
    recorded == Recorded(read, pathOf, unquote) && seen == Pairs(recorded)
    && states == Grouped(recorded) && codes == CodeIndex(recorded)
  }

  lemma CollectSkip(read: seq<string>, link: string, pathOf: string -> string, unquote: string -> string,
                    seen: set<(string, string)>, states: Groups, codes: seq<(string, Entry)>, recorded: seq<Entry>)
    requires Collecting(read, pathOf, unquote, seen, states, codes, recorded)
    requires var parsed := Parse(pathOf(link), unquote);
             !(parsed.Some? && parsed.value.0 != [] && parsed.value.1 != [] && parsed.value !in seen)
    ensures Collecting(read + [link], pathOf, unquote, seen, states, codes, recorded)
  {
    assert (read + [link])[..|read|] == read;
  }

  lemma CollectRecord(read: seq<string>, link: string, pathOf: string -> string, unquote: string -> string,
                      seen: set<(string, string)>, states: Groups, codes: seq<(string, Entry)>, recorded: seq<Entry>)
    requires Collecting(read, pathOf, unquote, seen, states, codes, recorded)
    requires var parsed := Parse(pathOf(link), unquote);
             parsed.Some? && parsed.value.0 != [] && parsed.value.1 != [] && parsed.value !in seen
    ensures var (state, code) := Parse(pathOf(link), unquote).value;
            Collecting(read + [link], pathOf, unquote, seen + {(state, code)},
                       Dicts.Set(states, state, Dicts.Get(states, state).GetOr([]) + [AreaCode(code, link)]),
                       Dicts.Set(codes, code, Entry(state, code, link)),
                       recorded + [Entry(state, code, link)])
  {
    var (state, code) := Parse(pathOf(link), unquote).value;
    var e := Entry(state, code, link);
    assert (read + [link])[..|read|] == read;
    assert Recorded(read + [link], pathOf, unquote) == recorded + [e];
    assert Pairs(recorded + [e]) == seen + {(state, code)} by {
      PairsSnoc(recorded, e);
    }
    assert (recorded + [e])[..|recorded|] == recorded;
    CodePairsAppend(recorded, e);
  }

  lemma PairsSnoc(es: seq<Entry>, e: Entry)
    ensures Pairs(es + [e]) == Pairs(es) + {(e.state, e.code)}
  {
    forall p | p in Pairs(es + [e])
      ensures p in Pairs(es) + {(e.state, e.code)}
    {
      var x :| x in es + [e] && p == (x.state, x.code);
    }
    forall p | p in Pairs(es)
      ensures p in Pairs(es + [e])
    {
      var x :| x in es && p == (x.state, x.code);
      assert x in es + [e];
    }
    assert e in es + [e];
  }

  lemma CodePairsAppend(es: seq<Entry>, e: Entry)
    ensures CodePairs(es + [e]) == CodePairs(es) + [(e.code, e)]
    ensures CodeIndex(es + [e]) == Dicts.Set(CodeIndex(es), e.code, e)
  {
    assert CodePairs(es + [e])[..|es|] == CodePairs(es);
  }

  // ---------------------------------------------------------------- ordering

  predicate NumericCodes(s: seq<AreaCode>) {
    forall i :: 0 <= i < |s| ==> IsDigits(s[i].code)
  }

  /** `int(x["code"])`. */
  function CodeValue(a: AreaCode): nat
    requires IsDigits(a.code)
  {
    DigitsValue(a.code)
  }

  predicate SortedByCode(s: seq<AreaCode>) {
    NumericCodes(s) && forall i, j :: 0 <= i < j < |s| ==> CodeValue(s[i]) <= CodeValue(s[j])
  }

  /** Puts `x` after every element whose code is not greater, as a stable sort does. */
  function InsertByCode(x: AreaCode, t: seq<AreaCode>): (r: seq<AreaCode>)
    requires IsDigits(x.code) && NumericCodes(t)
    ensures NumericCodes(r) && |r| == |t| + 1
  {
    if t == [] then [x]
    else if CodeValue(t[|t| - 1]) <= CodeValue(x) then t + [x]
    else InsertByCode(x, t[..|t| - 1]) + [t[|t| - 1]]
  }

  /** `area_codes.sort(key=lambda x: int(x["code"]))`. */
  function SortByCode(s: seq<AreaCode>): (r: seq<AreaCode>)
    requires NumericCodes(s)
    ensures NumericCodes(r) && |r| == |s|
  {
    if s == [] then [] else InsertByCode(s[|s| - 1], SortByCode(s[..|s| - 1]))
  }

  /** Every code of `s` is at most `v`. */
  predicate AtMost(s: seq<AreaCode>, v: nat) {
    NumericCodes(s) && forall i :: 0 <= i < |s| ==> CodeValue(s[i]) <= v
  }

  lemma SortedSnoc(s: seq<AreaCode>, a: AreaCode)
    requires SortedByCode(s) && IsDigits(a.code) && AtMost(s, CodeValue(a))
    ensures SortedByCode(s + [a])
  {
    var r := s + [a];
    forall i, j | 0 <= i < j < |r|
      ensures CodeValue(r[i]) <= CodeValue(r[j])
    {
      assert r[i] == s[i];
    }
  }

  /** The bound carries over to any rearrangement of the same elements plus one more within it. */
  lemma AtMostOfMultiset(r: seq<AreaCode>, t: seq<AreaCode>, x: AreaCode, v: nat)
    requires multiset(r) == multiset(t) + multiset{x}
    requires AtMost(t, v) && IsDigits(x.code) && CodeValue(x) <= v
    ensures AtMost(r, v)
  {
    forall i | 0 <= i < |r|
      ensures IsDigits(r[i].code) && CodeValue(r[i]) <= v
    {
      assert r[i] in multiset(r);
      if r[i] != x {
        assert r[i] in multiset(t);
        var k :| 0 <= k < |t| && t[k] == r[i];
      }
    }
  }

  lemma SortedAtMostLast(t: seq<AreaCode>)
    requires SortedByCode(t) && t != []
    ensures AtMost(t, CodeValue(t[|t| - 1]))
  {
  }

  lemma {:induction false} InsertByCodeSpec(x: AreaCode, t: seq<AreaCode>)
    requires IsDigits(x.code) && SortedByCode(t)
    ensures multiset(InsertByCode(x, t)) == multiset(t) + multiset{x}
    ensures SortedByCode(InsertByCode(x, t))
  {
    if t == [] {
    } else if CodeValue(t[|t| - 1]) <= CodeValue(x) {
      SortedAtMostLast(t);
      SortedSnoc(t, x);
    } else {
      var init, last := t[..|t| - 1], t[|t| - 1];
      assert t == init + [last];
      assert SortedByCode(init);
      InsertByCodeSpec(x, init);
      var r := InsertByCode(x, init);
      assert InsertByCode(x, t) == r + [last];
      assert AtMost(r, CodeValue(last)) by {
        SortedAtMostLast(t);
        assert AtMost(init, CodeValue(last));
        AtMostOfMultiset(r, init, x, CodeValue(last));
      }
      SortedSnoc(r, last);
    }
  }

  /** The sort orders a region's area codes by integer code and keeps every one of them. */
  lemma {:induction false} SortByCodeSpec(s: seq<AreaCode>)
    requires NumericCodes(s)
    ensures SortedByCode(SortByCode(s))
    ensures multiset(SortByCode(s)) == multiset(s)
  {
    if s != [] {
      var init := s[..|s| - 1];
      SortByCodeSpec(init);
      InsertByCodeSpec(s[|s| - 1], SortByCode(init));
      assert s == init + [s[|s| - 1]];
    }
  }

  predicate SortedByKey<V>(d: seq<(string, V)>) {
    forall i, j :: 0 <= i < j < |d| ==> StrLess(d[i].0, d[j].0)
  }

  /** Puts the item `x` after every item with a smaller key. */
  function InsertByKey<V>(x: (string, V), t: seq<(string, V)>): seq<(string, V)> {
    if t == [] then [x]
    else if StrLess(t[|t| - 1].0, x.0) then t + [x]
    else InsertByKey(x, t[..|t| - 1]) + [t[|t| - 1]]
  }

  /** `sorted(d.items())` for a dictionary, whose keys are distinct. */
  function SortByKey<V>(d: seq<(string, V)>): seq<(string, V)> {
    if d == [] then [] else InsertByKey(d[|d| - 1], SortByKey(d[..|d| - 1]))
  }

  lemma {:induction false} InsertByKeySpec<V>(x: (string, V), t: seq<(string, V)>)
    requires SortedByKey(t)
    requires forall i :: 0 <= i < |t| ==> t[i].0 != x.0
    ensures multiset(InsertByKey(x, t)) == multiset(t) + multiset{x}
    ensures SortedByKey(InsertByKey(x, t))
  {
    if t != [] {
      var init, last := t[..|t| - 1], t[|t| - 1];
      assert t == init + [last];
      if StrLess(last.0, x.0) {
        var r := t + [x];
        forall i, j | 0 <= i < j < |r|
          ensures StrLess(r[i].0, r[j].0)
        {
          if j == |r| - 1 && i < |t| - 1 {
            StrLessTransitive(t[i].0, last.0, x.0);
          }
        }
      } else {
        StrLessTotal(last.0, x.0);
        InsertByKeySpec(x, init);
        var r := InsertByKey(x, init);
        forall a | a in r
          ensures StrLess(a.0, last.0)
        {
          assert a in multiset(r);
          if a != x {
            assert a in multiset(init);
            var k :| 0 <= k < |init| && init[k] == a;
            assert t[k] == a;
          }
        }
        var r' := r + [last];
        forall i, j | 0 <= i < j < |r'|
          ensures StrLess(r'[i].0, r'[j].0)
        {
          if j == |r'| - 1 {
            assert r'[i] in r;
          }
        }
      }
    }
  }

  /** `sorted(d.items())` on a dictionary: keys strictly ascending, every item kept. */
  lemma {:induction false} SortByKeySpec<V>(d: seq<(string, V)>)
    requires Dicts.DistinctKeys(d)
    ensures SortedByKey(SortByKey(d))
    ensures multiset(SortByKey(d)) == multiset(d)
  {
    if d != [] {
      var init, last := d[..|d| - 1], d[|d| - 1];
      assert d == init + [last];
      SortByKeySpec(init);
      var s := SortByKey(init);
      forall i | 0 <= i < |s|
        ensures s[i].0 != last.0
      {
        assert s[i] in multiset(init);
        var k :| 0 <= k < |init| && init[k] == s[i];
        assert d[k] == s[i];
      }
      InsertByKeySpec(last, s);
    }
  }

  // ---------------------------------------------------------------- the index

  datatype Region = Region(name: string, areaCodes: seq<AreaCode>, total: nat)

  predicate GroupsNumeric(g: Groups) {
    forall i :: 0 <= i < |g| ==> NumericCodes(g[i].1)
  }

  /** A region once its area codes are sorted and counted. */
  function Finished(state: string, l: seq<AreaCode>): Region
    requires NumericCodes(l)
  {
    Region(state, SortByCode(l), |l|)
  }

  /** The loop over `states.values()`: each region's list is sorted by integer code and counted. */
  method Finish(states: Groups) returns (regions: seq<(string, Region)>)
    requires GroupsNumeric(states)
    ensures |regions| == |states|
    ensures forall i :: 0 <= i < |states| ==> regions[i] == (states[i].0, Finished(states[i].0, states[i].1))
  {
    regions := [];
    for i := 0 to |states|
      invariant |regions| == i
      invariant forall k :: 0 <= k < i ==> regions[k] == (states[k].0, Finished(states[k].0, states[k].1))
    {
      var (state, l) := states[i];
      regions := regions + [(state, Region(state, SortByCode(l), |l|))];
    }
  }

  datatype Summary = Summary(totalRegions: nat, totalAreaCodes: nat, sourceUrl: string)

  datatype StateIndex = StateIndex(regions: seq<(string, Region)>, areaCodes: seq<(string, Entry)>, summary: Summary)

  function FinishedAll(g: Groups): seq<(string, Region)>
    requires GroupsNumeric(g)
  {
    seq(|g|, i requires 0 <= i < |g| => (g[i].0, Finished(g[i].0, g[i].1)))
  }

  /** Every region gathered from recorded entries lists digit codes only. */
  lemma GroupedNumeric(links: seq<string>, pathOf: string -> string, unquote: string -> string)
    ensures GroupsNumeric(Grouped(Recorded(links, pathOf, unquote)))
  {
    var es := Recorded(links, pathOf, unquote);
    var g := Grouped(es);
    RecordedOnce(links, pathOf, unquote);
    forall i | 0 <= i < |g|
      ensures NumericCodes(g[i].1)
    {
      GroupedCodes(es, g[i].0);
      GroupedKeys(es);
      assert Dicts.Get(g, g[i].0) == Some(g[i].1) by {
        GetOfDistinct(g, i);
      }
      CodesOfFrom(es, g[i].0);
      forall j | 0 <= j < |g[i].1|
        ensures IsDigits(g[i].1[j].code)
      {
        assert g[i].1[j] in CodesOf(es, g[i].0);
      }
    }
  }

  lemma {:induction false} GetOfDistinct<V>(d: seq<(string, V)>, i: nat)
    requires Dicts.DistinctKeys(d) && i < |d|
    ensures Dicts.Get(d, d[i].0) == Some(d[i].1)
  {
    if i > 0 {
      assert Dicts.DistinctKeys(d[1..]);
      assert d[1..][i - 1] == d[i];
      GetOfDistinct(d[1..], i - 1);
    }
  }

  /** The result of `scrape`, built from the links in page order. */
  function IndexOf(links: seq<string>, url: string, pathOf: string -> string, unquote: string -> string): StateIndex {
    var es := Recorded(links, pathOf, unquote);
    var g := Grouped(es);
    GroupedNumeric(links, pathOf, unquote);
    var codes := CodeIndex(es);
    StateIndex(SortByKey(FinishedAll(g)), SortByKey(codes), Summary(|g|, |codes|, url))
  }

  /** `scrape` after the page is loaded: collect, finish the regions, and order both dictionaries by key. */
  method BuildIndex(links: seq<string>, url: string, pathOf: string -> string, unquote: string -> string)
    returns (index: StateIndex)
    ensures index == IndexOf(links, url, pathOf, unquote)
  {
    var states, codes := Collect(links, pathOf, unquote);
    GroupedNumeric(links, pathOf, unquote);
    var regions := Finish(states);
    assert regions == FinishedAll(states);
    index := StateIndex(SortByKey(regions), SortByKey(codes), Summary(|states|, |codes|, url));
  }

  /** Sum of the regions' `total_area_codes`. */
  function RegionTotals(rs: seq<(string, Region)>): nat {
    if rs == [] then 0 else RegionTotals(rs[..|rs| - 1]) + rs[|rs| - 1].1.total
  }

  lemma {:induction false} InsertTotals(x: (string, Region), t: seq<(string, Region)>)
    ensures RegionTotals(InsertByKey(x, t)) == RegionTotals(t) + x.1.total
  {
    if t != [] && !StrLess(t[|t| - 1].0, x.0) {
      var init := t[..|t| - 1];
      InsertTotals(x, init);
      assert (InsertByKey(x, init) + [t[|t| - 1]])[..|InsertByKey(x, init)|] == InsertByKey(x, init);
    } else if t != [] {
      assert (t + [x])[..|t|] == t;
    }
  }

  lemma {:induction false} SortTotals(rs: seq<(string, Region)>)
    ensures RegionTotals(SortByKey(rs)) == RegionTotals(rs)
  {
    if rs != [] {
      SortTotals(rs[..|rs| - 1]);
      InsertTotals(rs[|rs| - 1], SortByKey(rs[..|rs| - 1]));
    }
  }

  lemma {:induction false} FinishedTotals(g: Groups)
    requires GroupsNumeric(g)
    ensures RegionTotals(FinishedAll(g)) == TotalCodes(g)
  {
    if g != [] {
      var init := g[..|g| - 1];
      assert GroupsNumeric(init);
      FinishedTotals(init);
      assert FinishedAll(g)[..|g| - 1] == FinishedAll(init);
      TotalCodesSnoc(init, g[|g| - 1]);
      assert g == init + [g[|g| - 1]];
    }
  }

  lemma {:induction false} TotalCodesSnoc(g: Groups, x: (string, seq<AreaCode>))
    ensures TotalCodes(g + [x]) == TotalCodes(g) + |x.1|
  {
    if g != [] {
      assert (g + [x])[1..] == g[1..] + [x];
      TotalCodesSnoc(g[1..], x);
    }
  }

  /** A finished region: named by its key, its area codes sorted by integer code and counted. */
  predicate RegionOk(p: (string, Region)) {
    p.1.name == p.0 && SortedByCode(p.1.areaCodes) && p.1.total == |p.1.areaCodes|
  }

  /**
   * The regions and the code index are each in ascending key order with
   * every key once; each region is named by its key, lists every area code
   * recorded for it sorted by integer code, and counts them; the summary
   * counts the regions and the code index, and the code index is never
   * larger than the sum of the regions' totals.
   */
  lemma IndexShape(links: seq<string>, url: string, pathOf: string -> string, unquote: string -> string)
    ensures SortedByKey(IndexOf(links, url, pathOf, unquote).regions)
    ensures SortedByKey(IndexOf(links, url, pathOf, unquote).areaCodes)
    ensures forall p :: p in IndexOf(links, url, pathOf, unquote).regions ==>
              RegionOk(p) && multiset(p.1.areaCodes) == multiset(CodesOf(Recorded(links, pathOf, unquote), p.0))
    ensures IndexOf(links, url, pathOf, unquote).summary.totalRegions == |IndexOf(links, url, pathOf, unquote).regions|
    ensures IndexOf(links, url, pathOf, unquote).summary.totalAreaCodes == |IndexOf(links, url, pathOf, unquote).areaCodes|
    ensures IndexOf(links, url, pathOf, unquote).summary.totalAreaCodes <= RegionTotals(IndexOf(links, url, pathOf, unquote).regions)
  {
    var es := Recorded(links, pathOf, unquote);
    var g := Grouped(es);
    GroupedNumeric(links, pathOf, unquote);
    var fin := FinishedAll(g);
    var index := IndexOf(links, url, pathOf, unquote);
    assert index.regions == SortByKey(fin) && index.areaCodes == SortByKey(CodeIndex(es));
    assert Dicts.DistinctKeys(fin) by {
      GroupedKeys(es);
    }
    SortByKeySpec(fin);
    SortByKeySpec(CodeIndex(es));
    IndexRegions(es);
    assert |index.regions| == |fin| by {
      assert |multiset(index.regions)| == |multiset(fin)|;
    }
    assert |index.areaCodes| == |CodeIndex(es)| by {
      assert |multiset(index.areaCodes)| == |multiset(CodeIndex(es))|;
    }
    assert |CodeIndex(es)| <= RegionTotals(index.regions) by {
      CodeIndexSize(es);
      GroupedTotal(es);
      FinishedTotals(g);
      SortTotals(fin);
    }
  }

  /** Each finished region lists its state's recorded area codes, sorted and counted. */
  lemma IndexRegions(es: seq<Entry>)
    requires GroupsNumeric(Grouped(es))
    ensures forall p :: p in SortByKey(FinishedAll(Grouped(es))) ==>
              RegionOk(p) && multiset(p.1.areaCodes) == multiset(CodesOf(es, p.0))
  {
    var g := Grouped(es);
    var fin := FinishedAll(g);
    GroupedKeys(es);
    assert Dicts.DistinctKeys(fin);
    SortByKeySpec(fin);
    forall p | p in SortByKey(fin)
      ensures RegionOk(p) && multiset(p.1.areaCodes) == multiset(CodesOf(es, p.0))
    {
      assert p in multiset(fin);
      var k :| 0 <= k < |fin| && fin[k] == p;
      FinishedRegion(es, k);
    }
  }

  lemma FinishedRegion(es: seq<Entry>, k: nat)
    requires GroupsNumeric(Grouped(es)) && k < |Grouped(es)|
    ensures var p := FinishedAll(Grouped(es))[k];
            RegionOk(p) && multiset(p.1.areaCodes) == multiset(CodesOf(es, p.0))
  {
    var g := Grouped(es);
    var (state, l) := g[k];
    assert FinishedAll(g)[k] == (state, Region(state, SortByCode(l), |l|));
    SortByCodeSpec(l);
    assert l == CodesOf(es, state) by {
      GroupedKeys(es);
      GroupedCodes(es, state);
      GetOfDistinct(g, k);
    }
  }

  // ---------------------------------------------------------------- the saved index

  const SecondsPerDay := 86400

  /** `_is_fresh`: the file exists and is strictly younger than `maxAgeDays` days. */
  function IsFresh(present: bool, mtime: int, now: int, maxAgeDays: int): bool {
    present && now - mtime < maxAgeDays * SecondsPerDay
  }

  /** A file stays fresh until exactly `maxAgeDays` days after it was written, and not a second longer. */
  lemma FreshUntil(mtime: int, now: int, maxAgeDays: int)
    ensures IsFresh(true, mtime, now, maxAgeDays) <==> now < mtime + maxAgeDays * SecondsPerDay
    ensures !IsFresh(true, mtime, mtime + maxAgeDays * SecondsPerDay, maxAgeDays)
    ensures forall e :: !IsFresh(false, mtime, now, e)
  {
  }
}
