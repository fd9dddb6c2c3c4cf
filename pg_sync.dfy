/**
 * The MongoDB-to-PostgreSQL synchroniser: today's documents of every phone
 * collection are normalised into `phone_numbers` rows, deduplicated by phone
 * and upserted in batches (`ON CONFLICT (phone) DO UPDATE`).
 *
 * The databases are outside the model: what a collection returns for today,
 * the clock readings and the statements the database rejects are parameters,
 * and the `phone_numbers` table is a map from phone to row.
 */
module PgSync {
  import opened Wrappers
  import opened Text
  import opened Json
  import Dicts
  import Seqs

  // ---------------------------------------------------------------------
  // Price strings

  predicate NotDollarOrSpace(c: char) {
    c != '$' && !IsSpace(c)
  }

  predicate NotComma(c: char) {
    c != ','
  }

  predicate NotUnderscore(c: char) {
    c != '_'
  }

  /** The characters of `s` that `keep` accepts, in order (`re.sub` and `str.replace` with an empty replacement). */
  function Filter(s: string, keep: char -> bool): (r: string)
    ensures |r| <= |s|
    ensures forall i :: 0 <= i < |r| ==> keep(r[i])
  {
    if s == [] then []
    else if keep(s[0]) then [s[0]] + Filter(s[1..], keep)
    else Filter(s[1..], keep)
  }

  /** A filter keeps exactly the accepted characters of its input. */
  lemma {:induction false} FilterMembers(s: string, keep: char -> bool)
    ensures forall i :: 0 <= i < |Filter(s, keep)| ==> Filter(s, keep)[i] in s
    ensures forall c :: c in s && keep(c) ==> c in Filter(s, keep)
  {
    if s != [] {
      FilterMembers(s[1..], keep);
      assert s == [s[0]] + s[1..];
    }
  }

  lemma {:induction false} FilterAppend(a: string, b: string, keep: char -> bool)
    ensures Filter(a + b, keep) == Filter(a, keep) + Filter(b, keep)
  {
    if a == [] {
      assert a + b == b;
    } else {
      assert (a + b)[0] == a[0] && (a + b)[1..] == a[1..] + b;
      FilterAppend(a[1..], b, keep);
    }
  }

  /** A filter that accepts every character keeps the string whole. */
  lemma {:induction false} FilterKeepsAll(s: string, keep: char -> bool)
    requires forall i :: 0 <= i < |s| ==> keep(s[i])
    ensures Filter(s, keep) == s
  {
    if s != [] {
      FilterKeepsAll(s[1..], keep);
      assert [s[0]] + s[1..] == s;
    }
  }

  /** The first piece of `s.split(sep)` starts `s` and holds no `sep`. */
  lemma {:induction false} SplitHead(s: string, sep: char)
    ensures |Split(s, sep)[0]| <= |s|
    ensures Split(s, sep)[0] == s[..|Split(s, sep)[0]|]
    ensures sep !in Split(s, sep)[0]
    decreases |s|
  {
    if s != [] {
      SplitHead(s[1..], sep);
      if s[0] != sep {
        var h := Split(s[1..], sep)[0];
        assert Split(s, sep)[0] == [s[0]] + h;
        assert s[..|h| + 1] == [s[0]] + s[1..][..|h|];
      }
    }
  }

  /** The first piece of `s.split(sep)` stops at the first `sep`. */
  lemma {:induction false} SplitHeadStops(s: string, sep: char)
    ensures |Split(s, sep)[0]| < |s| ==> s[|Split(s, sep)[0]|] == sep
    decreases |s|
  {
    if s != [] {
      SplitHeadStops(s[1..], sep);
      if s[0] != sep {
        assert |Split(s, sep)[0]| == 1 + |Split(s[1..], sep)[0]|;
      }
    }
  }

  /** Everything before the first dot, and nothing more (`s.split('.')[0]` if `'.' in s`). */
  function BeforeDot(s: string): (r: string)
    ensures |r| <= |s| && r == s[..|r|]
    ensures '.' !in r
    ensures |r| < |s| ==> s[|r|] == '.'
  {
    if '.' in s then SplitHead(s, '.'); SplitHeadStops(s, '.'); Split(s, '.')[0] else s
  }

  /** Splitting text that starts without the separator: the first piece starts with that text. */
  lemma {:induction false} SplitHeadAppend(a: string, b: string, sep: char)
    requires sep !in a
    ensures Split(a + b, sep)[0] == a + Split(b, sep)[0]
    decreases |a|
  {
    if a == [] {
      assert a + b == b;
    } else {
      assert (a + b)[0] == a[0] && (a + b)[1..] == a[1..] + b;
      SplitHeadAppend(a[1..], b, sep);
      assert [a[0]] + (a[1..] + Split(b, sep)[0]) == a + Split(b, sep)[0];
    }
  }

  /** Text without a dot passes through the cut whole. */
  lemma BeforeDotKeeps(a: string, b: string)
    requires '.' !in a
    ensures BeforeDot(a + b) == a + BeforeDot(b)
  {
    if '.' in b {
      assert '.' in a + b by {
        var k :| 0 <= k < |b| && b[k] == '.';
        assert (a + b)[|a| + k] == '.';
      }
      SplitHeadAppend(a, b, '.');
    } else {
      assert '.' !in a + b;
    }
  }

  /** `int()` on a decimal body: digits, with single underscores only between two digits. */
  predicate IsIntBody(d: string) {
    && d != []
    && IsDigitChar(d[0])
    && IsDigitChar(d[|d| - 1])
    && (forall i :: 0 <= i < |d| ==> IsDigitChar(d[i]) || d[i] == '_')
    && NoDoubleUnderscore(d)
  }

  predicate NoDoubleUnderscore(d: string)
    decreases |d|
  {
    |d| < 2 || (!(d[0] == '_' && d[1] == '_') && NoDoubleUnderscore(d[1..]))
  }

  function BodyValue(d: string): nat
    requires IsIntBody(d)
  {
    var digits := Filter(d, NotUnderscore);
    FilterMembers(d, NotUnderscore);
    assert forall i :: 0 <= i < |digits| ==> IsDigitChar(digits[i]);
    DigitsValue(digits)
  }

  /** An optional sign, then a decimal body. */
  function SignedInt(t: string): Option<int> {
    if t != [] && (t[0] == '+' || t[0] == '-') then
      if IsIntBody(t[1..]) then Some(if t[0] == '-' then -(BodyValue(t[1..]) as int) else BodyValue(t[1..])) else None
    else if IsIntBody(t) then Some(BodyValue(t))
    else None
  }

  /** `int(s)` for a `str`: surrounding whitespace, then an optional sign and a decimal body. */
  function PyInt(s: string): Option<int> {
    SignedInt(Strip(s))
  }

  /**
   * What `price_str_to_int` hands to `int()`: the price without dollar signs
   * and whitespace, cut at the first dot, without commas.
   */
  function PriceResidue(s: string): (r: string)
    ensures forall i :: 0 <= i < |r| ==> NotDollarOrSpace(r[i]) && r[i] != '.' && r[i] != ','
  {
    var clean := Filter(s, NotDollarOrSpace);
    var cut := BeforeDot(clean);
    assert forall c :: c in cut ==> c in clean;
    FilterMembers(cut, NotComma);
    Filter(cut, NotComma)
  }

  /**
   * `price_str_to_int` on a string: `None` for the empty string, for an
   * empty residue and for a residue `int()` rejects (the caught
   * `ValueError`); never an exception.
   */
  function PriceStrToInt(s: string): (r: Option<int>)
    ensures s == [] ==> r == None
    ensures r.Some? ==> PriceResidue(s) != [] && r == PyInt(PriceResidue(s))
  {
    if s == [] then None
    else
      var residue := PriceResidue(s);
      if residue == [] then None else PyInt(residue)
  }

  lemma StripNoSpace(s: string)
    requires forall i :: 0 <= i < |s| ==> !IsSpace(s[i])
    ensures Strip(s) == s
  {
    assert TrimLeft(s) == s;
  }

  /** A body of plain digits has no doubled underscore. */
  lemma {:induction false} DigitsNoUnderscore(d: string)
    requires forall i :: 0 <= i < |d| ==> IsDigitChar(d[i])
    ensures NoDoubleUnderscore(d)
    decreases |d|
  {
    if |d| >= 2 {
      DigitsNoUnderscore(d[1..]);
    }
  }

  /** An unsigned run of digits is read as its decimal value. */
  lemma PyIntDigits(d: string)
    requires IsDigits(d)
    ensures PyInt(d) == Some(DigitsValue(d))
  {
    StripNoSpace(d);
    DigitsNoUnderscore(d);
    FilterKeepsAll(d, NotUnderscore);
  }

  /** Digits and commas survive the removal of dollar signs and whitespace. */
  lemma CleanDigits(d: string)
    requires forall i :: 0 <= i < |d| ==> IsDigitChar(d[i]) || d[i] == ','
    ensures Filter(d, NotDollarOrSpace) == d
  {
    forall i | 0 <= i < |d|
      ensures NotDollarOrSpace(d[i])
    {
      assert !IsSpace(d[i]);
    }
    FilterKeepsAll(d, NotDollarOrSpace);
  }

  /** Whatever follows the decimal point is cut away. */
  lemma CutAtDot(tail: string)
    requires tail == [] || tail[0] == '.'
    ensures BeforeDot(Filter(tail, NotDollarOrSpace)) == []
  {
    if tail != [] {
      assert tail == [tail[0]] + tail[1..];
      FilterAppend([tail[0]], tail[1..], NotDollarOrSpace);
      var ct := Filter(tail, NotDollarOrSpace);
      assert ct[0] == '.';
    }
  }

  /** The residue of `"$" + d + tail` is `d` without its commas. */
  lemma DropDollar(dollar: string, d: string, tail: string)
    requires dollar == "$"
    requires forall i :: 0 <= i < |d| ==> IsDigitChar(d[i]) || d[i] == ','
    ensures Filter(dollar + d + tail, NotDollarOrSpace) == d + Filter(tail, NotDollarOrSpace)
  {
    FilterAppend(dollar + d, tail, NotDollarOrSpace);
    FilterAppend(dollar, d, NotDollarOrSpace);
    assert Filter(dollar, NotDollarOrSpace) == [];
    CleanDigits(d);
  }

  lemma ResidueOfDigits(dollar: string, d: string, tail: string)
    requires dollar == "$"
    requires forall i :: 0 <= i < |d| ==> IsDigitChar(d[i]) || d[i] == ','
    requires tail == [] || tail[0] == '.'
    ensures PriceResidue(dollar + d + tail) == Filter(d, NotComma)
  {
    var ct := Filter(tail, NotDollarOrSpace);
    DropDollar(dollar, d, tail);
    BeforeDotKeeps(d, ct);
    CutAtDot(tail);
    assert d + [] == d;
  }

  /** `"$" + d + tail`, `d` digits and commas, `tail` empty or starting at the decimal point. */
  lemma PriceOfDigits(d: string, tail: string)
    requires forall i :: 0 <= i < |d| ==> IsDigitChar(d[i]) || d[i] == ','
    requires IsDigits(Filter(d, NotComma))
    requires tail == [] || tail[0] == '.'
    ensures PriceStrToInt("$" + d + tail) == Some(DigitsValue(Filter(d, NotComma)))
  {
    ResidueOfDigits("$", d, tail);
    PyIntDigits(Filter(d, NotComma));
  }

  function DigitChar(k: nat): (c: char)
    requires k < 10
    ensures IsDigitChar(c) && DigitValue(c) == k
  {
    ('0' as int + k) as char
  }

  /** The three digits of `m < 1000`, with leading zeros. */
  function Triple(m: nat): (r: string)
    requires m < 1000
    ensures |r| == 3 && forall i :: 0 <= i < 3 ==> IsDigitChar(r[i])
  {
    [DigitChar(m / 100), DigitChar(m / 10 % 10), DigitChar(m % 10)]
  }

  lemma DigitsValueSnoc(s: string, c: char)
    requires IsDigitChar(c) && forall i :: 0 <= i < |s| ==> IsDigitChar(s[i])
    ensures DigitsValue(s + [c]) == DigitsValue(s) * 10 + DigitValue(c)
  {
    assert (s + [c])[..|s|] == s;
  }

  /** Three more digits multiply the value by a thousand. */
  lemma DigitsValueTriple(head: string, m: nat)
    requires m < 1000 && forall i :: 0 <= i < |head| ==> IsDigitChar(head[i])
    ensures DigitsValue(head + Triple(m)) == DigitsValue(head) * 1000 + m
  {
    var a, b, c := DigitChar(m / 100), DigitChar(m / 10 % 10), DigitChar(m % 10);
    assert Triple(m) == [a, b, c];
    DigitsValueSnoc(head, a);
    DigitsValueSnoc(head + [a], b);
    DigitsValueSnoc(head + [a] + [b], c);
    assert head + [a] + [b] + [c] == head + Triple(m);
    ThreeDigits(m);
  }

  lemma ThreeDigits(m: nat)
    requires m < 1000
    ensures m == m / 100 * 100 + m / 10 % 10 * 10 + m % 10
  {
    var q := m / 10;
    assert m == q * 10 + m % 10;
    assert q == q / 10 * 10 + q % 10;
    assert q / 10 == m / 100;
  }

  /** `f"{n:,}"`: `n` with a comma before each group of three digits. */
  function Grouped(n: nat): (r: string)
    ensures forall i :: 0 <= i < |r| ==> IsDigitChar(r[i]) || r[i] == ','
    decreases n
  {
    if n < 1000 then DecimalString(n) else Grouped(n / 1000) + "," + Triple(n % 1000)
  }

  lemma {:induction false} GroupedDigits(n: nat)
    ensures IsDigits(Filter(Grouped(n), NotComma))
    ensures DigitsValue(Filter(Grouped(n), NotComma)) == n
    decreases n
  {
    if n < 1000 {
      DecimalStringValue(n);
      FilterKeepsAll(DecimalString(n), NotComma);
    } else {
      var g, t := Grouped(n / 1000), Triple(n % 1000);
      var head := Filter(g, NotComma);
      GroupedDigits(n / 1000);
      FilterAppend(g + ",", t, NotComma);
      FilterAppend(g, ",", NotComma);
      assert Filter(",", NotComma) == [];
      FilterKeepsAll(t, NotComma);
      assert Filter(Grouped(n), NotComma) == head + t;
      DigitsValueTriple(head, n % 1000);
    }
  }

  /** A price written with thousands separators reads back as its whole dollars, whatever the cents. */
  lemma PriceRoundTrip(n: nat, tail: string)
    requires tail == [] || tail[0] == '.'
    ensures PriceStrToInt("$" + Grouped(n) + tail) == Some(n)
  {
    GroupedDigits(n);
    PriceOfDigits(Grouped(n), tail);
  }

  lemma PriceExample()
    ensures PriceStrToInt("$1,234.56") == Some(1234)
  {
    assert Grouped(1234) == "1,234";
    assert "$1,234.56" == "$" + Grouped(1234) + ".56";
    PriceRoundTrip(1234, ".56");
  }

  predicate IsLetter(c: char) {
    'a' <= c <= 'z' || 'A' <= c <= 'Z'
  }

  /** A letter before the first dot of `s` is still there in the residue. */
  lemma LetterInResidue(a: string, c: char, b: string)
    requires '.' !in a && IsLetter(c)
    ensures c in PriceResidue(a + [c] + b)
  {
    var ca, cb := Filter(a, NotDollarOrSpace), Filter(b, NotDollarOrSpace);
    FilterAroundLetter(a, c, b);
    FilterMembers(a, NotDollarOrSpace);
    BeforeDotKeeps(ca, [c] + cb);
    BeforeDotKeeps([c], cb);
    var cut := BeforeDot(Filter(a + [c] + b, NotDollarOrSpace));
    assert cut == ca + ([c] + BeforeDot(cb));
    assert cut[|ca|] == c;
    FilterMembers(cut, NotComma);
  }

  lemma FilterAroundLetter(a: string, c: char, b: string)
    requires IsLetter(c)
    ensures Filter(a + [c] + b, NotDollarOrSpace) == Filter(a, NotDollarOrSpace) + ([c] + Filter(b, NotDollarOrSpace))
  {
    FilterAppend(a + [c], b, NotDollarOrSpace);
    FilterAppend(a, [c], NotDollarOrSpace);
    assert Filter([c], NotDollarOrSpace) == [c] by {
      assert !IsSpace(c);
    }
  }

  /** Text without whitespace is parsed as it stands. */
  lemma PyIntNoSpace(t: string)
    requires forall i :: 0 <= i < |t| ==> !IsSpace(t[i])
    ensures PyInt(t) == SignedInt(t)
  {
    StripNoSpace(t);
  }

  lemma SignedIntRejectsLetter(t: string, k: nat)
    requires k < |t| && IsLetter(t[k])
    ensures SignedInt(t) == None
  {
    if t[0] == '+' || t[0] == '-' {
      assert t[1..][k - 1] == t[k];
    }
  }

  /** `int()` refuses text that holds a letter. */
  lemma PyIntRejectsLetter(t: string, k: nat)
    requires k < |t| && IsLetter(t[k])
    requires forall i :: 0 <= i < |t| ==> !IsSpace(t[i])
    ensures PyInt(t) == None
  {
    PyIntNoSpace(t);
    SignedIntRejectsLetter(t, k);
  }

  /** A letter before the decimal point ("Call", "N/A", "$12k") makes the price unreadable. */
  lemma PriceWithLetter(a: string, c: char, b: string)
    requires '.' !in a && IsLetter(c)
    ensures PriceStrToInt(a + [c] + b) == None
  {
    LetterInResidue(a, c, b);
    var residue := PriceResidue(a + [c] + b);
    var k :| 0 <= k < |residue| && residue[k] == c;
    PyIntRejectsLetter(residue, k);
  }

  // ---------------------------------------------------------------------
  // Normalisation

  /** A MongoDB document: its fields in insertion order. */
  type Document = seq<(string, Json)>

  /** `doc.get(key, default)`. */
  function Field(doc: Document, key: string, default: Json): Json {
    Dicts.Get(doc, key).GetOr(default)
  }

  /** The phone, price, URL and source of a document, read the way its collection stores them. */
  datatype Extracted = Extracted(phone: Json, price: Json, sourceUrl: Json, source: Json)

  function Extract(doc: Document, collection: string): Extracted {
    if collection == "numbers" then
      Extracted(Field(doc, "phone", JString("")), Field(doc, "price", JString("")),
                Field(doc, "source_url", JString("")), Field(doc, "source", JString("excellent_number")))
    else if collection == "numberbarn_numbers" then
      Extracted(Field(doc, "number", JString("")), Field(doc, "price", JString("")),
                Field(doc, "source_url", JString("")), JString("numberbarn"))
    else
      Extracted(Field(doc, "phone", Field(doc, "number", JString(""))), Field(doc, "price", JString("")),
                Field(doc, "source_url", Field(doc, "url", JString(""))), Field(doc, "source", JString(collection)))
  }

  /**
   * A `phone_numbers` row. The adjusted price `original_price * 1.2` is kept
   * exactly, in tenths: `adjustedTenths` is `original_price * 12`.
   * `updated_at` is the clock reading taken for the row.
   */
  datatype PgRow = PgRow(phone: Json, priceStr: string, originalPrice: int, adjustedTenths: int,
                         sourceUrl: Json, source: Json, updatedAt: int)

  /** `original_price * 1.2`, in tenths. */
  function AdjustedTenths(p: int): int {
    p * 12
  }

  /**
   * The row built from a document's fields, if any. A falsy phone skips the
   * document. A price that is not a string never yields a row: a falsy one
   * reads as `None`, a truthy one makes `re.sub` raise. A price read as
   * `None` drops the document too, because `None * 1.2` raises inside the
   * per-document `try`.
   */
  function RowOf(e: Extracted, now: int): Option<PgRow> {
    if !Truthy(e.phone) then None
    else
      match e.price
      case JString(s) =>
        (match PriceStrToInt(s)
         case Some(p) => Some(PgRow(e.phone, s, p, AdjustedTenths(p), e.sourceUrl, e.source, now))
         case None => None)
      case _ => None
  }

  lemma RowOfSkips(e: Extracted, now: int)
    requires !Truthy(e.phone) || !e.price.JString? || PriceStrToInt(e.price.s).None?
    ensures RowOf(e, now) == None
  {
  }

  lemma RowOfBuilds(e: Extracted, now: int, s: string, p: int)
    requires Truthy(e.phone) && e.price == JString(s) && PriceStrToInt(s) == Some(p)
    ensures RowOf(e, now) == Some(PgRow(e.phone, s, p, AdjustedTenths(p), e.sourceUrl, e.source, now))
  {
  }

  /** One document of `normalize_mongo_data`. */
  function NormalizeDoc(doc: Document, collection: string, now: int): Option<PgRow> {
    RowOf(Extract(doc, collection), now)
  }

  /** Fields yield a row exactly when the phone is truthy and the price is a string `price_str_to_int` reads. */
  lemma RowOfSome(e: Extracted, now: int)
    ensures RowOf(e, now).Some? <==> Truthy(e.phone) && e.price.JString? && PriceStrToInt(e.price.s).Some?
  {
  }

  /** A row keeps the phone, price string, parsed price, URL and source, adds the 1.2-times price and is stamped with the clock reading. */
  lemma RowOfFields(e: Extracted, now: int)
    ensures RowOf(e, now).Some? ==>
              && RowOf(e, now).value.phone == e.phone && e.price == JString(RowOf(e, now).value.priceStr)
              && PriceStrToInt(RowOf(e, now).value.priceStr) == Some(RowOf(e, now).value.originalPrice)
              && RowOf(e, now).value.sourceUrl == e.sourceUrl && RowOf(e, now).value.source == e.source
              && RowOf(e, now).value.updatedAt == now
    ensures RowOf(e, now).Some? ==>
              // tenths of 1.2 times the original price
              RowOf(e, now).value.adjustedTenths == RowOf(e, now).value.originalPrice * 12
  {
  }

  /** What each document comes to, document `i` normalised at time `clock(i)`. */
  function Outcomes(docs: seq<Document>, collection: string, clock: nat -> int): (o: seq<Option<PgRow>>)
    ensures |o| == |docs| && forall i :: 0 <= i < |docs| ==> o[i] == NormalizeDoc(docs[i], collection, clock(i))
  {
    seq(|docs|, i requires 0 <= i < |docs| => NormalizeDoc(docs[i], collection, clock(i)))
  }

  /** `normalize_mongo_data(docs, collection)`: the rows of the documents that yield one, in order. */
  function Normalized(docs: seq<Document>, collection: string, clock: nat -> int): seq<PgRow> {
    Seqs.Present(Outcomes(docs, collection, clock))
  }

  /** Every normalised row comes from one of the documents, and there are no more rows than documents. */
  lemma NormalizedSound(docs: seq<Document>, collection: string, clock: nat -> int, k: nat)
    requires k < |Normalized(docs, collection, clock)|
    ensures |Normalized(docs, collection, clock)| <= |docs|
    ensures exists i :: 0 <= i < |docs| && NormalizeDoc(docs[i], collection, clock(i)) == Some(Normalized(docs, collection, clock)[k])
  {
    Seqs.PresentSound(Outcomes(docs, collection, clock), k);
  }

  /** No document that normalises to a row is lost. */
  lemma NormalizedComplete(docs: seq<Document>, collection: string, clock: nat -> int, i: nat, row: PgRow)
    requires i < |docs| && NormalizeDoc(docs[i], collection, clock(i)) == Some(row)
    ensures row in Normalized(docs, collection, clock)
  {
    Seqs.PresentComplete(Outcomes(docs, collection, clock), i);
  }

  /** Rows from `numberbarn_numbers` always carry the source "numberbarn". */
  lemma NumberbarnSource(docs: seq<Document>, clock: nat -> int, k: nat)
    requires k < |Normalized(docs, "numberbarn_numbers", clock)|
    ensures Normalized(docs, "numberbarn_numbers", clock)[k].source == JString("numberbarn")
  {
    NormalizedSound(docs, "numberbarn_numbers", clock, k);
    var i :| 0 <= i < |docs| && NormalizeDoc(docs[i], "numberbarn_numbers", clock(i)) == Some(Normalized(docs, "numberbarn_numbers", clock)[k]);
    RowOfFields(Extract(docs[i], "numberbarn_numbers"), clock(i));
  }

  // ---------------------------------------------------------------------
  // Deduplication by phone

  /** A value Python can use as a dict key: lists and dicts are unhashable. */
  predicate Hashable(j: Json) {
    !j.JArray? && !j.JObject?
  }

  predicate AllHashable(data: seq<PgRow>) {
    forall i :: 0 <= i < |data| ==> Hashable(data[i].phone)
  }

  predicate KeyedByPhone(d: seq<(Json, PgRow)>) {
    forall i :: 0 <= i < |d| ==> d[i].0 == d[i].1.phone
  }

  predicate HasPhone(data: seq<PgRow>, p: Json) {
    exists i :: 0 <= i < |data| && data[i].phone == p
  }

  /**
   * `unique_data` after the first loop of `insert_to_postgresql`: a record
   * replaces the stored one for its phone only when strictly newer.
   */
  function Latest(data: seq<PgRow>): seq<(Json, PgRow)> {
    if data == [] then []
    else
      var n := |data| - 1;
      var init := Latest(data[..n]);
      var r := data[n];
      match Dicts.Get(init, r.phone)
      case Some(e) => if r.updatedAt > e.updatedAt then Dicts.Set(init, r.phone, r) else init
      case None => Dicts.Set(init, r.phone, r)
  }

  /** The deduplicated records have distinct phones, each stored under its own phone. */
  lemma {:induction false} LatestShape(data: seq<PgRow>)
    ensures Dicts.DistinctKeys(Latest(data)) && KeyedByPhone(Latest(data))
  {
    if data != [] {
      var n := |data| - 1;
      var init := Latest(data[..n]);
      var r := data[n];
      LatestShape(data[..n]);
      Dicts.SetKeys(init, r.phone, r);
      Dicts.SetItems(init, r.phone, r);
    }
  }

  /** Record `j` is the one kept for phone `p`: the newest, and the first among equally new ones. */
  predicate IsLatest(data: seq<PgRow>, p: Json, j: int) {
    && 0 <= j < |data|
    && data[j].phone == p
    && (forall i :: 0 <= i < |data| && data[i].phone == p ==> data[i].updatedAt <= data[j].updatedAt)
    && (forall i :: 0 <= i < j && data[i].phone == p ==> data[i].updatedAt < data[j].updatedAt)
  }

  /** The deduplicated records have one entry per phone of the input, and no other. */
  lemma {:induction false} LatestKeys(data: seq<PgRow>, p: Json)
    ensures Dicts.HasKey(Latest(data), p) <==> HasPhone(data, p)
  {
    if data != [] {
      var n := |data| - 1;
      var init := Latest(data[..n]);
      var r := data[n];
      LatestKeys(data[..n], p);
      Dicts.SetGet(init, r.phone, r, p);
      HasPhoneLast(data, p);
    }
  }

  /** A phone occurs in the records when it occurs before the last one or is the last one's. */
  lemma HasPhoneLast(data: seq<PgRow>, p: Json)
    requires data != []
    ensures HasPhone(data, p) <==> HasPhone(data[..|data| - 1], p) || data[|data| - 1].phone == p
  {
    var n := |data| - 1;
    if HasPhone(data[..n], p) {
      var i :| 0 <= i < n && data[..n][i].phone == p;
      assert data[i].phone == p;
    }
    if HasPhone(data, p) {
      var i :| 0 <= i < |data| && data[i].phone == p;
      if i < n {
        assert data[..n][i].phone == p;
      }
    }
  }

  /** How one more record changes what the dictionary holds for phone `p`. */
  lemma LatestStep(data: seq<PgRow>, p: Json)
    requires data != []
    ensures var n := |data| - 1; var prev := Dicts.Get(Latest(data[..n]), p);
      Dicts.Get(Latest(data), p) ==
        if data[n].phone != p then prev
        else if prev.Some? && data[n].updatedAt <= prev.value.updatedAt then prev
        else Some(data[n])
  {
    var n := |data| - 1;
    Dicts.SetGet(Latest(data[..n]), data[n].phone, data[n], p);
  }

  /** A kept record stays kept when the next record is not newer for its phone. */
  lemma IsLatestKept(data: seq<PgRow>, p: Json, j: int)
    requires data != [] && IsLatest(data[..|data| - 1], p, j)
    requires data[|data| - 1].phone != p || data[|data| - 1].updatedAt <= data[j].updatedAt
    ensures IsLatest(data, p, j)
  {
    var n := |data| - 1;
    forall i | 0 <= i < n
      ensures data[i] == data[..n][i]
    {
    }
  }

  /** The last record is kept when it is newer than every earlier record of its phone. */
  lemma IsLatestLast(data: seq<PgRow>, p: Json)
    requires data != [] && data[|data| - 1].phone == p
    requires forall i :: 0 <= i < |data| - 1 && data[i].phone == p ==> data[i].updatedAt < data[|data| - 1].updatedAt
    ensures IsLatest(data, p, |data| - 1)
  {
    var n := |data| - 1;
    forall i | 0 <= i < n
      ensures data[i] == data[..n][i]
    {
    }
  }

  /** For each phone, the deduplicated record is the newest one, the first of equally new ones. */
  lemma {:induction false} LatestWins(data: seq<PgRow>, p: Json)
    requires HasPhone(data, p)
    ensures exists j :: IsLatest(data, p, j) && Dicts.Get(Latest(data), p) == Some(data[j])
  {
    var n := |data| - 1;
    var init := data[..n];
    var r := data[n];
    LatestStep(data, p);
    LatestKeys(init, p);
    if HasPhone(init, p) {
      LatestWins(init, p);
      var j :| IsLatest(init, p, j) && Dicts.Get(Latest(init), p) == Some(init[j]);
      assert init[j] == data[j];
      if r.phone != p || r.updatedAt <= data[j].updatedAt {
        IsLatestKept(data, p, j);
      } else {
        forall i | 0 <= i < n && data[i].phone == p
          ensures data[i].updatedAt < r.updatedAt
        {
          assert init[i] == data[i];
        }
        IsLatestLast(data, p);
      }
    } else {
      forall i | 0 <= i < n
        ensures data[i].phone != p
      {
        assert init[i] == data[i];
      }
      IsLatestLast(data, p);
    }
  }

  /** `list(d.values())`. */
  function Values(d: seq<(Json, PgRow)>): (r: seq<PgRow>)
    ensures |r| == |d| && forall i :: 0 <= i < |d| ==> r[i] == d[i].1
  {
    seq(|d|, i requires 0 <= i < |d| => d[i].1)
  }

  // ---------------------------------------------------------------------
  // The phone_numbers table

  /** `INSERT ... ON CONFLICT (phone) DO UPDATE` of the rows, one after the other. */
  function UpsertAll(t: map<Json, PgRow>, rows: seq<PgRow>): map<Json, PgRow> {
    if rows == [] then t
    else
      var last := rows[|rows| - 1];
      UpsertAll(t, rows[..|rows| - 1])[last.phone := last]
  }

  lemma {:induction false} UpsertAllAppend(t: map<Json, PgRow>, a: seq<PgRow>, b: seq<PgRow>)
    ensures UpsertAll(t, a + b) == UpsertAll(UpsertAll(t, a), b)
    decreases |b|
  {
    if b == [] {
      assert a + b == a;
    } else {
      var n := |b| - 1;
      assert (a + b)[..|a + b| - 1] == a + b[..n];
      UpsertAllAppend(t, a, b[..n]);
    }
  }

  /** Upserting the values of a dictionary keyed by phone stores each under its key. */
  lemma {:induction false} UpsertValues(t: map<Json, PgRow>, d: seq<(Json, PgRow)>, p: Json)
    requires Dicts.DistinctKeys(d) && KeyedByPhone(d)
    ensures p in UpsertAll(t, Values(d)) <==> p in t || Dicts.HasKey(d, p)
    ensures Dicts.HasKey(d, p) ==> UpsertAll(t, Values(d))[p] == Dicts.Get(d, p).value
    ensures !Dicts.HasKey(d, p) && p in t ==> UpsertAll(t, Values(d))[p] == t[p]
  {
    if d != [] {
      var n := |d| - 1;
      var init := d[..n];
      var (k, v) := d[n];
      assert Values(d)[..n] == Values(init);
      assert Dicts.DistinctKeys(init) && KeyedByPhone(init);
      assert !Dicts.HasKey(init, k);
      assert d == init + [(k, v)];
      Dicts.SetGet(init, k, v, p);
      UpsertValues(t, init, p);
    }
  }

  /** The table after a successful `insert_to_postgresql(data)` outside dry-run mode. */
  function Inserted(t: map<Json, PgRow>, data: seq<PgRow>): map<Json, PgRow> {
    UpsertAll(t, Values(Latest(data)))
  }

  /**
   * Inserting `data` adds exactly its phones; each holds its newest record
   * (the first of equally new ones); every other phone keeps its row.
   */
  lemma InsertedRows(t: map<Json, PgRow>, data: seq<PgRow>, p: Json)
    ensures p in Inserted(t, data) <==> p in t || HasPhone(data, p)
    ensures HasPhone(data, p) ==> exists j :: IsLatest(data, p, j) && Inserted(t, data)[p] == data[j]
    ensures !HasPhone(data, p) && p in t ==> Inserted(t, data)[p] == t[p]
  {
    LatestShape(data);
    UpsertValues(t, Latest(data), p);
    LatestKeys(data, p);
    if HasPhone(data, p) {
      LatestWins(data, p);
    }
  }

  function Phones(rows: seq<PgRow>): set<Json> {
    set i | 0 <= i < |rows| :: rows[i].phone
  }

  /** The phones in the table after an insert: those before and those of the data. */
  lemma InsertedKeys(t: map<Json, PgRow>, data: seq<PgRow>)
    ensures Inserted(t, data).Keys == t.Keys + Phones(data)
  {
    forall p
      ensures p in Inserted(t, data) <==> p in t.Keys + Phones(data)
    {
      InsertedRows(t, data, p);
      if p in Phones(data) {
        var i :| 0 <= i < |data| && data[i].phone == p;
        assert HasPhone(data, p);
      }
    }
  }

  // ---------------------------------------------------------------------
  // Batches

  /** `[rows[i:i + size] for i in range(0, len(rows), size)]`. */
  function Batches(rows: seq<PgRow>, size: int): (b: seq<seq<PgRow>>)
    requires size > 0
    decreases |rows|
  {
    if rows == [] then []
    else if |rows| <= size then [rows]
    else [rows[..size]] + Batches(rows[size..], size)
  }

  function Flatten(b: seq<seq<PgRow>>): seq<PgRow> {
    if b == [] then [] else b[0] + Flatten(b[1..])
  }

  /** The batches are non-empty, hold at most `size` rows, and put the rows back together in order. */
  lemma {:induction false} BatchesCover(rows: seq<PgRow>, size: int)
    requires size > 0
    ensures Flatten(Batches(rows, size)) == rows
    ensures forall k :: 0 <= k < |Batches(rows, size)| ==> 0 < |Batches(rows, size)[k]| <= size
    ensures forall k :: 0 <= k < |Batches(rows, size)| - 1 ==> |Batches(rows, size)[k]| == size
    decreases |rows|
  {
    if |rows| > size {
      BatchesCover(rows[size..], size);
      var b := Batches(rows, size);
      assert b[1..] == Batches(rows[size..], size);
      assert rows[..size] + rows[size..] == rows;
    } else if rows != [] {
      assert Flatten([rows]) == rows + Flatten([]);
    }
  }

  /** The table after the batches are inserted, one transaction each, in order. */
  function Applied(t: map<Json, PgRow>, batches: seq<seq<PgRow>>): map<Json, PgRow> {
    if batches == [] then t
    else Inserted(Applied(t, batches[..|batches| - 1]), batches[|batches| - 1])
  }

  /** Inserting the batches one after another adds exactly the phones they hold. */
  lemma {:induction false} AppliedKeys(t: map<Json, PgRow>, batches: seq<seq<PgRow>>)
    ensures Applied(t, batches).Keys == t.Keys + Phones(Flatten(batches))
  {
    if batches != [] {
      var n := |batches| - 1;
      AppliedKeys(t, batches[..n]);
      InsertedKeys(Applied(t, batches[..n]), batches[n]);
      FlattenSnoc(batches[..n], batches[n]);
      assert batches[..n] + [batches[n]] == batches;
      PhonesAppend(Flatten(batches[..n]), batches[n]);
    }
  }

  /** One more batch of a prefix is inserted on top of the prefix's table. */
  lemma AppliedPrefix(t: map<Json, PgRow>, batches: seq<seq<PgRow>>, k: nat)
    requires k < |batches|
    ensures Applied(t, batches[..k + 1]) == Inserted(Applied(t, batches[..k]), batches[k])
  {
    Seqs.PrefixPrefix(batches, k, k + 1);
  }

  lemma {:induction false} FlattenSnoc(b: seq<seq<PgRow>>, x: seq<PgRow>)
    ensures Flatten(b + [x]) == Flatten(b) + x
  {
    if b == [] {
      assert Flatten([x]) == x + Flatten([]);
    } else {
      assert (b + [x])[1..] == b[1..] + [x];
      FlattenSnoc(b[1..], x);
    }
  }

  lemma PhonesAppend(a: seq<PgRow>, b: seq<PgRow>)
    ensures Phones(a + b) == Phones(a) + Phones(b)
  {
    forall p | p in Phones(a + b)
      ensures p in Phones(a) + Phones(b)
    {
      var i :| 0 <= i < |a + b| && (a + b)[i].phone == p;
      if i >= |a| {
        assert b[i - |a|].phone == p;
      }
    }
    forall p | p in Phones(a) + Phones(b)
      ensures p in Phones(a + b)
    {
      if p in Phones(a) {
        var i :| 0 <= i < |a| && a[i].phone == p;
        assert (a + b)[i].phone == p;
      } else {
        var i :| 0 <= i < |b| && b[i].phone == p;
        assert (a + b)[|a| + i].phone == p;
      }
    }
  }

  // ---------------------------------------------------------------------
  // Insert, sync and run

  /**
   * How a step ends: with the boolean it returns, or with an exception that
   * escapes it (`range()` with a zero step raises `ValueError`).
   */
  datatype Outcome = Done(ok: bool) | Raised

  /** What MongoDB gives for one collection: today's documents, the clock readings, the batches PostgreSQL rejects. */
  datatype Pull = Pull(docs: seq<Document>, clock: nat -> int, rejected: set<nat>)

  /**
   * Whether `insert_to_postgresql(data)` returns True. Empty data succeeds
   * at once; an unhashable phone or a zero batch size raises inside the
   * `try` and is caught; outside dry-run mode a database error rolls back.
   */
  predicate InsertOk(data: seq<PgRow>, batchSize: int, dryRun: bool, dbError: bool) {
    data == [] || (AllHashable(data) && batchSize != 0 && (dryRun || !dbError))
  }

  /** The table after `insert_to_postgresql(data)`: only a committed insert of some batch changes it. */
  function InsertTable(t: map<Json, PgRow>, data: seq<PgRow>, batchSize: int, dryRun: bool, dbError: bool): map<Json, PgRow> {
    if data != [] && InsertOk(data, batchSize, dryRun, dbError) && !dryRun && batchSize > 0 then Inserted(t, data) else t
  }

  /** Whether batch `k` of a collection is inserted. */
  predicate BatchOk(batches: seq<seq<PgRow>>, k: nat, batchSize: int, dryRun: bool, rejected: set<nat>)
    requires k < |batches|
  {
    InsertOk(batches[k], batchSize, dryRun, k in rejected)
  }

  /** The number of the first batch, from `k` on, whose insert fails; `|batches|` when none does. */
  function FirstFailure(batches: seq<seq<PgRow>>, k: nat, batchSize: int, dryRun: bool, rejected: set<nat>): (f: nat)
    requires k <= |batches|
    ensures k <= f <= |batches|
    decreases |batches| - k
  {
    if k == |batches| || !BatchOk(batches, k, batchSize, dryRun, rejected) then k
    else FirstFailure(batches, k + 1, batchSize, dryRun, rejected)
  }

  /** The first failure is the one batch from `k` on that fails with every batch before it inserted. */
  lemma {:induction false} FirstFailureIs(batches: seq<seq<PgRow>>, k: nat, f: nat, batchSize: int, dryRun: bool, rejected: set<nat>)
    requires k <= f <= |batches|
    requires forall j :: k <= j < f ==> BatchOk(batches, j, batchSize, dryRun, rejected)
    requires f == |batches| || !BatchOk(batches, f, batchSize, dryRun, rejected)
    ensures FirstFailure(batches, k, batchSize, dryRun, rejected) == f
    decreases f - k
  {
    if k < f {
      FirstFailureIs(batches, k + 1, f, batchSize, dryRun, rejected);
    }
  }
  /** Every batch before the first failure is inserted, and the first failure, if any, is not. */
  lemma {:induction false} FirstFailureSpec(batches: seq<seq<PgRow>>, k: nat, batchSize: int, dryRun: bool, rejected: set<nat>)
    requires k <= |batches|
    ensures var f := FirstFailure(batches, k, batchSize, dryRun, rejected);
      && (forall j :: k <= j < f ==> BatchOk(batches, j, batchSize, dryRun, rejected))
      && (f == |batches| || !BatchOk(batches, f, batchSize, dryRun, rejected))
    decreases |batches| - k
  {
    if k < |batches| && BatchOk(batches, k, batchSize, dryRun, rejected) {
      FirstFailureSpec(batches, k + 1, batchSize, dryRun, rejected);
    }
  }

  /** Batch `k`, reached with no failure before it, decides whether the first failure is `k`. */
  lemma FirstFailureStep(batches: seq<seq<PgRow>>, k: nat, batchSize: int, dryRun: bool, rejected: set<nat>)
    requires k < |batches| && k <= FirstFailure(batches, 0, batchSize, dryRun, rejected)
    ensures BatchOk(batches, k, batchSize, dryRun, rejected) ==> k < FirstFailure(batches, 0, batchSize, dryRun, rejected)
    ensures !BatchOk(batches, k, batchSize, dryRun, rejected) ==> k == FirstFailure(batches, 0, batchSize, dryRun, rejected)
  {
    FirstFailureSpec(batches, 0, batchSize, dryRun, rejected);
  }


  /** The rows `sync_collection` inserts: today's documents, normalised. */
  function PulledRows(name: string, pull: Pull): seq<PgRow> {
    Normalized(pull.docs, name, pull.clock)
  }

  /**
   * How inserting a collection's valid rows ends. No rows is a success; a
   * zero batch size raises; a negative one inserts nothing; otherwise it
   * succeeds when no batch fails.
   */
  function RowsOutcome(rows: seq<PgRow>, batchSize: int, dryRun: bool, rejected: set<nat>): Outcome {
    if rows == [] then Done(true)
    else if batchSize == 0 then Raised
    else if batchSize < 0 then Done(true)
    else
      var b := Batches(rows, batchSize);
      Done(FirstFailure(b, 0, batchSize, dryRun, rejected) == |b|)
  }

  /** The table after inserting a collection's rows: every batch before the first failed one is committed. */
  function RowsTable(t: map<Json, PgRow>, rows: seq<PgRow>, batchSize: int, dryRun: bool, rejected: set<nat>): map<Json, PgRow> {
    if rows == [] || batchSize <= 0 || dryRun then t
    else
      var b := Batches(rows, batchSize);
      Applied(t, b[..FirstFailure(b, 0, batchSize, dryRun, rejected)])
  }

  /** How `sync_collection(name)` ends. */
  function CollectionOutcome(name: string, pull: Pull, batchSize: int, dryRun: bool): Outcome {
    RowsOutcome(PulledRows(name, pull), batchSize, dryRun, pull.rejected)
  }

  /** The table after `sync_collection(name)`. */
  function CollectionTable(t: map<Json, PgRow>, name: string, pull: Pull, batchSize: int, dryRun: bool): map<Json, PgRow> {
    RowsTable(t, PulledRows(name, pull), batchSize, dryRun, pull.rejected)
  }

  /** The collections holding phone numbers: names containing "number", or every name when none does. */
  function PhoneCollections(listing: Option<seq<string>>): (r: seq<string>) {
    match listing
    case None => []
    case Some(names) =>
      var matching := FilterNames(names);
      if matching == [] then names else matching
  }

  function FilterNames(names: seq<string>): (r: seq<string>)
    ensures forall n :: n in r <==> n in names && Contains(Lower(n), "number")
  {
    if names == [] then []
    else if Contains(Lower(names[0]), "number") then [names[0]] + FilterNames(names[1..])
    else FilterNames(names[1..])
  }

  /** The outcome of syncing each collection. */
  function CollectionOutcomes(cols: seq<string>, env: string -> Pull, batchSize: int, dryRun: bool): (o: seq<Outcome>)
    ensures |o| == |cols| && forall i :: 0 <= i < |cols| ==> o[i] == CollectionOutcome(cols[i], env(cols[i]), batchSize, dryRun)
  {
    seq(|cols|, i requires 0 <= i < |cols| => CollectionOutcome(cols[i], env(cols[i]), batchSize, dryRun))
  }

  /** The combined outcome of steps taken in order: an exception stops the run, and all must succeed. */
  function Tally(outs: seq<Outcome>): Outcome {
    if outs == [] then Done(true)
    else
      match Tally(outs[..|outs| - 1])
      case Raised => Raised
      case Done(ok) =>
        match outs[|outs| - 1]
        case Raised => Raised
        case Done(o) => Done(ok && o)
  }

  /** How `sync_all_collections` ends: no collection at all is a failure. */
  function AllOutcome(cols: seq<string>, env: string -> Pull, batchSize: int, dryRun: bool): Outcome {
    if cols == [] then Done(false) else Tally(CollectionOutcomes(cols, env, batchSize, dryRun))
  }

  /** The table after syncing the collections in order. */
  function AllTable(t: map<Json, PgRow>, cols: seq<string>, env: string -> Pull, batchSize: int, dryRun: bool): map<Json, PgRow> {
    if cols == [] then t
    else
      var n := |cols| - 1;
      CollectionTable(AllTable(t, cols[..n], env, batchSize, dryRun), cols[n], env(cols[n]), batchSize, dryRun)
  }

  /** `sync_all_collections` returns True exactly when there is a collection and every one syncs. */
  lemma {:induction false} AllSynced(cols: seq<string>, env: string -> Pull, batchSize: int, dryRun: bool)
    ensures AllOutcome(cols, env, batchSize, dryRun) == Done(true) <==>
              cols != [] && forall i :: 0 <= i < |cols| ==> CollectionOutcome(cols[i], env(cols[i]), batchSize, dryRun) == Done(true)
  {
    if cols != [] {
      TallyAll(CollectionOutcomes(cols, env, batchSize, dryRun));
    }
  }

  lemma {:induction false} TallyAll(outs: seq<Outcome>)
    ensures Tally(outs) == Done(true) <==> forall i :: 0 <= i < |outs| ==> outs[i] == Done(true)
  {
    if outs != [] {
      var n := |outs| - 1;
      TallyAll(outs[..n]);
      forall i | 0 <= i < n
        ensures outs[..n][i] == outs[i]
      {
      }
    }
  }

  /** Only a zero batch size makes a collection's sync raise. */
  lemma RaisedNeedsZero(name: string, pull: Pull, batchSize: int, dryRun: bool)
    ensures CollectionOutcome(name, pull, batchSize, dryRun) == Raised <==> batchSize == 0 && PulledRows(name, pull) != []
  {
  }

  /** A dry run leaves the table as it was. */
  lemma {:induction false} DryRunKeepsTable(t: map<Json, PgRow>, cols: seq<string>, env: string -> Pull, batchSize: int)
    ensures AllTable(t, cols, env, batchSize, true) == t
  {
    if cols != [] {
      DryRunKeepsTable(t, cols[..|cols| - 1], env, batchSize);
    }
  }

  /** A zero batch size leaves the table as it was. */
  lemma {:induction false} ZeroBatchKeepsTable(t: map<Json, PgRow>, cols: seq<string>, env: string -> Pull, dryRun: bool)
    ensures AllTable(t, cols, env, 0, dryRun) == t
  {
    if cols != [] {
      ZeroBatchKeepsTable(t, cols[..|cols| - 1], env, dryRun);
    }
  }

  /**
   * Rows that sync in earnest leave every one of their phones in the table,
   * and add no other phone.
   */
  lemma RowsSyncedKeys(t: map<Json, PgRow>, rows: seq<PgRow>, batchSize: int, dryRun: bool, rejected: set<nat>)
    requires RowsOutcome(rows, batchSize, dryRun, rejected) == Done(true) && !dryRun && batchSize > 0
    ensures RowsTable(t, rows, batchSize, dryRun, rejected).Keys == t.Keys + Phones(rows)
  {
    if rows != [] {
      var b := Batches(rows, batchSize);
      Seqs.PrefixAll(b);
      AppliedKeys(t, b);
      BatchesCover(rows, batchSize);
    }
  }

  /** The collections synced are listed ones, and a non-empty listing gives a non-empty choice. */
  lemma PhoneCollectionsListed(names: seq<string>)
    ensures forall n :: n in PhoneCollections(Some(names)) ==> n in names
    ensures names != [] ==> PhoneCollections(Some(names)) != []
    ensures (exists n :: n in names && Contains(Lower(n), "number")) ==>
              forall n :: n in PhoneCollections(Some(names)) <==> n in names && Contains(Lower(n), "number")
  {
    if names != [] {
      assert names[0] in names;
    }
  }

  /** The outcome after one more step. */
  lemma TallyPrefix(outs: seq<Outcome>, i: nat)
    requires i < |outs|
    ensures outs[i] == Raised ==> Tally(outs[..i + 1]) == Raised
    ensures Tally(outs[..i]).Done? && outs[i].Done? ==> Tally(outs[..i + 1]) == Done(Tally(outs[..i]).ok && outs[i].ok)
  {
    Seqs.PrefixPrefix(outs, i, i + 1);
  }

  /** One more step that did not raise: the count of successes keeps pace exactly when it succeeded. */
  lemma TallyStep(outs: seq<Outcome>, i: nat, successes: nat)
    requires i < |outs| && outs[i].Done? && successes <= i && Tally(outs[..i]) == Done(successes == i)
    ensures var s := if outs[i].ok then successes + 1 else successes;
      s <= i + 1 && Tally(outs[..i + 1]) == Done(s == i + 1)
  {
    TallyPrefix(outs, i);
  }

  /** The table after one more collection. */
  lemma AllTablePrefix(t: map<Json, PgRow>, cols: seq<string>, i: nat, env: string -> Pull, batchSize: int, dryRun: bool)
    requires i < |cols|
    ensures AllTable(t, cols[..i + 1], env, batchSize, dryRun) ==
            CollectionTable(AllTable(t, cols[..i], env, batchSize, dryRun), cols[i], env(cols[i]), batchSize, dryRun)
  {
    Seqs.PrefixPrefix(cols, i, i + 1);
  }

  /** A step that raised keeps the whole run raised. */
  lemma {:induction false} TallyRaisedSticks(outs: seq<Outcome>, m: nat)
    requires m <= |outs| && Tally(outs[..m]) == Raised
    ensures Tally(outs) == Raised
    decreases |outs| - m
  {
    if m < |outs| {
      assert outs[..m + 1][..m] == outs[..m];
      TallyRaisedSticks(outs, m + 1);
    } else {
      assert outs[..m] == outs;
    }
  }

  /** A collection whose sync raises ends the run raised, and the collections after it change nothing. */
  lemma RaisedStops(t: map<Json, PgRow>, cols: seq<string>, i: nat, env: string -> Pull, batchSize: int, dryRun: bool)
    requires i < |cols| && CollectionOutcome(cols[i], env(cols[i]), batchSize, dryRun) == Raised
    ensures AllOutcome(cols, env, batchSize, dryRun) == Raised
    ensures AllTable(t, cols[..i + 1], env, batchSize, dryRun) == AllTable(t, cols, env, batchSize, dryRun)
  {
    var outs := CollectionOutcomes(cols, env, batchSize, dryRun);
    TallyPrefix(outs, i);
    TallyRaisedSticks(outs, i + 1);
    RaisedNeedsZero(cols[i], env(cols[i]), batchSize, dryRun);
    ZeroBatchKeepsTable(t, cols[..i + 1], env, dryRun);
    ZeroBatchKeepsTable(t, cols, env, dryRun);
  }

  // ---------------------------------------------------------------------
  // The loops of the synchroniser

  /** The `unique_data` loop of `insert_to_postgresql`; None when a phone cannot be a dict key. */
  method Deduplicate(data: seq<PgRow>) returns (unique: Option<seq<(Json, PgRow)>>)
    ensures unique.Some? <==> AllHashable(data)
    ensures unique.Some? ==> unique.value == Latest(data)
  {
    var d: seq<(Json, PgRow)> := [];
    for i := 0 to |data|
      invariant d == Latest(data[..i])
      invariant AllHashable(data[..i])
    {
      var r := data[i];
      if !Hashable(r.phone) {
        return None;
      }
      Seqs.PrefixPrefix(data, i, i + 1);
      match Dicts.Get(d, r.phone)
      case Some(e) =>
        if r.updatedAt > e.updatedAt {
          d := Dicts.Set(d, r.phone, r);
        }
      case None =>
        d := Dicts.Set(d, r.phone, r);
    }
    Seqs.PrefixAll(data);
    return Some(d);
  }

  /** The document loop of `normalize_mongo_data`. */
  method NormalizeMongoData(docs: seq<Document>, collection: string, clock: nat -> int) returns (rows: seq<PgRow>)
    ensures rows == Normalized(docs, collection, clock)
  {
    ghost var outs := Outcomes(docs, collection, clock);
    rows := [];
    for i := 0 to |docs|
      invariant rows == Seqs.Present(outs[..i])
    {
      Seqs.PresentPrefix(outs, i);
      var e := Extract(docs[i], collection);
      assert outs[i] == RowOf(e, clock(i));
      if !Truthy(e.phone) {
        RowOfSkips(e, clock(i));
        continue;
      }
      match e.price
      case JString(s) =>
        var price := PriceStrToInt(s);
        if price.Some? {
          var row := PgRow(e.phone, s, price.value, AdjustedTenths(price.value), e.sourceUrl, e.source, clock(i));
          RowOfBuilds(e, clock(i), s, price.value);
          rows := rows + [row];
        } else {
          RowOfSkips(e, clock(i));
        }
      case _ =>
        RowOfSkips(e, clock(i));
    }
    Seqs.PresentAll(outs);
  }

  function Min(a: int, b: int): int {
    if a <= b then a else b
  }

  /**
   * The synchroniser's state: its settings and the `phone_numbers` table it
   * writes, keyed by the table's unique `phone` column.
   */
  class Synchroniser {
    const batchSize: int
    const dryRun: bool
    var table: map<Json, PgRow>

    constructor(batchSize: int, dryRun: bool, table: map<Json, PgRow>)
      ensures this.batchSize == batchSize && this.dryRun == dryRun && this.table == table
    {
      this.batchSize := batchSize;
      this.dryRun := dryRun;
      this.table := table;
    }

    /**
     * `insert_to_postgresql(data)`: deduplicate, then upsert batch by batch
     * in one transaction committed at the end. `dbError` says whether the
     * database rejects the first statement sent to it.
     */
    method InsertToPostgresql(data: seq<PgRow>, dbError: bool) returns (ok: bool)
      modifies this
      ensures ok == InsertOk(data, batchSize, dryRun, dbError)
      ensures table == InsertTable(old(table), data, batchSize, dryRun, dbError)
    {
      if data == [] {
        return true;
      }
      var unique := Deduplicate(data);
      if unique.None? {
        return false;
      }
      var rows := Values(unique.value);
      if batchSize == 0 {
        return false;
      }
      var pending, failed := ExecuteBatches(table, rows, dbError);
      if failed {
        return false;
      }
      if !dryRun {
        if dbError {
          return false;
        }
        table := pending;
      }
      return true;
    }

    /**
     * The batch loop of `insert_to_postgresql` inside its transaction:
     * `pending` is what the transaction has written so far. In dry-run mode
     * nothing is sent; otherwise the first statement fails on a database
     * error.
     */
    method ExecuteBatches(t: map<Json, PgRow>, rows: seq<PgRow>, dbError: bool) returns (pending: map<Json, PgRow>, failed: bool)
      requires batchSize != 0
      ensures failed <==> !dryRun && dbError && batchSize > 0 && rows != []
      ensures !failed ==> pending == if dryRun || batchSize < 0 then t else UpsertAll(t, rows)
    {
      pending := t;
      var i := 0;
      while 0 < batchSize && i < |rows|
        invariant 0 <= i <= |rows|
        invariant !dryRun ==> pending == UpsertAll(t, rows[..i])
        invariant dryRun ==> pending == t
        invariant i > 0 ==> batchSize > 0 && (dryRun || !dbError)
        decreases |rows| - i
      {
        var batch := rows[i..Min(i + batchSize, |rows|)];
        if !dryRun {
          if dbError {
            return pending, true;
          }
          Seqs.PrefixSlice(rows, i, i + |batch|);
          UpsertAllAppend(t, rows[..i], batch);
          pending := UpsertAll(pending, batch);
        }
        i := i + |batch|;
      }
      Seqs.PrefixAll(rows);
      return pending, false;
    }

    /** `sync_collection(name)`: normalise today's documents and insert them batch by batch, stopping at a failure. */
    method SyncCollection(name: string, pull: Pull) returns (out: Outcome)
      modifies this
      ensures out == CollectionOutcome(name, pull, batchSize, dryRun)
      ensures table == CollectionTable(old(table), name, pull, batchSize, dryRun)
    {
      if pull.docs == [] {
        return Done(true);
      }
      var rows := NormalizeMongoData(pull.docs, name, pull.clock);
      out := SyncRows(rows, pull.rejected);
    }

    /** The batch loop of `sync_collection` over the normalised rows; batch `k` fails to insert when `k` is rejected. */
    method SyncRows(rows: seq<PgRow>, rejected: set<nat>) returns (out: Outcome)
      modifies this
      ensures out == RowsOutcome(rows, batchSize, dryRun, rejected)
      ensures table == RowsTable(old(table), rows, batchSize, dryRun, rejected)
    {
      if rows == [] {
        return Done(true);
      }
      if batchSize == 0 {
        return Raised;
      }
      if batchSize < 0 {
        // `range()` with a negative step is empty: no batch at all.
        return Done(true);
      }
      ghost var b := Batches(rows, batchSize);
      var i := 0;
      var k := 0;
      while i < |rows|
        invariant 0 <= i <= |rows| && k <= |b|
        invariant Batches(rows[i..], batchSize) == b[k..]
        invariant k <= FirstFailure(b, 0, batchSize, dryRun, rejected)
        invariant table == if dryRun then old(table) else Applied(old(table), b[..k])
        decreases |rows| - i
      {
        var next := Min(i + batchSize, |rows|);
        var batch := rows[i..next];
        BatchStep(rows, i, batchSize);
        Seqs.SuffixCons(b, k, batch, Batches(rows[next..], batchSize));
        var ok := InsertToPostgresql(batch, k in rejected);
        FirstFailureStep(b, k, batchSize, dryRun, rejected);
        if !ok {
          return Done(false);
        }
        AppliedPrefix(old(table), b, k);
        i := next;
        k := k + 1;
      }
      assert |b[k..]| == 0;
      Seqs.PrefixAll(b);
      return Done(true);
    }

    /** `sync_all_collections`: sync every phone collection, counting the ones that succeed. */
    method SyncAllCollections(listing: Option<seq<string>>, env: string -> Pull) returns (out: Outcome)
      modifies this
      ensures out == AllOutcome(PhoneCollections(listing), env, batchSize, dryRun)
      ensures table == AllTable(old(table), PhoneCollections(listing), env, batchSize, dryRun)
    {
      var cols := PhoneCollections(listing);
      if cols == [] {
        return Done(false);
      }
      out := SyncEach(cols, env);
    }

    /** The collection loop of `sync_all_collections`. */
    method SyncEach(cols: seq<string>, env: string -> Pull) returns (out: Outcome)
      requires cols != []
      modifies this
      ensures out == AllOutcome(cols, env, batchSize, dryRun)
      ensures table == AllTable(old(table), cols, env, batchSize, dryRun)
    {
      ghost var outs := CollectionOutcomes(cols, env, batchSize, dryRun);
      var successes: nat := 0;
      for i := 0 to |cols|
        invariant successes <= i
        invariant Tally(outs[..i]) == Done(successes == i)
        invariant table == AllTable(old(table), cols[..i], env, batchSize, dryRun)
      {
        var o;
        o, successes := SyncNext(cols, i, env, old(table), successes);
        if o.Raised? {
          return Raised;
        }
      }
      Seqs.PrefixAll(outs);
      Seqs.PrefixAll(cols);
      return Done(successes == |cols|);
    }

    /** One pass of the collection loop: sync collection `i`, the ones before it already synced from `t`. */
    method SyncNext(cols: seq<string>, i: nat, env: string -> Pull, ghost t: map<Json, PgRow>, successes: nat)
      returns (o: Outcome, successes': nat)
      requires i < |cols| && table == AllTable(t, cols[..i], env, batchSize, dryRun)
      requires successes <= i && Tally(CollectionOutcomes(cols, env, batchSize, dryRun)[..i]) == Done(successes == i)
      modifies this
      ensures o == CollectionOutcomes(cols, env, batchSize, dryRun)[i]
      ensures table == AllTable(t, cols[..i + 1], env, batchSize, dryRun)
      ensures o.Raised? ==> AllOutcome(cols, env, batchSize, dryRun) == Raised && table == AllTable(t, cols, env, batchSize, dryRun)
      ensures !o.Raised? ==> successes' <= i + 1 && Tally(CollectionOutcomes(cols, env, batchSize, dryRun)[..i + 1]) == Done(successes' == i + 1)
    {
      o := SyncCollection(cols[i], env(cols[i]));
      AllTablePrefix(t, cols, i, env, batchSize, dryRun);
      successes' := successes;
      if o.Raised? {
        RaisedStops(t, cols, i, env, batchSize, dryRun);
        return;
      }
      TallyStep(CollectionOutcomes(cols, env, batchSize, dryRun), i, successes);
      if o.ok {
        successes' := successes + 1;
      }
    }

    /** `run`: connect to both databases, then sync everything; an escaping exception is reported as failure. */
    method Run(mongoUp: bool, postgresUp: bool, listing: Option<seq<string>>, env: string -> Pull) returns (ok: bool)
      modifies this
      ensures ok <==> mongoUp && postgresUp && AllOutcome(PhoneCollections(listing), env, batchSize, dryRun) == Done(true)
      ensures table == if mongoUp && postgresUp then AllTable(old(table), PhoneCollections(listing), env, batchSize, dryRun) else old(table)
    {
      if !mongoUp {
        return false;
      }
      if !postgresUp {
        return false;
      }
      var out := SyncAllCollections(listing, env);
      return out == Done(true);
    }
  }

  /** The next slice `rows[i:i + size]` is the first batch of what is left, and the rest follow. */
  lemma BatchStep(rows: seq<PgRow>, i: nat, size: int)
    requires size > 0 && i < |rows|
    ensures var next := Min(i + size, |rows|);
      Batches(rows[i..], size) == [rows[i..next]] + Batches(rows[next..], size)
  {
    var next := Min(i + size, |rows|);
    if |rows[i..]| <= size {
      assert rows[i..next] == rows[i..];
      assert rows[next..] == [];
    } else {
      assert rows[i..][..size] == rows[i..next];
      assert rows[i..][size..] == rows[next..];
    }
  }
}
