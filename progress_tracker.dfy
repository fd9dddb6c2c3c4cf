/**
 * Crawl-freshness history: one record per (task, key) holding when that key
 * was last crawled, so that recently crawled keys can be skipped.
 * Times are integer seconds; the clock is the `now` parameter.
 */
module ProgressTracker {
  import opened Wrappers
  import opened Json

  datatype CrawlRecord = CrawlRecord(
    lastCrawled: Option<int>,
    meta: Json,
    createdAt: Option<int>,
    updatedAt: Option<int>)

  type Records = map<(string, string), CrawlRecord>

  const SecondsPerHour := 3600

  /**
   * Whether (task, key) is due: it has no record, its record has no
   * `lastCrawled`, or it was crawled strictly before `now - freshnessHours`.
   */
  function ShouldCrawlIn(records: Records, task: string, key: string, freshnessHours: int, now: int): (r: bool)
    ensures (task, key) !in records ==> r
    ensures (task, key) in records && records[(task, key)].lastCrawled.None? ==> r
    ensures (task, key) in records && records[(task, key)].lastCrawled.Some? ==>
              (r <==> records[(task, key)].lastCrawled.value < now - freshnessHours * SecondsPerHour)
  {
    (task, key) !in records
    || records[(task, key)].lastCrawled.None?
    || records[(task, key)].lastCrawled.value < now - freshnessHours * SecondsPerHour
  }

  /** `meta or {}`. */
  function MetaOrEmpty(meta: Option<Json>): (m: Json)
    ensures meta.Some? && Truthy(meta.value) ==> m == meta.value
    ensures Truthy(m) ==> meta == Some(m)
    ensures !Truthy(m) ==> m == JObject([])
  {
    if meta.Some? && Truthy(meta.value) then meta.value else JObject([])
  }

  /**
   * The records after marking (task, key) crawled at `now`: an upsert that
   * sets lastCrawled, meta and updatedAt, and sets createdAt only on insert.
   */
  function Marked(records: Records, task: string, key: string, meta: Option<Json>, now: int): (r: Records)
    ensures r.Keys == records.Keys + {(task, key)}
    ensures r[(task, key)].lastCrawled == Some(now) && r[(task, key)].updatedAt == Some(now)
    ensures r[(task, key)].meta == MetaOrEmpty(meta)
    ensures (task, key) in records ==> r[(task, key)].createdAt == records[(task, key)].createdAt
    ensures (task, key) !in records ==> r[(task, key)].createdAt == Some(now)
    ensures forall k :: k in records && k != (task, key) ==> r[k] == records[k]
  {
    var createdAt := if (task, key) in records then records[(task, key)].createdAt else Some(now);
    records[(task, key) := CrawlRecord(Some(now), MetaOrEmpty(meta), createdAt, Some(now))]
  }

  /**
   * Right after a mark, the same key is due again at the same instant exactly
   * when the freshness window is negative; for any window of zero or more hours it is not.
   */
  lemma FreshAfterMark(records: Records, task: string, key: string, meta: Option<Json>, now: int, hours: int)
    ensures ShouldCrawlIn(Marked(records, task, key, meta, now), task, key, hours, now) <==> hours < 0
  {
    var r := Marked(records, task, key, meta, now);
    assert r[(task, key)].lastCrawled == Some(now);
    if hours < 0 {
      assert now < now - hours * SecondsPerHour;
    } else {
      assert now >= now - hours * SecondsPerHour;
    }
  }

  /** Marking one key leaves every other key's freshness answer unchanged. */
  lemma MarkTouchesOnlyKey(records: Records, task: string, key: string, meta: Option<Json>, now: int,
                           task': string, key': string, hours: int, later: int)
    requires (task', key') != (task, key)
    ensures ShouldCrawlIn(Marked(records, task, key, meta, now), task', key', hours, later)
         == ShouldCrawlIn(records, task', key', hours, later)
  {
  }

  /** A second mark keeps the creation time written by the first one. */
  lemma MarkPreservesCreated(records: Records, task: string, key: string,
                             meta1: Option<Json>, now1: int, meta2: Option<Json>, now2: int)
    ensures Marked(Marked(records, task, key, meta1, now1), task, key, meta2, now2)[(task, key)].createdAt
         == Marked(records, task, key, meta1, now1)[(task, key)].createdAt
  {
  }

  /** The crawl-history collection, keyed uniquely by (task, key). */
  class CrawlHistory {
    var records: Records

    constructor()
      ensures records == map[]
    {
      records := map[];
    }

    /** `should_crawl`: reads the record of (task, key), changes nothing. */
    method ShouldCrawl(task: string, key: string, freshnessHours: int, now: int) returns (r: bool)
      ensures r == ShouldCrawlIn(records, task, key, freshnessHours, now)
    {
      if (task, key) !in records {
        return true;
      }
      var doc := records[(task, key)];
      if doc.lastCrawled.None? {
        return true;
      }
      r := doc.lastCrawled.value < now - freshnessHours * SecondsPerHour;
    }

    /** `mark_crawled`: upserts the record of (task, key). */
    method MarkCrawled(task: string, key: string, meta: Option<Json>, now: int)
      modifies this
      ensures records == Marked(old(records), task, key, meta, now)
    {
      var createdAt := if (task, key) in records then records[(task, key)].createdAt else Some(now);
      records := records[(task, key) := CrawlRecord(Some(now), MetaOrEmpty(meta), createdAt, Some(now))];
    }
  }
}
