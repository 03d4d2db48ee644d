/**
  The stream store and the log query service as they run, and scans over a stream that keeps
  changing between pages (app/services/monitoring/store.py, app/services/monitoring/logs.py).
*/
module LogService {
  import opened Wrappers
  import opened LogQuery

  /** The first entries of a batch with the ids they were given. */
  function Tagged(ids: seq<Id>, batch: seq<map<string, string>>): Stream
    requires |ids| <= |batch|
  {
    seq(|ids|, i requires 0 <= i < |ids| => Entry(ids[i], batch[i]))
  }

  predicate IsSuffix(t: Stream, s: Stream) {
    |t| <= |s| && t == s[|s| - |t|..]
  }

  /** Every id lies above `floor` and above all earlier ones. */
  predicate AscendingAfter(ids: seq<Id>, floor: Option<Id>) {
    && (forall i | 0 <= i < |ids| && floor.Some? :: floor.value.Before(ids[i]))
    && (forall i, j | 0 <= i < j < |ids| :: ids[i].Before(ids[j]))
  }

  lemma OneMoreId(ids: seq<Id>, floor: Option<Id>, id: Id)
    requires AscendingAfter(ids, floor)
    requires ids == [] && floor.Some? ==> floor.value.Before(id)
    requires ids != [] ==> ids[|ids| - 1].Before(id)
    ensures AscendingAfter(ids + [id], floor)
  {
  }

  lemma SuffixOfSuffix(a: Stream, b: Stream, c: Stream)
    requires IsSuffix(a, b) && IsSuffix(b, c)
    ensures IsSuffix(a, c)
  {
  }

  /** Appending and trimming keeps the stream a suffix of everything ever appended. */
  lemma OneMoreTagged(
    start: Stream, before: Stream, after: Stream, ids: seq<Id>, batch: seq<map<string, string>>, id: Id)
    requires |ids| < |batch| && IsSuffix(before, start + Tagged(ids, batch))
    requires IsSuffix(after, before + [Entry(id, batch[|ids|])])
    ensures IsSuffix(after, start + Tagged(ids + [id], batch))
  {
  }

  /** One Redis stream.  XADD draws an id above every id it ever drew and trims the oldest
      entries as it sees fit. */
  class RedisStreamStore {
    var entries: Stream
    var lastId: Option<Id>

    ghost predicate Valid()
      reads this
    {
      && Increasing(entries)
      && forall e | e in entries :: lastId.Some? && !lastId.value.Before(e.id)
    }

    constructor ()
      ensures Valid() && entries == []
    {
      entries, lastId := [], None;
    }

    /** XTRIM: drops up to `count` of the oldest entries. */
    method Trim(count: nat)
      requires Valid()
      modifies this`entries
      ensures Valid() && IsSuffix(entries, old(entries))
      ensures |entries| == if count <= |old(entries)| then |old(entries)| - count else 0
    {
      entries := entries[if count <= |entries| then count else |entries|..];
    }

    /** XADD, which drops up to `trim` of the oldest entries. */
    method Append(fields: map<string, string>, now: nat, trim: nat) returns (id: Id)
      requires Valid()
      modifies this
      ensures Valid() && lastId == Some(id)
      ensures old(lastId).Some? ==> old(lastId).value.Before(id)
      ensures IsSuffix(entries, old(entries) + [Entry(id, fields)])
      ensures |entries| == if trim <= |old(entries)| + 1 then |old(entries)| + 1 - trim else 0
    {
      id := Id(now, 0);
      if lastId.Some? && now <= lastId.value.ms {
        id := Id(lastId.value.ms, lastId.value.seqNo + 1);
      }
      entries := entries + [Entry(id, fields)];
      lastId := Some(id);
      Trim(trim);
    }

    /** One XADD per entry, each trimming what it likes, and an XTRIM at the end. */
    method AppendMany(batch: seq<map<string, string>>, now: nat, trims: seq<nat>, lastTrim: nat) returns (ids: seq<Id>)
      requires Valid() && |trims| == |batch|
      modifies this
      ensures Valid() && |ids| == |batch|
      ensures AscendingAfter(ids, old(lastId))
      ensures IsSuffix(entries, old(entries) + Tagged(ids, batch))
      ensures batch == [] ==> entries == old(entries)
    {
      ids := [];
      if batch == [] {
        return;
      }
      ghost var start, floor := entries, lastId;
      for n := 0 to |batch|
        invariant Valid() && |ids| == n
        invariant lastId == if n == 0 then floor else Some(ids[n - 1])
        invariant AscendingAfter(ids, floor)
        invariant IsSuffix(entries, start + Tagged(ids, batch))
      {
        ghost var before := entries;
        var id := Append(batch[n], now, trims[n]);
        OneMoreTagged(start, before, entries, ids, batch, id);
        OneMoreId(ids, floor, id);
        ids := ids + [id];
      }
      ghost var untrimmed := entries;
      Trim(lastTrim);
      SuffixOfSuffix(entries, untrimmed, start + Tagged(ids, batch));
    }

    /** XRANGE with one entry of look-ahead; the loop copies the raw entries out. */
    method Query(q: Query, cursor: Option<Id>, limit: nat) returns (page: Page)
      requires Valid()
      ensures page == StorePage(entries, q, cursor, limit)
    {
      var w := Window(entries, q, cursor);
      var raw := if |w| <= limit + 1 then w else w[..limit + 1];
      var hasMore := |raw| > limit;
      raw := if hasMore then raw[..limit] else raw;
      var items: Stream := [];
      for i := 0 to |raw|
        invariant items == raw[..i]
      {
        items := items + [raw[i]];
      }
      var next := None;
      if hasMore && items != [] {
        next := Some(items[|items| - 1].id);
      }
      page := Page(items, next);
    }
  }

  class LogQueryService {
    const store: RedisStreamStore

    constructor (store: RedisStreamStore)
      ensures this.store == store
    {
      this.store := store;
    }

    /** The filtering loop; `full` is the early exit at `limit` hits. */
    method Filter(raw: Stream, q: Query, limit: nat) returns (items: Stream, full: bool)
      requires limit == 0 ==> raw == []
      ensures var hits := Select(raw, (e: Entry) => Matches(q, e));
              && (full <==> 1 <= limit <= |hits|)
              && items == if full then hits[..limit] else hits
    {
      ghost var matches := (e: Entry) => Matches(q, e);
      items, full := [], false;
      var i := 0;
      while i < |raw|
        invariant 0 <= i <= |raw| && !full
        invariant items == Select(raw[..i], matches) && (limit >= 1 ==> |items| < limit)
      {
        SelectConcat(raw[..i], [raw[i]], matches);
        assert raw[..i + 1] == raw[..i] + [raw[i]];
        var item := raw[i];
        i := i + 1;
        if !Matches(q, item) {
          continue;
        }
        items := items + [item];
        if |items| >= limit {
          full := true;
          break;
        }
      }
      SelectConcat(raw[..i], raw[i..], matches);
      assert raw == raw[..i] + raw[i..];
    }

    /** Filters one raw page and picks the next cursor: the last hit of a full page, else
        whatever the store says. */
    method Query(q: Query, cursor: Option<Id>, limit: nat) returns (page: Page)
      requires store.Valid()
      ensures page == LogPage(store.entries, q, cursor, limit)
      ensures limit >= 1 ==> Covers(store.entries, q, cursor, page) && |page.items| <= limit
    {
      var raw := store.Query(q, cursor, FetchLimit(limit));
      var items, full := Filter(raw.items, q, limit);
      if full {
        page := Page(items, Some(items[|items| - 1].id));
      } else {
        page := Page(items, raw.nextCursor);
      }
      if limit >= 1 {
        PageCovers(store.entries, q, cursor, limit);
      }
    }
  }

  // ------------------------------------------------------------------ scanning a moving stream

  /** The k-th page is read from the k-th stream: between pages the stream may have grown at
      its tail, lost a prefix, or both. */
  function LiveScan(streams: seq<Stream>, q: Query, cursor: Option<Id>, limit: nat): (Stream, bool)
    decreases |streams|
  {
    if streams == [] then ([], false)
    else
      var page := LogPage(streams[0], q, cursor, limit);
      if page.nextCursor.None? then (page.items, true)
      else
        var (items, finished) := LiveScan(streams[1..], q, page.nextCursor, limit);
        (page.items + items, finished)
  }

  lemma PageMembers(s: Stream, q: Query, cursor: Option<Id>, limit: nat, e: Entry)
    requires Increasing(s) && limit >= 1
    ensures var page := LogPage(s, q, cursor, limit);
            e in page.items <==>
              e in s && Matches(q, e) && InRange(q, cursor, e.id)
              && (page.nextCursor.Some? ==> UpTo(page.nextCursor.value, e))
  {
    PageCovers(s, q, cursor, limit);
    var page := LogPage(s, q, cursor, limit);
    match page.nextCursor
    case None => SelectMembers(s, (d: Entry) => InRange(q, cursor, d.id) && Matches(q, d), e);
    case Some(next) =>
      SelectMembers(s, (d: Entry) => InRange(q, cursor, d.id) && Matches(q, d) && UpTo(next, d), e);
  }

  lemma PageOrder(s: Stream, q: Query, cursor: Option<Id>, limit: nat)
    requires Increasing(s) && limit >= 1
    ensures Increasing(LogPage(s, q, cursor, limit).items)
  {
    PageCovers(s, q, cursor, limit);
    var page := LogPage(s, q, cursor, limit);
    match page.nextCursor
    case None => SelectKeepsOrder(s, (d: Entry) => InRange(q, cursor, d.id) && Matches(q, d));
    case Some(next) =>
      SelectKeepsOrder(s, (d: Entry) => InRange(q, cursor, d.id) && Matches(q, d) && UpTo(next, d));
  }

  /** Every entry a live scan returns was sought and was there when its page was read. */
  lemma {:induction false} LiveScanIsSound(streams: seq<Stream>, q: Query, cursor: Option<Id>, limit: nat, e: Entry)
    requires (forall s | s in streams :: Increasing(s)) && limit >= 1
    requires e in LiveScan(streams, q, cursor, limit).0
    ensures Matches(q, e) && InRange(q, cursor, e.id) && exists s :: s in streams && e in s
    decreases |streams|
  {
    var page := LogPage(streams[0], q, cursor, limit);
    PageMembers(streams[0], q, cursor, limit, e);
    if e !in page.items {
      PageCovers(streams[0], q, cursor, limit);
      LiveScanIsSound(streams[1..], q, page.nextCursor, limit, e);
      var s :| s in streams[1..] && e in s;
      assert s in streams;
    } else {
      assert streams[0] in streams;
    }
  }

  /** Whatever happens to the stream between pages, ids come out strictly increasing, so no
      entry is returned twice. */
  lemma {:induction false} LiveScanNeverRepeats(streams: seq<Stream>, q: Query, cursor: Option<Id>, limit: nat)
    requires (forall s | s in streams :: Increasing(s)) && limit >= 1
    ensures Increasing(LiveScan(streams, q, cursor, limit).0)
    decreases |streams|
  {
    if streams != [] {
      assert streams[0] in streams;
      var page := LogPage(streams[0], q, cursor, limit);
      PageOrder(streams[0], q, cursor, limit);
      if page.nextCursor.Some? {
        LiveScanNeverRepeats(streams[1..], q, page.nextCursor, limit);
        var rest := LiveScan(streams[1..], q, page.nextCursor, limit).0;
        forall d, e | d in page.items && e in rest
          ensures d.id.Before(e.id)
        {
          PageMembers(streams[0], q, cursor, limit, d);
          LiveScanIsSound(streams[1..], q, page.nextCursor, limit, e);
        }
      }
    }
  }

  /** A finished live scan returns every sought entry that was present at each of its pages. */
  lemma {:induction false} LiveScanMissesNothingStable(
    streams: seq<Stream>, q: Query, cursor: Option<Id>, limit: nat, e: Entry)
    requires (forall s | s in streams :: Increasing(s)) && limit >= 1
    requires LiveScan(streams, q, cursor, limit).1
    requires (forall s | s in streams :: e in s) && Matches(q, e) && InRange(q, cursor, e.id)
    ensures e in LiveScan(streams, q, cursor, limit).0
    decreases |streams|
  {
    assert streams[0] in streams;
    PageMembers(streams[0], q, cursor, limit, e);
    var page := LogPage(streams[0], q, cursor, limit);
    if page.nextCursor.Some? && e !in page.items {
      LiveScanMissesNothingStable(streams[1..], q, page.nextCursor, limit, e);
    }
  }
}
