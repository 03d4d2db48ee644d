/**
  Paging through a log stream: a filter with its own cursor on top of a store that pages by
  look-ahead (app/services/monitoring/logs.py, app/services/monitoring/store.py).
*/
module LogQuery {
  import opened Wrappers

  /** A stream id `<ms>-<seq>`. */
  datatype Id = Id(ms: nat, seqNo: nat) {
    predicate Before(other: Id) {
      ms < other.ms || (ms == other.ms && seqNo < other.seqNo)
    }
  }

  datatype Entry = Entry(id: Id, fields: map<string, string>)

  type Stream = seq<Entry>

  datatype Page = Page(items: seq<Entry>, nextCursor: Option<Id>)

  datatype Query = Query(
    level: Option<string>,
    requestId: Option<string>,
    logger: Option<string>,
    since: Option<nat>,
    until: Option<nat>
  )

  predicate Increasing(s: Stream) {
    forall i, j | 0 <= i < j < |s| :: s[i].id.Before(s[j].id)
  }

  // ------------------------------------------------------------------ what a scan is about

  /** The last sequence number `until` reaches within its millisecond. */
  const LAST_SEQ: nat := 9999999

  /** Where XRANGE starts: after the cursor if there is one, else at `since`. */
  predicate AtOrAfterStart(q: Query, cursor: Option<Id>, id: Id) {
    if cursor.Some? then cursor.value.Before(id)
    else if q.since.Some? then !id.Before(Id(q.since.value, 0))
    else true
  }

  predicate AtOrBeforeEnd(q: Query, id: Id) {
    q.until.Some? ==> !Id(q.until.value, LAST_SEQ).Before(id)
  }

  predicate InRange(q: Query, cursor: Option<Id>, id: Id) {
    AtOrAfterStart(q, cursor, id) && AtOrBeforeEnd(q, id)
  }

  /** `if wanted and raw_item.get(field) != wanted: continue`: an empty value filters nothing. */
  predicate Wanted(wanted: Option<string>, e: Entry, field: string) {
    wanted.None? || wanted.value == "" || (field in e.fields && e.fields[field] == wanted.value)
  }

  predicate Matches(q: Query, e: Entry) {
    Wanted(q.level, e, "level") && Wanted(q.requestId, e, "request_id") && Wanted(q.logger, e, "logger")
  }

  function Select(s: Stream, p: Entry -> bool): Stream {
    if s == [] then [] else (if p(s[0]) then [s[0]] else []) + Select(s[1..], p)
  }

  /** The entries XRANGE walks. */
  function Window(s: Stream, q: Query, cursor: Option<Id>): Stream {
    Select(s, (e: Entry) => InRange(q, cursor, e.id))
  }

  /** The entries a caller who scans from `cursor` is looking for. */
  function Sought(s: Stream, q: Query, cursor: Option<Id>): Stream {
    Select(s, (e: Entry) => InRange(q, cursor, e.id) && Matches(q, e))
  }

  // ------------------------------------------------------------------ the two layers

  /** `RedisStreamStore.query`: one entry more than asked for tells whether there is a next page. */
  function StorePage(s: Stream, q: Query, cursor: Option<Id>, limit: nat): Page {
    var w := Window(s, q, cursor);
    if |w| <= limit then Page(w, None)
    else Page(w[..limit], if limit == 0 then None else Some(w[limit - 1].id))
  }

  function FetchLimit(limit: nat): nat {
    if limit * 4 < 2000 then limit * 4 else 2000
  }

  /** `LogQueryService.query`: the cursor is the last hit of a full page, else the store's. */
  function LogPage(s: Stream, q: Query, cursor: Option<Id>, limit: nat): Page {
    var raw := StorePage(s, q, cursor, FetchLimit(limit));
    var hits := Select(raw.items, (e: Entry) => Matches(q, e));
    if 1 <= limit <= |hits| then Page(hits[..limit], Some(hits[limit - 1].id))
    else Page(hits, raw.nextCursor)
  }

  // ------------------------------------------------------------------ selections

  lemma {:induction false} SelectMembers(s: Stream, p: Entry -> bool, e: Entry)
    ensures e in Select(s, p) <==> e in s && p(e)
  {
    if s != [] {
      SelectMembers(s[1..], p, e);
      assert s == [s[0]] + s[1..];
    }
  }

  lemma {:induction false} SelectKeepsOrder(s: Stream, p: Entry -> bool)
    requires Increasing(s)
    ensures Increasing(Select(s, p)) && |Select(s, p)| <= |s|
  {
    if s != [] {
      SelectKeepsOrder(s[1..], p);
      forall e | e in Select(s[1..], p)
        ensures s[0].id.Before(e.id)
      {
        SelectMembers(s[1..], p, e);
      }
    }
  }

  lemma {:induction false} SelectSame(s: Stream, p: Entry -> bool, p': Entry -> bool)
    requires forall e | e in s :: p(e) == p'(e)
    ensures Select(s, p) == Select(s, p')
  {
    if s != [] {
      SelectSame(s[1..], p, p');
    }
  }

  lemma {:induction false} SelectTwice(s: Stream, p: Entry -> bool, p': Entry -> bool)
    ensures Select(Select(s, p), p') == Select(s, (e: Entry) => p(e) && p'(e))
  {
    if s != [] {
      SelectTwice(s[1..], p, p');
      var rest := Select(s[1..], p);
      if p(s[0]) {
        assert ([s[0]] + rest)[1..] == rest;
      } else {
        assert [] + rest == rest;
      }
    }
  }

  lemma {:induction false} SelectNothing(s: Stream, p: Entry -> bool)
    requires forall e | e in s :: !p(e)
    ensures Select(s, p) == []
  {
    if s != [] {
      SelectNothing(s[1..], p);
    }
  }

  lemma {:induction false} SelectEverything(s: Stream, p: Entry -> bool)
    requires forall e | e in s :: p(e)
    ensures Select(s, p) == s
  {
    if s != [] {
      SelectEverything(s[1..], p);
    }
  }

  lemma {:induction false} SelectConcat(s: Stream, t: Stream, p: Entry -> bool)
    ensures Select(s + t, p) == Select(s, p) + Select(t, p)
  {
    if s == [] {
      assert s + t == t;
    } else {
      var head := if p(s[0]) then [s[0]] else [];
      calc {
        Select(s + t, p);
        { assert (s + t)[0] == s[0] && (s + t)[1..] == s[1..] + t; }
        head + Select(s[1..] + t, p);
        { SelectConcat(s[1..], t, p); }
        head + (Select(s[1..], p) + Select(t, p));
        { ConcatIsAssociative(head, Select(s[1..], p), Select(t, p)); }
        (head + Select(s[1..], p)) + Select(t, p);
      }
    }
  }

  predicate UpTo(bound: Id, e: Entry) {
    !bound.Before(e.id)
  }

  lemma HeadIsUpTo(s: Stream, n: nat, e: Entry)
    requires Increasing(s) && 1 <= n <= |s| && e in s[..n]
    ensures UpTo(s[n - 1].id, e)
  {
  }

  lemma TailIsPast(s: Stream, n: nat, e: Entry)
    requires Increasing(s) && 1 <= n <= |s| && e in s[n..]
    ensures !UpTo(s[n - 1].id, e)
  {
  }

  /** In an increasing stream, cutting at the id of position `n - 1` keeps the first `n`. */
  lemma CutAt(s: Stream, n: nat)
    requires Increasing(s) && 1 <= n <= |s|
    ensures Select(s, (e: Entry) => UpTo(s[n - 1].id, e)) == s[..n]
  {
    var p := (e: Entry) => UpTo(s[n - 1].id, e);
    forall e | e in s[..n]
      ensures p(e)
    {
      HeadIsUpTo(s, n, e);
    }
    forall e | e in s[n..]
      ensures !p(e)
    {
      TailIsPast(s, n, e);
    }
    Halves(s[..n], s[n..], p);
    assert s == s[..n] + s[n..];
  }

  lemma Halves(s: Stream, t: Stream, p: Entry -> bool)
    requires forall e | e in s :: p(e)
    requires forall e | e in t :: !p(e)
    ensures Select(s + t, p) == s
  {
    SelectConcat(s, t, p);
    SelectEverything(s, p);
    SelectNothing(t, p);
  }

  lemma PastStaysPast(s: Stream, bound: Id, e: Entry)
    requires Increasing(s) && s != [] && !UpTo(bound, s[0]) && e in s[1..]
    ensures !UpTo(bound, e)
  {
  }

  lemma SelectStep(s: Stream, p: Entry -> bool)
    requires s != []
    ensures p(s[0]) ==> Select(s, p) == [s[0]] + Select(s[1..], p)
    ensures !p(s[0]) ==> Select(s, p) == Select(s[1..], p)
  {
  }

  /** Cutting an increasing stream in two: what is up to the bound comes first. */
  lemma {:induction false} SplitAt(s: Stream, bound: Id, p: Entry -> bool)
    requires Increasing(s)
    ensures Select(s, p) == Select(s, (e: Entry) => p(e) && UpTo(bound, e))
                          + Select(s, (e: Entry) => p(e) && !UpTo(bound, e))
  {
    var upTo := (e: Entry) => p(e) && UpTo(bound, e);
    var past := (e: Entry) => p(e) && !UpTo(bound, e);
    if s != [] {
      SplitAt(s[1..], bound, p);
      var head := if p(s[0]) then [s[0]] else [];
      var before, after := Select(s[1..], upTo), Select(s[1..], past);
      SelectStep(s, p);
      SelectStep(s, upTo);
      SelectStep(s, past);
      if UpTo(bound, s[0]) {
        ConcatIsAssociative(head, before, after);
      } else {
        forall e | e in s[1..]
          ensures !upTo(e)
        {
          PastStaysPast(s, bound, e);
        }
        SelectNothing(s[1..], upTo);
      }
    }
  }

  // ------------------------------------------------------------------ one page

  /** A page covers a stretch: it holds everything sought up to its cursor, or everything if
      it has none, and its cursor lies in the range strictly after the previous one. */
  ghost predicate Covers(s: Stream, q: Query, cursor: Option<Id>, page: Page) {
    match page.nextCursor
    case None => page.items == Sought(s, q, cursor)
    case Some(next) =>
      && page.items == Select(s, (e: Entry) => InRange(q, cursor, e.id) && Matches(q, e) && UpTo(next, e))
      && InRange(q, cursor, next)
      && exists e :: e in s && e.id == next
  }

  lemma WindowOrder(s: Stream, q: Query, cursor: Option<Id>)
    requires Increasing(s)
    ensures Increasing(Window(s, q, cursor))
    ensures forall e :: e in Window(s, q, cursor) <==> e in s && InRange(q, cursor, e.id)
  {
    var p := (e: Entry) => InRange(q, cursor, e.id);
    SelectKeepsOrder(s, p);
    forall e
      ensures e in Window(s, q, cursor) <==> e in s && p(e)
    {
      SelectMembers(s, p, e);
    }
  }

  lemma SoughtIsFilteredWindow(s: Stream, q: Query, cursor: Option<Id>)
    ensures Sought(s, q, cursor) == Select(Window(s, q, cursor), (e: Entry) => Matches(q, e))
  {
    var inRange := (e: Entry) => InRange(q, cursor, e.id);
    var matches := (e: Entry) => Matches(q, e);
    SelectTwice(s, inRange, matches);
    SelectSame(s, (e: Entry) => inRange(e) && matches(e), (e: Entry) => InRange(q, cursor, e.id) && Matches(q, e));
  }

  /** Everything sought up to an id, seen through the window. */
  lemma SoughtUpTo(s: Stream, q: Query, cursor: Option<Id>, next: Id)
    ensures Select(s, (e: Entry) => InRange(q, cursor, e.id) && Matches(q, e) && UpTo(next, e))
         == Select(Sought(s, q, cursor), (e: Entry) => UpTo(next, e))
    ensures Select(s, (e: Entry) => InRange(q, cursor, e.id) && Matches(q, e) && UpTo(next, e))
         == Select(Select(Window(s, q, cursor), (e: Entry) => UpTo(next, e)), (e: Entry) => Matches(q, e))
  {
    var sought := (e: Entry) => InRange(q, cursor, e.id) && Matches(q, e);
    var inRange := (e: Entry) => InRange(q, cursor, e.id);
    var matches := (e: Entry) => Matches(q, e);
    var upTo := (e: Entry) => UpTo(next, e);
    var all := (e: Entry) => InRange(q, cursor, e.id) && Matches(q, e) && UpTo(next, e);
    SelectTwice(s, sought, upTo);
    SelectSame(s, (e: Entry) => sought(e) && upTo(e), all);
    SelectTwice(s, inRange, upTo);
    var windowed := (e: Entry) => inRange(e) && upTo(e);
    SelectTwice(s, windowed, matches);
    SelectSame(s, (e: Entry) => windowed(e) && matches(e), all);
  }

  /** Whichever of the two cursors a page returns, it covers its stretch. */
  lemma PageCovers(s: Stream, q: Query, cursor: Option<Id>, limit: nat)
    requires Increasing(s) && limit >= 1
    ensures Covers(s, q, cursor, LogPage(s, q, cursor, limit))
    ensures |LogPage(s, q, cursor, limit).items| <= limit
  {
    var w := Window(s, q, cursor);
    var raw := StorePage(s, q, cursor, FetchLimit(limit));
    var matches := (e: Entry) => Matches(q, e);
    var hits := Select(raw.items, matches);
    WindowOrder(s, q, cursor);
    SoughtIsFilteredWindow(s, q, cursor);
    SelectKeepsOrder(raw.items, matches);
    if limit <= |hits| {
      FullPageCovers(s, q, cursor, limit, raw.items, hits);
    } else if raw.nextCursor.Some? {
      PartialPageCovers(s, q, cursor, FetchLimit(limit));
    }
  }

  lemma PartialPageCovers(s: Stream, q: Query, cursor: Option<Id>, n: nat)
    requires Increasing(s) && 1 <= n <= |Window(s, q, cursor)|
    ensures var w := Window(s, q, cursor);
            Covers(s, q, cursor, Page(Select(w[..n], (e: Entry) => Matches(q, e)), Some(w[n - 1].id)))
  {
    var w := Window(s, q, cursor);
    WindowOrder(s, q, cursor);
    SoughtIsFilteredWindow(s, q, cursor);
    CutAt(w, n);
    SoughtUpTo(s, q, cursor, w[n - 1].id);
    assert w[n - 1] in w;
  }

  lemma FullPageCovers(s: Stream, q: Query, cursor: Option<Id>, limit: nat, raw: Stream, hits: Stream)
    requires Increasing(s) && 1 <= limit <= |hits|
    requires raw <= Window(s, q, cursor) && hits == Select(raw, (e: Entry) => Matches(q, e))
    ensures Covers(s, q, cursor, Page(hits[..limit], Some(hits[limit - 1].id)))
  {
    var w := Window(s, q, cursor);
    var matches := (e: Entry) => Matches(q, e);
    var sought := Sought(s, q, cursor);
    var next := hits[limit - 1].id;
    WindowOrder(s, q, cursor);
    SoughtIsFilteredWindow(s, q, cursor);
    SelectConcat(raw, w[|raw|..], matches);
    assert w == raw + w[|raw|..];
    assert hits <= sought && sought[..limit] == hits[..limit];
    SelectKeepsOrder(w, matches);
    CutAt(sought, limit);
    SoughtUpTo(s, q, cursor, next);
    SelectMembers(w, matches, hits[limit - 1]);
  }

  // ------------------------------------------------------------------ a whole scan

  lemma WindowShrinks(s: Stream, q: Query, cursor: Option<Id>, next: Id)
    requires Increasing(s) && InRange(q, cursor, next) && exists e :: e in s && e.id == next
    ensures |Window(s, q, Some(next))| < |Window(s, q, cursor)|
  {
    var w := Window(s, q, cursor);
    var after := (e: Entry) => !UpTo(next, e);
    var inRange := (e: Entry) => InRange(q, cursor, e.id);
    RangeAfter(s, q, cursor, next);
    SplitAt(s, next, inRange);
    var upTo := (e: Entry) => inRange(e) && UpTo(next, e);
    var e :| e in s && e.id == next;
    SelectMembers(s, upTo, e);
    SelectSame(s, (e: Entry) => inRange(e) && !UpTo(next, e), (e: Entry) => InRange(q, Some(next), e.id));
  }

  /** Starting after `next` is the same as staying in the old range and going past `next`. */
  lemma RangeAfter(s: Stream, q: Query, cursor: Option<Id>, next: Id)
    requires InRange(q, cursor, next)
    ensures forall e: Entry :: InRange(q, Some(next), e.id) <==> InRange(q, cursor, e.id) && !UpTo(next, e)
  {
  }

  /** What a client asks for, in the terms of its parameters. */
  predicate AskedFor(q: Query, cursor: Option<Id>, e: Entry) {
    && (cursor.Some? ==>
          cursor.value.ms < e.id.ms || (cursor.value.ms == e.id.ms && cursor.value.seqNo < e.id.seqNo))
    && (cursor.None? && q.since.Some? ==> q.since.value <= e.id.ms)
    && (q.until.Some? ==> e.id.ms < q.until.value || (e.id.ms == q.until.value && e.id.seqNo <= 9999999))
    && (q.level.Some? && q.level.value != "" ==> "level" in e.fields && e.fields["level"] == q.level.value)
    && (q.requestId.Some? && q.requestId.value != "" ==>
          "request_id" in e.fields && e.fields["request_id"] == q.requestId.value)
    && (q.logger.Some? && q.logger.value != "" ==> "logger" in e.fields && e.fields["logger"] == q.logger.value)
  }

  lemma SoughtIsAskedFor(s: Stream, q: Query, cursor: Option<Id>, e: Entry)
    ensures e in Sought(s, q, cursor) <==> e in s && AskedFor(q, cursor, e)
  {
    SelectMembers(s, (d: Entry) => InRange(q, cursor, d.id) && Matches(q, d), e);
  }

  /** How far a page gets: it is the last one exactly when it has read the whole rest of the
      range and has room left; a full page ends at its last hit; any other has read the most
      entries a page may read, four times the limit but no more than 2000. */
  lemma PageExtent(s: Stream, q: Query, cursor: Option<Id>, limit: nat)
    requires Increasing(s) && limit >= 1
    ensures var page := LogPage(s, q, cursor, limit);
            var w := Window(s, q, cursor);
            var most := if 4 * limit < 2000 then 4 * limit else 2000;
            && |page.items| <= limit
            && (page.nextCursor == None <==> |w| <= most && |Sought(s, q, cursor)| < limit)
            && (|page.items| == limit ==> page.nextCursor == Some(page.items[limit - 1].id))
            && (|page.items| < limit && page.nextCursor.Some? ==>
                  |w| > most && page.nextCursor == Some(w[most - 1].id))
  {
    PageCovers(s, q, cursor, limit);
    SoughtIsFilteredWindow(s, q, cursor);
    var w := Window(s, q, cursor);
    assert |w| <= FetchLimit(limit) ==> StorePage(s, q, cursor, FetchLimit(limit)).items == w;
  }

  /** Page after page until there is no cursor. */
  function Scan(s: Stream, q: Query, cursor: Option<Id>, limit: nat): Stream
    requires Increasing(s)
    decreases |Window(s, q, cursor)|
  {
    var page := LogPage(s, q, cursor, limit);
    if page.nextCursor.None? then page.items
    else
      EmptyLimitHasNoCursor(s, q, cursor, limit);
      PageCovers(s, q, cursor, limit);
      WindowShrinks(s, q, cursor, page.nextCursor.value);
      page.items + Scan(s, q, page.nextCursor, limit)
  }

  lemma EmptyLimitHasNoCursor(s: Stream, q: Query, cursor: Option<Id>, limit: nat)
    ensures limit == 0 ==> LogPage(s, q, cursor, limit) == Page([], None)
  {
  }

  /** On a quiet stream a scan ends and returns exactly what is sought, in id order, if and
      only if pages may hold something (the router demands it) or nothing is sought. */
  lemma {:induction false} ScanIsExact(s: Stream, q: Query, cursor: Option<Id>, limit: nat)
    requires Increasing(s)
    ensures Scan(s, q, cursor, limit) == Sought(s, q, cursor) <==> limit >= 1 || Sought(s, q, cursor) == []
    ensures Increasing(Scan(s, q, cursor, limit))
    decreases |Window(s, q, cursor)|
  {
    EmptyLimitHasNoCursor(s, q, cursor, limit);
    SelectKeepsOrder(s, (e: Entry) => InRange(q, cursor, e.id) && Matches(q, e));
    var page := LogPage(s, q, cursor, limit);
    if limit >= 1 {
      PageCovers(s, q, cursor, limit);
      if page.nextCursor.Some? {
        var next := page.nextCursor.value;
        WindowShrinks(s, q, cursor, next);
        ScanIsExact(s, q, Some(next), limit);
        SoughtSplits(s, q, cursor, next);
      }
    }
  }

  /** The scan of a client returns each entry it asked for and no other. */
  lemma ScanReturnsWhatIsAskedFor(s: Stream, q: Query, cursor: Option<Id>, limit: nat, e: Entry)
    requires Increasing(s) && limit >= 1
    ensures e in Scan(s, q, cursor, limit) <==> e in s && AskedFor(q, cursor, e)
  {
    ScanIsExact(s, q, cursor, limit);
    SoughtIsAskedFor(s, q, cursor, e);
  }

  lemma SoughtSplits(s: Stream, q: Query, cursor: Option<Id>, next: Id)
    requires Increasing(s) && InRange(q, cursor, next)
    ensures Sought(s, q, cursor)
         == Select(s, (e: Entry) => InRange(q, cursor, e.id) && Matches(q, e) && UpTo(next, e))
            + Sought(s, q, Some(next))
  {
    var sought := (e: Entry) => InRange(q, cursor, e.id) && Matches(q, e);
    SplitAt(s, next, sought);
    RangeAfter(s, q, cursor, next);
    SelectSame(s, (e: Entry) => sought(e) && UpTo(next, e),
               (e: Entry) => InRange(q, cursor, e.id) && Matches(q, e) && UpTo(next, e));
    SelectSame(s, (e: Entry) => sought(e) && !UpTo(next, e),
               (e: Entry) => InRange(q, Some(next), e.id) && Matches(q, e));
  }
}
