/**
  Answering a list request: text and dates are normalised, the repository lists and counts
  (app/services/service_record.py, app/core/enums.py).
*/
module RecordService {
  import opened Wrappers
  import opened LikeSearch
  import opened RecordList

  datatype Request = Request(
    page: int, size: int, category: Option<string>, keyword: Option<string>,
    dateFrom: Option<int>, dateTo: Option<int>, sort: string, includeDeleted: bool)

  datatype Answer =
    | Listed(rows: seq<Row>, total: nat, page: nat, size: nat)
    | InvalidSort(sort: string)
    | UnknownCategory(name: string)

  /** White space and lower-casing of the two sides, the database's collation, and the page limits. */
  datatype Setting = Setting(
    space: char -> bool, lower: string -> string, databaseLower: string -> string,
    textLeq: (string, string) -> bool, listMax: nat, analyticsMax: nat)
  {
    ghost predicate Valid() {
      listMax >= 1 && analyticsMax >= 1 && Collation(textLeq)
    }
  }

  ghost predicate NamesUnique(categories: seq<Category>) {
    forall i, j | 0 <= i < j < |categories| :: categories[i].name != categories[j].name
  }

  // ------------------------------------------------------------------ sort

  const DEFAULT_SORT: string := "id:asc"

  /** What a client may write. */
  const SORTS: set<string> :=
    {"", "id:asc", "id:desc", "title:asc", "title:desc", "value:asc", "value:desc",
     "category:asc", "category:desc", "created_at:asc", "created_at:desc"}

  function FieldName(f: SortField): string {
    match f
    case BY_ID => "id"
    case BY_TITLE => "title"
    case BY_VALUE => "value"
    case BY_CATEGORY => "category"
    case BY_CREATED_AT => "created_at"
  }

  function DirectionName(d: Direction): string {
    match d
    case ASC => "asc"
    case DESC => "desc"
  }

  /** `str.split` on one character. */
  function Split(s: string, c: char): (parts: seq<string>)
    ensures parts != []
  {
    if s == "" then [""]
    else
      var rest := Split(s[1..], c);
      if s[0] == c then [""] + rest else [[s[0]] + rest[0]] + rest[1..]
  }

  /** `c.join(parts)` */
  function Join(parts: seq<string>, c: char): string
    requires parts != []
  {
    if |parts| == 1 then parts[0] else parts[0] + [c] + Join(parts[1..], c)
  }

  function ParseField(s: string): Option<SortField> {
    if s == "id" then Some(BY_ID)
    else if s == "title" then Some(BY_TITLE)
    else if s == "value" then Some(BY_VALUE)
    else if s == "category" then Some(BY_CATEGORY)
    else if s == "created_at" then Some(BY_CREATED_AT)
    else None
  }

  function ParseDirection(s: string): Option<Direction> {
    if s == "asc" then Some(ASC) else if s == "desc" then Some(DESC) else None
  }

  /** `_parse_sort` */
  function ParseSort(sort: string): Option<(SortField, Direction)> {
    var parts := Split(if sort == "" then DEFAULT_SORT else sort, ':');
    if |parts| != 2 then None
    else
      var f := ParseField(parts[0]);
      var d := ParseDirection(parts[1]);
      if f.Some? && d.Some? then Some((f.value, d.value)) else None
  }

  lemma {:induction false} JoinSplits(s: string, c: char)
    ensures Join(Split(s, c), c) == s
  {
    if s != "" {
      JoinSplits(s[1..], c);
      var rest := Split(s[1..], c);
      var parts := Split(s, c);
      if s[0] == c {
        assert parts[1..] == rest;
        assert Join(parts, c) == [c] + s[1..];
      } else {
        assert parts[1..] == rest[1..];
        assert Join(parts, c) == [s[0]] + Join(rest, c);
      }
    }
  }

  lemma {:induction false} NoSeparator(s: string, c: char)
    requires c !in s
    ensures Split(s, c) == [s]
  {
    if s != "" {
      NoSeparator(s[1..], c);
      assert [s[0]] + s[1..] == s;
    }
  }

  lemma {:induction false} SplitsAtTheOnlySeparator(a: string, b: string, c: char)
    requires c !in a && c !in b
    ensures Split(a + [c] + b, c) == [a, b]
  {
    var s := a + [c] + b;
    if a == "" {
      assert s[1..] == b;
      NoSeparator(b, c);
    } else {
      SplitsAtTheOnlySeparator(a[1..], b, c);
      assert s[1..] == a[1..] + [c] + b;
      assert [a[0]] + a[1..] == a;
    }
  }

  /** The printed sort of a field and a direction. */
  function PrintSort(f: SortField, d: Direction): string {
    FieldName(f) + [':'] + DirectionName(d)
  }

  lemma PrintedSortParses(f: SortField, d: Direction)
    ensures ParseSort(PrintSort(f, d)) == Some((f, d))
  {
    SplitsAtTheOnlySeparator(FieldName(f), DirectionName(d), ':');
  }

  lemma ParsedSortWasPrinted(sort: string, f: SortField, d: Direction)
    requires sort != "" && ParseSort(sort) == Some((f, d))
    ensures sort == PrintSort(f, d)
  {
    var parts := Split(sort, ':');
    JoinSplits(sort, ':');
    assert parts[1..] == [parts[1]];
    assert parts[0] == FieldName(f) && parts[1] == DirectionName(d);
  }

  /** The parser accepts the ten printed forms, and the empty string as the default; nothing else. */
  lemma ParseSortIff(sort: string, f: SortField, d: Direction)
    ensures ParseSort(sort) == Some((f, d)) <==>
              sort == PrintSort(f, d) || (sort == "" && f == BY_ID && d == ASC)
  {
    PrintedSortParses(f, d);
    PrintedSortParses(BY_ID, ASC);
    if sort == "" {
      assert PrintSort(BY_ID, ASC) == DEFAULT_SORT;
    } else if ParseSort(sort) == Some((f, d)) {
      ParsedSortWasPrinted(sort, f, d);
    }
  }

  // ------------------------------------------------------------------ what the sorts mean

  /** Row `a` stands before row `b` in a listing sorted by `sort`, column by column; the empty
      sort is `id:asc`.  No rows stand in the order of any other string. */
  predicate InOrder(sort: string, a: Row, b: Row, textLeq: (string, string) -> bool) {
    match sort
    case "" => a.record.id < b.record.id
    case "id:asc" => a.record.id < b.record.id
    case "id:desc" => a.record.id > b.record.id
    case "title:asc" => TextAscending(textLeq, a.record.title, b.record.title, a.record.id, b.record.id)
    case "title:desc" => TextAscending(textLeq, b.record.title, a.record.title, b.record.id, a.record.id)
    case "value:asc" =>
      a.record.value < b.record.value || (a.record.value == b.record.value && a.record.id < b.record.id)
    case "value:desc" =>
      a.record.value > b.record.value || (a.record.value == b.record.value && a.record.id > b.record.id)
    case "category:asc" => TextAscending(textLeq, a.categoryName, b.categoryName, a.record.id, b.record.id)
    case "category:desc" => TextAscending(textLeq, b.categoryName, a.categoryName, b.record.id, a.record.id)
    case "created_at:asc" =>
      a.record.createdAt < b.record.createdAt
      || (a.record.createdAt == b.record.createdAt && a.record.id < b.record.id)
    case "created_at:desc" =>
      a.record.createdAt > b.record.createdAt
      || (a.record.createdAt == b.record.createdAt && a.record.id > b.record.id)
    case _ => false
  }

  lemma PrintedSortMeans(f: SortField, d: Direction, a: Row, b: Row, textLeq: (string, string) -> bool)
    ensures InOrder(PrintSort(f, d), a, b, textLeq) <==> InColumns(Order(f, d, textLeq), a, b)
  {
    match (f, d)
    case (BY_ID, ASC) => assert PrintSort(f, d) == "id:asc";
    case (BY_ID, DESC) => assert PrintSort(f, d) == "id:desc";
    case (BY_TITLE, ASC) => assert PrintSort(f, d) == "title:asc";
    case (BY_TITLE, DESC) => assert PrintSort(f, d) == "title:desc";
    case (BY_VALUE, ASC) => assert PrintSort(f, d) == "value:asc";
    case (BY_VALUE, DESC) => assert PrintSort(f, d) == "value:desc";
    case (BY_CATEGORY, ASC) => assert PrintSort(f, d) == "category:asc";
    case (BY_CATEGORY, DESC) => assert PrintSort(f, d) == "category:desc";
    case (BY_CREATED_AT, ASC) => assert PrintSort(f, d) == "created_at:asc";
    case (BY_CREATED_AT, DESC) => assert PrintSort(f, d) == "created_at:desc";
  }

  lemma PrintedSorts()
    ensures PrintSort(BY_ID, ASC) == "id:asc" && PrintSort(BY_ID, DESC) == "id:desc"
    ensures PrintSort(BY_TITLE, ASC) == "title:asc" && PrintSort(BY_TITLE, DESC) == "title:desc"
    ensures PrintSort(BY_VALUE, ASC) == "value:asc" && PrintSort(BY_VALUE, DESC) == "value:desc"
    ensures PrintSort(BY_CATEGORY, ASC) == "category:asc" && PrintSort(BY_CATEGORY, DESC) == "category:desc"
    ensures PrintSort(BY_CREATED_AT, ASC) == "created_at:asc" && PrintSort(BY_CREATED_AT, DESC) == "created_at:desc"
  {
  }

  /** The request is refused as malformed exactly outside these eleven strings. */
  lemma SortsIff(sort: string)
    ensures ParseSort(sort).Some? <==> sort in SORTS
  {
    PrintedSorts();
    if ParseSort(sort).Some? {
      ParseSortIff(sort, ParseSort(sort).value.0, ParseSort(sort).value.1);
    } else {
      forall f, d
        ensures sort != PrintSort(f, d)
      {
        ParseSortIff(sort, f, d);
      }
      ParseSortIff(sort, BY_ID, ASC);
    }
  }

  /** A parsed sort orders rows as its text says. */
  lemma ParsedSortMeans(sort: string, a: Row, b: Row, textLeq: (string, string) -> bool)
    requires ParseSort(sort).Some?
    ensures InOrder(sort, a, b, textLeq) <==>
              InColumns(Order(ParseSort(sort).value.0, ParseSort(sort).value.1, textLeq), a, b)
  {
    var fd := ParseSort(sort).value;
    ParseSortIff(sort, fd.0, fd.1);
    if sort != "" {
      PrintedSortMeans(fd.0, fd.1, a, b, textLeq);
    }
  }

  // ------------------------------------------------------------------ category

  /** `get_by_name`: active or not. */
  function ByName(categories: seq<Category>, name: string): Option<Category> {
    if categories == [] then None
    else if categories[0].name == name then Some(categories[0])
    else ByName(categories[1..], name)
  }

  lemma {:induction false} ByNameFinds(categories: seq<Category>, name: string)
    requires NamesUnique(categories)
    ensures var found := ByName(categories, name);
            && (found.None? <==> forall c | c in categories :: c.name != name)
            && (found.Some? ==> found.value in categories && found.value.name == name)
            && (found.Some? ==> forall c | c in categories && c.name == name :: c == found.value)
  {
    if categories != [] {
      ByNameFinds(categories[1..], name);
      assert categories == [categories[0]] + categories[1..];
    }
  }

  predicate NamesACategory(category: Option<string>) {
    category.Some? && category.value != ""
  }

  // ------------------------------------------------------------------ the request

  function Clamp(n: int, low: nat, high: nat): (c: nat)
    requires low <= high
    ensures low <= c <= high && (low <= n <= high ==> c == n)
  {
    if n < low then low else if n > high then high else n
  }

  function MaxSize(req: Request, env: Setting): nat {
    if req.dateFrom.Some? || req.dateTo.Some? then env.analyticsMax else env.listMax
  }

  function SizeOf(req: Request, env: Setting): (size: nat)
    requires env.Valid()
    ensures 1 <= size <= MaxSize(req, env)
  {
    Clamp(req.size, 1, MaxSize(req, env))
  }

  /** The repository's filter for a request whose category resolved to `categoryId`. */
  function FilterOf(req: Request, categoryId: Option<nat>, env: Setting): Filter {
    Filter(categoryId, EscapeLike(req.keyword, env.space, env.lower),
           DateToStart(req.dateFrom), DateToExclusiveEnd(req.dateTo), req.includeDeleted)
  }

  function CategoryId(req: Request, db: Database): Option<nat> {
    if !NamesACategory(req.category) then None
    else
      var found := ByName(db.categories, req.category.value);
      if found.None? then None else Some(found.value.id)
  }

  /** `list_records` */
  function List(db: Database, req: Request, env: Setting): Answer
    requires env.Valid()
  {
    var size := SizeOf(req, env);
    var page := if req.page < 1 then 1 else req.page;
    var sort := ParseSort(req.sort);
    if sort.None? then InvalidSort(req.sort)
    else if NamesACategory(req.category) && ByName(db.categories, req.category.value).None? then
      UnknownCategory(req.category.value)
    else
      var f := FilterOf(req, CategoryId(req, db), env);
      var o := Order(sort.value.0, sort.value.1, env.textLeq);
      Listed(Slice(Listing(db, f, o, env.databaseLower), page, size), Count(db, f, env.databaseLower), page, size)
  }

  // ------------------------------------------------------------------ what a request asks for

  /** The user's words: the named category, a title containing the keyword, a range of whole days. */
  ghost predicate Wanted(req: Request, db: Database, r: Record, env: Setting) {
    && (req.includeDeleted || r.deletedAt.None?)
    && (NamesACategory(req.category) ==>
          exists c :: c in db.categories && c.id == r.categoryId && c.name == req.category.value)
    && (req.keyword.Some? ==>
          Contains(env.databaseLower(r.title), env.lower(Strip(req.keyword.value, env.space))))
    && (req.dateFrom.Some? ==> req.dateFrom.value <= DayOf(r.createdAt))
    && (req.dateTo.Some? ==> DayOf(r.createdAt) <= req.dateTo.value)
  }

  lemma ContainsEmpty(text: string)
    ensures Contains(text, "")
  {
    assert "" <= text[0..];
  }

  lemma KeywordMeansContains(req: Request, r: Record, env: Setting)
    ensures var pattern := EscapeLike(req.keyword, env.space, env.lower);
            (pattern.Some? && pattern.value != "" ==> Like(env.databaseLower(r.title), pattern.value))
            <==> (req.keyword.Some? ==>
                    Contains(env.databaseLower(r.title), env.lower(Strip(req.keyword.value, env.space))))
  {
    KeywordSearch(req.keyword, env.databaseLower(r.title), env.space, env.lower);
    ContainsEmpty(env.databaseLower(r.title));
  }

  lemma CategoryMeansName(req: Request, db: Database, r: Record)
    requires NamesUnique(db.categories)
    requires forall i, j | 0 <= i < j < |db.categories| :: db.categories[i].id != db.categories[j].id
    requires NamesACategory(req.category) ==> ByName(db.categories, req.category.value).Some?
    ensures (CategoryId(req, db).Some? ==> r.categoryId == CategoryId(req, db).value)
        <==> (NamesACategory(req.category) ==>
                exists c :: c in db.categories && c.id == r.categoryId && c.name == req.category.value)
  {
    if NamesACategory(req.category) {
      ByNameFinds(db.categories, req.category.value);
    }
  }

  lemma FilterMeansWanted(db: Database, req: Request, r: Record, env: Setting)
    requires Constraints(db) && NamesUnique(db.categories)
    requires NamesACategory(req.category) ==> ByName(db.categories, req.category.value).Some?
    ensures Accepts(FilterOf(req, CategoryId(req, db), env), r, env.databaseLower) <==> Wanted(req, db, r, env)
  {
    KeywordMeansContains(req, r, env);
    CategoryMeansName(req, db, r);
    DateRangeIsWholeDays(req.dateFrom, req.dateTo, r, env.databaseLower);
  }

  /** A request is refused exactly for a malformed sort or, failing that, an unknown category. */
  lemma RefusedIff(db: Database, req: Request, env: Setting)
    requires env.Valid() && NamesUnique(db.categories)
    ensures List(db, req, env).InvalidSort? <==> req.sort !in SORTS
    ensures List(db, req, env).UnknownCategory? <==>
              && !List(db, req, env).InvalidSort?
              && NamesACategory(req.category)
              && forall c | c in db.categories :: c.name != req.category.value
  {
    SortsIff(req.sort);
    if NamesACategory(req.category) {
      ByNameFinds(db.categories, req.category.value);
    }
  }

  /** Rows `rows` are what the request asks for: the wanted records, each once, with their own
      category name and creator, in the requested order. */
  ghost predicate AnswersFully(rows: seq<Row>, db: Database, req: Request, env: Setting) {
    && req.sort in SORTS
    && (forall i, j | 0 <= i < j < |rows| :: InOrder(req.sort, rows[i], rows[j], env.textLeq))
    && DistinctIds(rows)
    && (forall r :: r in RecordsOf(rows) <==> r in db.records && Wanted(req, db, r, env))
    && (forall row | row in rows :: Resolved(row, db.categories, db.creators))
  }

  ghost function OrderOf(req: Request, env: Setting): Order
    requires ParseSort(req.sort).Some?
  {
    Order(ParseSort(req.sort).value.0, ParseSort(req.sort).value.1, env.textLeq)
  }

  lemma InOrderIffSorted(rows: seq<Row>, req: Request, env: Setting)
    requires Collation(env.textLeq) && ParseSort(req.sort).Some?
    ensures (forall i, j | 0 <= i < j < |rows| :: InOrder(req.sort, rows[i], rows[j], env.textLeq))
            <==> Sorted(OrderOf(req, env), rows)
  {
    SortedIff(OrderOf(req, env), rows);
    forall i, j | 0 <= i < j < |rows|
      ensures InOrder(req.sort, rows[i], rows[j], env.textLeq) <==> InColumns(OrderOf(req, env), rows[i], rows[j])
    {
      ParsedSortMeans(req.sort, rows[i], rows[j], env.textLeq);
    }
  }

  /** The rows behind an accepted request, before they are cut into pages. */
  ghost function AllRows(db: Database, req: Request, env: Setting): seq<Row>
    requires env.Valid() && List(db, req, env).Listed?
  {
    Listing(db, FilterOf(req, CategoryId(req, db), env),
            OrderOf(req, env), env.databaseLower)
  }

  /** An accepted request reports as `total` the number of all wanted records, and returns one
      page of the rows that answer it. */
  lemma AcceptedIsExact(db: Database, req: Request, env: Setting)
    requires env.Valid() && Constraints(db) && NamesUnique(db.categories) && List(db, req, env).Listed?
    ensures AnswersFully(AllRows(db, req, env), db, req, env)
    ensures var a := List(db, req, env);
            && a.total == |AllRows(db, req, env)|
            && a.page == (if req.page < 1 then 1 else req.page)
            && (req.size < 1 ==> a.size == 1)
            && (req.dateFrom.None? && req.dateTo.None? && req.size >= 1 ==>
                  a.size == if req.size > env.listMax then env.listMax else req.size)
            && ((req.dateFrom.Some? || req.dateTo.Some?) && req.size >= 1 ==>
                  a.size == if req.size > env.analyticsMax then env.analyticsMax else req.size)
            && IsPage(a.rows, AllRows(db, req, env), a.page, a.size)
  {
    SliceIsPage(AllRows(db, req, env), List(db, req, env).page, List(db, req, env).size);
    var f := FilterOf(req, CategoryId(req, db), env);
    SortsIff(req.sort);
    ListingIsExact(db, f, OrderOf(req, env), env.databaseLower);
    SortedIff(OrderOf(req, env), AllRows(db, req, env));
    InOrderIffSorted(AllRows(db, req, env), req, env);
    forall r: Record
      ensures Accepts(f, r, env.databaseLower) <==> Wanted(req, db, r, env)
    {
      FilterMeansWanted(db, req, r, env);
    }
  }

  /** Pages 1 to n one after the other. */
  ghost function Concatenated(page: nat -> seq<Row>, n: nat): seq<Row> {
    if n == 0 then [] else Concatenated(page, n - 1) + page(n)
  }

  /** Page n of a request. */
  function Page(db: Database, req: Request, env: Setting, n: nat): seq<Row>
    requires env.Valid() && List(db, req, env).Listed?
  {
    List(db, req.(page := n), env).rows
  }

  /** The rows of pages 1 to n of a request. */
  ghost function Walk(db: Database, req: Request, env: Setting, n: nat): seq<Row>
    requires env.Valid() && List(db, req, env).Listed?
  {
    Concatenated((k: nat) => Page(db, req, env, k), n)
  }

  lemma OtherPage(db: Database, req: Request, env: Setting, n: nat)
    requires env.Valid() && List(db, req, env).Listed? && n >= 1
    ensures Page(db, req, env, n) == Slice(AllRows(db, req, env), n, SizeOf(req, env))
  {
  }

  ghost predicate PageIs(page: nat -> seq<Row>, rows: seq<Row>, size: nat, k: nat) {
    k >= 1 ==> page(k) == Slice(rows, k, size)
  }

  lemma {:induction false} ConcatenatedSlices(page: nat -> seq<Row>, rows: seq<Row>, size: nat, n: nat)
    requires forall k :: PageIs(page, rows, size, k)
    ensures Concatenated(page, n) == FirstPages(rows, size, n)
  {
    if n > 0 {
      ConcatenatedSlices(page, rows, size, n - 1);
      assert PageIs(page, rows, size, n);
    }
  }

  lemma WalkIsFirstPages(db: Database, req: Request, env: Setting, n: nat)
    requires env.Valid() && List(db, req, env).Listed?
    ensures Walk(db, req, env, n) == FirstPages(AllRows(db, req, env), SizeOf(req, env), n)
  {
    var page := (k: nat) => Page(db, req, env, k);
    forall k
      ensures PageIs(page, AllRows(db, req, env), SizeOf(req, env), k)
    {
      if k >= 1 {
        OtherPage(db, req, env, k);
      }
    }
    ConcatenatedSlices(page, AllRows(db, req, env), SizeOf(req, env), n);
  }

  /** Walking the pages until `n * size` reaches the reported total collects every wanted
      record exactly once, in order; the page after that is empty. */
  lemma PagesPartitionTheAnswer(db: Database, req: Request, env: Setting, n: nat)
    requires env.Valid() && Constraints(db) && NamesUnique(db.categories) && List(db, req, env).Listed?
    requires n * List(db, req, env).size >= List(db, req, env).total
    ensures AnswersFully(Walk(db, req, env, n), db, req, env)
    ensures |Walk(db, req, env, n)| == List(db, req, env).total
    ensures Page(db, req, env, n + 1) == []
  {
    AcceptedIsExact(db, req, env);
    EnoughPages(AllRows(db, req, env), SizeOf(req, env), n);
    WalkIsFirstPages(db, req, env, n);
    OtherPage(db, req, env, n + 1);
  }

  // ------------------------------------------------------------------ only one answer is right

  lemma SameRecordSameRow(a: Row, b: Row, db: Database)
    requires Constraints(db) && a.record == b.record
    requires Resolved(a, db.categories, db.creators) && Resolved(b, db.categories, db.creators)
    ensures a == b
  {
  }

  lemma RowIsShared(a: seq<Row>, b: seq<Row>, db: Database, req: Request, env: Setting, row: Row)
    requires Constraints(db) && AnswersFully(a, db, req, env) && AnswersFully(b, db, req, env)
    requires row in a
    ensures row in b
  {
    var i :| 0 <= i < |a| && a[i] == row;
    assert RecordsOf(a)[i] == row.record;
    var j :| 0 <= j < |b| && RecordsOf(b)[j] == row.record;
    SameRecordSameRow(row, b[j], db);
  }

  lemma {:induction false} DistinctRowsOccurOnce(rows: seq<Row>, row: Row)
    requires DistinctIds(rows)
    ensures multiset(rows)[row] == if row in rows then 1 else 0
  {
    if rows != [] {
      DistinctRowsOccurOnce(rows[1..], row);
      assert rows == [rows[0]] + rows[1..];
      assert rows[0] !in rows[1..] by {
        assert forall i | 0 <= i < |rows[1..]| :: rows[1..][i] == rows[i + 1];
      }
    }
  }

  /** The meaning of a request fixes its answer: rows, columns and order. */
  lemma TheAnswerIsUnique(a: seq<Row>, b: seq<Row>, db: Database, req: Request, env: Setting)
    requires Constraints(db) && Collation(env.textLeq)
    requires AnswersFully(a, db, req, env) && AnswersFully(b, db, req, env)
    ensures a == b
  {
    forall row: Row
      ensures multiset(a)[row] == multiset(b)[row]
    {
      DistinctRowsOccurOnce(a, row);
      DistinctRowsOccurOnce(b, row);
      if row in a {
        RowIsShared(a, b, db, req, env, row);
      }
      if row in b {
        RowIsShared(b, a, db, req, env, row);
      }
    }
    assert multiset(a) == multiset(b);
    SortsIff(req.sort);
    InOrderIffSorted(a, req, env);
    InOrderIffSorted(b, req, env);
    SortedIsUnique(OrderOf(req, env), a, b);
  }
}
