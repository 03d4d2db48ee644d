/**
  Listing and counting records: join, filter, sort and slice on one side, a plain filtered
  count on the other (app/repositories/repo_record.py, app/services/service_record.py).
*/
module RecordList {
  import opened Wrappers
  import opened LikeSearch

  datatype Record = Record(
    id: nat, title: string, value: real, categoryId: nat, createdBy: nat, createdAt: int, deletedAt: Option<int>)

  datatype Category = Category(id: nat, name: string)

  /** The admin columns the join needs. */
  datatype Creator = Creator(principalId: nat, username: string)

  datatype Database = Database(records: seq<Record>, categories: seq<Category>, creators: seq<Creator>)

  datatype Row = Row(record: Record, categoryName: string, username: string)

  /** Primary keys, the unique `principal_id`, and the two foreign keys of `records`. */
  ghost predicate Constraints(db: Database) {
    && (forall i, j | 0 <= i < j < |db.records| :: db.records[i].id != db.records[j].id)
    && (forall i, j | 0 <= i < j < |db.categories| :: db.categories[i].id != db.categories[j].id)
    && (forall i, j | 0 <= i < j < |db.creators| :: db.creators[i].principalId != db.creators[j].principalId)
    && (forall r | r in db.records :: exists c :: c in db.categories && c.id == r.categoryId)
    && (forall r | r in db.records :: exists a :: a in db.creators && a.principalId == r.createdBy)
  }

  // ------------------------------------------------------------------ dates

  const DAY: int := 86_400_000_000  // microseconds

  /** The UTC day of an instant, counted from the epoch. */
  function DayOf(t: int): int {
    t / DAY
  }

  /** `_date_to_utc_start` */
  function DateToStart(d: Option<int>): Option<int> {
    if d.None? then None else Some(d.value * DAY)
  }

  /** `_date_to_utc_exclusive_end` */
  function DateToExclusiveEnd(d: Option<int>): Option<int> {
    if d.None? then None else Some((d.value + 1) * DAY)
  }

  // ------------------------------------------------------------------ the predicate

  datatype Filter = Filter(
    categoryId: Option<nat>, keyword: Option<string>, dateFrom: Option<int>, dateTo: Option<int>, includeDeleted: bool)

  datatype Clause =
    | NotDeleted
    | InCategory(id: nat)
    | TitleLike(pattern: string)
    | NotBefore(instant: int)
    | Before(instant: int)

  /** The column expression handed to the database. */
  datatype Condition = Leaf(clause: Clause) | And(left: Condition, right: Condition)

  /** `lower` is the database's own lower-casing. */
  predicate Holds(c: Clause, r: Record, lower: string -> string) {
    match c
    case NotDeleted => r.deletedAt.None?
    case InCategory(id) => r.categoryId == id
    case TitleLike(pattern) => Like(lower(r.title), pattern)
    case NotBefore(instant) => r.createdAt >= instant
    case Before(instant) => r.createdAt < instant
  }

  predicate Evaluates(c: Condition, r: Record, lower: string -> string) {
    match c
    case Leaf(clause) => Holds(clause, r, lower)
    case And(left, right) => Evaluates(left, r, lower) && Evaluates(right, r, lower)
  }

  predicate Passes(c: Option<Condition>, r: Record, lower: string -> string) {
    c.Some? ==> Evaluates(c.value, r, lower)
  }

  /** What the filter means for one record. */
  predicate Accepts(f: Filter, r: Record, lower: string -> string) {
    && (f.includeDeleted || r.deletedAt.None?)
    && (f.categoryId.Some? ==> r.categoryId == f.categoryId.value)
    && (f.keyword.Some? && f.keyword.value != "" ==> Like(lower(r.title), f.keyword.value))
    && (f.dateFrom.Some? ==> r.createdAt >= f.dateFrom.value)
    && (f.dateTo.Some? ==> r.createdAt < f.dateTo.value)
  }

  predicate AllHold(clauses: seq<Clause>, r: Record, lower: string -> string) {
    forall c | c in clauses :: Holds(c, r, lower)
  }

  lemma OneMoreClause(clauses: seq<Clause>, c: Clause)
    ensures forall r: Record, lower: string -> string ::
              AllHold(clauses + [c], r, lower) <==> AllHold(clauses, r, lower) && Holds(c, r, lower)
  {
  }

  /** `_predicate`: collect the clauses that apply, then fold them with AND. */
  method BuildPredicate(f: Filter) returns (combined: Option<Condition>)
    ensures forall r: Record, lower: string -> string :: Passes(combined, r, lower) <==> Accepts(f, r, lower)
    ensures combined.None? <==>
              f.includeDeleted && f.categoryId.None? && (f.keyword.None? || f.keyword.value == "")
              && f.dateFrom.None? && f.dateTo.None?
  {
    var clauses: seq<Clause> := [];
    if !f.includeDeleted {
      OneMoreClause(clauses, NotDeleted);
      clauses := clauses + [NotDeleted];
    }
    if f.categoryId.Some? {
      OneMoreClause(clauses, InCategory(f.categoryId.value));
      clauses := clauses + [InCategory(f.categoryId.value)];
    }
    if f.keyword.Some? && f.keyword.value != "" {
      OneMoreClause(clauses, TitleLike(f.keyword.value));
      clauses := clauses + [TitleLike(f.keyword.value)];
    }
    if f.dateFrom.Some? {
      OneMoreClause(clauses, NotBefore(f.dateFrom.value));
      clauses := clauses + [NotBefore(f.dateFrom.value)];
    }
    if f.dateTo.Some? {
      OneMoreClause(clauses, Before(f.dateTo.value));
      clauses := clauses + [Before(f.dateTo.value)];
    }
    combined := Fold(clauses);
  }

  /** The fold: no clause, no condition; otherwise all of them. */
  method Fold(clauses: seq<Clause>) returns (combined: Option<Condition>)
    ensures combined.None? <==> clauses == []
    ensures forall r: Record, lower: string -> string :: Passes(combined, r, lower) <==> AllHold(clauses, r, lower)
  {
    if clauses == [] {
      return None;
    }
    var all := Leaf(clauses[0]);
    for i := 1 to |clauses|
      invariant forall r: Record, lower: string -> string ::
                  Evaluates(all, r, lower) <==> AllHold(clauses[..i], r, lower)
    {
      OneMoreClause(clauses[..i], clauses[i]);
      assert clauses[..i + 1] == clauses[..i] + [clauses[i]];
      all := And(all, Leaf(clauses[i]));
    }
    assert clauses[..|clauses|] == clauses;
    combined := Some(all);
  }

  // ------------------------------------------------------------------ join

  function JoinCreators(r: Record, name: string, creators: seq<Creator>): seq<Row> {
    if creators == [] then []
    else (if creators[0].principalId == r.createdBy then [Row(r, name, creators[0].username)] else [])
         + JoinCreators(r, name, creators[1..])
  }

  function JoinCategories(r: Record, categories: seq<Category>, creators: seq<Creator>): seq<Row> {
    if categories == [] then []
    else (if categories[0].id == r.categoryId then JoinCreators(r, categories[0].name, creators) else [])
         + JoinCategories(r, categories[1..], creators)
  }

  /** `_base_row_select` with its WHERE clause. */
  function Joined(records: seq<Record>, categories: seq<Category>, creators: seq<Creator>, p: Record -> bool)
    : seq<Row>
  {
    if records == [] then []
    else (if p(records[0]) then JoinCategories(records[0], categories, creators) else [])
         + Joined(records[1..], categories, creators, p)
  }

  /** `select count(*) from records where ...`: no join. */
  function Matching(records: seq<Record>, p: Record -> bool): seq<Record> {
    if records == [] then [] else (if p(records[0]) then [records[0]] else []) + Matching(records[1..], p)
  }

  function RecordsOf(rows: seq<Row>): seq<Record> {
    seq(|rows|, i requires 0 <= i < |rows| => rows[i].record)
  }

  lemma {:induction false} NoCreators(r: Record, name: string, creators: seq<Creator>)
    requires forall a | a in creators :: a.principalId != r.createdBy
    ensures JoinCreators(r, name, creators) == []
  {
    if creators != [] {
      NoCreators(r, name, creators[1..]);
    }
  }

  lemma {:induction false} OneCreator(r: Record, name: string, creators: seq<Creator>)
    requires forall i, j | 0 <= i < j < |creators| :: creators[i].principalId != creators[j].principalId
    requires exists a :: a in creators && a.principalId == r.createdBy
    ensures |JoinCreators(r, name, creators)| == 1
    ensures JoinCreators(r, name, creators)[0].record == r && JoinCreators(r, name, creators)[0].categoryName == name
  {
    if creators[0].principalId == r.createdBy {
      NoCreators(r, name, creators[1..]);
    } else {
      OneCreator(r, name, creators[1..]);
    }
  }

  lemma {:induction false} NoCategories(r: Record, categories: seq<Category>, creators: seq<Creator>)
    requires forall c | c in categories :: c.id != r.categoryId
    ensures JoinCategories(r, categories, creators) == []
  {
    if categories != [] {
      NoCategories(r, categories[1..], creators);
    }
  }

  /** Both joins are one-to-one on a record: exactly one row. */
  lemma {:induction false} OneRow(r: Record, categories: seq<Category>, creators: seq<Creator>)
    requires forall i, j | 0 <= i < j < |categories| :: categories[i].id != categories[j].id
    requires forall i, j | 0 <= i < j < |creators| :: creators[i].principalId != creators[j].principalId
    requires exists c :: c in categories && c.id == r.categoryId
    requires exists a :: a in creators && a.principalId == r.createdBy
    ensures |JoinCategories(r, categories, creators)| == 1
    ensures JoinCategories(r, categories, creators)[0].record == r
  {
    if categories[0].id == r.categoryId {
      OneCreator(r, categories[0].name, creators);
      NoCategories(r, categories[1..], creators);
    } else {
      OneRow(r, categories[1..], creators);
    }
  }

  lemma RecordsOfConcat(a: seq<Row>, b: seq<Row>)
    ensures RecordsOf(a + b) == RecordsOf(a) + RecordsOf(b)
  {
  }

  /** The joined rows are the matching records, one row each, in the same order. */
  lemma {:induction false} JoinLosesAndRepeatsNothing(
    records: seq<Record>, categories: seq<Category>, creators: seq<Creator>, p: Record -> bool)
    requires forall i, j | 0 <= i < j < |categories| :: categories[i].id != categories[j].id
    requires forall i, j | 0 <= i < j < |creators| :: creators[i].principalId != creators[j].principalId
    requires forall r | r in records :: exists c :: c in categories && c.id == r.categoryId
    requires forall r | r in records :: exists a :: a in creators && a.principalId == r.createdBy
    ensures RecordsOf(Joined(records, categories, creators, p)) == Matching(records, p)
  {
    if records != [] {
      assert records[0] in records;
      OneRow(records[0], categories, creators);
      JoinLosesAndRepeatsNothing(records[1..], categories, creators, p);
      var head := if p(records[0]) then JoinCategories(records[0], categories, creators) else [];
      RecordsOfConcat(head, Joined(records[1..], categories, creators, p));
      assert RecordsOf(head) == if p(records[0]) then [records[0]] else [];
    }
  }

  /** The row shows its record's own category name and creator. */
  ghost predicate Resolved(row: Row, categories: seq<Category>, creators: seq<Creator>) {
    && (exists c :: c in categories && c.id == row.record.categoryId && c.name == row.categoryName)
    && (exists a :: a in creators && a.principalId == row.record.createdBy && a.username == row.username)
  }

  lemma {:induction false} CreatorsResolve(r: Record, name: string, creators: seq<Creator>, row: Row)
    requires row in JoinCreators(r, name, creators)
    ensures row.record == r && row.categoryName == name
    ensures exists a :: a in creators && a.principalId == r.createdBy && a.username == row.username
  {
    if !(creators[0].principalId == r.createdBy && row == Row(r, name, creators[0].username)) {
      CreatorsResolve(r, name, creators[1..], row);
      var a :| a in creators[1..] && a.principalId == r.createdBy && a.username == row.username;
      assert a in creators;
    } else {
      assert creators[0] in creators;
    }
  }

  lemma {:induction false} CategoriesResolve(r: Record, categories: seq<Category>, creators: seq<Creator>, row: Row)
    requires row in JoinCategories(r, categories, creators)
    ensures row.record == r && Resolved(row, categories, creators)
  {
    if categories[0].id == r.categoryId && row in JoinCreators(r, categories[0].name, creators) {
      CreatorsResolve(r, categories[0].name, creators, row);
      assert categories[0] in categories;
    } else {
      CategoriesResolve(r, categories[1..], creators, row);
      var c :| c in categories[1..] && c.id == r.categoryId && c.name == row.categoryName;
      assert c in categories;
    }
  }

  lemma {:induction false} JoinResolves(
    records: seq<Record>, categories: seq<Category>, creators: seq<Creator>, p: Record -> bool, row: Row)
    requires row in Joined(records, categories, creators, p)
    ensures Resolved(row, categories, creators)
  {
    if p(records[0]) && row in JoinCategories(records[0], categories, creators) {
      CategoriesResolve(records[0], categories, creators, row);
    } else {
      JoinResolves(records[1..], categories, creators, p, row);
    }
  }

  // ------------------------------------------------------------------ order

  datatype SortField = BY_ID | BY_TITLE | BY_VALUE | BY_CATEGORY | BY_CREATED_AT
  datatype Direction = ASC | DESC

  /** ORDER BY column dir, id dir.  `textLeq` is the database's collation. */
  datatype Order = Order(field: SortField, direction: Direction, textLeq: (string, string) -> bool)

  ghost predicate Collation(leq: (string, string) -> bool) {
    && (forall s, t :: leq(s, t) || leq(t, s))
    && (forall s, t, u :: leq(s, t) && leq(t, u) ==> leq(s, u))
  }

  predicate KeyLeq(o: Order, a: Row, b: Row) {
    match o.field
    case BY_ID => a.record.id <= b.record.id
    case BY_TITLE => o.textLeq(a.record.title, b.record.title)
    case BY_VALUE => a.record.value <= b.record.value
    case BY_CATEGORY => o.textLeq(a.categoryName, b.categoryName)
    case BY_CREATED_AT => a.record.createdAt <= b.record.createdAt
  }

  predicate Ascends(o: Order, a: Row, b: Row) {
    KeyLeq(o, a, b) && (KeyLeq(o, b, a) ==> a.record.id < b.record.id)
  }

  predicate Precedes(o: Order, a: Row, b: Row) {
    if o.direction.ASC? then Ascends(o, a, b) else Ascends(o, b, a)
  }

  predicate Sorted(o: Order, rows: seq<Row>) {
    forall i, j | 0 <= i < j < |rows| :: Precedes(o, rows[i], rows[j])
  }

  /** What each ordering means in the columns of two different rows, `a` standing before `b`. */
  predicate InColumns(o: Order, a: Row, b: Row) {
    match (o.field, o.direction)
    case (BY_ID, ASC) => a.record.id < b.record.id
    case (BY_ID, DESC) => a.record.id > b.record.id
    case (BY_TITLE, ASC) => TextAscending(o.textLeq, a.record.title, b.record.title, a.record.id, b.record.id)
    case (BY_TITLE, DESC) => TextAscending(o.textLeq, b.record.title, a.record.title, b.record.id, a.record.id)
    case (BY_VALUE, ASC) =>
      a.record.value < b.record.value || (a.record.value == b.record.value && a.record.id < b.record.id)
    case (BY_VALUE, DESC) =>
      a.record.value > b.record.value || (a.record.value == b.record.value && a.record.id > b.record.id)
    case (BY_CATEGORY, ASC) => TextAscending(o.textLeq, a.categoryName, b.categoryName, a.record.id, b.record.id)
    case (BY_CATEGORY, DESC) => TextAscending(o.textLeq, b.categoryName, a.categoryName, b.record.id, a.record.id)
    case (BY_CREATED_AT, ASC) =>
      a.record.createdAt < b.record.createdAt
      || (a.record.createdAt == b.record.createdAt && a.record.id < b.record.id)
    case (BY_CREATED_AT, DESC) =>
      a.record.createdAt > b.record.createdAt
      || (a.record.createdAt == b.record.createdAt && a.record.id > b.record.id)
  }

  /** Text `s` sorts before `t`, or as equal with the smaller id first. */
  predicate TextAscending(leq: (string, string) -> bool, s: string, t: string, i: nat, j: nat) {
    !leq(t, s) || (leq(s, t) && i < j)
  }

  lemma PrecedesIff(o: Order, a: Row, b: Row)
    requires Collation(o.textLeq)
    ensures Precedes(o, a, b) <==> InColumns(o, a, b)
  {
  }

  function Insert(o: Order, row: Row, rows: seq<Row>): seq<Row> {
    if rows == [] || Precedes(o, row, rows[0]) then [row] + rows else [rows[0]] + Insert(o, row, rows[1..])
  }

  function Sort(o: Order, rows: seq<Row>): seq<Row> {
    if rows == [] then [] else Insert(o, rows[0], Sort(o, rows[1..]))
  }

  ghost predicate DistinctIds(rows: seq<Row>) {
    forall i, j | 0 <= i < j < |rows| :: rows[i].record.id != rows[j].record.id
  }

  lemma PrecedesIsTransitive(o: Order, a: Row, b: Row, c: Row)
    requires Collation(o.textLeq) && Precedes(o, a, b) && Precedes(o, b, c)
    ensures Precedes(o, a, c)
  {
  }

  lemma {:induction false} InsertMembers(o: Order, row: Row, rows: seq<Row>)
    ensures multiset(Insert(o, row, rows)) == multiset(rows) + multiset{row}
  {
    if rows == [] || Precedes(o, row, rows[0]) {
    } else {
      InsertMembers(o, row, rows[1..]);
      assert rows == [rows[0]] + rows[1..];
    }
  }

  lemma {:induction false} InsertKeepsSorted(o: Order, row: Row, rows: seq<Row>)
    requires Collation(o.textLeq) && Sorted(o, rows)
    requires forall r | r in rows :: r.record.id != row.record.id
    ensures Sorted(o, Insert(o, row, rows))
  {
    if rows == [] {
    } else if Precedes(o, row, rows[0]) {
      forall j | 0 < j < |rows|
        ensures Precedes(o, row, rows[j])
      {
        PrecedesIsTransitive(o, row, rows[0], rows[j]);
      }
    } else {
      assert Precedes(o, rows[0], row);
      InsertKeepsSorted(o, row, rows[1..]);
      InsertMembers(o, row, rows[1..]);
      var rest := Insert(o, row, rows[1..]);
      forall j | 0 <= j < |rest|
        ensures Precedes(o, rows[0], rest[j])
      {
        assert rest[j] in multiset(rest);
        if rest[j] != row {
          assert rest[j] in rows[1..];
        }
      }
    }
  }

  lemma {:induction false} SortMembers(o: Order, rows: seq<Row>)
    ensures multiset(Sort(o, rows)) == multiset(rows) && |Sort(o, rows)| == |rows|
  {
    if rows != [] {
      SortMembers(o, rows[1..]);
      InsertMembers(o, rows[0], Sort(o, rows[1..]));
      assert rows == [rows[0]] + rows[1..];
      assert |multiset(Sort(o, rows))| == |multiset(rows)|;
    }
  }

  lemma {:induction false} SortSorts(o: Order, rows: seq<Row>)
    requires Collation(o.textLeq) && DistinctIds(rows)
    ensures Sorted(o, Sort(o, rows))
  {
    if rows != [] {
      SortSorts(o, rows[1..]);
      SortMembers(o, rows[1..]);
      forall r | r in Sort(o, rows[1..])
        ensures r.record.id != rows[0].record.id
      {
        assert r in multiset(Sort(o, rows[1..]));
        assert r in rows[1..];
      }
      InsertKeepsSorted(o, rows[0], Sort(o, rows[1..]));
    }
  }

  lemma SortedIff(o: Order, rows: seq<Row>)
    requires Collation(o.textLeq)
    ensures Sorted(o, rows) <==> forall i, j | 0 <= i < j < |rows| :: InColumns(o, rows[i], rows[j])
  {
    forall i, j | 0 <= i < j < |rows|
      ensures Precedes(o, rows[i], rows[j]) <==> InColumns(o, rows[i], rows[j])
    {
      PrecedesIff(o, rows[i], rows[j]);
    }
  }

  lemma PrecedesIsAsymmetric(o: Order, a: Row, b: Row)
    ensures !(Precedes(o, a, b) && Precedes(o, b, a))
  {
  }

  lemma HeadPrecedes(o: Order, rows: seq<Row>, r: Row)
    requires Sorted(o, rows) && r in rows
    ensures rows[0] == r || Precedes(o, rows[0], r)
  {
  }

  lemma SameHead(o: Order, a: seq<Row>, b: seq<Row>)
    requires Sorted(o, a) && Sorted(o, b) && multiset(a) == multiset(b) && a != [] && b != []
    ensures a[0] == b[0]
  {
    assert a[0] in multiset(b) && b[0] in multiset(a);
    HeadPrecedes(o, a, b[0]);
    HeadPrecedes(o, b, a[0]);
    PrecedesIsAsymmetric(o, a[0], b[0]);
  }

  lemma SameTails(a: seq<Row>, b: seq<Row>)
    requires a != [] && b != [] && a[0] == b[0] && multiset(a) == multiset(b)
    ensures multiset(a[1..]) == multiset(b[1..])
  {
    assert a == [a[0]] + a[1..] && b == [b[0]] + b[1..];
    assert multiset(a[1..]) == multiset(a) - multiset{a[0]};
  }

  /** The id tie-break leaves the database no choice: one sorted arrangement only. */
  lemma {:induction false} SortedIsUnique(o: Order, a: seq<Row>, b: seq<Row>)
    requires Sorted(o, a) && Sorted(o, b) && multiset(a) == multiset(b)
    ensures a == b
  {
    assert |multiset(a)| == |a| && |multiset(b)| == |b|;
    if a != [] {
      SameHead(o, a, b);
      SameTails(a, b);
      SortedIsUnique(o, a[1..], b[1..]);
      assert a == [a[0]] + a[1..] && b == [b[0]] + b[1..];
    }
  }

  // ------------------------------------------------------------------ pages

  /** LIMIT size OFFSET (page - 1) * size */
  function Slice(rows: seq<Row>, page: nat, size: nat): seq<Row>
    requires page >= 1
  {
    var from := Offset(page - 1, size, |rows|);
    var to := Offset(page, size, |rows|);
    if from <= to then rows[from..to] else []
  }

  function Offset(pages: nat, size: nat, total: nat): (n: nat)
    ensures n <= total
  {
    if pages * size <= total then pages * size else total
  }

  /** `page` is page number `number` of `rows`: the `size` rows that follow those of the pages
      before, or as many as there are. */
  ghost predicate IsPage(page: seq<Row>, rows: seq<Row>, number: nat, size: nat)
    requires number >= 1
  {
    var skipped := (number - 1) * size;
    && (skipped >= |rows| ==> page == [])
    && (skipped < |rows| ==> |page| == if skipped + size <= |rows| then size else |rows| - skipped)
    && forall k | 0 <= k < |page| :: 0 <= skipped + k < |rows| && page[k] == rows[skipped + k]
  }

  lemma SliceIsPage(rows: seq<Row>, page: nat, size: nat)
    requires page >= 1
    ensures IsPage(Slice(rows, page, size), rows, page, size)
  {
    assert page * size == (page - 1) * size + size;
  }

  /** The first `n` pages one after the other. */
  function FirstPages(rows: seq<Row>, size: nat, n: nat): seq<Row> {
    if n == 0 then [] else FirstPages(rows, size, n - 1) + Slice(rows, n, size)
  }

  lemma OffsetsGrow(n: nat, size: nat, total: nat)
    ensures Offset(n, size, total) <= Offset(n + 1, size, total)
  {
    assert (n + 1) * size == n * size + size;
  }

  lemma {:induction false} FirstPagesIsPrefix(rows: seq<Row>, size: nat, n: nat)
    ensures FirstPages(rows, size, n) == rows[..Offset(n, size, |rows|)]
  {
    if n > 0 {
      FirstPagesIsPrefix(rows, size, n - 1);
      OffsetsGrow(n - 1, size, |rows|);
    }
  }

  // ------------------------------------------------------------------ listing and counting

  /** Every row a request selects, in order. */
  function Listing(db: Database, f: Filter, o: Order, lower: string -> string): seq<Row> {
    Sort(o, Joined(db.records, db.categories, db.creators, (r: Record) => Accepts(f, r, lower)))
  }

  /** `count_records` */
  function Count(db: Database, f: Filter, lower: string -> string): nat {
    |Matching(db.records, (r: Record) => Accepts(f, r, lower))|
  }

  lemma {:induction false} MatchingMembers(records: seq<Record>, p: Record -> bool)
    requires forall i, j | 0 <= i < j < |records| :: records[i].id != records[j].id
    ensures forall r :: r in Matching(records, p) <==> r in records && p(r)
    ensures forall i, j | 0 <= i < j < |Matching(records, p)| ::
              Matching(records, p)[i].id != Matching(records, p)[j].id
  {
    if records != [] {
      MatchingMembers(records[1..], p);
      assert records == [records[0]] + records[1..];
      forall r | r in Matching(records[1..], p)
        ensures r.id != records[0].id
      {
        var i :| 0 <= i < |records[1..]| && records[1..][i] == r;
        assert records[i + 1] == r;
      }
    }
  }

  /** The listing is the one sorted arrangement of the matching records, each exactly once,
      and the separately computed total is its length. */
  lemma ListingIsExact(db: Database, f: Filter, o: Order, lower: string -> string)
    requires Constraints(db) && Collation(o.textLeq)
    ensures var rows := Listing(db, f, o, lower);
            && |rows| == Count(db, f, lower)
            && (forall i, j | 0 <= i < j < |rows| :: InColumns(o, rows[i], rows[j]))
            && DistinctIds(rows)
            && (forall r :: r in RecordsOf(rows) <==> r in db.records && Accepts(f, r, lower))
            && (forall row | row in rows :: Resolved(row, db.categories, db.creators))
  {
    var p := (r: Record) => Accepts(f, r, lower);
    var joined := Joined(db.records, db.categories, db.creators, p);
    var rows := Listing(db, f, o, lower);
    JoinLosesAndRepeatsNothing(db.records, db.categories, db.creators, p);
    MatchingMembers(db.records, p);
    assert forall i | 0 <= i < |joined| :: joined[i].record == RecordsOf(joined)[i];
    assert |RecordsOf(joined)| == |joined|;
    SortMembers(o, joined);
    SortSorts(o, joined);
    SortedHasDistinctIds(o, rows, joined);
    SortedIff(o, rows);
    forall r
      ensures r in RecordsOf(rows) <==> r in RecordsOf(joined)
    {
      SameMembersSameRecords(rows, joined, r);
      SameMembersSameRecords(joined, rows, r);
    }
    forall row | row in rows
      ensures Resolved(row, db.categories, db.creators)
    {
      assert row in multiset(joined);
      JoinResolves(db.records, db.categories, db.creators, p, row);
    }
  }

  lemma SameMembersSameRecords(a: seq<Row>, b: seq<Row>, r: Record)
    requires multiset(a) == multiset(b)
    ensures r in RecordsOf(a) ==> r in RecordsOf(b)
  {
    if r in RecordsOf(a) {
      var i :| 0 <= i < |a| && RecordsOf(a)[i] == r;
      assert a[i] in multiset(b);
      var j :| 0 <= j < |b| && b[j] == a[i];
      assert RecordsOf(b)[j] == r;
    }
  }

  lemma SortedHasDistinctIds(o: Order, rows: seq<Row>, joined: seq<Row>)
    requires multiset(rows) == multiset(joined) && DistinctIds(joined) && Sorted(o, rows)
    ensures DistinctIds(rows)
  {
    forall i, j | 0 <= i < j < |rows|
      ensures rows[i].record.id != rows[j].record.id
    {
      assert Precedes(o, rows[i], rows[j]);
      assert rows[i] in multiset(joined) && rows[j] in multiset(joined);
      var k :| 0 <= k < |joined| && joined[k] == rows[i];
      var l :| 0 <= l < |joined| && joined[l] == rows[j];
      PrecedesIsAsymmetric(o, rows[i], rows[j]);
    }
  }

  /** Enough pages give all the rows, and every later page is empty. */
  lemma EnoughPages(rows: seq<Row>, size: nat, n: nat)
    requires n * size >= |rows|
    ensures FirstPages(rows, size, n) == rows
    ensures Slice(rows, n + 1, size) == []
  {
    FirstPagesIsPrefix(rows, size, n);
    OffsetsGrow(n, size, |rows|);
    assert Offset(n, size, |rows|) == |rows|;
  }

  /** A date range selects exactly the records whose UTC day lies in it, both ends included. */
  lemma DateRangeIsWholeDays(dateFrom: Option<int>, dateTo: Option<int>, r: Record, lower: string -> string)
    ensures var f := Filter(None, None, DateToStart(dateFrom), DateToExclusiveEnd(dateTo), true);
            Accepts(f, r, lower) <==>
              && (dateFrom.Some? ==> dateFrom.value <= DayOf(r.createdAt))
              && (dateTo.Some? ==> DayOf(r.createdAt) <= dateTo.value)
  {
  }
}
