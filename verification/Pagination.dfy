/** The pagination plugin: offset pages, cursor pages, and the walk a client
    makes by following `nextCursor`. A collection is a sequence of documents in
    storage order; a filter maps a field name to a test on that field's value. */
module Pagination {
  import opened Common

  const MAX_LIMIT := 100
  const ID_FIELD := "_id"

  datatype Doc = Doc(id: nat, fields: map<string, int>)

  datatype Direction = Ascending | Descending

  datatype Sort = Sort(field: string, dir: Direction)

  /** The text of a cursor: `String(objectId)`, `String(number)`, or `String(date)`,
      which has whole seconds. */
  datatype Cursor = ObjectIdText(id: nat) | NumberText(n: int) | DateText(seconds: int)

  type Filter = map<string, Option<int> -> bool>

  datatype PageError = CastError

  datatype CursorPage = CursorPage(data: seq<Doc>, hasNext: bool, nextCursor: Option<Cursor>, limit: nat)

  datatype Meta = Meta(page: int, limit: int, total: nat, totalPages: int, hasNextPage: bool, hasPrevPage: bool)

  datatype OffsetPage = OffsetPage(data: seq<Doc>, meta: Meta)

  // ----- Queries -------------------------------------------------------------

  function ValueOf(doc: Doc, field: string): Option<int> {
    if field == ID_FIELD then Some(doc.id)
    else if field in doc.fields then Some(doc.fields[field])
    else None
  }

  predicate Matches(filter: Filter, doc: Doc) {
    forall f :: f in filter ==> filter[f](ValueOf(doc, f))
  }

  function Find(docs: seq<Doc>, filter: Filter): seq<Doc> {
    if docs == [] then []
    else (if Matches(filter, docs[0]) then [docs[0]] else []) + Find(docs[1..], filter)
  }

  /** A missing value sorts before every number. */
  predicate ValueLess(a: Option<int>, b: Option<int>) {
    b.Some? && (a.None? || a.value < b.value)
  }

  predicate InOrder(sort: Sort, a: Doc, b: Doc) {
    match sort.dir
    case Ascending => !ValueLess(ValueOf(b, sort.field), ValueOf(a, sort.field))
    case Descending => !ValueLess(ValueOf(a, sort.field), ValueOf(b, sort.field))
  }

  function Insert(sort: Sort, doc: Doc, docs: seq<Doc>): seq<Doc> {
    if docs == [] || InOrder(sort, doc, docs[0]) then [doc] + docs
    else [docs[0]] + Insert(sort, doc, docs[1..])
  }

  function SortDocs(sort: Sort, docs: seq<Doc>): seq<Doc> {
    if docs == [] then [] else Insert(sort, docs[0], SortDocs(sort, docs[1..]))
  }

  function Limit(docs: seq<Doc>, n: nat): seq<Doc> {
    docs[..Min(n, |docs|)]
  }

  function Skip(docs: seq<Doc>, n: nat): seq<Doc> {
    docs[Min(n, |docs|)..]
  }

  /** The whole filtered, sorted list that the pages are cut from. */
  function Rows(docs: seq<Doc>, filter: Filter, sort: Sort): seq<Doc> {
    SortDocs(sort, Find(docs, filter))
  }

  function ToSafeLimit(limit: int): (safe: nat)
    ensures 1 <= safe <= 100
    ensures safe == if limit < 1 then 1 else if limit > 100 then 100 else limit
  {
    Max(1, Min(MAX_LIMIT, limit))
  }

  function ParseSort(sort: string): Sort {
    if sort == "" then Sort("createdAt", Descending)
    else if sort[0] == '-' then Sort(sort[1..], Descending)
    else Sort(sort, Ascending)
  }

  // ----- Offset pages --------------------------------------------------------

  function TotalPages(total: nat, limit: nat): int
    requires limit > 0
  {
    Max(1, CeilDiv(total, limit))
  }

  function SkipCount(page: nat, limit: nat): nat
    requires page > 0
  {
    var before: nat := page - 1;
    before * limit
  }

  function OffsetMeta(page: int, limit: int, total: nat): Meta {
    var p := Max(1, page);
    var l := ToSafeLimit(limit);
    var totalPages := TotalPages(total, l);
    Meta(p, l, total, totalPages, p < totalPages, p > 1)
  }

  function PaginateOffset(docs: seq<Doc>, filter: Filter, page: int, limit: int, sort: string): OffsetPage {
    var meta := OffsetMeta(page, limit, |Find(docs, filter)|);
    OffsetPage(Limit(Skip(Rows(docs, filter, ParseSort(sort)), SkipCount(meta.page, meta.limit)), meta.limit), meta)
  }

  /** The page metadata as the product and brand lists write it out. */
  function ListMeta(page: Option<int>, limit: Option<int>, defaultLimit: int, total: nat): Meta {
    var p := Max(1, if page.Some? then page.value else 1);
    var l := ToSafeLimit(if limit.Some? then limit.value else defaultLimit);
    var pages := CeilDiv(total, l);
    var totalPages := Max(1, if pages != 0 then pages else 1);
    Meta(p, l, total, totalPages, p < totalPages && total > 0, p > 1)
  }

  function PagesUpTo(docs: seq<Doc>, filter: Filter, k: nat, limit: int, sort: string): seq<Doc> {
    if k == 0 then []
    else PagesUpTo(docs, filter, k - 1, limit, sort) + PaginateOffset(docs, filter, k, limit, sort).data
  }

  lemma InsertLength(sort: Sort, doc: Doc, docs: seq<Doc>)
    ensures |Insert(sort, doc, docs)| == |docs| + 1
  {
  }

  lemma SortLength(sort: Sort, docs: seq<Doc>)
    ensures |SortDocs(sort, docs)| == |docs|
  {
    if docs != [] {
      InsertLength(sort, docs[0], SortDocs(sort, docs[1..]));
    }
  }

  lemma Distribute(k: int, l: nat)
    ensures k * l == (k - 1) * l + l
  {
  }

  function Tiles(rows: seq<Doc>, k: nat, l: nat): seq<Doc> {
    if k == 0 then [] else Tiles(rows, k - 1, l) + Limit(Skip(rows, (k - 1) * l), l)
  }

  lemma LimitThenPage(rows: seq<Doc>, from: nat, l: nat)
    ensures Limit(rows, from) + Limit(Skip(rows, from), l) == Limit(rows, from + l)
  {
  }

  lemma {:induction false} TilesArePrefix(rows: seq<Doc>, k: nat, l: nat)
    ensures Tiles(rows, k, l) == Limit(rows, k * l)
  {
    if k > 0 {
      TilesArePrefix(rows, k - 1, l);
      Distribute(k, l);
      LimitThenPage(rows, (k - 1) * l, l);
    }
  }

  lemma {:induction false} PagesAreTiles(docs: seq<Doc>, filter: Filter, k: nat, limit: int, sort: string)
    ensures PagesUpTo(docs, filter, k, limit, sort)
            == Tiles(Rows(docs, filter, ParseSort(sort)), k, ToSafeLimit(limit))
  {
    if k > 0 {
      PagesAreTiles(docs, filter, k - 1, limit, sort);
    }
  }

  lemma CeilDivBounds(n: nat, l: nat)
    requires l > 0
    ensures n <= CeilDiv(n, l) * l < n + l
  {
    var q := CeilDiv(n, l);
    assert n + l - 1 == q * l + (n + l - 1) % l;
  }

  lemma PagesCover(total: nat, l: nat)
    requires l > 0
    ensures total <= TotalPages(total, l) * l
  {
    CeilDivBounds(total, l);
  }

  lemma LimitIsAll(rows: seq<Doc>, n: nat)
    requires |rows| <= n
    ensures Limit(rows, n) == rows
  {
  }

  /** Pages 1..totalPages laid end to end are the whole list. */
  lemma OffsetPagesTile(docs: seq<Doc>, filter: Filter, limit: int, sort: string)
    ensures var pages := TotalPages(|Find(docs, filter)|, ToSafeLimit(limit));
            PagesUpTo(docs, filter, pages, limit, sort) == Rows(docs, filter, ParseSort(sort))
  {
    var l, n := ToSafeLimit(limit), |Find(docs, filter)|;
    var pages, rows := TotalPages(n, l), Rows(docs, filter, ParseSort(sort));
    PagesAreTiles(docs, filter, pages, limit, sort);
    TilesArePrefix(rows, pages, l);
    SortLength(ParseSort(sort), Find(docs, filter));
    PagesCover(n, l);
    LimitIsAll(rows, pages * l);
  }

  lemma MulMonotone(a: int, b: int, l: nat)
    requires a <= b
    ensures a * l <= b * l
  {
    assert b * l == a * l + (b - a) * l;
  }

  lemma FewerPages(total: nat, page: nat, l: nat)
    requires l > 0 && page > 0
    ensures page < TotalPages(total, l) <==> page * l < total
  {
    CeilDivBounds(total, l);
    var q := CeilDiv(total, l);
    assert (q - 1) * l == q * l - l;
    if page < q {
      MulMonotone(page, q - 1, l);
    } else {
      MulMonotone(q, page, l);
    }
  }

  /** `hasNextPage` says exactly that a row exists beyond this page. */
  lemma OffsetMetaExact(docs: seq<Doc>, filter: Filter, page: int, limit: int, sort: string)
    ensures var meta := PaginateOffset(docs, filter, page, limit, sort).meta;
            && meta.total == |Rows(docs, filter, ParseSort(sort))|
            && (meta.hasNextPage <==> meta.page * meta.limit < meta.total)
            && (meta.hasPrevPage <==> meta.page > 1)
  {
    SortLength(ParseSort(sort), Find(docs, filter));
    FewerPages(|Find(docs, filter)|, Max(1, page), ToSafeLimit(limit));
  }

  lemma PagesPositive(total: nat, l: nat)
    requires l > 0
    ensures CeilDiv(total, l) == 0 <==> total == 0
  {
    CeilDivBounds(total, l);
  }

  /** The metadata that the product and brand lists write out by hand is the plugin's. */
  lemma ListMetaAgrees(page: Option<int>, limit: Option<int>, defaultLimit: int, total: nat)
    ensures ListMeta(page, limit, defaultLimit, total)
            == OffsetMeta(if page.Some? then page.value else 1, if limit.Some? then limit.value else defaultLimit, total)
  {
    PagesPositive(total, ToSafeLimit(if limit.Some? then limit.value else defaultLimit));
  }

  // ----- One cursor page -----------------------------------------------------

  /** The fields that hold a date, in milliseconds. */
  predicate IsDateField(field: string) {
    field == "createdAt" || field == "updatedAt"
  }

  function SortField(sort: Sort): string {
    if sort.field == "" then ID_FIELD else sort.field
  }

  function Beyond(dir: Direction, bound: int): Option<int> -> bool {
    match dir
    case Ascending => (v: Option<int>) => v.Some? && v.value > bound
    case Descending => (v: Option<int>) => v.Some? && v.value < bound
  }

  /** The query of one call: the cursor's condition replaces whatever the
      filter asked of the sort field. */
  function CursorQuery(filter: Filter, sort: Sort, cursor: Option<Cursor>): Result<Filter, PageError> {
    var field := SortField(sort);
    if cursor.None? then Ok(filter)
    else match cursor.value
         case ObjectIdText(id) =>
           if field == ID_FIELD then Ok(filter[field := Beyond(sort.dir, id)]) else Err(CastError)
         case NumberText(n) =>
           if field == ID_FIELD || IsDateField(field) then Err(CastError) else Ok(filter[field := Beyond(sort.dir, n)])
         case DateText(seconds) =>
           if IsDateField(field) then Ok(filter[field := Beyond(sort.dir, seconds * 1000)]) else Err(CastError)
  }

  /** `value ? String(value) : null` for `value = last[sortField] ?? last._id`; a
      date is never falsy. */
  function CursorOf(last: Doc, field: string): Option<Cursor> {
    if field == ID_FIELD then Some(ObjectIdText(last.id))
    else match ValueOf(last, field)
         case None => Some(ObjectIdText(last.id))
         case Some(v) => if IsDateField(field) then Some(DateText(v / 1000)) else if v == 0 then None else Some(NumberText(v))
  }

  function PageOf(rows: seq<Doc>, field: string, limit: nat): CursorPage
    requires limit > 0
  {
    var hasNext := |rows| > limit;
    CursorPage(Limit(rows, limit), hasNext, if hasNext then CursorOf(rows[limit - 1], field) else None, limit)
  }

  function CursorSpec(docs: seq<Doc>, filter: Filter, sort: Sort, limit: nat, cursor: Option<Cursor>)
    : Result<CursorPage, PageError>
    requires limit > 0
  {
    match CursorQuery(filter, sort, cursor)
    case Err(e) => Err(e)
    case Ok(query) => Ok(PageOf(Rows(docs, query, sort), SortField(sort), limit))
  }

  /** One call as the client makes it: a missing sort is `-createdAt`. */
  function CursorAnswer(docs: seq<Doc>, filter: Filter, limitParam: int, sortParam: string, cursor: Option<Cursor>)
    : Result<CursorPage, PageError>
  {
    CursorSpec(docs, filter, ParseSort(if sortParam == "" then "-createdAt" else sortParam), ToSafeLimit(limitParam), cursor)
  }

  method PaginateCursor(docs: seq<Doc>, filter: Filter, limitParam: int, sortParam: string, cursor: Option<Cursor>)
    returns (r: Result<CursorPage, PageError>)
    ensures r == CursorAnswer(docs, filter, limitParam, sortParam, cursor)
  {
    hide ToSafeLimit, ParseSort, Rows, Beyond, CursorOf;
    var limit := ToSafeLimit(limitParam);
    var sort := ParseSort(if sortParam == "" then "-createdAt" else sortParam);
    var sortField := SortField(sort);
    var query := filter;
    if cursor.Some? {
      if sortField == ID_FIELD && cursor.value.ObjectIdText? {
        query := query[ID_FIELD := Beyond(sort.dir, cursor.value.id)];
      } else if sortField == ID_FIELD || cursor.value.ObjectIdText? || cursor.value.DateText? != IsDateField(sortField) {
        return Err(CastError);
      } else if cursor.value.DateText? {
        query := query[sortField := Beyond(sort.dir, cursor.value.seconds * 1000)];
      } else {
        query := query[sortField := Beyond(sort.dir, cursor.value.n)];
      }
    }
    var rows := Rows(docs, query, sort);
    var found := Limit(rows, limit + 1);
    var hasNext := |found| > limit;
    var data := if hasNext then found[..limit] else found;
    assert data == Limit(rows, limit);
    var nextCursor := None;
    if hasNext && data != [] {
      nextCursor := CursorOf(data[|data| - 1], sortField);
    }
    return Ok(CursorPage(data, hasNext, nextCursor, limit));
  }
}
