/** Walking by a field other than `_id`: values may tie or be missing, and the text
    of a date has whole seconds. When one call leads to the rest, when a walk ends,
    and when it returns each row once. */
module FieldWalk {
  import opened Common
  import opened Pagination
  import opened CursorWalk

  predicate FieldSort(sort: Sort) {
    sort.field != "" && sort.field != ID_FIELD
  }

  function Val(sort: Sort, row: Doc): Option<int> {
    ValueOf(row, sort.field)
  }

  /** The value a cursor's text reads back as. */
  function ReadBack(field: string, v: int): int {
    if IsDateField(field) then v / 1000 * 1000 else v
  }

  /** The cursor after a row with value `last` lets rows with value `next` through. */
  predicate LetsThrough(sort: Sort, last: Option<int>, next: Option<int>) {
    && last.Some? && next.Some?
    && (IsDateField(sort.field) || last.value != 0)
    && match sort.dir
       case Ascending => next.value > ReadBack(sort.field, last.value)
       case Descending => next.value < ReadBack(sort.field, last.value)
  }

  // ----- One call --------------------------------------------------------------------------

  predicate Reachable(filter: Filter, sort: Sort, next: Option<Cursor>, row: Doc) {
    next.Some? && var q := CursorQuery(filter, sort, next); q.Ok? && Matches(q.value, row)
  }

  lemma {:induction false} ReachableMeans(filter: Filter, sort: Sort, last: Doc, row: Doc)
    requires FieldSort(sort) && Matches(filter - {sort.field}, row)
    ensures Reachable(filter, sort, CursorOf(last, sort.field), row) <==> LetsThrough(sort, Val(sort, last), Val(sort, row))
  {
    if Val(sort, last).Some? {
      CursorConditionReplaces(filter, sort.field, Beyond(sort.dir, ReadBack(sort.field, Val(sort, last).value)), row);
    }
  }

  /** Rows in order that match all of the filter but its condition on the sort field. */
  ghost predicate OfQuery(filter: Filter, sort: Sort, rows: seq<Doc>) {
    Ordered(sort, rows) && forall k :: 0 <= k < |rows| ==> Matches(filter - {sort.field}, rows[k])
  }

  lemma {:induction false} RowsOfQuery(docs: seq<Doc>, filter: Filter, sort: Sort, cursor: Option<Cursor>)
    requires FieldSort(sort) && CursorQuery(filter, sort, cursor).Ok?
    ensures OfQuery(filter, sort, Rows(docs, CursorQuery(filter, sort, cursor).value, sort))
  {
    var query := CursorQuery(filter, sort, cursor).value;
    var rows := Rows(docs, query, sort);
    RowsMeaning(docs, query, sort);
    forall k | 0 <= k < |rows| ensures Matches(filter - {sort.field}, rows[k]) {
      assert rows[k] in rows;
      if cursor.Some? {
        CursorConditionReplaces(filter, sort.field, query[sort.field], rows[k]);
      }
    }
  }

  /** If the first and the last of some rows in order are let through, all are. */
  lemma {:induction false} BetweenIsLetThrough(sort: Sort, rows: seq<Doc>, last: Option<int>, i: nat, k: nat)
    requires Ordered(sort, rows) && i <= k < |rows|
    requires LetsThrough(sort, last, Val(sort, rows[i])) && LetsThrough(sort, last, Val(sort, rows[|rows| - 1]))
    ensures LetsThrough(sort, last, Val(sort, rows[k]))
  {
    if i < k {
      OrderedAt(sort, rows, i, k);
    }
    if k < |rows| - 1 {
      OrderedAt(sort, rows, k, |rows| - 1);
    }
  }

  /** A row is let through by its own cursor only when ascending by a date that is
      not at a whole second; otherwise no earlier row is either. */
  lemma {:induction false} EarlierIsNotLetThrough(sort: Sort, rows: seq<Doc>, j: nat, k: nat)
    requires Ordered(sort, rows) && j <= k < |rows|
    requires LetsThrough(sort, Val(sort, rows[k]), Val(sort, rows[j]))
    ensures LetsThrough(sort, Val(sort, rows[k]), Val(sort, rows[k]))
    ensures IsDateField(sort.field) && sort.dir == Ascending && Val(sort, rows[k]).value % 1000 != 0
  {
    if j < k {
      OrderedAt(sort, rows, j, k);
    }
  }

  /** The cursor after `last` lets all rows from `next` to `final` through, when these
      come in order and none comes before `last`. */
  predicate LetsRestThrough(sort: Sort, last: Option<int>, next: Option<int>, final: Option<int>) {
    && last.Some? && next.Some? && final.Some?
    && if !IsDateField(sort.field) then last.value != 0 && last != next
       else if sort.dir == Ascending then next.value > last.value / 1000 * 1000
       else next.value < last.value / 1000 * 1000
  }

  lemma {:induction false} RestIsLetThroughIff(sort: Sort, rows: seq<Doc>, limit: nat)
    requires Ordered(sort, rows) && 0 < limit < |rows|
    ensures (forall k :: limit <= k < |rows| ==> LetsThrough(sort, Val(sort, rows[limit - 1]), Val(sort, rows[k])))
            <==> LetsRestThrough(sort, Val(sort, rows[limit - 1]), Val(sort, rows[limit]), Val(sort, rows[|rows| - 1]))
  {
    var last := Val(sort, rows[limit - 1]);
    OrderedAt(sort, rows, limit - 1, limit);
    if limit < |rows| - 1 {
      OrderedAt(sort, rows, limit, |rows| - 1);
    }
    if LetsThrough(sort, last, Val(sort, rows[limit])) && LetsThrough(sort, last, Val(sort, rows[|rows| - 1])) {
      forall k | limit <= k < |rows| ensures LetsThrough(sort, last, Val(sort, rows[k])) {
        BetweenIsLetThrough(sort, rows, last, limit, k);
      }
    }
  }

  lemma {:induction false} RestIsReachableIff(filter: Filter, sort: Sort, rows: seq<Doc>, limit: nat)
    requires FieldSort(sort) && OfQuery(filter, sort, rows) && 0 < limit < |rows|
    ensures (forall k :: limit <= k < |rows| ==> Reachable(filter, sort, CursorOf(rows[limit - 1], sort.field), rows[k]))
            <==> LetsRestThrough(sort, Val(sort, rows[limit - 1]), Val(sort, rows[limit]), Val(sort, rows[|rows| - 1]))
  {
    hide LetsThrough, LetsRestThrough, Reachable;
    var last := rows[limit - 1];
    forall k | limit <= k < |rows|
      ensures Reachable(filter, sort, CursorOf(last, sort.field), rows[k]) <==> LetsThrough(sort, Val(sort, last), Val(sort, rows[k]))
    {
      ReachableMeans(filter, sort, last, rows[k]);
    }
    RestIsLetThroughIff(sort, rows, limit);
  }

  /** The next call can still reach every row this call left over if and only if
      the last row returned and the first and last ones left over have the field and:
      for numbers, the boundary values differ and the last returned one is not zero;
      for dates, the next lies beyond the last returned one cut down to its second. */
  lemma {:induction false} NextCallReachesRestIff(
      docs: seq<Doc>, filter: Filter, sort: Sort, limit: nat, cursor: Option<Cursor>)
    requires limit > 0 && FieldSort(sort) && CursorQuery(filter, sort, cursor).Ok?
    requires |Rows(docs, CursorQuery(filter, sort, cursor).value, sort)| > limit
    ensures var page := CursorSpec(docs, filter, sort, limit, cursor).value;
            var rows := Rows(docs, CursorQuery(filter, sort, cursor).value, sort);
            && page.data == rows[..limit]
            && ((forall k :: limit <= k < |rows| ==> Reachable(filter, sort, page.nextCursor, rows[k]))
                <==> LetsRestThrough(sort, Val(sort, rows[limit - 1]), Val(sort, rows[limit]), Val(sort, rows[|rows| - 1])))
  {
    hide OfQuery, Reachable, LetsRestThrough, Rows, CursorOf;
    RowsOfQuery(docs, filter, sort, cursor);
    RestIsReachableIff(filter, sort, Rows(docs, CursorQuery(filter, sort, cursor).value, sort), limit);
  }

  /** The next call can reach a row already returned if and only if the sort is
      ascending by a date and the last returned one is not at a whole second. */
  lemma {:induction false} NextCallRepeatsIff(
      docs: seq<Doc>, filter: Filter, sort: Sort, limit: nat, cursor: Option<Cursor>)
    requires limit > 0 && FieldSort(sort) && CursorQuery(filter, sort, cursor).Ok?
    requires |Rows(docs, CursorQuery(filter, sort, cursor).value, sort)| > limit
    ensures var page := CursorSpec(docs, filter, sort, limit, cursor).value;
            && |page.data| == limit
            && ((exists k :: 0 <= k < limit && Reachable(filter, sort, page.nextCursor, page.data[k]))
                <==> var last := Val(sort, page.data[limit - 1]);
                     IsDateField(sort.field) && sort.dir == Ascending && last.Some? && last.value % 1000 != 0)
  {
    RowsOfQuery(docs, filter, sort, cursor);
    var rows := Rows(docs, CursorQuery(filter, sort, cursor).value, sort);
    ReachableMeans(filter, sort, rows[limit - 1], rows[limit - 1]);
    forall k | 0 <= k < limit && Reachable(filter, sort, CursorOf(rows[limit - 1], sort.field), rows[k])
      ensures IsDateField(sort.field) && sort.dir == Ascending
              && Val(sort, rows[limit - 1]).Some? && Val(sort, rows[limit - 1]).value % 1000 != 0
    {
      ReachableMeans(filter, sort, rows[limit - 1], rows[k]);
      EarlierIsNotLetThrough(sort, rows, k, limit - 1);
    }
  }

  // ----- The rows ahead of a cursor -----------------------------------------------------------

  function Sel(rows: seq<Doc>, sort: Sort, cond: Option<int> -> bool): seq<Doc> {
    if rows == [] then []
    else (if cond(Val(sort, rows[0])) then [rows[0]] else []) + Sel(rows[1..], sort, cond)
  }

  lemma {:induction false} SelMembers(rows: seq<Doc>, sort: Sort, cond: Option<int> -> bool)
    ensures forall d :: d in Sel(rows, sort, cond) <==> d in rows && cond(Val(sort, d))
    ensures Ordered(sort, rows) ==> Ordered(sort, Sel(rows, sort, cond))
  {
    if rows != [] {
      SelMembers(rows[1..], sort, cond);
      assert rows == [rows[0]] + rows[1..];
      var rest := Sel(rows[1..], sort, cond);
      assert ([rows[0]] + rest)[1..] == rest;
      assert cond(Val(sort, rows[0])) ==> Sel(rows, sort, cond) == [rows[0]] + rest;
      assert !cond(Val(sort, rows[0])) ==> Sel(rows, sort, cond) == rest;
    }
  }

  lemma {:induction false} ConsSel(row: Doc, rest: seq<Doc>, sort: Sort, cond: Option<int> -> bool)
    ensures Sel([row] + rest, sort, cond) == (if cond(Val(sort, row)) then [row] else []) + Sel(rest, sort, cond)
  {
    assert ([row] + rest)[1..] == rest;
  }

  lemma {:induction false} InsertSel(sort: Sort, doc: Doc, docs: seq<Doc>, cond: Option<int> -> bool)
    requires Ordered(sort, docs)
    ensures Sel(Insert(sort, doc, docs), sort, cond)
            == if cond(Val(sort, doc)) then Insert(sort, doc, Sel(docs, sort, cond)) else Sel(docs, sort, cond)
  {
    var picked := Sel(docs, sort, cond);
    if docs == [] || InOrder(sort, doc, docs[0]) {
      assert ([doc] + docs)[1..] == docs;
      SelMembers(docs, sort, cond);
      if picked != [] {
        assert picked[0] in docs && docs == [docs[0]] + docs[1..];
        assert InOrder(sort, doc, picked[0]);
      }
    } else {
      InsertSel(sort, doc, docs[1..], cond);
      var inserted := Insert(sort, doc, docs[1..]);
      ConsSel(docs[0], inserted, sort, cond);
      var rest := Sel(docs[1..], sort, cond);
      assert ([docs[0]] + rest)[1..] == rest;
      assert [] + Sel(inserted, sort, cond) == Sel(inserted, sort, cond) && [] + rest == rest;
    }
  }

  lemma {:induction false} SortSel(sort: Sort, docs: seq<Doc>, cond: Option<int> -> bool)
    ensures Sel(SortDocs(sort, docs), sort, cond) == SortDocs(sort, Sel(docs, sort, cond))
  {
    if docs != [] {
      SortSel(sort, docs[1..], cond);
      SortKeeps(sort, docs[1..]);
      InsertSel(sort, docs[0], SortDocs(sort, docs[1..]), cond);
      var rest := Sel(docs[1..], sort, cond);
      assert ([docs[0]] + rest)[1..] == rest;
      assert cond(Val(sort, docs[0])) ==> Sel(docs, sort, cond) == [docs[0]] + rest;
      assert !cond(Val(sort, docs[0])) ==> Sel(docs, sort, cond) == rest;
    }
  }

  lemma {:induction false} FindSel(docs: seq<Doc>, filter: Filter, sort: Sort, cond: Option<int> -> bool)
    requires sort.field !in filter
    ensures Find(docs, filter[sort.field := cond]) == Sel(Find(docs, filter), sort, cond)
  {
    if docs != [] {
      FindSel(docs[1..], filter, sort, cond);
      CursorConditionReplaces(filter, sort.field, cond, docs[0]);
      assert filter - {sort.field} == filter;
      var rest := Find(docs[1..], filter);
      assert ([docs[0]] + rest)[1..] == rest;
      assert Matches(filter, docs[0]) ==> Find(docs, filter) == [docs[0]] + rest;
      assert !Matches(filter, docs[0]) ==> Find(docs, filter) == rest;
    }
  }

  /** A cursor's rows are the whole list without the rows its condition refuses. */
  lemma {:induction false} CursorSelects(docs: seq<Doc>, filter: Filter, sort: Sort, cond: Option<int> -> bool)
    requires sort.field !in filter
    ensures Rows(docs, filter[sort.field := cond], sort) == Sel(Rows(docs, filter, sort), sort, cond)
  {
    FindSel(docs, filter, sort, cond);
    SortSel(sort, Find(docs, filter), cond);
  }

  /** The condition of the cursor after a row with value `v`. */
  function After(sort: Sort, v: int): Option<int> -> bool {
    Beyond(sort.dir, ReadBack(sort.field, v))
  }

  /** What the call after a page that ends with value `last` returns its rows from. */
  function Ahead(rows: seq<Doc>, sort: Sort, last: Option<int>): seq<Doc> {
    if last.None? then rows else Sel(rows, sort, After(sort, last.value))
  }

  // ----- The walk ------------------------------------------------------------------------------

  /** The pages of at most `calls` calls on a collection that nobody changes; a call
      that fails adds none. */
  function FieldPages(docs: seq<Doc>, filter: Filter, sort: Sort, limit: nat, cursor: Option<Cursor>, calls: nat): seq<CursorPage>
    requires limit > 0
    decreases calls
  {
    if calls == 0 then []
    else match CursorSpec(docs, filter, sort, limit, cursor)
         case Err(_) => []
         case Ok(page) =>
           [page] + if page.nextCursor.Some? then FieldPages(docs, filter, sort, limit, page.nextCursor, calls - 1) else []
  }

  /** The cursor a page ending in value `last` hands out; None before the first call. */
  function CursorAfter(sort: Sort, last: Option<int>): Option<Cursor> {
    match last
    case None => None
    case Some(v) => if IsDateField(sort.field) then Some(DateText(v / 1000)) else Some(NumberText(v))
  }

  /** A page handed out `last` as a cursor that is not null. */
  predicate Handed(sort: Sort, last: Option<int>) {
    last.Some? && !IsDateField(sort.field) ==> last.value != 0
  }

  /** How the walk goes on after one page cut from the rows `ahead`. */
  ghost predicate GoesOn(pages: seq<CursorPage>, docs: seq<Doc>, filter: Filter, sort: Sort, limit: nat, ahead: seq<Doc>, calls: nat)
    requires limit > 0 && calls > 0
  {
    if |ahead| <= limit then Finished(pages) && Seen(pages) == ahead
    else
      var last := Val(sort, ahead[limit - 1]);
      if last.None? then !Finished(pages) && Seen(pages) == ahead[..limit]
      else if !Handed(sort, last) then Finished(pages) && Seen(pages) == ahead[..limit]
      else
        var rest := FieldPages(docs, filter, sort, limit, CursorAfter(sort, last), calls - 1);
        && Seen(pages) == ahead[..limit] + Seen(rest)
        && (Finished(pages) <==> Finished(rest))
  }

  lemma {:induction false} ConsPages(page: CursorPage, rest: seq<CursorPage>)
    ensures Seen([page] + rest) == page.data + Seen(rest)
    ensures Finished([page] + rest) <==> if rest == [] then page.nextCursor.None? else Finished(rest)
  {
    assert ([page] + rest)[1..] == rest;
  }

  lemma FailedCall(docs: seq<Doc>, filter: Filter, sort: Sort, limit: nat, id: nat, calls: nat)
    requires limit > 0 && FieldSort(sort)
    ensures FieldPages(docs, filter, sort, limit, Some(ObjectIdText(id)), calls) == []
  {
  }

  lemma {:induction false} AheadOfCursor(docs: seq<Doc>, filter: Filter, sort: Sort, last: Option<int>)
    requires FieldSort(sort) && sort.field !in filter && Handed(sort, last)
    ensures var query := CursorQuery(filter, sort, CursorAfter(sort, last));
            query.Ok? && Rows(docs, query.value, sort) == Ahead(Rows(docs, filter, sort), sort, last)
  {
    if last.Some? {
      CursorSelects(docs, filter, sort, After(sort, last.value));
    }
  }

  lemma {:induction false} FirstFieldPage(docs: seq<Doc>, filter: Filter, sort: Sort, limit: nat, last: Option<int>, calls: nat)
    requires limit > 0 && calls > 0 && FieldSort(sort) && sort.field !in filter && Handed(sort, last)
    ensures var page := PageOf(Ahead(Rows(docs, filter, sort), sort, last), sort.field, limit);
            FieldPages(docs, filter, sort, limit, CursorAfter(sort, last), calls)
            == [page] + if page.nextCursor.Some? then FieldPages(docs, filter, sort, limit, page.nextCursor, calls - 1) else []
  {
    hide Rows, Ahead, PageOf, CursorAfter, CursorQuery;
    AheadOfCursor(docs, filter, sort, last);
  }

  lemma {:induction false} PageGoesOn(docs: seq<Doc>, filter: Filter, sort: Sort, limit: nat, last: Option<int>, calls: nat)
    requires limit > 0 && calls > 0 && FieldSort(sort) && sort.field !in filter && Handed(sort, last)
    ensures GoesOn(FieldPages(docs, filter, sort, limit, CursorAfter(sort, last), calls), docs, filter, sort, limit,
                   Ahead(Rows(docs, filter, sort), sort, last), calls)
  {
    hide Rows, Ahead, FieldPages, Seen, Finished;
    FirstFieldPage(docs, filter, sort, limit, last, calls);
    var ahead := Ahead(Rows(docs, filter, sort), sort, last);
    var page := PageOf(ahead, sort.field, limit);
    var rest := if page.nextCursor.Some? then FieldPages(docs, filter, sort, limit, page.nextCursor, calls - 1) else [];
    ConsPages(page, rest);
    NoPages();
    if |ahead| > limit && Val(sort, ahead[limit - 1]).None? {
      FailedCall(docs, filter, sort, limit, ahead[limit - 1].id, calls - 1);
    }
    assert |ahead| <= limit ==> ahead[..Min(limit, |ahead|)] == ahead;
    assert page.data + [] == page.data;
  }

  lemma NoPages()
    ensures Seen([]) == [] && !Finished([])
  {
  }

  lemma NoCalls(docs: seq<Doc>, filter: Filter, sort: Sort, limit: nat, cursor: Option<Cursor>)
    requires limit > 0
    ensures Seen(FieldPages(docs, filter, sort, limit, cursor, 0)) == [] && HaveValues(sort, [])
    ensures !Finished(FieldPages(docs, filter, sort, limit, cursor, 0))
  {
  }

  // ----- When the walk returns each row once ---------------------------------------------------

  /** The boundary before row k is clean: the rest is let through, and the last row
      returned is not. */
  predicate Clean(sort: Sort, rows: seq<Doc>, k: nat)
    requires 0 < k < |rows|
  {
    var last := Val(sort, rows[k - 1]);
    LetsRestThrough(sort, last, Val(sort, rows[k]), Val(sort, rows[|rows| - 1])) && !LetsThrough(sort, last, last)
  }

  /** Every boundary that pages from row k on meet is clean. */
  predicate CleanFrom(sort: Sort, rows: seq<Doc>, limit: nat, k: nat)
    requires limit > 0
    decreases |rows| - k
  {
    k + limit < |rows| ==> Clean(sort, rows, k + limit) && CleanFrom(sort, rows, limit, k + limit)
  }

  lemma {:induction false} SelSlices(rows: seq<Doc>, sort: Sort, cond: Option<int> -> bool, k: nat)
    requires k <= |rows|
    requires forall i :: 0 <= i < |rows| ==> (cond(Val(sort, rows[i])) <==> k <= i)
    ensures Sel(rows, sort, cond) == rows[k..]
  {
    if rows != [] {
      if k == 0 {
        SelSlices(rows[1..], sort, cond, 0);
      } else {
        SelSlices(rows[1..], sort, cond, k - 1);
        assert rows[1..][k - 1..] == rows[k..];
      }
    }
  }

  lemma {:induction false} CleanSlices(sort: Sort, rows: seq<Doc>, k: nat)
    requires Ordered(sort, rows) && 0 < k < |rows| && Clean(sort, rows, k)
    ensures Val(sort, rows[k - 1]).Some? && Handed(sort, Val(sort, rows[k - 1]))
    ensures Ahead(rows, sort, Val(sort, rows[k - 1])) == rows[k..]
  {
    var last := Val(sort, rows[k - 1]);
    RestIsLetThroughIff(sort, rows, k);
    forall i | 0 <= i < |rows| ensures After(sort, last.value)(Val(sort, rows[i])) <==> k <= i {
      if i < k && LetsThrough(sort, last, Val(sort, rows[i])) {
        EarlierIsNotLetThrough(sort, rows, i, k - 1);
      }
    }
    SelSlices(rows, sort, After(sort, last.value), k);
  }

  ghost predicate HaveValues(sort: Sort, rows: seq<Doc>) {
    forall i :: 0 <= i < |rows| ==> Val(sort, rows[i]).Some?
  }

  lemma {:induction false} AheadHaveValues(rows: seq<Doc>, sort: Sort, last: Option<int>)
    requires last.Some?
    ensures HaveValues(sort, Ahead(rows, sort, last))
  {
    SelMembers(rows, sort, After(sort, last.value));
    var ahead := Ahead(rows, sort, last);
    forall i | 0 <= i < |ahead| ensures Val(sort, ahead[i]).Some? {
      assert ahead[i] in ahead;
    }
  }

  lemma ValuesOfParts(sort: Sort, rows: seq<Doc>, n: nat, rest: seq<Doc>)
    requires HaveValues(sort, rows) && n <= |rows|
    ensures HaveValues(sort, rows[..n]) && (HaveValues(sort, rest) ==> HaveValues(sort, rows[..n] + rest))
  {
  }

  /** A walk shows the first row ahead of its cursor first. */
  lemma {:induction false} SeenStartsAhead(docs: seq<Doc>, filter: Filter, sort: Sort, limit: nat, last: Option<int>, calls: nat)
    requires limit > 0 && FieldSort(sort) && sort.field !in filter && Handed(sort, last)
    ensures var seen := Seen(FieldPages(docs, filter, sort, limit, CursorAfter(sort, last), calls));
            var ahead := Ahead(Rows(docs, filter, sort), sort, last);
            seen != [] ==> ahead != [] && seen[0] == ahead[0]
  {
    NoCalls(docs, filter, sort, limit, CursorAfter(sort, last));
    hide Rows, FieldPages, CursorAfter, Finished, Seen, Ahead, Handed, Val;
    if calls > 0 {
      PageGoesOn(docs, filter, sort, limit, last, calls);
    }
  }

  /** The rest of a walk whose first page is cut from `ahead`. */
  function RestOfPages(docs: seq<Doc>, filter: Filter, sort: Sort, limit: nat, ahead: seq<Doc>, calls: nat): seq<CursorPage>
    requires limit > 0 && calls > 0
  {
    if |ahead| > limit && Val(sort, ahead[limit - 1]).Some? && Handed(sort, Val(sort, ahead[limit - 1]))
    then FieldPages(docs, filter, sort, limit, CursorAfter(sort, Val(sort, ahead[limit - 1])), calls - 1) else []
  }

  lemma {:induction false} SeenInParts(pages: seq<CursorPage>, docs: seq<Doc>, filter: Filter, sort: Sort, limit: nat,
                                       ahead: seq<Doc>, calls: nat)
    requires limit > 0 && calls > 0 && GoesOn(pages, docs, filter, sort, limit, ahead, calls)
    ensures Seen(pages) == ahead[..Min(limit, |ahead|)] + Seen(RestOfPages(docs, filter, sort, limit, ahead, calls))
  {
    hide FieldPages, CursorAfter;
    NoPages();
    assert |ahead| <= limit ==> ahead[..|ahead|] == ahead;
  }

  lemma {:induction false} ValuesGoOn(pages: seq<CursorPage>, docs: seq<Doc>, filter: Filter, sort: Sort, limit: nat,
                                      ahead: seq<Doc>, calls: nat)
    requires limit > 0 && calls > 0 && GoesOn(pages, docs, filter, sort, limit, ahead, calls)
    requires HaveValues(sort, ahead) && HaveValues(sort, Seen(RestOfPages(docs, filter, sort, limit, ahead, calls)))
    ensures HaveValues(sort, Seen(pages))
  {
    hide HaveValues, GoesOn, RestOfPages, Seen;
    SeenInParts(pages, docs, filter, sort, limit, ahead, calls);
    ValuesOfParts(sort, ahead, Min(limit, |ahead|), Seen(RestOfPages(docs, filter, sort, limit, ahead, calls)));
  }

  lemma {:induction false} RestHasValues(docs: seq<Doc>, filter: Filter, sort: Sort, limit: nat, ahead: seq<Doc>, calls: nat)
    requires limit > 0 && calls > 0
    requires |ahead| > limit && Val(sort, ahead[limit - 1]).Some? && Handed(sort, Val(sort, ahead[limit - 1])) ==>
               HaveValues(sort, Seen(FieldPages(docs, filter, sort, limit, CursorAfter(sort, Val(sort, ahead[limit - 1])), calls - 1)))
    ensures HaveValues(sort, Seen(RestOfPages(docs, filter, sort, limit, ahead, calls)))
  {
    hide FieldPages, CursorAfter, Val, Handed;
    NoPages();
  }

  lemma {:induction false} ValuesStep(docs: seq<Doc>, filter: Filter, sort: Sort, limit: nat, last: Option<int>, calls: nat)
    requires limit > 0 && calls > 0 && FieldSort(sort) && sort.field !in filter && Handed(sort, last) && last.Some?
    requires HaveValues(sort, Seen(RestOfPages(docs, filter, sort, limit, Ahead(Rows(docs, filter, sort), sort, last), calls)))
    ensures HaveValues(sort, Seen(FieldPages(docs, filter, sort, limit, CursorAfter(sort, last), calls)))
  {
    hide Rows, CursorAfter, Finished, Ahead, GoesOn, FieldSort, Handed, Val, RestOfPages, HaveValues;
    PageGoesOn(docs, filter, sort, limit, last, calls);
    AheadHaveValues(Rows(docs, filter, sort), sort, last);
    ValuesGoOn(FieldPages(docs, filter, sort, limit, CursorAfter(sort, last), calls), docs, filter, sort, limit,
               Ahead(Rows(docs, filter, sort), sort, last), calls);
  }

  /** Everything a walk shows after a cursor has a value in the sort field. */
  lemma {:induction false} SeenHaveValues(docs: seq<Doc>, filter: Filter, sort: Sort, limit: nat, last: Option<int>, calls: nat)
    requires limit > 0 && FieldSort(sort) && sort.field !in filter && Handed(sort, last) && last.Some?
    ensures HaveValues(sort, Seen(FieldPages(docs, filter, sort, limit, CursorAfter(sort, last), calls)))
    decreases calls
  {
    hide Rows, CursorAfter, Ahead, HaveValues;
    if calls == 0 {
      NoCalls(docs, filter, sort, limit, CursorAfter(sort, last));
    } else {
      var ahead := Ahead(Rows(docs, filter, sort), sort, last);
      if |ahead| > limit && Val(sort, ahead[limit - 1]).Some? && Handed(sort, Val(sort, ahead[limit - 1])) {
        SeenHaveValues(docs, filter, sort, limit, Val(sort, ahead[limit - 1]), calls - 1);
      }
      RestHasValues(docs, filter, sort, limit, ahead, calls);
      ValuesStep(docs, filter, sort, limit, last, calls);
    }
  }

  lemma {:induction false} UniqueAt(rows: seq<Doc>, i: nat, j: nat)
    requires UniqueIds(rows) && i < j < |rows|
    ensures rows[i] != rows[j]
  {
    if i == 0 {
      assert rows[1..][j - 1] == rows[j];
    } else {
      UniqueAt(rows[1..], i - 1, j - 1);
    }
  }

  /** Past an unclean boundary a walk does not show exactly the rest. */
  lemma {:induction false} UncleanMisses(docs: seq<Doc>, filter: Filter, sort: Sort, limit: nat, k: nat, calls: nat)
    requires var rows := Rows(docs, filter, sort); 0 < k < |rows| && !Clean(sort, rows, k) && Val(sort, rows[k - 1]).Some?
    requires limit > 0 && FieldSort(sort) && sort.field !in filter && UniqueIds(docs)
    requires Handed(sort, Val(sort, Rows(docs, filter, sort)[k - 1]))
    ensures var rows := Rows(docs, filter, sort);
            Seen(FieldPages(docs, filter, sort, limit, CursorAfter(sort, Val(sort, rows[k - 1])), calls)) != rows[k..]
  {
    var rows := Rows(docs, filter, sort);
    var last := Val(sort, rows[k - 1]);
    var seen := Seen(FieldPages(docs, filter, sort, limit, CursorAfter(sort, last), calls));
    var ahead := Ahead(rows, sort, last);
    RowsMeaning(docs, filter, sort);
    SelMembers(rows, sort, After(sort, last.value));
    SeenStartsAhead(docs, filter, sort, limit, last, calls);
    SeenHaveValues(docs, filter, sort, limit, last, calls);
    if seen == rows[k..] {
      assert seen[0] == rows[k] && seen[|seen| - 1] == rows[|rows| - 1];
      assert ahead[0] == rows[k] && rows[k] in ahead;
      assert rows[|rows| - 1] in seen;
      FirstAhead(rows, sort, last.value, k);
      RestIsLetThroughIff(sort, rows, k);
      LetThroughToLast(sort, rows, k);
    }
  }

  /** Row k is let through and the last one has a value, so all between are. */
  lemma LetThroughToLast(sort: Sort, rows: seq<Doc>, k: nat)
    requires Ordered(sort, rows) && 0 < k < |rows| && Val(sort, rows[|rows| - 1]).Some?
    requires LetsThrough(sort, Val(sort, rows[k - 1]), Val(sort, rows[k]))
    ensures LetsRestThrough(sort, Val(sort, rows[k - 1]), Val(sort, rows[k]), Val(sort, rows[|rows| - 1]))
  {
  }

  /** When the first row ahead is row k, the row before it was not let through. */
  lemma {:induction false} FirstAhead(rows: seq<Doc>, sort: Sort, last: int, k: nat)
    requires UniqueIds(rows) && 0 < k < |rows| && Ahead(rows, sort, Some(last)) != [] && Ahead(rows, sort, Some(last))[0] == rows[k]
    ensures !After(sort, last)(Val(sort, rows[k - 1])) && After(sort, last)(Val(sort, rows[k]))
  {
    var cond := After(sort, last);
    SelMembers(rows, sort, cond);
    assert Sel(rows, sort, cond)[0] in Sel(rows, sort, cond);
    if cond(Val(sort, rows[k - 1])) {
      SelStartsEarly(rows, sort, cond, k - 1);
      var i :| 0 <= i <= k - 1 && Sel(rows, sort, cond)[0] == rows[i];
      UniqueAt(rows, i, k);
    }
  }

  lemma {:induction false} SelStartsEarly(rows: seq<Doc>, sort: Sort, cond: Option<int> -> bool, k: nat)
    requires k < |rows| && cond(Val(sort, rows[k]))
    ensures Sel(rows, sort, cond) != [] && exists i :: 0 <= i <= k && Sel(rows, sort, cond)[0] == rows[i]
  {
    if cond(Val(sort, rows[0])) {
      assert Sel(rows, sort, cond)[0] == rows[0];
    } else {
      SelStartsEarly(rows[1..], sort, cond, k - 1);
      var i :| 0 <= i <= k - 1 && Sel(rows[1..], sort, cond)[0] == rows[1..][i];
      assert rows[1..][i] == rows[i + 1];
      assert Sel(rows, sort, cond) == Sel(rows[1..], sort, cond);
    }
  }

  ghost predicate ShowsRest(docs: seq<Doc>, filter: Filter, sort: Sort, limit: nat, last: Option<int>, k: nat, calls: nat)
    requires limit > 0 && k <= |Rows(docs, filter, sort)|
  {
    var pages := FieldPages(docs, filter, sort, limit, CursorAfter(sort, last), calls);
    Finished(pages) && Seen(pages) == Rows(docs, filter, sort)[k..]
  }

  lemma {:induction false} ShowsRestIff(docs: seq<Doc>, filter: Filter, sort: Sort, limit: nat, last: Option<int>, k: nat, calls: nat)
    requires limit > 0 && FieldSort(sort) && sort.field !in filter && UniqueIds(docs) && Handed(sort, last)
    requires k <= |Rows(docs, filter, sort)| && Ahead(Rows(docs, filter, sort), sort, last) == Rows(docs, filter, sort)[k..]
    requires calls > |Rows(docs, filter, sort)| - k
    ensures ShowsRest(docs, filter, sort, limit, last, k, calls) <==> CleanFrom(sort, Rows(docs, filter, sort), limit, k)
    decreases calls
  {
    hide Rows, FieldPages, CursorAfter, Ahead, Clean, Seen, Finished, Ordered, UniqueIds, Val, Handed;
    var rows := Rows(docs, filter, sort);
    var m := k + limit;
    RowsMeaning(docs, filter, sort);
    PageGoesOn(docs, filter, sort, limit, last, calls);
    if m < |rows| {
      assert rows[k..][limit - 1] == rows[m - 1] && rows[k..][..limit] == rows[k..m];
      assert rows[k..] == rows[k..m] + rows[m..];
      assert rows[m..] != [] && |rows[k..m]| < |rows[k..]|;
      if Clean(sort, rows, m) {
        CleanSlices(sort, rows, m);
        ShowsRestIff(docs, filter, sort, limit, Val(sort, rows[m - 1]), m, calls - 1);
      } else if Val(sort, rows[m - 1]).Some? && Handed(sort, Val(sort, rows[m - 1])) {
        UncleanMisses(docs, filter, sort, limit, m, calls - 1);
      }
    }
  }

  /** A client that follows the cursors to the end, by any field, gets the whole
      sorted list, each row once, if and only if every page boundary is clean. */
  lemma {:induction false} EachRowOnceIff(docs: seq<Doc>, filter: Filter, sort: Sort, limit: nat, calls: nat)
    requires limit > 0 && FieldSort(sort) && sort.field !in filter && UniqueIds(docs)
    requires calls > |Rows(docs, filter, sort)|
    ensures var pages, rows := FieldPages(docs, filter, sort, limit, None, calls), Rows(docs, filter, sort);
            Finished(pages) && Seen(pages) == rows <==> CleanFrom(sort, rows, limit, 0)
  {
    hide Rows, FieldPages, CleanFrom;
    var rows := Rows(docs, filter, sort);
    assert rows[0..] == rows;
    ShowsRestIff(docs, filter, sort, limit, None, 0, calls);
  }

  // ----- When the walk ends ----------------------------------------------------------------------

  /** From row q, not at a whole second, a whole page lies in one second, with more
      rows to come. */
  predicate Stuck(sort: Sort, rows: seq<Doc>, limit: nat, q: nat)
    requires limit > 0
  {
    && q + limit < |rows|
    && Val(sort, rows[q]).Some? && Val(sort, rows[q + limit - 1]).Some?
    && Val(sort, rows[q]).value % 1000 != 0
    && Val(sort, rows[q]).value / 1000 == Val(sort, rows[q + limit - 1]).value / 1000
  }

  ghost predicate NeverStuck(sort: Sort, rows: seq<Doc>, limit: nat)
    requires limit > 0
  {
    IsDateField(sort.field) && sort.dir == Ascending ==> forall q: nat :: !Stuck(sort, rows, limit, q)
  }

  predicate FirstPageValued(sort: Sort, rows: seq<Doc>, limit: nat)
    requires limit > 0
  {
    |rows| <= limit || Val(sort, rows[limit - 1]).Some?
  }

  lemma {:induction false} LaterPasses(rows: seq<Doc>, sort: Sort, last: int, p: nat, i: nat)
    requires Ordered(sort, rows) && sort.dir == Ascending && p <= i < |rows| && After(sort, last)(Val(sort, rows[p]))
    ensures After(sort, last)(Val(sort, rows[i]))
  {
    if p < i {
      OrderedAt(sort, rows, p, i);
    }
  }

  /** Ascending, the rows ahead of a cursor are the rows from some index on. */
  lemma {:induction false} AheadIsSuffix(rows: seq<Doc>, sort: Sort, last: int) returns (p: nat)
    requires Ordered(sort, rows) && sort.dir == Ascending
    ensures p <= |rows| && Ahead(rows, sort, Some(last)) == rows[p..]
    ensures forall i :: 0 <= i < |rows| ==> (After(sort, last)(Val(sort, rows[i])) <==> p <= i)
  {
    hide Val, After, Ordered;
    var cond := After(sort, last);
    p := 0;
    while p < |rows| && !cond(Val(sort, rows[p]))
      invariant p <= |rows|
      invariant forall i :: 0 <= i < p ==> !cond(Val(sort, rows[i]))
    {
      p := p + 1;
    }
    forall i | p <= i < |rows| ensures cond(Val(sort, rows[i])) {
      LaterPasses(rows, sort, last, p, i);
    }
    SelSlices(rows, sort, cond, p);
  }

  lemma {:induction false} SelShrinks(rows: seq<Doc>, sort: Sort, wide: Option<int> -> bool, narrow: Option<int> -> bool)
    requires forall i :: 0 <= i < |rows| && narrow(Val(sort, rows[i])) ==> wide(Val(sort, rows[i]))
    ensures |Sel(rows, sort, narrow)| <= |Sel(rows, sort, wide)|
    ensures (exists i :: 0 <= i < |rows| && wide(Val(sort, rows[i])) && !narrow(Val(sort, rows[i]))) ==>
              |Sel(rows, sort, narrow)| < |Sel(rows, sort, wide)|
  {
    if rows != [] {
      assert forall i :: 0 <= i < |rows[1..]| ==> rows[1..][i] == rows[i + 1];
      SelShrinks(rows[1..], sort, wide, narrow);
      if i :| 0 <= i < |rows| && wide(Val(sort, rows[i])) && !narrow(Val(sort, rows[i])) {
        if i > 0 {
          assert wide(Val(sort, rows[1..][i - 1]));
        }
      }
    }
  }

  lemma {:induction false} SelAll(rows: seq<Doc>, sort: Sort, cond: Option<int> -> bool)
    requires forall v :: cond(v)
    ensures Sel(rows, sort, cond) == rows
  {
    if rows != [] {
      SelAll(rows[1..], sort, cond);
    }
  }

  /** The condition behind `Ahead`. */
  function Behind(sort: Sort, last: Option<int>): Option<int> -> bool {
    if last.None? then (v: Option<int>) => true else After(sort, last.value)
  }

  lemma {:induction false} AheadMembers(rows: seq<Doc>, sort: Sort, last: Option<int>)
    ensures Ahead(rows, sort, last) == Sel(rows, sort, Behind(sort, last))
    ensures forall d :: d in Ahead(rows, sort, last) <==> d in rows && Behind(sort, last)(Val(sort, d))
    ensures Ordered(sort, rows) ==> Ordered(sort, Ahead(rows, sort, last))
  {
    if last.None? {
      SelAll(rows, sort, Behind(sort, last));
    }
    SelMembers(rows, sort, Behind(sort, last));
  }

  /** A cursor made from a row ahead of another cursor lies no earlier. */
  lemma CursorsAdvance(sort: Sort, last: Option<int>, next: int, v: Option<int>)
    requires Behind(sort, last)(Some(next)) && After(sort, next)(v)
    ensures Behind(sort, last)(v)
  {
  }

  /** Some row of a page is not ahead of the page's cursor, unless the page fills a second. */
  lemma {:induction false} PageLeavesRow(sort: Sort, rows: seq<Doc>, limit: nat, last: Option<int>) returns (d: Doc)
    requires limit > 0 && Ordered(sort, rows) && NeverStuck(sort, rows, limit)
    requires |Ahead(rows, sort, last)| > limit && Val(sort, Ahead(rows, sort, last)[limit - 1]).Some?
    ensures d in Ahead(rows, sort, last) && !After(sort, Val(sort, Ahead(rows, sort, last)[limit - 1]).value)(Val(sort, d))
  {
    var ahead := Ahead(rows, sort, last);
    var next := Val(sort, ahead[limit - 1]).value;
    if IsDateField(sort.field) && sort.dir == Ascending {
      d := ahead[0];
      if After(sort, next)(Val(sort, d)) {
        var q: nat := 0;
        if last.Some? {
          q := AheadIsSuffix(rows, sort, last.value);
        }
        assert ahead == rows[q..] && ahead[0] == rows[q] && ahead[limit - 1] == rows[q + limit - 1];
        if limit > 1 {
          OrderedAt(sort, rows, q, q + limit - 1);
        }
        assert Stuck(sort, rows, limit, q);
      }
    } else {
      d := ahead[limit - 1];
    }
  }

  lemma {:induction false} AheadShrinks(sort: Sort, rows: seq<Doc>, limit: nat, last: Option<int>)
    requires limit > 0 && Ordered(sort, rows) && NeverStuck(sort, rows, limit)
    requires |Ahead(rows, sort, last)| > limit && Val(sort, Ahead(rows, sort, last)[limit - 1]).Some?
    ensures |Ahead(rows, sort, Val(sort, Ahead(rows, sort, last)[limit - 1]))| < |Ahead(rows, sort, last)|
  {
    var ahead := Ahead(rows, sort, last);
    var next := Val(sort, ahead[limit - 1]).value;
    AheadMembers(rows, sort, last);
    assert ahead[limit - 1] in ahead;
    var d := PageLeavesRow(sort, rows, limit, last);
    var i :| 0 <= i < |rows| && rows[i] == d;
    forall i | 0 <= i < |rows| && After(sort, next)(Val(sort, rows[i])) ensures Behind(sort, last)(Val(sort, rows[i])) {
      CursorsAdvance(sort, last, next, Val(sort, rows[i]));
    }
    SelShrinks(rows, sort, Behind(sort, last), After(sort, next));
  }

  /** How a page decides whether the walk ends. */
  lemma {:induction false} EndGoesOn(docs: seq<Doc>, filter: Filter, sort: Sort, limit: nat, last: Option<int>, calls: nat)
    requires limit > 0 && calls > 0 && FieldSort(sort) && sort.field !in filter && Handed(sort, last)
    ensures var ahead := Ahead(Rows(docs, filter, sort), sort, last);
            Finished(FieldPages(docs, filter, sort, limit, CursorAfter(sort, last), calls))
            <==> || |ahead| <= limit
                 || var next := Val(sort, ahead[limit - 1]);
                    && next.Some?
                    && (Handed(sort, next) ==> Finished(FieldPages(docs, filter, sort, limit, CursorAfter(sort, next), calls - 1)))
  {
    hide Rows, CursorAfter, Seen, Ahead, Handed, Val, FieldSort, Finished;
    PageGoesOn(docs, filter, sort, limit, last, calls);
  }

  lemma {:induction false} LaterPageValued(sort: Sort, rows: seq<Doc>, limit: nat, last: Option<int>)
    requires limit > 0 && (last.None? ==> FirstPageValued(sort, rows, limit))
    ensures |Ahead(rows, sort, last)| > limit ==> Val(sort, Ahead(rows, sort, last)[limit - 1]).Some?
  {
    if last.Some? {
      AheadHaveValues(rows, sort, last);
    }
  }

  lemma {:induction false} Ends(docs: seq<Doc>, filter: Filter, sort: Sort, limit: nat, last: Option<int>, calls: nat)
    requires limit > 0 && FieldSort(sort) && sort.field !in filter && Handed(sort, last)
    requires NeverStuck(sort, Rows(docs, filter, sort), limit)
    requires last.None? ==> FirstPageValued(sort, Rows(docs, filter, sort), limit)
    requires calls > |Ahead(Rows(docs, filter, sort), sort, last)|
    ensures Finished(FieldPages(docs, filter, sort, limit, CursorAfter(sort, last), calls))
    decreases calls
  {
    hide Rows, CursorAfter, Finished, NeverStuck, Ahead, Val, Handed, FieldSort, FirstPageValued, Ordered, UniqueIds;
    var rows := Rows(docs, filter, sort);
    var ahead := Ahead(rows, sort, last);
    RowsMeaning(docs, filter, sort);
    EndGoesOn(docs, filter, sort, limit, last, calls);
    LaterPageValued(sort, rows, limit, last);
    if |ahead| > limit && Handed(sort, Val(sort, ahead[limit - 1])) {
      AheadShrinks(sort, rows, limit, last);
      Ends(docs, filter, sort, limit, Val(sort, ahead[limit - 1]), calls - 1);
    }
  }

  /** A page that fills a second is never left behind. */
  lemma {:induction false} NeverEnds(docs: seq<Doc>, filter: Filter, sort: Sort, limit: nat, last: Option<int>, calls: nat, p: nat, q: nat)
    requires limit > 0 && FieldSort(sort) && sort.field !in filter && Handed(sort, last)
    requires IsDateField(sort.field) && sort.dir == Ascending && p <= q
    requires var rows := Rows(docs, filter, sort); Stuck(sort, rows, limit, q) && Ahead(rows, sort, last) == rows[p..]
    ensures !Finished(FieldPages(docs, filter, sort, limit, CursorAfter(sort, last), calls))
    decreases calls
  {
    hide Rows, CursorAfter, Finished, Ahead, FieldSort, Ordered, UniqueIds, After, Val, CursorSpec;
    var rows := Rows(docs, filter, sort);
    if calls == 0 {
      NoCalls(docs, filter, sort, limit, CursorAfter(sort, last));
    } else {
      RowsMeaning(docs, filter, sort);
      EndGoesOn(docs, filter, sort, limit, last, calls);
      assert rows[p..][limit - 1] == rows[p + limit - 1];
      var next := Val(sort, rows[p + limit - 1]);
      if next.Some? {
        var r := AheadIsSuffix(rows, sort, next.value);
        StuckIsAhead(sort, rows, limit, p, q);
        NeverEnds(docs, filter, sort, limit, next, calls - 1, r, q);
      }
    }
  }

  lemma {:induction false} StuckIsAhead(sort: Sort, rows: seq<Doc>, limit: nat, p: nat, q: nat)
    requires limit > 0 && p <= q && Stuck(sort, rows, limit, q) && Ordered(sort, rows)
    requires IsDateField(sort.field) && sort.dir == Ascending && Val(sort, rows[p + limit - 1]).Some?
    ensures After(sort, Val(sort, rows[p + limit - 1]).value)(Val(sort, rows[q]))
  {
    if p < q {
      OrderedAt(sort, rows, p + limit - 1, q + limit - 1);
    }
  }

  /** A walk by any field ends if and only if the first page's last row has the field
      (or is the last row of all) and, ascending by a date, no page length of rows
      lies within one second, not at its start, with more rows to come. */
  lemma {:induction false} WalkEndsIff(docs: seq<Doc>, filter: Filter, sort: Sort, limit: nat, calls: nat)
    requires limit > 0 && FieldSort(sort) && sort.field !in filter && calls > |Rows(docs, filter, sort)|
    ensures Finished(FieldPages(docs, filter, sort, limit, None, calls))
            <==> FirstPageValued(sort, Rows(docs, filter, sort), limit) && NeverStuck(sort, Rows(docs, filter, sort), limit)
  {
    var rows := Rows(docs, filter, sort);
    if !FirstPageValued(sort, rows, limit) {
      PageGoesOn(docs, filter, sort, limit, None, calls);
    } else if !NeverStuck(sort, rows, limit) {
      var q: nat :| Stuck(sort, rows, limit, q);
      assert rows[0..] == rows;
      NeverEnds(docs, filter, sort, limit, None, calls, 0, q);
    } else {
      Ends(docs, filter, sort, limit, None, calls);
    }
  }

  // ----- Inputs ------------------------------------------------------------------------------------

  lemma {:induction false} TwoRows(a: Doc, b: Doc, sort: Sort)
    requires InOrder(sort, a, b)
    ensures Rows([a, b], map[], sort) == [a, b]
  {
    assert [a, b][1..] == [b] && [b][1..] == [];
    assert Find([b], map[]) == [b] && Find([a, b], map[]) == [a, b];
    assert SortDocs(sort, [b]) == [b];
  }

  lemma {:induction false} NoneAhead(a: Doc, b: Doc, sort: Sort, v: int)
    requires !After(sort, v)(Val(sort, a)) && !After(sort, v)(Val(sort, b))
    ensures Ahead([a, b], sort, Some(v)) == []
  {
    SelMembers([a, b], sort, After(sort, v));
    NoMembers(Sel([a, b], sort, After(sort, v)));
  }

  lemma NoMembers(rows: seq<Doc>)
    ensures (forall d :: d !in rows) ==> rows == []
  {
    if rows != [] {
      assert rows[0] in rows;
    }
  }

  /** Two rows in order, one a page, neither let through by the first one's cursor:
      the walk ends with the first row alone. */
  lemma {:induction false} TwoRowWalk(a: Doc, b: Doc, sort: Sort)
    requires FieldSort(sort) && InOrder(sort, a, b) && Val(sort, a).Some?
    requires !LetsThrough(sort, Val(sort, a), Val(sort, a)) && !LetsThrough(sort, Val(sort, a), Val(sort, b))
    ensures var pages := FieldPages([a, b], map[], sort, 1, None, 3); Finished(pages) && Seen(pages) == [a]
  {
    hide Rows, Ahead, FieldPages, Seen, Finished, CursorAfter, Val, FieldSort;
    var v := Val(sort, a);
    TwoRows(a, b, sort);
    PageGoesOn([a, b], map[], sort, 1, None, 3);
    assert Ahead([a, b], sort, None) == [a, b] by { WholeAhead([a, b], sort); }
    assert [a, b][..1] == [a] && [a] + [] == [a];
    assert CursorAfter(sort, None) == None by { NoCursor(sort); }
    if Handed(sort, v) {
      NoneAhead(a, b, sort, v.value);
      PageGoesOn([a, b], map[], sort, 1, v, 2);
    }
  }

  lemma WholeAhead(rows: seq<Doc>, sort: Sort)
    ensures Ahead(rows, sort, None) == rows
  {
  }

  lemma NoCursor(sort: Sort)
    ensures CursorAfter(sort, None) == None
  {
  }

  function Priced(id: nat, price: int): Doc {
    Doc(id, map["price" := price])
  }

  function Made(id: nat, at: int): Doc {
    Doc(id, map["createdAt" := at])
  }

  lemma {:induction false} FieldValues(id: nat, v: int, dir: Direction)
    ensures Val(Sort("price", dir), Priced(id, v)) == Some(v) && !IsDateField("price") && FieldSort(Sort("price", dir))
    ensures Val(Sort("createdAt", dir), Made(id, v)) == Some(v) && IsDateField("createdAt") && FieldSort(Sort("createdAt", dir))
  {
    assert "price"[0] == 'p' && "createdAt"[0] == 'c' && "updatedAt"[0] == 'u' && "_id"[0] == '_';
  }

  /** Two rows with one price: the second is never returned. */
  lemma {:induction false} TiesAreLost(price: int)
    ensures var pages := FieldPages([Priced(1, price), Priced(2, price)], map[], Sort("price", Ascending), 1, None, 3);
            Finished(pages) && Seen(pages) == [Priced(1, price)]
  {
    FieldValues(1, price, Ascending);
    FieldValues(2, price, Ascending);
    TwoRowWalk(Priced(1, price), Priced(2, price), Sort("price", Ascending));
  }

  /** The default order, newest first: of two rows made in one second the older one
      is never returned. */
  lemma {:induction false} SameSecondIsLost()
    ensures var pages := FieldPages([Made(1, 1500), Made(2, 1200)], map[], Sort("createdAt", Descending), 1, None, 3);
            Finished(pages) && Seen(pages) == [Made(1, 1500)]
  {
    FieldValues(1, 1500, Descending);
    FieldValues(2, 1200, Descending);
    TwoRowWalk(Made(1, 1500), Made(2, 1200), Sort("createdAt", Descending));
  }

  /** Oldest first, one row a page, a row at 1.5 s: every call answers the same row
      and cursor, and the client never gets past it. */
  lemma {:induction false} OldestFirstNeverEnds(calls: nat)
    ensures !Finished(FieldPages([Made(1, 1500), Made(2, 2500)], map[], Sort("createdAt", Ascending), 1, None, calls))
  {
    var rows, sort := [Made(1, 1500), Made(2, 2500)], Sort("createdAt", Ascending);
    FieldValues(1, 1500, Ascending);
    FieldValues(2, 2500, Ascending);
    TwoRows(rows[0], rows[1], sort);
    assert rows[0..] == rows;
    NeverEnds(rows, map[], sort, 1, None, calls, 0, 0);
  }
}
