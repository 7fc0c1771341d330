/** The order of the rows on a page, by the text of the sort, and what its flag says. */
module PageOrder {
  import opened Common
  import opened Pagination
  import opened CursorWalk

  /** No row has a smaller value than a later one, and a missing value comes last. */
  ghost predicate Descends(field: string, rows: seq<Doc>) {
    forall i, j :: 0 <= i < j < |rows| && ValueOf(rows[j], field).Some? ==>
      ValueOf(rows[i], field).Some? && ValueOf(rows[i], field).value >= ValueOf(rows[j], field).value
  }

  /** No row has a greater value than a later one, and a missing value comes first. */
  ghost predicate Ascends(field: string, rows: seq<Doc>) {
    forall i, j :: 0 <= i < j < |rows| && ValueOf(rows[i], field).Some? ==>
      ValueOf(rows[j], field).Some? && ValueOf(rows[i], field).value <= ValueOf(rows[j], field).value
  }

  /** What the text of a sort asks for: `-` before the field is descending, and no
      text at all is newest first. */
  ghost predicate InAskedOrder(sort: string, rows: seq<Doc>) {
    && (sort == "" ==> Descends("createdAt", rows))
    && (sort != "" && sort[0] == '-' ==> Descends(sort[1..], rows))
    && (sort != "" && sort[0] != '-' ==> Ascends(sort, rows))
  }

  lemma {:induction false} RowsInAskedOrder(docs: seq<Doc>, filter: Filter, sort: string)
    ensures InAskedOrder(sort, Rows(docs, filter, ParseSort(sort)))
  {
    var rows := Rows(docs, filter, ParseSort(sort));
    RowsMeaning(docs, filter, ParseSort(sort));
    forall i, j | 0 <= i < j < |rows| ensures InOrder(ParseSort(sort), rows[i], rows[j]) {
      OrderedAt(ParseSort(sort), rows, i, j);
    }
  }

  lemma {:induction false} PartInAskedOrder(sort: string, rows: seq<Doc>, from: nat, to: nat)
    requires from <= to <= |rows| && InAskedOrder(sort, rows)
    ensures InAskedOrder(sort, rows[from..to])
  {
    var part := rows[from..to];
    assert forall i :: 0 <= i < |part| ==> part[i] == rows[from + i];
  }

  /** An offset page comes in the order its sort text asks for. */
  lemma {:induction false} OffsetPageInOrder(docs: seq<Doc>, filter: Filter, page: int, limit: int, sort: string)
    ensures InAskedOrder(sort, PaginateOffset(docs, filter, page, limit, sort).data)
  {
    hide InAskedOrder, ParseSort, Rows;
    var rows := Rows(docs, filter, ParseSort(sort));
    var p := Max(1, page);
    var from := Min(SkipCount(p, ToSafeLimit(limit)), |rows|);
    var to := from + Min(ToSafeLimit(limit), |rows| - from);
    RowsInAskedOrder(docs, filter, sort);
    PartInAskedOrder(sort, rows, from, to);
    assert rows[from..][..to - from] == rows[from..to];
  }

  /** So does a cursor page; a missing sort text is newest first. */
  lemma {:induction false} CursorPageInOrder(docs: seq<Doc>, filter: Filter, limit: int, sort: string, cursor: Option<Cursor>)
    ensures var r := CursorAnswer(docs, filter, limit, sort, cursor); r.Ok? ==> InAskedOrder(sort, r.value.data)
  {
    hide InAskedOrder, ParseSort, Rows, CursorQuery;
    var text := if sort == "" then "-createdAt" else sort;
    var query := CursorQuery(filter, ParseSort(text), cursor);
    if query.Ok? {
      var rows := Rows(docs, query.value, ParseSort(text));
      RowsInAskedOrder(docs, query.value, text);
      PartInAskedOrder(text, rows, 0, Min(ToSafeLimit(limit), |rows|));
      DefaultIsNewestFirst(rows[..Min(ToSafeLimit(limit), |rows|)]);
    }
  }

  lemma DefaultIsNewestFirst(rows: seq<Doc>)
    ensures InAskedOrder("-createdAt", rows) ==> InAskedOrder("", rows)
  {
    assert "-createdAt"[1..] == "createdAt" && "-createdAt"[0] == '-';
  }

  /** All offset pages laid end to end are the matching documents in the order asked for. */
  lemma {:induction false} AllPagesInOrder(docs: seq<Doc>, filter: Filter, limit: int, sort: string)
    ensures var all := PagesUpTo(docs, filter, PaginateOffset(docs, filter, 1, limit, sort).meta.totalPages, limit, sort);
            && InAskedOrder(sort, all)
            && (forall d :: d in all <==> d in docs && forall f :: f in filter ==> filter[f](ValueOf(d, f)))
            && (UniqueIds(docs) ==> UniqueIds(all))
  {
    OffsetPagesTile(docs, filter, limit, sort);
    RowsInAskedOrder(docs, filter, sort);
    RowsMeaning(docs, filter, ParseSort(sort));
    hide InAskedOrder, ParseSort, Rows, PagesUpTo;
  }

  /** On the first call `hasNext` says exactly that a matching document is not on
      the page, and there is no cursor without it. */
  lemma {:induction false} HasNextIff(docs: seq<Doc>, filter: Filter, limit: int, sort: string)
    requires UniqueIds(docs)
    ensures var r := CursorAnswer(docs, filter, limit, sort, None);
            && r.Ok? && |r.value.data| <= ToSafeLimit(limit)
            && (r.value.hasNext <==> exists d :: d in docs && Matches(filter, d) && d !in r.value.data)
            && (r.value.nextCursor.Some? ==> r.value.hasNext)
  {
    hide ParseSort, Rows;
    var text := if sort == "" then "-createdAt" else sort;
    var rows := Rows(docs, filter, ParseSort(text));
    var data := CursorAnswer(docs, filter, limit, sort, None).value.data;
    RowsMeaning(docs, filter, ParseSort(text));
    if |rows| > ToSafeLimit(limit) {
      var d := rows[ToSafeLimit(limit)];
      assert d in rows;
      forall i | 0 <= i < |data| ensures data[i] != d {
        OrderedAt(ParseSort(text), rows, i, ToSafeLimit(limit));
      }
    } else {
      assert data == rows;
    }
  }
}
