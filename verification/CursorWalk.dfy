/** What a client sees when it follows `nextCursor` until it is null, while rows
    come and go between the calls. */
module CursorWalk {
  import opened Common
  import opened Pagination

  // ----- Sorting and filtering -----------------------------------------------

  predicate Ordered(sort: Sort, docs: seq<Doc>) {
    docs == [] || ((forall d :: d in docs[1..] ==> InOrder(sort, docs[0], d)) && Ordered(sort, docs[1..]))
  }

  predicate UniqueIds(docs: seq<Doc>) {
    docs == [] || ((forall d :: d in docs[1..] ==> d.id != docs[0].id) && UniqueIds(docs[1..]))
  }

  lemma {:induction false} FindMembers(docs: seq<Doc>, filter: Filter)
    ensures forall d :: d in Find(docs, filter) <==> d in docs && Matches(filter, d)
    ensures UniqueIds(docs) ==> UniqueIds(Find(docs, filter))
  {
    if docs != [] {
      FindMembers(docs[1..], filter);
      assert docs == [docs[0]] + docs[1..];
      if Matches(filter, docs[0]) {
        assert Find(docs, filter)[1..] == Find(docs[1..], filter);
      } else {
        assert Find(docs, filter) == Find(docs[1..], filter);
      }
    }
  }

  lemma {:induction false} InsertKeeps(sort: Sort, doc: Doc, docs: seq<Doc>)
    requires Ordered(sort, docs)
    ensures Ordered(sort, Insert(sort, doc, docs))
    ensures forall d :: d in Insert(sort, doc, docs) <==> d == doc || d in docs
    ensures UniqueIds(docs) && (forall d :: d in docs ==> d.id != doc.id) ==> UniqueIds(Insert(sort, doc, docs))
  {
    var r := Insert(sort, doc, docs);
    if docs == [] || InOrder(sort, doc, docs[0]) {
      assert r[1..] == docs;
      assert docs != [] ==> docs == [docs[0]] + docs[1..];
    } else {
      InsertKeeps(sort, doc, docs[1..]);
      assert docs == [docs[0]] + docs[1..];
      assert r[1..] == Insert(sort, doc, docs[1..]);
    }
  }

  lemma {:induction false} SortKeeps(sort: Sort, docs: seq<Doc>)
    ensures Ordered(sort, SortDocs(sort, docs))
    ensures forall d :: d in SortDocs(sort, docs) <==> d in docs
    ensures UniqueIds(docs) ==> UniqueIds(SortDocs(sort, docs))
  {
    if docs != [] {
      SortKeeps(sort, docs[1..]);
      assert docs == [docs[0]] + docs[1..];
      InsertKeeps(sort, docs[0], SortDocs(sort, docs[1..]));
    }
  }

  lemma {:induction false} OrderedAt(sort: Sort, docs: seq<Doc>, i: nat, j: nat)
    requires Ordered(sort, docs) && i < j < |docs|
    ensures InOrder(sort, docs[i], docs[j])
    ensures UniqueIds(docs) ==> docs[i].id != docs[j].id
  {
    if i == 0 {
      assert docs[1..][j - 1] == docs[j];
    } else {
      OrderedAt(sort, docs[1..], i - 1, j - 1);
    }
  }

  /** The rows of a query: sorted, and exactly the matching documents. */
  lemma RowsMeaning(docs: seq<Doc>, filter: Filter, sort: Sort)
    ensures Ordered(sort, Rows(docs, filter, sort))
    ensures forall d :: d in Rows(docs, filter, sort) <==> d in docs && Matches(filter, d)
    ensures UniqueIds(docs) ==> UniqueIds(Rows(docs, filter, sort))
  {
    FindMembers(docs, filter);
    SortKeeps(sort, Find(docs, filter));
  }

  /** A cursor's condition keeps every other condition and drops the one the
      filter had on the sort field. */
  lemma CursorConditionReplaces(filter: Filter, field: string, cond: Option<int> -> bool, doc: Doc)
    ensures Matches(filter[field := cond], doc)
            <==> cond(ValueOf(doc, field)) && Matches(filter - {field}, doc)
  {
    var q := filter[field := cond];
    assert forall f :: f in filter - {field} ==> f in q && q[f] == filter[f];
    assert field in q;
  }

  // ----- Walking by _id --------------------------------------------------------

  function IdSort(dir: Direction): Sort {
    Sort(ID_FIELD, dir)
  }

  predicate Before(dir: Direction, x: nat, y: nat) {
    match dir
    case Ascending => x < y
    case Descending => x > y
  }

  ghost predicate IdSorted(dir: Direction, docs: seq<Doc>) {
    forall i, j :: 0 <= i < j < |docs| ==> Before(dir, docs[i].id, docs[j].id)
  }

  predicate After(dir: Direction, cursor: Option<nat>, id: nat) {
    cursor.Some? ==> Before(dir, cursor.value, id)
  }

  function AsCursor(cursor: Option<nat>): Option<Cursor> {
    if cursor.None? then None else Some(ObjectIdText(cursor.value))
  }

  function Remaining(docs: seq<Doc>, filter: Filter, dir: Direction, cursor: Option<nat>): seq<Doc> {
    Rows(docs, if cursor.None? then filter else filter[ID_FIELD := Beyond(dir, cursor.value)], IdSort(dir))
  }

  lemma RemainingMeaning(docs: seq<Doc>, filter: Filter, dir: Direction, cursor: Option<nat>)
    requires UniqueIds(docs) && ID_FIELD !in filter
    ensures IdSorted(dir, Remaining(docs, filter, dir, cursor))
    ensures forall d :: d in Remaining(docs, filter, dir, cursor)
                        <==> d in docs && Matches(filter, d) && After(dir, cursor, d.id)
  {
    var query := if cursor.None? then filter else filter[ID_FIELD := Beyond(dir, cursor.value)];
    RowsMeaning(docs, query, IdSort(dir));
    var rows := Remaining(docs, filter, dir, cursor);
    forall i, j | 0 <= i < j < |rows| ensures Before(dir, rows[i].id, rows[j].id) {
      OrderedAt(IdSort(dir), rows, i, j);
    }
    if cursor.Some? {
      assert filter - {ID_FIELD} == filter;
      forall d: Doc ensures Matches(query, d) <==> Matches(filter, d) && After(dir, cursor, d.id) {
        CursorConditionReplaces(filter, ID_FIELD, Beyond(dir, cursor.value), d);
      }
    }
  }

  lemma {:induction false} SortedListIsUnique(dir: Direction, s: seq<Doc>, t: seq<Doc>)
    requires IdSorted(dir, s) && IdSorted(dir, t)
    requires forall d :: d in s <==> d in t
    ensures s == t
  {
    if s == [] {
      assert forall i :: 0 <= i < |t| ==> t[i] in t;
    } else {
      assert s[0] in t && s[0] in s;
      assert t[0] in s;
      var i :| 0 <= i < |t| && t[i] == s[0];
      var j :| 0 <= j < |s| && s[j] == t[0];
      assert i == 0 && j == 0;
      assert s == [s[0]] + s[1..] && t == [t[0]] + t[1..];
      assert s[0] !in s[1..] && s[0] !in t[1..];
      forall d ensures d in s[1..] <==> d in t[1..] {
        assert d in s <==> d in t;
      }
      SortedListIsUnique(dir, s[1..], t[1..]);
    }
  }

  /** The pages seen by a client that starts at `cursor`, the k-th call reading
      the collection as `snaps[k]`. */
  function Walk(snaps: seq<seq<Doc>>, filter: Filter, dir: Direction, limit: nat, cursor: Option<nat>): seq<CursorPage>
    requires limit > 0
  {
    if snaps == [] then []
    else
      var page := CursorSpec(snaps[0], filter, IdSort(dir), limit, AsCursor(cursor)).value;
      if page.nextCursor.Some? && page.nextCursor.value.ObjectIdText?
      then [page] + Walk(snaps[1..], filter, dir, limit, Some(page.nextCursor.value.id))
      else [page]
  }

  predicate Finished(pages: seq<CursorPage>) {
    pages != [] && pages[|pages| - 1].nextCursor.None?
  }

  function Seen(pages: seq<CursorPage>): seq<Doc> {
    if pages == [] then [] else pages[0].data + Seen(pages[1..])
  }

  predicate Holds(docs: seq<Doc>, filter: Filter, id: nat) {
    exists i :: 0 <= i < |docs| && docs[i].id == id && Matches(filter, docs[i])
  }

  lemma OnePage(docs: seq<Doc>, filter: Filter, dir: Direction, limit: nat, cursor: Option<nat>)
    requires limit > 0
    ensures CursorSpec(docs, filter, IdSort(dir), limit, AsCursor(cursor))
            == Ok(PageOf(Remaining(docs, filter, dir, cursor), ID_FIELD, limit))
  {
  }

  /** `pages` start with one page cut from `rows`, and go on with `rest`. */
  predicate StartsWith(pages: seq<CursorPage>, rows: seq<Doc>, limit: nat, rest: seq<CursorPage>) {
    && Seen(pages) == Limit(rows, limit) + Seen(rest)
    && |pages| == 1 + |rest|
    && (if |rows| > limit then Finished(pages) <==> Finished(rest) else rest == [] && Finished(pages))
  }

  function RestOfWalk(snaps: seq<seq<Doc>>, filter: Filter, dir: Direction, limit: nat, rows: seq<Doc>): seq<CursorPage>
    requires limit > 0 && snaps != []
  {
    if |rows| > limit then Walk(snaps[1..], filter, dir, limit, Some(rows[limit - 1].id)) else []
  }

  lemma {:induction false} FirstPage(snaps: seq<seq<Doc>>, filter: Filter, dir: Direction, limit: nat, cursor: Option<nat>)
    requires limit > 0 && snaps != []
    ensures var rows := Remaining(snaps[0], filter, dir, cursor);
            StartsWith(Walk(snaps, filter, dir, limit, cursor), rows, limit, RestOfWalk(snaps, filter, dir, limit, rows))
  {
    var rows := Remaining(snaps[0], filter, dir, cursor);
    OnePage(snaps[0], filter, dir, limit, cursor);
    OnePageThenRest(PageOf(rows, ID_FIELD, limit), rows, limit, RestOfWalk(snaps, filter, dir, limit, rows));
  }

  lemma {:induction false} OnePageThenRest(page: CursorPage, rows: seq<Doc>, limit: nat, rest: seq<CursorPage>)
    requires limit > 0 && page == PageOf(rows, ID_FIELD, limit)
    requires |rows| <= limit ==> rest == []
    ensures StartsWith([page] + rest, rows, limit, rest)
  {
    assert ([page] + rest)[1..] == rest;
  }

  /** Strictly in order, beyond the cursor, and matching. */
  ghost predicate SeenOnce(dir: Direction, cursor: Option<nat>, filter: Filter, docs: seq<Doc>) {
    && IdSorted(dir, docs)
    && forall i :: 0 <= i < |docs| ==> After(dir, cursor, docs[i].id) && Matches(filter, docs[i])
  }

  lemma {:induction false} SeenOnceStep(dir: Direction, cursor: Option<nat>, filter: Filter, rows: seq<Doc>, limit: nat, rest: seq<Doc>)
    requires limit > 0 && SeenOnce(dir, cursor, filter, rows)
    requires if |rows| > limit then SeenOnce(dir, Some(rows[limit - 1].id), filter, rest) else rest == []
    ensures SeenOnce(dir, cursor, filter, Limit(rows, limit) + rest)
  {
    if |rows| > limit {
      assert After(dir, cursor, rows[limit - 1].id);
    } else {
      assert Limit(rows, limit) + rest == rows;
    }
  }

  /** No document is returned twice: whatever happens between the calls, the ids
      come strictly in order, all beyond the starting cursor. */
  lemma {:induction false} WalkNeverRepeats(
      snaps: seq<seq<Doc>>, filter: Filter, dir: Direction, limit: nat, cursor: Option<nat>)
    requires limit > 0 && ID_FIELD !in filter
    requires forall k :: 0 <= k < |snaps| ==> UniqueIds(snaps[k])
    ensures SeenOnce(dir, cursor, filter, Seen(Walk(snaps, filter, dir, limit, cursor)))
  {
    if snaps != [] {
      var rows := Remaining(snaps[0], filter, dir, cursor);
      RemainingMeaning(snaps[0], filter, dir, cursor);
      assert forall i :: 0 <= i < |rows| ==> rows[i] in rows;
      FirstPage(snaps, filter, dir, limit, cursor);
      if |rows| > limit {
        WalkNeverRepeats(snaps[1..], filter, dir, limit, Some(rows[limit - 1].id));
      }
      SeenOnceStep(dir, cursor, filter, rows, limit, Seen(RestOfWalk(snaps, filter, dir, limit, rows)));
    }
  }

  predicate HasId(docs: seq<Doc>, id: nat) {
    exists i :: 0 <= i < |docs| && docs[i].id == id
  }

  lemma HeldRowsRemain(docs: seq<Doc>, filter: Filter, dir: Direction, cursor: Option<nat>, id: nat)
    requires UniqueIds(docs) && ID_FIELD !in filter && Holds(docs, filter, id) && After(dir, cursor, id)
    ensures HasId(Remaining(docs, filter, dir, cursor), id)
  {
    RemainingMeaning(docs, filter, dir, cursor);
    var i :| 0 <= i < |docs| && docs[i].id == id && Matches(filter, docs[i]);
    var j :| 0 <= j < |Remaining(docs, filter, dir, cursor)| && Remaining(docs, filter, dir, cursor)[j] == docs[i];
  }

  lemma HasIdInEither(docs: seq<Doc>, rest: seq<Doc>, id: nat)
    requires HasId(docs, id) || HasId(rest, id)
    ensures HasId(docs + rest, id)
  {
    if HasId(docs, id) {
      var i :| 0 <= i < |docs| && docs[i].id == id;
      assert (docs + rest)[i].id == id;
    } else {
      var i :| 0 <= i < |rest| && rest[i].id == id;
      assert (docs + rest)[|docs| + i].id == id;
    }
  }

  lemma PageOrLater(dir: Direction, rows: seq<Doc>, limit: nat, id: nat)
    requires limit > 0 && IdSorted(dir, rows) && HasId(rows, id)
    ensures HasId(Limit(rows, limit), id) || (|rows| > limit && Before(dir, rows[limit - 1].id, id))
  {
    var i :| 0 <= i < |rows| && rows[i].id == id;
    if i < limit {
      assert Limit(rows, limit)[i].id == id;
    }
  }

  /** Every document that matched at each call made is returned by a walk that
      finished. */
  lemma {:induction false} WalkMissesNothing(
      snaps: seq<seq<Doc>>, filter: Filter, dir: Direction, limit: nat, cursor: Option<nat>, id: nat)
    requires limit > 0 && ID_FIELD !in filter
    requires forall k :: 0 <= k < |snaps| ==> UniqueIds(snaps[k])
    requires After(dir, cursor, id)
    requires Finished(Walk(snaps, filter, dir, limit, cursor))
    requires forall k :: 0 <= k < |Walk(snaps, filter, dir, limit, cursor)| && k < |snaps| ==> Holds(snaps[k], filter, id)
    ensures HasId(Seen(Walk(snaps, filter, dir, limit, cursor)), id)
  {
    var rows := Remaining(snaps[0], filter, dir, cursor);
    var rest := RestOfWalk(snaps, filter, dir, limit, rows);
    FirstPage(snaps, filter, dir, limit, cursor);
    RemainingMeaning(snaps[0], filter, dir, cursor);
    HeldRowsRemain(snaps[0], filter, dir, cursor, id);
    PageOrLater(dir, rows, limit, id);
    if !HasId(Limit(rows, limit), id) {
      forall k | 0 <= k < |rest| && k < |snaps[1..]| ensures Holds(snaps[1..][k], filter, id) {
        assert Holds(snaps[k + 1], filter, id);
      }
      WalkMissesNothing(snaps[1..], filter, dir, limit, Some(rows[limit - 1].id), id);
    }
    HasIdInEither(Limit(rows, limit), Seen(rest), id);
  }

  lemma LaterRows(dir: Direction, rows: seq<Doc>, limit: nat, d: Doc)
    requires 0 < limit < |rows| && IdSorted(dir, rows)
    ensures d in rows[limit..] <==> d in rows && Before(dir, rows[limit - 1].id, d.id)
  {
    if d in rows && Before(dir, rows[limit - 1].id, d.id) {
      var k :| 0 <= k < |rows| && rows[k] == d;
      assert rows[limit..][k - limit] == d;
    }
  }

  /** The next call sees exactly the rows this call left over. */
  lemma NextRemaining(docs: seq<Doc>, filter: Filter, dir: Direction, limit: nat, cursor: Option<nat>)
    requires limit > 0 && ID_FIELD !in filter && UniqueIds(docs)
    requires |Remaining(docs, filter, dir, cursor)| > limit
    ensures var rows := Remaining(docs, filter, dir, cursor);
            Remaining(docs, filter, dir, Some(rows[limit - 1].id)) == rows[limit..]
  {
    var rows := Remaining(docs, filter, dir, cursor);
    var next := Some(rows[limit - 1].id);
    RemainingMeaning(docs, filter, dir, cursor);
    RemainingMeaning(docs, filter, dir, next);
    assert rows[limit - 1] in rows;
    forall d ensures d in Remaining(docs, filter, dir, next) <==> d in rows[limit..] {
      assert d in Remaining(docs, filter, dir, next) <==> d in rows && Before(dir, rows[limit - 1].id, d.id);
      LaterRows(dir, rows, limit, d);
    }
    SortedListIsUnique(dir, Remaining(docs, filter, dir, next), rows[limit..]);
  }

  function CallsFor(n: nat, limit: nat): nat
    requires limit > 0
  {
    if n <= limit then 1 else 1 + CallsFor(n - limit, limit)
  }

  lemma OneLess(q: int, l: nat)
    ensures (q - 1) * l == q * l - l
  {
  }

  lemma CeilDivIs(n: nat, l: nat, q: nat)
    requires l > 0 && q * l - l < n <= q * l
    ensures CeilDiv(n, l) == q
  {
    CeilDivBounds(n, l);
    var c := CeilDiv(n, l);
    hide CeilDiv;
    OneLess(q, l);
    OneLess(c, l);
    if c < q {
      MulMonotone(c, q - 1, l);
    } else if c > q {
      MulMonotone(q, c - 1, l);
    }
  }

  lemma {:induction false} CallsAreTotalPages(n: nat, l: nat)
    requires l > 0
    ensures CallsFor(n, l) == TotalPages(n, l)
  {
    if 0 < n <= l {
      CeilDivIs(n, l, 1);
    } else if n == 0 {
      CeilDivIs(0, l, 0);
    } else {
      var r := CeilDiv(n - l, l);
      CallsAreTotalPages(n - l, l);
      CeilDivBounds(n - l, l);
      hide CeilDiv;
      OneLess(r, l);
      OneLess(r + 1, l);
      CeilDivIs(n, l, r + 1);
    }
  }

  predicate WholeList(pages: seq<CursorPage>, rows: seq<Doc>, limit: nat)
    requires limit > 0
  {
    Finished(pages) && Seen(pages) == rows && |pages| == CallsFor(|rows|, limit)
  }

  lemma {:induction false} WholeListStep(pages: seq<CursorPage>, rows: seq<Doc>, limit: nat, rest: seq<CursorPage>)
    requires limit > 0 && StartsWith(pages, rows, limit, rest)
    requires |rows| > limit ==> WholeList(rest, rows[limit..], limit)
    ensures WholeList(pages, rows, limit)
  {
    assert |rows| > limit ==> rows == rows[..limit] + rows[limit..];
  }

  lemma {:induction false} QuietCall(snaps: seq<seq<Doc>>, filter: Filter, dir: Direction, limit: nat, cursor: Option<nat>)
    requires limit > 0 && snaps != []
    requires var rows := Remaining(snaps[0], filter, dir, cursor);
             |rows| > limit ==> WholeList(RestOfWalk(snaps, filter, dir, limit, rows), rows[limit..], limit)
    ensures WholeList(Walk(snaps, filter, dir, limit, cursor), Remaining(snaps[0], filter, dir, cursor), limit)
  {
    var rows := Remaining(snaps[0], filter, dir, cursor);
    FirstPage(snaps, filter, dir, limit, cursor);
    WholeListStep(Walk(snaps, filter, dir, limit, cursor), rows, limit, RestOfWalk(snaps, filter, dir, limit, rows));
  }

  lemma {:induction false} QuietWalk(
      snaps: seq<seq<Doc>>, docs: seq<Doc>, filter: Filter, dir: Direction, limit: nat, cursor: Option<nat>, rows: seq<Doc>)
    requires limit > 0 && ID_FIELD !in filter && UniqueIds(docs)
    requires forall k :: 0 <= k < |snaps| ==> snaps[k] == docs
    requires rows == Remaining(docs, filter, dir, cursor)
    requires |snaps| >= CallsFor(|rows|, limit)
    ensures WholeList(Walk(snaps, filter, dir, limit, cursor), rows, limit)
    decreases |snaps|
  {
    if |rows| > limit {
      NextRemaining(docs, filter, dir, limit, cursor);
      QuietWalk(snaps[1..], docs, filter, dir, limit, Some(rows[limit - 1].id), rows[limit..]);
    }
    QuietCall(snaps, filter, dir, limit, cursor);
  }

  /** On a collection nobody changes, the pages concatenate to the whole sorted
      list in exactly max(1, ceil(n / limit)) calls. */
  lemma QuietWalkIsWholeList(snaps: seq<seq<Doc>>, docs: seq<Doc>, filter: Filter, dir: Direction, limit: nat)
    requires limit > 0 && ID_FIELD !in filter && UniqueIds(docs)
    requires forall k :: 0 <= k < |snaps| ==> snaps[k] == docs
    requires |snaps| >= TotalPages(|Rows(docs, filter, IdSort(dir))|, limit)
    ensures var pages := Walk(snaps, filter, dir, limit, None);
            && Finished(pages)
            && Seen(pages) == Rows(docs, filter, IdSort(dir))
            && |pages| == TotalPages(|Rows(docs, filter, IdSort(dir))|, limit)
  {
    CallsAreTotalPages(|Rows(docs, filter, IdSort(dir))|, limit);
    QuietWalk(snaps, docs, filter, dir, limit, None, Rows(docs, filter, IdSort(dir)));
  }
}
