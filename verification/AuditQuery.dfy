/**
 Audit log queries: filtered, newest first, cut into pages by a (created_at, id) cursor with
 one extra row fetched to learn whether a further page exists.
 */
module AuditQuery {
  import opened Wrappers
  import opened LikePattern

  type Time = int

  const DEFAULT_LIMIT := 50
  const MIN_LIMIT := 1
  const MAX_LIMIT := 100
  const MAX_ACTION_LENGTH := 255
  const MAX_RESOURCE_TYPE_LENGTH := 128
  const MIN_ACTION_PREFIX_LENGTH := 3
  const MICROSECONDS_PER_DAY := 86_400_000_000
  const MAX_DATE_RANGE_DAYS := 90

  datatype Cursor = Cursor(createdAt: Time, id: nat)

  datatype Row = Row(
    createdAt: Time, id: nat, organization: Option<nat>, user: Option<nat>, session: Option<nat>,
    action: string, resourceType: string, resourceId: Option<string>)
  {
    function Key(): Cursor {
      Cursor(createdAt, id)
    }
  }

  datatype Filter = Filter(
    action: Option<string>, actionPrefix: Option<string>, resourceType: Option<string>,
    resourceId: Option<string>, user: Option<nat>, session: Option<nat>,
    createdFrom: Option<Time>, createdTo: Option<Time>)

  datatype QueryError = InvalidLimit | InvalidFilter | InvalidCursor

  // ---- policy

  function NormalizeLimit(limit: Option<int>): (r: Result<nat, QueryError>)
    ensures r.Ok? ==> MIN_LIMIT <= r.value <= MAX_LIMIT
  {
    if limit.None? then Ok(DEFAULT_LIMIT)
    else if limit.value < MIN_LIMIT || limit.value > MAX_LIMIT then Err(InvalidLimit)
    else Ok(limit.value)
  }

  /** A text given and not empty, as the policy's truth tests read it. */
  predicate Given(text: Option<string>) {
    text.Some? && text.value != ""
  }

  predicate ValidFilter(f: Filter) {
    && !(Given(f.action) && Given(f.actionPrefix))
    && (Given(f.action) ==> |f.action.value| <= MAX_ACTION_LENGTH)
    && (Given(f.actionPrefix) ==> MIN_ACTION_PREFIX_LENGTH <= |f.actionPrefix.value| <= MAX_ACTION_LENGTH)
    && (Given(f.resourceType) ==> |f.resourceType.value| <= MAX_RESOURCE_TYPE_LENGTH)
    && (f.createdFrom.Some? && f.createdTo.Some? ==>
          f.createdFrom.value < f.createdTo.value <=
          f.createdFrom.value + MAX_DATE_RANGE_DAYS * MICROSECONDS_PER_DAY)
  }

  // ---- the query

  predicate Before(a: Cursor, b: Cursor) {
    a.createdAt < b.createdAt || (a.createdAt == b.createdAt && a.id < b.id)
  }

  predicate Selected(row: Row, organization: nat, f: Filter, cursor: Option<Cursor>) {
    && row.organization == Some(organization)
    && (f.action.Some? ==> row.action == f.action.value)
    && (f.actionPrefix.Some? ==> Like(row.action, EscapeLikePrefix(f.actionPrefix.value) + "%"))
    && (f.resourceType.Some? ==> row.resourceType == f.resourceType.value)
    && (f.resourceId.Some? ==> row.resourceId == f.resourceId)
    && (f.user.Some? ==> row.user == f.user)
    && (f.session.Some? ==> row.session == f.session)
    && (f.createdFrom.Some? ==> f.createdFrom.value <= row.createdAt)
    && (f.createdTo.Some? ==> row.createdAt < f.createdTo.value)
    && (cursor.Some? ==> Before(row.Key(), cursor.value))
  }

  function Insert(row: Row, sorted: seq<Row>): seq<Row> {
    if sorted == [] || Before(sorted[0].Key(), row.Key()) then [row] + sorted
    else [sorted[0]] + Insert(row, sorted[1..])
  }

  /** WHERE and ORDER BY created_at DESC, id DESC. */
  function Query(table: seq<Row>, organization: nat, f: Filter, cursor: Option<Cursor>): seq<Row> {
    if table == [] then []
    else
      var rest := Query(table[1..], organization, f, cursor);
      if Selected(table[0], organization, f, cursor) then Insert(table[0], rest) else rest
  }

  function Take<T>(s: seq<T>, n: nat): seq<T> {
    if |s| <= n then s else s[..n]
  }

  datatype Page = Page(items: seq<Row>, nextCursor: Option<Cursor>)

  function ListByOrganization(table: seq<Row>, organization: nat, f: Filter, cursor: Option<Cursor>, limit: nat): Page {
    var models := Take(Query(table, organization, f, cursor), limit + 1);
    var items := Take(models, limit);
    var hasNext := |models| > limit;
    Page(items, if hasNext && items != [] then Some(items[|items| - 1].Key()) else None)
  }

  /** What a request's cursor text decodes to. */
  datatype CursorText = NoCursor | Unreadable | Readable(cursor: Cursor)

  function ListAuditLogs(table: seq<Row>, organization: nat, f: Filter, text: CursorText, limit: Option<int>)
    : (r: Result<Page, QueryError>)
    ensures r.Ok? <==> ValidFilter(f) && !text.Unreadable? && (limit.Some? ==> MIN_LIMIT <= limit.value <= MAX_LIMIT)
    ensures r.Ok? ==> |r.value.items| <= MAX_LIMIT && (r.value.nextCursor.Some? ==> r.value.items != [])
  {
    var normalized := NormalizeLimit(limit);
    if normalized.Err? then Err(normalized.error)
    else if !ValidFilter(f) then Err(InvalidFilter)
    else if text.Unreadable? then Err(InvalidCursor)
    else
      var cursor := if text.NoCursor? then None else Some(text.cursor);
      Ok(ListByOrganization(table, organization, f, cursor, normalized.value))
  }

  /** Searching by action prefix selects by that prefix, whatever characters it holds. */
  lemma PrefixFilterIsPrefix(row: Row, organization: nat, f: Filter, cursor: Option<Cursor>)
    requires f.actionPrefix.Some?
    ensures Selected(row, organization, f, cursor) <==>
              f.actionPrefix.value <= row.action && Selected(row, organization, f.(actionPrefix := None), cursor)
  {
    PrefixSearchIsExact(f.actionPrefix.value, row.action);
  }

  // ---- what a query returns

  ghost predicate Descending(rows: seq<Row>) {
    forall i, j :: 0 <= i < j < |rows| ==> Before(rows[j].Key(), rows[i].Key())
  }

  ghost predicate IdsUnique(table: seq<Row>) {
    forall i, j :: 0 <= i < j < |table| ==> table[i].id != table[j].id
  }

  lemma {:induction false} InsertSorted(row: Row, sorted: seq<Row>)
    requires Descending(sorted) && forall r :: r in sorted ==> r.id != row.id
    ensures Descending(Insert(row, sorted)) && |Insert(row, sorted)| == |sorted| + 1
    ensures forall r :: r in Insert(row, sorted) <==> r == row || r in sorted
  {
    if sorted == [] || Before(sorted[0].Key(), row.Key()) {
    } else {
      InsertSorted(row, sorted[1..]);
      var inserted := Insert(row, sorted[1..]);
      assert forall i :: 0 <= i < |inserted| ==> inserted[i] in inserted;
      forall i | 0 <= i < |inserted| ensures Before(inserted[i].Key(), sorted[0].Key()) {
        if inserted[i] != row {
          var k :| 0 <= k < |sorted[1..]| && sorted[1..][k] == inserted[i];
          assert sorted[k + 1] == inserted[i];
        }
      }
    }
  }

  /** A query returns exactly the selected rows, each once, newest first. */
  lemma {:induction false} QueryIsSorted(table: seq<Row>, organization: nat, f: Filter, cursor: Option<Cursor>)
    requires IdsUnique(table)
    ensures Descending(Query(table, organization, f, cursor))
    ensures forall r :: r in Query(table, organization, f, cursor) <==>
                          r in table && Selected(r, organization, f, cursor)
  {
    if table != [] {
      var rest := Query(table[1..], organization, f, cursor);
      QueryIsSorted(table[1..], organization, f, cursor);
      if Selected(table[0], organization, f, cursor) {
        forall r | r in rest ensures r.id != table[0].id {
          var k :| 0 <= k < |table[1..]| && table[1..][k] == r;
          assert table[k + 1] == r;
        }
        InsertSorted(table[0], rest);
      }
    }
  }

  lemma FirstOf(rows: seq<Row>) returns (r: Row)
    requires rows != []
    ensures r in rows
  {
    r := rows[0];
  }

  /** Two descending lists of the same rows are the same list. */
  lemma {:induction false} DescendingIsUnique(a: seq<Row>, b: seq<Row>)
    requires Descending(a) && Descending(b) && forall r :: r in a <==> r in b
    ensures a == b
  {
    if a == [] {
      if b != [] {
        var r := FirstOf(b);
        assert false;
      }
    } else {
      assert a[0] in b && b[0] in a;
      assert a[0] == b[0];
      forall r ensures r in a[1..] <==> r in b[1..] {
        SameWithoutFirst(a, b, r);
        SameWithoutFirst(b, a, r);
      }
      DescendingIsUnique(a[1..], b[1..]);
    }
  }

  lemma SameWithoutFirst(a: seq<Row>, b: seq<Row>, r: Row)
    requires a != [] && b != [] && a[0] == b[0] && Descending(a)
    requires r in a ==> r in b
    ensures r in a[1..] ==> r in b[1..]
  {
    if r in a[1..] {
      var i :| 0 <= i < |a[1..]| && a[1..][i] == r;
      assert a[i + 1] == r && r in a;
      var j :| 0 <= j < |b| && b[j] == r;
      assert j > 0;
      assert b[1..][j - 1] == r;
    }
  }

  // ---- walking the pages

  /** table holds all rows of the first table; any other is newer than every one of those. */
  ghost predicate OnlyNewerAppended(first: seq<Row>, table: seq<Row>) {
    && IdsUnique(table)
    && (forall r :: r in first ==> r in table)
    && (forall r, r0 :: r in table && r !in first && r0 in first ==> Before(r0.Key(), r.Key()))
  }

  /** The table as each page is requested; only newer rows are appended as time passes. */
  ghost predicate Appending(history: nat -> seq<Row>) {
    forall k {:trigger AppendedUntil(history, k)} :: AppendedUntil(history, k)
  }

  ghost predicate AppendedUntil(history: nat -> seq<Row>, k: nat) {
    OnlyNewerAppended(history(0), history(k))
  }

  datatype Walk = Walk(history: nat -> seq<Row>, organization: nat, f: Filter, limit: nat) {
    /** Page k of following next_cursor from the start; past the last page there is none. */
    ghost function PageAt(k: nat): Option<Page>
      decreases k
    {
      if k == 0 then Some(ListByOrganization(history(0), organization, f, None, limit))
      else
        var previous := PageAt(k - 1);
        if previous.None? || previous.value.nextCursor.None? then None
        else Some(ListByOrganization(history(k), organization, f, previous.value.nextCursor, limit))
    }

    /** All rows shown by the first n pages, in the order shown. */
    ghost function Shown(n: nat): seq<Row> {
      if n == 0 then []
      else Shown(n - 1) + if PageAt(n - 1).Some? then PageAt(n - 1).value.items else []
    }

    /** The plain sorted list of what matched when the walk began. */
    ghost function Expected(): seq<Row> {
      Query(history(0), organization, f, None)
    }
  }

  /** The query behind a later page is the rest of the list the walk began with. */
  lemma QueryContinues(first: seq<Row>, table: seq<Row>, organization: nat, f: Filter, n: nat)
    requires OnlyNewerAppended(first, table) && IdsUnique(first)
    requires 0 < n <= |Query(first, organization, f, None)|
    ensures var sorted := Query(first, organization, f, None);
            Query(table, organization, f, Some(sorted[n - 1].Key())) == sorted[n..]
  {
    var sorted := Query(first, organization, f, None);
    var cursor := sorted[n - 1].Key();
    QueryIsSorted(first, organization, f, None);
    QueryIsSorted(table, organization, f, Some(cursor));
    var later := Query(table, organization, f, Some(cursor));
    assert sorted[n - 1] in sorted;
    forall r ensures r in later <==> r in sorted[n..] {
      if r in later {
        assert r in first;
        var i :| 0 <= i < |sorted| && sorted[i] == r;
        assert i >= n;
        assert sorted[n..][i - n] == r;
      }
      if r in sorted[n..] {
        var i :| 0 <= i < |sorted[n..]| && sorted[n..][i] == r;
        assert sorted[n + i] == r && r in sorted;
      }
    }
    DescendingIsUnique(later, sorted[n..]);
  }

  /** Where page k starts: k times the limit. */
  ghost function Offset(k: nat, limit: nat): nat {
    if k == 0 then 0 else Offset(k - 1, limit) + limit
  }

  /** A page cut from the rest of a list. */
  lemma ListedSlice(
    table: seq<Row>, organization: nat, f: Filter, cursor: Option<Cursor>, limit: nat, sorted: seq<Row>, start: nat)
    requires limit >= 1 && start <= |sorted| && Query(table, organization, f, cursor) == sorted[start..]
    ensures var page := ListByOrganization(table, organization, f, cursor, limit);
            && page.items == Take(sorted[start..], limit)
            && (page.nextCursor.Some? <==> start + limit < |sorted|)
            && (page.nextCursor.Some? ==> page.nextCursor.value == sorted[start + limit - 1].Key())
  {
    PageOf(sorted[start..], limit);
  }

  /** Page k shows the rows from its offset on, and names a next page while rows remain. */
  lemma {:induction false} PageIsSlice(w: Walk, k: nat)
    requires Appending(w.history) && w.limit >= 1
    requires k == 0 || Offset(k, w.limit) < |w.Expected()|
    ensures var sorted := w.Expected();
            var start := Offset(k, w.limit);
            var page := w.PageAt(k);
            && page.Some? && start <= |sorted|
            && page.value.items == Take(sorted[start..], w.limit)
            && (page.value.nextCursor.Some? <==> start + w.limit < |sorted|)
            && (page.value.nextCursor.Some? ==> page.value.nextCursor.value == sorted[start + w.limit - 1].Key())
    decreases k
  {
    var sorted := w.Expected();
    var start := Offset(k, w.limit);
    assert AppendedUntil(w.history, 0) && AppendedUntil(w.history, k);
    if k > 0 {
      PageIsSlice(w, k - 1);
      QueryContinues(w.history(0), w.history(k), w.organization, w.f, start);
      ListedSlice(w.history(k), w.organization, w.f, Some(sorted[start - 1].Key()), w.limit, sorted, start);
    } else {
      assert sorted[0..] == sorted;
      ListedSlice(w.history(0), w.organization, w.f, None, w.limit, sorted, 0);
    }
  }

  /** Fetching one row too many tells whether more rows follow the page. */
  lemma PageOf(rest: seq<Row>, limit: nat)
    requires limit >= 1
    ensures Take(Take(rest, limit + 1), limit) == Take(rest, limit)
    ensures |Take(rest, limit + 1)| > limit <==> limit < |rest|
  {
  }

  lemma TakeExtends(rows: seq<Row>, start: nat, limit: nat)
    requires start <= |rows|
    ensures Take(rows, start) + Take(rows[start..], limit) == Take(rows, start + limit)
  {
    assert Take(rows, start) == rows[..start];
    if |rows| > start + limit {
      assert rows[..start] + rows[start..][..limit] == rows[..start + limit];
    } else {
      assert rows[..start] + rows[start..] == rows;
    }
  }

  lemma ShownUnfolds(w: Walk, n: nat)
    requires n > 0 && w.PageAt(n - 1).Some?
    ensures w.Shown(n) == w.Shown(n - 1) + w.PageAt(n - 1).value.items
  {
  }

  lemma PageShown(w: Walk, k: nat)
    requires Appending(w.history) && w.limit >= 1
    requires k == 0 || Offset(k, w.limit) < |w.Expected()|
    ensures Offset(k, w.limit) <= |w.Expected()|
    ensures w.PageAt(k).Some? && w.PageAt(k).value.items == Take(w.Expected()[Offset(k, w.limit)..], w.limit)
  {
    PageIsSlice(w, k);
  }

  lemma {:induction false} ShownIsPrefix(w: Walk, n: nat)
    requires Appending(w.history) && w.limit >= 1
    requires n <= 1 || Offset(n - 1, w.limit) < |w.Expected()|
    ensures w.Shown(n) == Take(w.Expected(), Offset(n, w.limit))
    decreases n
  {
    if n > 0 {
      ShownIsPrefix(w, n - 1);
      PageShown(w, n - 1);
      ShownUnfolds(w, n);
      var sorted, start := w.Expected(), Offset(n - 1, w.limit);
      TakeExtends(sorted, start, w.limit);
      assert Offset(n, w.limit) == start + w.limit;
    }
  }

  /** max(1, ceil(rows / limit)) */
  function PageCount(rows: nat, limit: nat): nat
    requires limit >= 1
  {
    if rows == 0 then 1 else (rows + limit - 1) / limit
  }

  lemma {:induction false} OffsetIsProduct(k: nat, limit: nat)
    ensures Offset(k, limit) == k * limit
  {
    if k > 0 {
      OffsetIsProduct(k - 1, limit);
      assert (k - 1) * limit + limit == k * limit;
    }
  }

  lemma PageCountBounds(rows: nat, limit: nat)
    requires limit >= 1
    ensures var n := PageCount(rows, limit);
            n >= 1 && rows <= Offset(n, limit) && (n == 1 || Offset(n - 1, limit) < rows)
  {
    var n := PageCount(rows, limit);
    if rows > 0 {
      assert rows + limit - 1 == n * limit + (rows + limit - 1) % limit;
    }
    OffsetIsProduct(n, limit);
  }

  /** The walk stops after max(1, ceil(n / limit)) pages. */
  lemma WalkStops(w: Walk)
    requires Appending(w.history) && w.limit >= 1
    ensures var n := PageCount(|w.Expected()|, w.limit);
            && (forall k :: 0 <= k < n ==> w.PageAt(k).Some?)
            && w.PageAt(n - 1).Some? && w.PageAt(n - 1).value.nextCursor.None?
            && w.PageAt(n).None?
  {
    var n := PageCount(|w.Expected()|, w.limit);
    PageCountBounds(|w.Expected()|, w.limit);
    PageIsSlice(w, n - 1);
    forall k: nat | k < n ensures w.PageAt(k).Some? {
      PagesBefore(w, k, n - 1);
    }
  }

  lemma {:induction false} PagesBefore(w: Walk, k: nat, n: nat)
    requires k <= n && w.PageAt(n).Some?
    ensures w.PageAt(k).Some?
    decreases n
  {
    if k < n {
      PagesBefore(w, k, n - 1);
    }
  }

  /**
   Walking the pages shows every row that matched at the start exactly once, newest first,
   and nothing that was appended on the way.
   */
  lemma WalkShowsEverything(w: Walk)
    requires Appending(w.history) && w.limit >= 1
    ensures w.Shown(PageCount(|w.Expected()|, w.limit)) == w.Expected()
    ensures Descending(w.Expected())
    ensures forall r :: r in w.Expected() <==> r in w.history(0) && Selected(r, w.organization, w.f, None)
  {
    assert AppendedUntil(w.history, 0);
    PageCountBounds(|w.Expected()|, w.limit);
    QueryIsSorted(w.history(0), w.organization, w.f, None);
    ShownIsPrefix(w, PageCount(|w.Expected()|, w.limit));
  }
}
