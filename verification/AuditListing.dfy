/** The listing operation itself: what one answer holds, and what a client sees that hands each cursor back. */
module AuditListing {
  import opened Wrappers
  import opened AuditQuery

  /** The row belongs to the organization and meets every filter that is given. */
  predicate Wanted(row: Row, organization: nat, f: Filter) {
    && row.organization == Some(organization)
    && (f.action.None? || row.action == f.action.value)
    && (f.actionPrefix.None? || f.actionPrefix.value <= row.action)
    && (f.resourceType.None? || row.resourceType == f.resourceType.value)
    && (f.resourceId.None? || row.resourceId == f.resourceId)
    && (f.user.None? || row.user == f.user)
    && (f.session.None? || row.session == f.session)
    && (f.createdFrom.None? || f.createdFrom.value <= row.createdAt)
    && (f.createdTo.None? || row.createdAt < f.createdTo.value)
  }

  predicate OlderThan(row: Row, createdAt: Time, id: nat) {
    row.createdAt < createdAt || (row.createdAt == createdAt && row.id < id)
  }

  predicate After(row: Row, text: CursorText) {
    text.Readable? ==> OlderThan(row, text.cursor.createdAt, text.cursor.id)
  }

  function PageSize(limit: Option<int>): int {
    if limit.None? then 50 else limit.value
  }

  lemma SelectedIsWanted(row: Row, organization: nat, f: Filter, text: CursorText)
    requires !text.Unreadable?
    ensures Selected(row, organization, f, if text.NoCursor? then None else Some(text.cursor)) <==>
              Wanted(row, organization, f) && After(row, text)
  {
    var cursor := if text.NoCursor? then None else Some(text.cursor);
    if f.actionPrefix.Some? {
      PrefixFilterIsPrefix(row, organization, f, cursor);
    }
  }

  /** The whole answer, if it were not cut to a page. */
  ghost predicate ListsWanted(sorted: seq<Row>, table: seq<Row>, organization: nat, f: Filter, text: CursorText) {
    && (forall r :: r in sorted <==> r in table && Wanted(r, organization, f) && After(r, text))
    && forall i, j :: 0 <= i < j < |sorted| ==> OlderThan(sorted[j], sorted[i].createdAt, sorted[i].id)
  }

  lemma QueryListsWanted(table: seq<Row>, organization: nat, f: Filter, text: CursorText)
    requires IdsUnique(table) && !text.Unreadable?
    ensures ListsWanted(Query(table, organization, f, if text.NoCursor? then None else Some(text.cursor)),
                        table, organization, f, text)
  {
    var cursor := if text.NoCursor? then None else Some(text.cursor);
    var sorted := Query(table, organization, f, cursor);
    QueryIsSorted(table, organization, f, cursor);
    forall r ensures r in sorted <==> r in table && Wanted(r, organization, f) && After(r, text) {
      SelectedIsWanted(r, organization, f, text);
    }
    forall i, j | 0 <= i < j < |sorted| ensures OlderThan(sorted[j], sorted[i].createdAt, sorted[i].id) {
      assert Before(sorted[j].Key(), sorted[i].Key());
    }
  }

  /**
   One answer: wanted rows that come after the cursor, newest first, as many as the page
   holds; a row left out is older than all of them, and there is a next cursor, naming the
   last row shown, exactly if one was left out.
   */
  lemma ListingResult(table: seq<Row>, organization: nat, f: Filter, text: CursorText, limit: Option<int>)
    requires IdsUnique(table) && ListAuditLogs(table, organization, f, text, limit).Ok?
    ensures var page := ListAuditLogs(table, organization, f, text, limit).value;
            var items := page.items;
            && |items| <= PageSize(limit)
            && (forall r :: r in items ==> r in table && Wanted(r, organization, f) && After(r, text))
            && (forall i, j :: 0 <= i < j < |items| ==> OlderThan(items[j], items[i].createdAt, items[i].id))
            && (forall r, i :: LeftOut(r, table, organization, f, text, items) && 0 <= i < |items| ==>
                  OlderThan(r, items[i].createdAt, items[i].id))
            && (page.nextCursor.Some? <==> exists r :: LeftOut(r, table, organization, f, text, items))
            && (page.nextCursor.Some? ==>
                  |items| == PageSize(limit) &&
                  page.nextCursor.value == Cursor(items[|items| - 1].createdAt, items[|items| - 1].id))
  {
    var page := ListAuditLogs(table, organization, f, text, limit).value;
    var cursor := if text.NoCursor? then None else Some(text.cursor);
    var sorted := Query(table, organization, f, cursor);
    QueryListsWanted(table, organization, f, text);
    assert sorted[0..] == sorted;
    ListedSlice(table, organization, f, cursor, PageSize(limit), sorted, 0);
    CutFrom(sorted, page.items, table, organization, f, text, PageSize(limit));
  }

  /** The first rows of the whole answer: what is left out is older, and something is exactly if it does not fit. */
  lemma CutFrom(
    sorted: seq<Row>, items: seq<Row>, table: seq<Row>, organization: nat, f: Filter, text: CursorText, size: nat)
    requires ListsWanted(sorted, table, organization, f, text) && items == Take(sorted, size)
    ensures forall r :: r in items ==> r in sorted
    ensures forall i, j :: 0 <= i < j < |items| ==> OlderThan(items[j], items[i].createdAt, items[i].id)
    ensures forall r, i :: LeftOut(r, table, organization, f, text, items) && 0 <= i < |items| ==>
              OlderThan(r, items[i].createdAt, items[i].id)
    ensures |sorted| > size <==> exists r :: LeftOut(r, table, organization, f, text, items)
  {
    forall r | LeftOut(r, table, organization, f, text, items)
      ensures |items| < |sorted|
      ensures forall i :: 0 <= i < |items| ==> OlderThan(r, items[i].createdAt, items[i].id)
    {
      var k :| 0 <= k < |sorted| && sorted[k] == r;
      assert k >= |items|;
    }
    if size < |sorted| {
      NotBothShown(sorted, size);
      assert LeftOut(sorted[size], table, organization, f, text, items);
    }
  }

  ghost predicate LeftOut(r: Row, table: seq<Row>, organization: nat, f: Filter, text: CursorText, items: seq<Row>) {
    r in table && Wanted(r, organization, f) && After(r, text) && r !in items
  }

  lemma NotBothShown(sorted: seq<Row>, size: nat)
    requires size < |sorted|
    requires forall i, j :: 0 <= i < j < |sorted| ==> OlderThan(sorted[j], sorted[i].createdAt, sorted[i].id)
    ensures sorted[size] !in sorted[..size] && sorted[size] in sorted
  {
  }

  /** Which requests are answered, and what the others are told, in the order in which it looks. */
  lemma AcceptedExactlyWhen(table: seq<Row>, organization: nat, f: Filter, text: CursorText, limit: Option<int>)
    ensures var r := ListAuditLogs(table, organization, f, text, limit);
            var badLimit := limit.Some? && (limit.value < 1 || limit.value > 100);
            && (badLimit <==> r == Err(InvalidLimit))
            && (!badLimit && !FilterIsFine(f) <==> r == Err(InvalidFilter))
            && (!badLimit && FilterIsFine(f) && text.Unreadable? <==> r == Err(InvalidCursor))
  {
  }

  /** Action and action prefix exclude each other; an empty text counts as none; a date range is at most 90 days. */
  predicate FilterIsFine(f: Filter) {
    var action := if f.action.Some? then f.action.value else "";
    var prefix := if f.actionPrefix.Some? then f.actionPrefix.value else "";
    var resourceType := if f.resourceType.Some? then f.resourceType.value else "";
    && (action == "" || prefix == "")
    && |action| <= 255 && (prefix == "" || 3 <= |prefix| <= 255) && |resourceType| <= 128
    && (f.createdFrom.Some? && f.createdTo.Some? ==>
          0 < f.createdTo.value - f.createdFrom.value <= 90 * 24 * 3600 * 1_000_000)
  }

  // ---- a client that follows the cursors

  /** The table as each request finds it, and what the client asks for every time. */
  datatype Client = Client(history: nat -> seq<Row>, organization: nat, f: Filter, limit: Option<int>) {
    /** The answer to request k; there is none after an answer without a cursor. */
    ghost function PageAt(k: nat): Option<Page>
      decreases k
    {
      var text := if k == 0 then NoCursor
                  else if PageAt(k - 1).None? || PageAt(k - 1).value.nextCursor.None? then Unreadable
                  else Readable(PageAt(k - 1).value.nextCursor.value);
      match ListAuditLogs(history(k), organization, f, text, limit)
      case Ok(page) => Some(page)
      case Err(_) => None
    }

    ghost function Shown(n: nat): seq<Row> {
      if n == 0 then []
      else Shown(n - 1) + if PageAt(n - 1).Some? then PageAt(n - 1).value.items else []
    }

    ghost predicate IsServed() {
      ValidFilter(f) && 1 <= PageSize(limit) <= 100 && Appending(history)
    }
  }

  ghost function WalkOf(c: Client): Walk
    requires c.IsServed()
  {
    Walk(c.history, c.organization, c.f, PageSize(c.limit))
  }

  /** A request with a cursor that decodes, or none, is answered by the repository's query behind it. */
  lemma Answered(c: Client, k: nat, text: CursorText)
    requires c.IsServed() && !text.Unreadable?
    ensures ListAuditLogs(c.history(k), c.organization, c.f, text, c.limit) ==
            Ok(ListByOrganization(c.history(k), c.organization, c.f,
                                  if text.NoCursor? then None else Some(text.cursor), PageSize(c.limit)))
  {
  }

  lemma FirstPage(c: Client)
    requires c.IsServed()
    ensures c.PageAt(0) == WalkOf(c).PageAt(0)
  {
    Answered(c, 0, NoCursor);
  }

  lemma NextPage(c: Client, k: nat)
    requires c.IsServed() && c.PageAt(k) == WalkOf(c).PageAt(k)
    requires c.PageAt(k).Some? && c.PageAt(k).value.nextCursor.Some?
    ensures c.PageAt(k + 1) == WalkOf(c).PageAt(k + 1)
  {
    Answered(c, k + 1, Readable(c.PageAt(k).value.nextCursor.value));
  }

  lemma NoNextPage(c: Client, k: nat)
    requires c.IsServed() && c.PageAt(k) == WalkOf(c).PageAt(k)
    requires c.PageAt(k).None? || c.PageAt(k).value.nextCursor.None?
    ensures c.PageAt(k + 1) == WalkOf(c).PageAt(k + 1) == None
  {
  }

  /** Page by page the client sees what the walk over the repository's query sees. */
  lemma {:induction false} SamePages(c: Client, k: nat)
    requires c.IsServed()
    ensures c.PageAt(k) == WalkOf(c).PageAt(k)
    decreases k
  {
    if k == 0 {
      FirstPage(c);
    } else {
      SamePages(c, k - 1);
      if c.PageAt(k - 1).None? || c.PageAt(k - 1).value.nextCursor.None? {
        NoNextPage(c, k - 1);
      } else {
        NextPage(c, k - 1);
      }
    }
  }

  lemma {:induction false} SameShown(c: Client, n: nat)
    requires c.IsServed()
    ensures c.Shown(n) == WalkOf(c).Shown(n)
  {
    if n > 0 {
      SamePages(c, n - 1);
      SameShown(c, n - 1);
    }
  }

  lemma ClientStops(c: Client, n: nat)
    requires c.IsServed() && n == PageCount(|WalkOf(c).Expected()|, PageSize(c.limit))
    ensures n >= 1 && (forall k: nat :: k < n ==> c.PageAt(k).Some?) && c.PageAt(n).None?
    ensures c.PageAt(n - 1).value.nextCursor.None?
  {
    PageCountBounds(|WalkOf(c).Expected()|, PageSize(c.limit));
    WalkStops(WalkOf(c));
    forall k: nat | k < n ensures c.PageAt(k).Some? {
      SamePages(c, k);
    }
    SamePages(c, n - 1);
    SamePages(c, n);
  }

  lemma ClientIsShown(c: Client, n: nat)
    requires c.IsServed() && n == PageCount(|WalkOf(c).Expected()|, PageSize(c.limit))
    ensures c.Shown(n) == WalkOf(c).Expected()
    ensures ListsWanted(WalkOf(c).Expected(), c.history(0), c.organization, c.f, NoCursor)
  {
    assert AppendedUntil(c.history, 0);
    QueryListsWanted(c.history(0), c.organization, c.f, NoCursor);
    WalkShowsEverything(WalkOf(c));
    SameShown(c, n);
  }

  /**
   A client that hands each cursor back is shown every row wanted at the start exactly once,
   newest first, in max(1, ceil(n / page size)) answers, and nothing appended on the way.
   */
  lemma ClientSeesEverything(c: Client) returns (rows: seq<Row>)
    requires c.IsServed()
    ensures ListsWanted(rows, c.history(0), c.organization, c.f, NoCursor)
    ensures var n := PageCount(|rows|, PageSize(c.limit));
            && c.Shown(n) == rows
            && (forall k: nat :: k < n ==> c.PageAt(k).Some?) && c.PageAt(n).None?
            && (forall k: nat :: k + 1 < n ==> c.PageAt(k).Some? && c.PageAt(k).value.nextCursor.Some?)
            && c.PageAt(n - 1).value.nextCursor.None?
  {
    rows := WalkOf(c).Expected();
    var n := PageCount(|rows|, PageSize(c.limit));
    ClientIsShown(c, n);
    ClientStops(c, n);
    forall k: nat | k + 1 < n ensures c.PageAt(k).Some? && c.PageAt(k).value.nextCursor.Some? {
      NextNeedsCursor(c, k);
    }
  }

  lemma NextNeedsCursor(c: Client, k: nat)
    requires c.PageAt(k + 1).Some?
    ensures c.PageAt(k).Some? && c.PageAt(k).value.nextCursor.Some?
  {
  }
}
