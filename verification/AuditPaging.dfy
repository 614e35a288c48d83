/** Keyset paging of the audit log (core/audit/audit-repository.ts, core/audit/audit-service.ts). */
module AuditPaging {
  import opened Common

  /** What rows are ordered by, and what a cursor holds. */
  datatype Key = Key(createdAt: int, id: nat)

  /** A row: its key and its other columns. */
  datatype Row<F> = Row(key: Key, columns: F)

  /** A list request: the filter on the columns and the page size, which the input validation keeps at 1 or more. */
  datatype Query<!F> = Query(matches: F -> bool, limit: nat)

  datatype Columns = Columns(tenant: nat, action: string, actorType: string, entityType: string, entityId: Option<nat>)

  datatype Input = Input(action: Option<string>, actorType: Option<string>, entityType: Option<string>,
      entityId: Option<nat>, limit: nat)

  /** The WHERE clause apart from the cursor. */
  function QueryOf(tenant: nat, input: Input): Query<Columns> {
    Query((c: Columns) =>
            && c.tenant == tenant
            && (input.action.None? || c.action == input.action.value)
            && (input.actorType.None? || c.actorType == input.actorType.value)
            && (input.entityType.None? || c.entityType == input.entityType.value)
            && (input.entityId.None? || c.entityId == input.entityId),
          input.limit)
  }

  datatype Page<F> = Page(rows: seq<Row<F>>, next: Option<Key>)

  predicate Less(left: Key, right: Key) {
    left.createdAt < right.createdAt || (left.createdAt == right.createdAt && left.id < right.id)
  }

  ghost function Matching<F(!new)>(log: set<Row<F>>, q: Query<F>, cursor: Option<Key>): set<Row<F>> {
    set row | row in log && q.matches(row.columns) && (cursor.None? || Less(row.key, cursor.value))
  }

  /** The id is the primary key. */
  ghost predicate UniqueKeys<F(!new)>(rows: set<Row<F>>) {
    forall a, b | a in rows && b in rows && a.key == b.key :: a == b
  }

  ghost predicate IsDescending<F(!new)>(rows: seq<Row<F>>) {
    forall i, j | 0 <= i < j < |rows| :: Less(rows[j].key, rows[i].key)
  }

  ghost predicate IsGreatest<F(!new)>(row: Row<F>, rows: set<Row<F>>) {
    row in rows && forall other | other in rows :: other == row || Less(other.key, row.key)
  }

  lemma {:induction false} GreatestExists<F(!new)>(rows: set<Row<F>>) returns (greatest: Row<F>)
    requires UniqueKeys(rows) && rows != {}
    ensures IsGreatest(greatest, rows)
    decreases |rows|
  {
    var row :| row in rows;
    greatest := row;
    var rest := rows - {row};
    assert rows == rest + {row};
    if rest != {} {
      var other := GreatestExists(rest);
      assert other.key != row.key;
      greatest := if Less(row.key, other.key) then other else row;
    }
  }

  /** The rows in descending order, each once. */
  ghost predicate IsListing<F(!new)>(listing: seq<Row<F>>, rows: set<Row<F>>) {
    |listing| == |rows| && IsDescending(listing) && forall row :: row in listing <==> row in rows
  }

  lemma {:induction false} ListingExists<F(!new)>(rows: set<Row<F>>) returns (listing: seq<Row<F>>)
    requires UniqueKeys(rows)
    ensures IsListing(listing, rows)
    decreases |rows|
  {
    if rows == {} {
      listing := [];
    } else {
      var greatest := GreatestExists(rows);
      var rest := ListingExists(rows - {greatest});
      listing := [greatest] + rest;
    }
  }

  /** ORDER BY created_at DESC, id DESC. */
  ghost function Descending<F(!new)>(rows: set<Row<F>>): (listing: seq<Row<F>>)
    requires UniqueKeys(rows)
    ensures IsListing(listing, rows)
  {
    assert exists listing :: IsListing(listing, rows) by {
      var listing := ListingExists(rows);
    }
    var listing :| IsListing(listing, rows);
    listing
  }

  function Take<T>(items: seq<T>, n: nat): seq<T> {
    items[..Min(n, |items|)]
  }

  /** The service's slice of what the repository returned. */
  function PageOf<F(!new)>(rows: seq<Row<F>>, limit: nat): Page<F>
    requires limit >= 1
  {
    var page := Take(rows, limit);
    Page(page, if |rows| > limit then Some(page[|page| - 1].key) else None)
  }

  /** One request: the repository reads one row more than the page holds. */
  ghost function List<F(!new)>(log: set<Row<F>>, q: Query<F>, cursor: Option<Key>): Page<F>
    requires UniqueKeys(log) && q.limit >= 1
  {
    PageOf(Take(Descending(Matching(log, q, cursor)), q.limit + 1), q.limit)
  }

  /** The extra row only tells whether there is a next page. */
  lemma ListIs<F(!new)>(log: set<Row<F>>, q: Query<F>, cursor: Option<Key>)
    requires UniqueKeys(log) && q.limit >= 1
    ensures var all := Descending(Matching(log, q, cursor));
            && List(log, q, cursor).rows == (if |all| > q.limit then all[..q.limit] else all)
            && List(log, q, cursor).next == (if |all| > q.limit then Some(all[q.limit - 1].key) else None)
  {
    var all := Descending(Matching(log, q, cursor));
    TakeOfTake(all, q.limit);
  }

  lemma TakeOfTake<T>(items: seq<T>, n: nat)
    ensures Take(Take(items, n + 1), n) == Take(items, n)
    ensures |items| <= n ==> Take(items, n) == items
  {
  }

  lemma TakeAndRest<T>(items: seq<T>, n: nat)
    requires n <= |items|
    ensures items[..n] + items[n..] == items
  {
  }

  // ---------------------------------------------------------------- following the cursor

  datatype Walk<F> = Walk(rows: seq<Row<F>>, pages: nat, finished: bool)

  ghost predicate ValidLogs<F(!new)>(logs: seq<set<Row<F>>>) {
    forall i | 0 <= i < |logs| :: UniqueKeys(logs[i])
  }

  /** The walk that reads page i from the log as it is at that time. */
  ghost function Follow<F(!new)>(logs: seq<set<Row<F>>>, q: Query<F>, cursor: Option<Key>): Walk<F>
    requires ValidLogs(logs) && q.limit >= 1
  {
    if logs == [] then Walk([], 0, false) else
    var page := List(logs[0], q, cursor);
    if page.next.None? then Walk(page.rows, 1, true) else
    var rest := Follow(logs[1..], q, page.next);
    Walk(page.rows + rest.rows, 1 + rest.pages, rest.finished)
  }

  /** The log is append-only. */
  ghost predicate Growing<F(!new)>(logs: seq<set<Row<F>>>) {
    forall i | 0 < i < |logs| :: logs[i - 1] <= logs[i]
  }

  lemma HeadIsGreatest<F(!new)>(rows: seq<Row<F>>, row: Row<F>)
    requires IsDescending(rows) && row in rows
    ensures row == rows[0] || Less(row.key, rows[0].key)
  {
    var i :| 0 <= i < |rows| && rows[i] == row;
    assert i > 0 ==> Less(rows[i].key, rows[0].key);
  }

  lemma {:induction false} DescendingIsUnique<F(!new)>(left: seq<Row<F>>, right: seq<Row<F>>)
    requires IsDescending(left) && IsDescending(right) && forall row :: row in left <==> row in right
    ensures left == right
    decreases |left|
  {
    assert left != [] ==> left[0] in left;
    assert right != [] ==> right[0] in right;
    if left != [] {
      HeadIsGreatest(right, left[0]);
      HeadIsGreatest(left, right[0]);
      forall row
        ensures row in left[1..] <==> row in right[1..]
      {
        TailMembers(left, row);
        TailMembers(right, row);
      }
      DescendingIsUnique(left[1..], right[1..]);
      assert left == [left[0]] + left[1..] && right == [right[0]] + right[1..];
    }
  }

  lemma TailMembers<F(!new)>(rows: seq<Row<F>>, row: Row<F>)
    requires IsDescending(rows) && rows != []
    ensures row in rows[1..] <==> row in rows && row != rows[0]
  {
    ConsMember(rows, row);
    HeadIsNotInTail(rows);
  }

  lemma HeadIsNotInTail<F(!new)>(rows: seq<Row<F>>)
    requires IsDescending(rows) && rows != []
    ensures rows[0] !in rows[1..]
  {
    forall i | 1 <= i < |rows|
      ensures rows[i] != rows[0]
    {
      assert Less(rows[i].key, rows[0].key);
    }
  }

  /** The rows below a page's cursor are those that follow it in the order. */
  lemma BelowCursor<F(!new)>(rows: seq<Row<F>>, limit: nat, row: Row<F>)
    requires IsDescending(rows) && 1 <= limit < |rows| && row in rows
    ensures row in rows[..limit] <==> !Less(row.key, rows[limit - 1].key)
    ensures row in rows[limit..] <==> Less(row.key, rows[limit - 1].key)
  {
    var i :| 0 <= i < |rows| && rows[i] == row;
    if i < limit {
      assert rows[..limit][i] == row;
      assert i < limit - 1 ==> Less(rows[limit - 1].key, rows[i].key);
    } else {
      assert rows[limit..][i - limit] == row;
      assert Less(rows[i].key, rows[limit - 1].key);
    }
  }

  // ---------------------------------------------------------------- whatever is inserted

  /** What one page holds, and what it leaves for the next. */
  lemma PageSplits<F(!new)>(log: set<Row<F>>, q: Query<F>, cursor: Option<Key>, row: Row<F>)
    requires UniqueKeys(log) && q.limit >= 1 && row in Matching(log, q, cursor)
    ensures var page := List(log, q, cursor);
            row in page.rows || (page.next.Some? && Less(row.key, page.next.value))
  {
    ListIs(log, q, cursor);
    var all := Descending(Matching(log, q, cursor));
    if |all| > q.limit {
      BelowCursor(all, q.limit, row);
    }
  }

  lemma PageIsAboveNext<F(!new)>(log: set<Row<F>>, q: Query<F>, cursor: Option<Key>, row: Row<F>)
    requires UniqueKeys(log) && q.limit >= 1 && row in List(log, q, cursor).rows
    ensures row in Matching(log, q, cursor)
    ensures List(log, q, cursor).next.Some? ==> !Less(row.key, List(log, q, cursor).next.value)
  {
    ListIs(log, q, cursor);
    var all := Descending(Matching(log, q, cursor));
    assert row in all;
    if |all| > q.limit {
      BelowCursor(all, q.limit, row);
    }
  }

  /** The rows of a walk descend strictly below its cursor, so that none comes twice, and all match the query. */
  lemma {:induction false} WalkDescends<F(!new)>(logs: seq<set<Row<F>>>, q: Query<F>, cursor: Option<Key>)
    requires ValidLogs(logs) && q.limit >= 1
    ensures IsDescending(Follow(logs, q, cursor).rows)
    ensures forall row | row in Follow(logs, q, cursor).rows ::
            q.matches(row.columns) && (cursor.Some? ==> Less(row.key, cursor.value))
    decreases |logs|
  {
    if logs != [] {
      var page := List(logs[0], q, cursor);
      PageDescends(logs[0], q, cursor);
      if page.next.Some? {
        WalkDescends(logs[1..], q, page.next);
        NextIsBelowCursor(logs[0], q, cursor);
        JoinDescends(page.rows, Follow(logs[1..], q, page.next).rows, page.next.value);
      }
    }
  }

  lemma PageDescends<F(!new)>(log: set<Row<F>>, q: Query<F>, cursor: Option<Key>)
    requires UniqueKeys(log) && q.limit >= 1
    ensures var page := List(log, q, cursor);
            && IsDescending(page.rows)
            && (forall row | row in page.rows ::
               q.matches(row.columns) && (cursor.Some? ==> Less(row.key, cursor.value)))
            && (page.next.Some? ==> forall row | row in page.rows :: !Less(row.key, page.next.value))
  {
    ListIs(log, q, cursor);
    forall row | row in List(log, q, cursor).rows
      ensures q.matches(row.columns) && (cursor.Some? ==> Less(row.key, cursor.value))
      ensures List(log, q, cursor).next.Some? ==> !Less(row.key, List(log, q, cursor).next.value)
    {
      PageIsAboveNext(log, q, cursor, row);
    }
  }

  lemma NextIsBelowCursor<F(!new)>(log: set<Row<F>>, q: Query<F>, cursor: Option<Key>)
    requires UniqueKeys(log) && q.limit >= 1 && List(log, q, cursor).next.Some?
    ensures cursor.Some? ==> Less(List(log, q, cursor).next.value, cursor.value)
  {
    ListIs(log, q, cursor);
    var all := Descending(Matching(log, q, cursor));
    assert all[q.limit - 1] in all;
  }

  lemma JoinDescends<F(!new)>(front: seq<Row<F>>, back: seq<Row<F>>, key: Key)
    requires IsDescending(front) && IsDescending(back)
    requires forall row | row in front :: !Less(row.key, key)
    requires forall row | row in back :: Less(row.key, key)
    ensures IsDescending(front + back)
  {
    var all := front + back;
    forall i, j | 0 <= i < j < |all|
      ensures Less(all[j].key, all[i].key)
    {
      if i < |front| <= j {
        assert all[i] in front && all[j] in back;
      }
    }
  }

  /** A finished walk has every row that matched its first query, whatever was inserted meanwhile. */
  lemma {:induction false} WalkMissesNothing<F(!new)>(logs: seq<set<Row<F>>>, q: Query<F>, cursor: Option<Key>,
      row: Row<F>)
    requires ValidLogs(logs) && Growing(logs) && q.limit >= 1
    requires Follow(logs, q, cursor).finished && logs != [] && row in Matching(logs[0], q, cursor)
    ensures row in Follow(logs, q, cursor).rows
    decreases |logs|
  {
    PageSplits(logs[0], q, cursor, row);
    var page := List(logs[0], q, cursor);
    if row !in page.rows {
      assert logs[1 - 1] <= logs[1];
      assert Growing(logs[1..]) by {
        forall i | 0 < i < |logs[1..]|
          ensures logs[1..][i - 1] <= logs[1..][i]
        {
          assert logs[i + 1 - 1] <= logs[i + 1];
        }
      }
      WalkMissesNothing(logs[1..], q, page.next, row);
    }
  }

  // ---------------------------------------------------------------- insertions above the cursor

  /** Between two pages only rows above the cursor in hand are inserted. */
  ghost predicate InsertedAbove<F(!new)>(logs: seq<set<Row<F>>>, q: Query<F>, cursor: Option<Key>)
    requires ValidLogs(logs) && q.limit >= 1
  {
    |logs| > 1 && List(logs[0], q, cursor).next.Some? ==>
      var next := List(logs[0], q, cursor).next;
      && logs[0] <= logs[1]
      && (forall row | row in logs[1] && row !in logs[0] :: !Less(row.key, next.value))
      && InsertedAbove(logs[1..], q, next)
  }

  /** The rows the next page chooses from are those that this one left. */
  lemma LeftForNext<F(!new)>(log: set<Row<F>>, log': set<Row<F>>, q: Query<F>, cursor: Option<Key>, row: Row<F>)
    requires UniqueKeys(log) && UniqueKeys(log') && q.limit >= 1 && List(log, q, cursor).next.Some? && log <= log'
    requires row in log' && row !in log ==> !Less(row.key, List(log, q, cursor).next.value)
    ensures row in Matching(log', q, List(log, q, cursor).next) <==>
            row in Descending(Matching(log, q, cursor))[q.limit..]
  {
    var all := Descending(Matching(log, q, cursor));
    ListIs(log, q, cursor);
    NextIsBelowCursor(log, q, cursor);
    if row in all {
      BelowCursor(all, q.limit, row);
    }
  }

  lemma TailDescends<F(!new)>(rows: seq<Row<F>>, n: nat)
    requires IsDescending(rows) && n <= |rows|
    ensures IsDescending(rows[n..])
  {
  }

  /** The next page starts right after this one ends. */
  lemma NextPageContinues<F(!new)>(log: set<Row<F>>, log': set<Row<F>>, q: Query<F>, cursor: Option<Key>)
    requires UniqueKeys(log) && UniqueKeys(log') && q.limit >= 1 && List(log, q, cursor).next.Some? && log <= log'
    requires forall row | row in log' && row !in log :: !Less(row.key, List(log, q, cursor).next.value)
    ensures Descending(Matching(log', q, List(log, q, cursor).next)) == Descending(Matching(log, q, cursor))[q.limit..]
  {
    var all, following := Descending(Matching(log, q, cursor)),
      Descending(Matching(log', q, List(log, q, cursor).next));
    ListIs(log, q, cursor);
    forall row
      ensures row in following <==> row in all[q.limit..]
    {
      LeftForNext(log, log', q, cursor, row);
    }
    TailDescends(all, q.limit);
    DescendingIsUnique(following, all[q.limit..]);
  }

  function PageCount(rows: nat, limit: nat): nat
    requires limit >= 1
  {
    if rows <= limit then 1 else 1 + PageCount(rows - limit, limit)
  }

  lemma FollowStep<F(!new)>(logs: seq<set<Row<F>>>, q: Query<F>, cursor: Option<Key>)
    requires ValidLogs(logs) && q.limit >= 1 && logs != [] && List(logs[0], q, cursor).next.Some?
    ensures var page := List(logs[0], q, cursor); var rest := Follow(logs[1..], q, page.next);
            Follow(logs, q, cursor) == Walk(page.rows + rest.rows, 1 + rest.pages, rest.finished)
  {
  }

  lemma FollowEnd<F(!new)>(logs: seq<set<Row<F>>>, q: Query<F>, cursor: Option<Key>)
    requires ValidLogs(logs) && q.limit >= 1 && logs != [] && List(logs[0], q, cursor).next.None?
    ensures Follow(logs, q, cursor) == Walk(List(logs[0], q, cursor).rows, 1, true)
  {
  }

  /** A page and what follows it make up the whole. */
  lemma PageThenRest<F(!new)>(logs: seq<set<Row<F>>>, q: Query<F>, cursor: Option<Key>)
    requires ValidLogs(logs) && q.limit >= 1 && logs != [] && List(logs[0], q, cursor).next.Some?
    requires Follow(logs[1..], q, List(logs[0], q, cursor).next).rows
             == Descending(Matching(logs[0], q, cursor))[q.limit..]
    ensures Follow(logs, q, cursor).rows == Descending(Matching(logs[0], q, cursor))
  {
    ListIs(logs[0], q, cursor);
    FollowStep(logs, q, cursor);
    TakeAndRest(Descending(Matching(logs[0], q, cursor)), q.limit);
  }

  lemma InsertedNext<F(!new)>(logs: seq<set<Row<F>>>, q: Query<F>, cursor: Option<Key>)
    requires ValidLogs(logs) && q.limit >= 1 && InsertedAbove(logs, q, cursor)
    requires |logs| > 1 && List(logs[0], q, cursor).next.Some?
    ensures InsertedAbove(logs[1..], q, List(logs[0], q, cursor).next)
    ensures Descending(Matching(logs[1], q, List(logs[0], q, cursor).next))
            == Descending(Matching(logs[0], q, cursor))[q.limit..]
  {
    NextPageContinues(logs[0], logs[1], q, cursor);
  }

  /** The walk reads these matching rows, all of them, in as few pages as they fill. */
  ghost predicate ReadsAll<F(!new)>(logs: seq<set<Row<F>>>, q: Query<F>, cursor: Option<Key>)
    requires ValidLogs(logs) && q.limit >= 1 && logs != []
  {
    var walk, matching := Follow(logs, q, cursor), Matching(logs[0], q, cursor);
    walk.finished && walk.rows == Descending(matching) && walk.pages == PageCount(|matching|, q.limit)
  }

  lemma NextNeedsMore<F(!new)>(log: set<Row<F>>, q: Query<F>, cursor: Option<Key>)
    requires UniqueKeys(log) && q.limit >= 1
    ensures List(log, q, cursor).next.Some? <==> |Matching(log, q, cursor)| > q.limit
  {
    ListIs(log, q, cursor);
  }

  lemma ReadsAllAfter<F(!new)>(logs: seq<set<Row<F>>>, q: Query<F>, cursor: Option<Key>)
    requires ValidLogs(logs) && q.limit >= 1 && |logs| > 1 && List(logs[0], q, cursor).next.Some?
    requires Descending(Matching(logs[1], q, List(logs[0], q, cursor).next))
             == Descending(Matching(logs[0], q, cursor))[q.limit..]
    requires ReadsAll(logs[1..], q, List(logs[0], q, cursor).next)
    ensures ReadsAll(logs, q, cursor)
  {
    NextNeedsMore(logs[0], q, cursor);
    LeftSize(Matching(logs[0], q, cursor), Matching(logs[1], q, List(logs[0], q, cursor).next), q.limit);
    FollowStep(logs, q, cursor);
    PageThenRest(logs, q, cursor);
  }

  lemma LeftSize<F(!new)>(matching: set<Row<F>>, left: set<Row<F>>, limit: nat)
    requires UniqueKeys(matching) && UniqueKeys(left) && limit <= |matching|
    requires Descending(left) == Descending(matching)[limit..]
    ensures |left| == |matching| - limit
  {
    assert |Descending(left)| == |left| && |Descending(matching)| == |matching|;
  }

  lemma ReadsAllAtOnce<F(!new)>(logs: seq<set<Row<F>>>, q: Query<F>, cursor: Option<Key>)
    requires ValidLogs(logs) && q.limit >= 1 && logs != [] && |Matching(logs[0], q, cursor)| <= q.limit
    ensures ReadsAll(logs, q, cursor)
  {
    ListIs(logs[0], q, cursor);
    FollowEnd(logs, q, cursor);
  }

  /** Then the walk is exactly the first query's rows in order, in as few pages as they fill. */
  lemma {:induction false} WalkIsFirstQuery<F(!new)>(logs: seq<set<Row<F>>>, q: Query<F>, cursor: Option<Key>)
    requires ValidLogs(logs) && q.limit >= 1 && logs != [] && InsertedAbove(logs, q, cursor)
    requires |logs| >= PageCount(|Matching(logs[0], q, cursor)|, q.limit)
    ensures ReadsAll(logs, q, cursor)
    decreases |logs|
  {
    var matching := Matching(logs[0], q, cursor);
    NextNeedsMore(logs[0], q, cursor);
    if |matching| > q.limit {
      var next := List(logs[0], q, cursor).next;
      InsertedNext(logs, q, cursor);
      LeftSize(matching, Matching(logs[1], q, next), q.limit);
      WalkIsFirstQuery(logs[1..], q, next);
      ReadsAllAfter(logs, q, cursor);
    } else {
      ReadsAllAtOnce(logs, q, cursor);
    }
  }

  lemma {:induction false} PageCountIsCeiling(rows: nat, limit: nat)
    requires limit >= 1
    ensures PageCount(rows, limit) == Max(1, CeilDiv(rows, limit))
  {
    if rows > limit {
      PageCountIsCeiling(rows - limit, limit);
      CeilStep(rows, limit);
      CeilPositive(rows - limit, limit);
    } else {
      CeilSmall(rows, limit);
    }
  }

  lemma QuotientIs(x: int, q: int, r: int, d: int)
    requires d > 0 && x == q * d + r && 0 <= r < d
    ensures x / d == q
  {
    assert x == (x / d) * d + x % d;
    assert (q - x / d) * d == x % d - r;
    NoMultiple(q - x / d, d);
  }

  lemma NoMultiple(k: int, d: int)
    requires d > 0 && -d < k * d < d
    ensures k == 0
  {
  }

  lemma CeilStep(rows: nat, limit: nat)
    requires 1 <= limit < rows
    ensures CeilDiv(rows, limit) == 1 + CeilDiv(rows - limit, limit)
  {
    var a := rows - 1;
    assert a == (a / limit) * limit + a % limit;
    assert (a / limit + 1) * limit == (a / limit) * limit + limit;
    QuotientIs(a + limit, a / limit + 1, a % limit, limit);
  }

  lemma CeilPositive(rows: nat, limit: nat)
    requires rows >= 1 && limit >= 1
    ensures CeilDiv(rows, limit) >= 1
  {
    assert (rows + limit - 1) / limit >= limit / limit;
  }

  lemma CeilSmall(rows: nat, limit: nat)
    requires rows <= limit && limit >= 1
    ensures CeilDiv(rows, limit) <= 1
  {
    assert rows + limit - 1 < 2 * limit;
  }

  /** A tenant's walk over its audit log: its own rows only, each matching row of the first query once, in strictly
      descending order, on max(1, ceil(m / limit)) pages. */
  lemma AuditWalk(logs: seq<set<Row<Columns>>>, tenant: nat, input: Input)
    requires ValidLogs(logs) && input.limit >= 1 && logs != [] && InsertedAbove(logs, QueryOf(tenant, input), None)
    requires |logs| >= PageCount(|Matching(logs[0], QueryOf(tenant, input), None)|, input.limit)
    ensures var q := QueryOf(tenant, input); var walk, matching := Follow(logs, q, None), Matching(logs[0], q, None);
            && walk.finished && IsDescending(walk.rows)
            && (forall row :: row in walk.rows <==> row in matching)
            && (forall row | row in walk.rows :: row.columns.tenant == tenant)
            && walk.pages == Max(1, CeilDiv(|matching|, input.limit))
  {
    var q := QueryOf(tenant, input);
    WalkIsFirstQuery(logs, q, None);
    PageCountIsCeiling(|Matching(logs[0], q, None)|, input.limit);
    WalkDescends(logs, q, None);
  }
}
