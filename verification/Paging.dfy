/** Keyset paging of operations (application/service.py and the search part of
    persistence/repositories.py). Rows are what the filters of one search let through. */
module Paging {
  import opened Lifecycle
  import opened Json
  import opened Cursor

  // ---------------------------------------------------------------- order

  /** A timestamp as a number of microseconds of a calendar without gaps. */
  function Moment(s: Stamp): nat {
    (((((s.year * 13 + s.month) * 32 + s.day) * 24 + s.hour) * 60 + s.minute) * 60 + s.second) * 1_000_000 + s.micros
  }

  lemma {:induction false} ProductGrows(a: nat, c: nat, base: nat)
    requires a <= c
    ensures a * base <= c * base
    decreases c - a
  {
    if a < c {
      ProductGrows(a + 1, c, base);
      assert (a + 1) * base == a * base + base;
    }
  }

  lemma SmallerDigit(a: nat, b: nat, c: nat, base: nat)
    requires a < c && b < base
    ensures a * base + b < c * base
  {
    ProductGrows(a + 1, c, base);
    assert (a + 1) * base == a * base + base;
  }

  lemma DigitsDiffer(a: nat, b: nat, c: nat, d: nat, base: nat)
    requires b < base && d < base && a * base + b == c * base + d
    ensures a == c && b == d
  {
    if a < c {
      SmallerDigit(a, b, c, base);
    } else if c < a {
      SmallerDigit(c, d, a, base);
    }
  }

  lemma MomentsDiffer(s: Stamp, t: Stamp)
    requires IsStamp(s) && IsStamp(t) && Moment(s) == Moment(t)
    ensures s == t
  {
    var a1, b1 := s.year * 13 + s.month, t.year * 13 + t.month;
    var a2, b2 := a1 * 32 + s.day, b1 * 32 + t.day;
    var a3, b3 := a2 * 24 + s.hour, b2 * 24 + t.hour;
    var a4, b4 := a3 * 60 + s.minute, b3 * 60 + t.minute;
    var a5, b5 := a4 * 60 + s.second, b4 * 60 + t.second;
    DigitsDiffer(a5, s.micros, b5, t.micros, 1_000_000);
    DigitsDiffer(a4, s.second, b4, t.second, 60);
    DigitsDiffer(a3, s.minute, b3, t.minute, 60);
    DigitsDiffer(a2, s.hour, b2, t.hour, 24);
    DigitsDiffer(a1, s.day, b1, t.day, 32);
    DigitsDiffer(s.year, s.month, t.year, t.month, 13);
  }

  lemma DigitsInOrder(a: nat, b: nat, c: nat, d: nat, base: nat)
    requires b < base && d < base
    ensures a * base + b < c * base + d <==> a < c || (a == c && b < d)
  {
    if a < c {
      SmallerDigit(a, b, c, base);
    } else if c < a {
      SmallerDigit(c, d, a, base);
    }
  }

  /** One timestamp is before another: the first field that differs decides. */
  predicate Earlier(s: Stamp, t: Stamp) {
    if s.year != t.year then s.year < t.year
    else if s.month != t.month then s.month < t.month
    else if s.day != t.day then s.day < t.day
    else if s.hour != t.hour then s.hour < t.hour
    else if s.minute != t.minute then s.minute < t.minute
    else if s.second != t.second then s.second < t.second
    else s.micros < t.micros
  }

  lemma MomentsAreInOrder(s: Stamp, t: Stamp)
    requires IsStamp(s) && IsStamp(t)
    ensures Moment(s) < Moment(t) <==> Earlier(s, t)
  {
    var a1, b1 := s.year * 13 + s.month, t.year * 13 + t.month;
    var a2, b2 := a1 * 32 + s.day, b1 * 32 + t.day;
    var a3, b3 := a2 * 24 + s.hour, b2 * 24 + t.hour;
    var a4, b4 := a3 * 60 + s.minute, b3 * 60 + t.minute;
    var a5, b5 := a4 * 60 + s.second, b4 * 60 + t.second;
    DigitsInOrder(a5, s.micros, b5, t.micros, 1_000_000);
    DigitsInOrder(a4, s.second, b4, t.second, 60);
    DigitsInOrder(a3, s.minute, b3, t.minute, 60);
    DigitsInOrder(a2, s.hour, b2, t.hour, 24);
    DigitsInOrder(a1, s.day, b1, t.day, 32);
    DigitsInOrder(s.year, s.month, t.year, t.month, 13);
  }

  /** ORDER BY created_at DESC, operation_id */
  predicate Precedes(a: Position, b: Position) {
    || Moment(a.createdAt) > Moment(b.createdAt)
    || (Moment(a.createdAt) == Moment(b.createdAt) && Below(a.id, b.id))
  }

  /** The order of the query: the later creation time first, by its fields from the year down,
      and the smaller identifier first among equal times. */
  lemma PrecedesIff(a: Position, b: Position)
    requires IsPosition(a) && IsPosition(b)
    ensures Precedes(a, b)
        <==> Earlier(b.createdAt, a.createdAt) || (a.createdAt == b.createdAt && Below(a.id, b.id))
  {
    MomentsAreInOrder(a.createdAt, b.createdAt);
    MomentsAreInOrder(b.createdAt, a.createdAt);
    if Moment(a.createdAt) == Moment(b.createdAt) {
      MomentsDiffer(a.createdAt, b.createdAt);
    }
  }

  lemma PrecedesIsTransitive(a: Position, b: Position, c: Position)
    requires Precedes(a, b) && Precedes(b, c)
    ensures Precedes(a, c)
  {
    if Below(a.id, b.id) && Below(b.id, c.id) {
      BelowIsTransitive(a.id, b.id, c.id);
    }
  }

  lemma PrecedesIsTotal(a: Position, b: Position)
    requires IsPosition(a) && IsPosition(b)
    ensures a == b || Precedes(a, b) || Precedes(b, a)
    ensures !(Precedes(a, b) && Precedes(b, a)) && !Precedes(a, a)
  {
    BelowIsTotal(a.id, b.id);
    BelowIsTotal(a.id, a.id);
    if Moment(a.createdAt) == Moment(b.createdAt) {
      MomentsDiffer(a.createdAt, b.createdAt);
    }
  }

  ghost predicate InOrder(page: seq<Position>) {
    forall i, j :: 0 <= i < j < |page| ==> Precedes(page[i], page[j])
  }

  predicate ArePositions(rows: set<Position>) {
    forall row :: row in rows ==> IsPosition(row)
  }

  // ---------------------------------------------------------------- one page

  /** The rows strictly after the cursor. */
  function Rest(rows: set<Position>, after: Option<Position>): set<Position> {
    set row | row in rows && (after.Some? ==> Precedes(after.value, row))
  }

  ghost predicate IsLeast(first: Position, rows: set<Position>) {
    first in rows && forall row :: row in rows && row != first ==> Precedes(first, row)
  }

  lemma {:induction false} LeastExists(rows: set<Position>)
    requires rows != {} && ArePositions(rows)
    ensures exists first :: IsLeast(first, rows)
    decreases rows
  {
    var some :| some in rows;
    if rows == {some} {
      assert IsLeast(some, rows);
    } else {
      LeastExists(rows - {some});
      var best :| IsLeast(best, rows - {some});
      PrecedesIsTotal(best, some);
      if Precedes(best, some) {
        assert IsLeast(best, rows);
      } else {
        forall row | row in rows && row != some ensures Precedes(some, row) {
          if row != best {
            PrecedesIsTransitive(some, best, row);
          }
        }
        assert IsLeast(some, rows);
      }
    }
  }

  lemma LeastIsUnique(a: Position, b: Position, rows: set<Position>)
    requires ArePositions(rows) && IsLeast(a, rows) && IsLeast(b, rows)
    ensures a == b
  {
    PrecedesIsTotal(a, b);
  }

  /** The rows in the order of the query. */
  ghost function Ordered(rows: set<Position>): seq<Position>
    requires ArePositions(rows)
    decreases rows
  {
    if rows == {} then []
    else
      LeastExists(rows);
      var first :| IsLeast(first, rows);
      [first] + Ordered(rows - {first})
  }

  lemma FirstThenInOrder(first: Position, rest: seq<Position>)
    requires InOrder(rest) && forall row :: row in rest ==> Precedes(first, row)
    ensures InOrder([first] + rest)
  {
  }

  lemma {:induction false} OrderedIsInOrder(rows: set<Position>)
    requires ArePositions(rows)
    ensures InOrder(Ordered(rows)) && |Ordered(rows)| == |rows|
    ensures forall row :: row in Ordered(rows) <==> row in rows
    decreases rows
  {
    if rows != {} {
      LeastExists(rows);
      var all := Ordered(rows);
      var rest := rows - {all[0]};
      assert all == [all[0]] + Ordered(rest);
      OrderedIsInOrder(rest);
      FirstThenInOrder(all[0], Ordered(rest));
    }
  }

  /** LIMIT */
  function Take(rows: seq<Position>, limit: nat): seq<Position> {
    if |rows| <= limit then rows else rows[..limit]
  }

  /** The first rows after the cursor, at most limit of them, and whether there are more. */
  ghost predicate IsPage(
    rows: set<Position>, after: Option<Position>, limit: nat, page: seq<Position>, hasMore: bool)
    requires ArePositions(rows)
  {
    var all := Ordered(Rest(rows, after));
    page == Take(all, limit) && hasMore == (|all| > limit)
  }

  /** What a page tells about the rows after the cursor. */
  lemma PageMeans(rows: set<Position>, after: Option<Position>, limit: nat, page: seq<Position>, hasMore: bool)
    requires ArePositions(rows) && IsPage(rows, after, limit, page, hasMore)
    ensures InOrder(page) && |page| <= limit && (hasMore ==> |page| == limit)
    ensures forall i :: 0 <= i < |page| ==> page[i] in Rest(rows, after)
    ensures forall row :: row in Rest(rows, after) && row !in page ==>
              hasMore && (|page| > 0 ==> Precedes(page[|page| - 1], row))
  {
    var all := Ordered(Rest(rows, after));
    OrderedIsInOrder(Rest(rows, after));
    forall i | 0 <= i < |page| ensures page[i] in Rest(rows, after) {
      assert page[i] == all[i];
    }
    forall row | row in Rest(rows, after) && row !in page
      ensures hasMore && (|page| > 0 ==> Precedes(page[|page| - 1], row))
    {
      var k :| 0 <= k < |all| && all[k] == row;
      assert forall i :: 0 <= i < |page| ==> page[i] == all[i];
    }
  }

  lemma OrderedUnfolds(rows: set<Position>, first: Position)
    requires ArePositions(rows) && IsLeast(first, rows)
    ensures Ordered(rows) == [first] + Ordered(rows - {first})
  {
    LeastIsUnique(first, Ordered(rows)[0], rows);
  }

  lemma Shift(page: seq<Position>, first: Position, rest: seq<Position>)
    ensures page + ([first] + rest) == page + [first] + rest
  {
  }

  /** The query of OperationRepository.search: limit + 1 rows are fetched, limit are shown. */
  method FetchPage(rows: set<Position>, after: Option<Position>, limit: nat)
    returns (page: seq<Position>, hasMore: bool)
    requires ArePositions(rows)
    ensures IsPage(rows, after, limit, page, hasMore)
  {
    page := [];
    var rest := Rest(rows, after);
    while rest != {} && |page| < limit
      invariant ArePositions(rest) && |page| <= limit
      invariant Ordered(Rest(rows, after)) == page + Ordered(rest)
      decreases |rest|
    {
      LeastExists(rest);
      var first :| first in rest && forall row :: row in rest && row != first ==> Precedes(first, row);
      OrderedUnfolds(rest, first);
      Shift(page, first, Ordered(rest - {first}));
      rest := rest - {first};
      page := page + [first];
    }
    OrderedIsInOrder(rest);
    hasMore := rest != {};
  }

  // ---------------------------------------------------------------- following the cursors

  /** One request of a client: what it read, from which rows, after which cursor. */
  datatype Visit = Visit(rows: set<Position>, after: Option<Position>, page: seq<Position>, hasMore: bool)

  ghost predicate IsVisit(visit: Visit, limit: nat) {
    ArePositions(visit.rows) && IsPage(visit.rows, visit.after, limit, visit.page, visit.hasMore)
  }

  /** The next request continues where the last page ended; rows may have been inserted. */
  ghost predicate Continues(previous: Visit, next: Visit) {
    && previous.hasMore && |previous.page| > 0
    && next.after == Some(previous.page[|previous.page| - 1])
    && previous.rows <= next.rows
  }

  /** The requests of a client, the latest one outermost. */
  datatype Walk = FirstVisit(visit: Visit) | NextVisit(earlier: Walk, visit: Visit)

  /** A client follows the cursor page by page; rows are only inserted in between. */
  ghost predicate IsWalk(walk: Walk, limit: nat) {
    && limit >= 1 && IsVisit(walk.visit, limit)
    && match walk
       case FirstVisit(visit) => visit.after.None?
       case NextVisit(earlier, visit) => IsWalk(earlier, limit) && Continues(earlier.visit, visit)
  }

  function AllPages(walk: Walk): seq<Position> {
    match walk
    case FirstVisit(visit) => visit.page
    case NextVisit(earlier, visit) => AllPages(earlier) + visit.page
  }

  function FirstRows(walk: Walk): set<Position> {
    match walk
    case FirstVisit(visit) => visit.rows
    case NextVisit(earlier, _) => FirstRows(earlier)
  }

  lemma AppendedInOrder(front: seq<Position>, page: seq<Position>)
    requires InOrder(front) && InOrder(page) && |front| > 0
    requires forall i :: 0 <= i < |page| ==> Precedes(front[|front| - 1], page[i])
    ensures InOrder(front + page)
  {
    var all := front + page;
    forall i, j | 0 <= i < j < |all| ensures Precedes(all[i], all[j]) {
      if i < |front| - 1 && j >= |front| {
        PrecedesIsTransitive(front[i], front[|front| - 1], page[j - |front|]);
      }
    }
  }

  function LastRow(visit: Visit): Position
    requires |visit.page| > 0
  {
    visit.page[|visit.page| - 1]
  }

  /** What has been read so far is in order and comes from the rows. */
  ghost predicate ReadInOrder(all: seq<Position>, last: Visit) {
    && InOrder(all)
    && (forall row :: row in all ==> row in last.rows)
    && (last.hasMore ==> |last.page| > 0 && |all| > 0 && all[|all| - 1] == LastRow(last))
  }

  lemma OneMorePage(all: seq<Position>, previous: Visit, next: Visit, limit: nat)
    requires limit >= 1 && ReadInOrder(all, previous) && Continues(previous, next) && IsVisit(next, limit)
    ensures ReadInOrder(all + next.page, next)
  {
    FirstPage(next, limit);
    PageMeans(next.rows, next.after, limit, next.page, next.hasMore);
    forall i | 0 <= i < |next.page| ensures Precedes(all[|all| - 1], next.page[i]) {
      assert next.page[i] in Rest(next.rows, next.after);
    }
    AppendedInOrder(all, next.page);
  }

  lemma FirstPage(visit: Visit, limit: nat)
    requires limit >= 1 && IsVisit(visit, limit)
    ensures ReadInOrder(visit.page, visit)
  {
    PageMeans(visit.rows, visit.after, limit, visit.page, visit.hasMore);
    forall row | row in visit.page ensures row in visit.rows {
      var i :| 0 <= i < |visit.page| && visit.page[i] == row;
      assert visit.page[i] in Rest(visit.rows, visit.after);
    }
  }

  lemma {:induction false} WalkIsInOrder(walk: Walk, limit: nat)
    requires IsWalk(walk, limit)
    ensures ReadInOrder(AllPages(walk), walk.visit)
    decreases walk
  {
    match walk
    case FirstVisit(visit) => FirstPage(visit, limit);
    case NextVisit(earlier, visit) =>
      WalkIsInOrder(earlier, limit);
      OneMorePage(AllPages(earlier), earlier.visit, visit, limit);
  }

  /** The row has been read, or is still ahead of the cursor. */
  ghost predicate ReadOrAhead(all: seq<Position>, last: Visit, row: Position) {
    && row in last.rows
    && (row in all || (last.hasMore && |last.page| > 0 && Precedes(LastRow(last), row)))
  }

  lemma AheadIsReadNext(all: seq<Position>, previous: Visit, next: Visit, limit: nat, row: Position)
    requires limit >= 1 && ReadOrAhead(all, previous, row) && Continues(previous, next) && IsVisit(next, limit)
    ensures ReadOrAhead(all + next.page, next, row)
  {
    PageMeans(next.rows, next.after, limit, next.page, next.hasMore);
    if row !in all {
      assert row in Rest(next.rows, next.after);
    }
  }

  lemma {:induction false} NothingIsSkipped(walk: Walk, limit: nat, row: Position)
    requires IsWalk(walk, limit) && row in FirstRows(walk)
    ensures ReadOrAhead(AllPages(walk), walk.visit, row)
    decreases walk
  {
    match walk
    case FirstVisit(visit) =>
      PageMeans(visit.rows, None, limit, visit.page, visit.hasMore);
      assert row in Rest(visit.rows, None);
    case NextVisit(earlier, visit) =>
      NothingIsSkipped(earlier, limit, row);
      AheadIsReadNext(AllPages(earlier), earlier.visit, visit, limit, row);
  }

  /** Exactly once: at the end every row that was there at the start has been read, no row was
      read twice, the whole is in order, and everything read exists. On a fixed snapshot the
      pages are exactly its rows in order. */
  lemma PagingIsExactlyOnce(walk: Walk, limit: nat)
    requires IsWalk(walk, limit) && !walk.visit.hasMore
    ensures InOrder(AllPages(walk))
    ensures forall i, j :: 0 <= i < j < |AllPages(walk)| ==> AllPages(walk)[i] != AllPages(walk)[j]
    ensures forall row :: row in FirstRows(walk) ==> row in AllPages(walk)
    ensures forall row :: row in AllPages(walk) ==> row in walk.visit.rows
    ensures FirstRows(walk) == walk.visit.rows ==> (set row | row in AllPages(walk)) == FirstRows(walk)
  {
    WalkIsInOrder(walk, limit);
    forall row | row in FirstRows(walk) ensures row in AllPages(walk) {
      NothingIsSkipped(walk, limit, row);
    }
    forall i, j | 0 <= i < j < |AllPages(walk)| ensures AllPages(walk)[i] != AllPages(walk)[j] {
      var a := AllPages(walk)[i];
      assert a in AllPages(walk) && IsPosition(a);
      PrecedesIsTotal(a, a);
    }
  }

  /** Rows in strict order are distinct, so there are no more of them than rows. */
  lemma {:induction false} OrderedFits(page: seq<Position>, rows: set<Position>)
    requires InOrder(page) && ArePositions(rows)
    requires forall row :: row in page ==> row in rows
    ensures |page| <= |rows|
    decreases |page|
  {
    if |page| > 0 {
      var last := page[|page| - 1];
      var front := page[..|page| - 1];
      forall row | row in front ensures row in rows - {last} {
        var i :| 0 <= i < |front| && front[i] == row;
        assert Precedes(page[i], last) && last in page;
        PrecedesIsTotal(last, last);
      }
      OrderedFits(front, rows - {last});
    }
  }

  // ---------------------------------------------------------------- searching with text cursors

  datatype SearchResult = InvalidCursor | Found(page: seq<Position>, next: Option<string>)

  /** The text of next_cursor names the last row of its page. */
  ghost predicate Names(next: Option<string>, page: seq<Position>) {
    next.Some? ==> |page| > 0 && DecodeCursor(next.value) == Some(page[|page| - 1])
  }

  /** next_cursor */
  method NextCursor(page: seq<Position>, hasMore: bool) returns (next: Option<string>)
    requires hasMore ==> |page| > 0 && IsPosition(page[|page| - 1])
    ensures next.Some? <==> hasMore
    ensures Names(next, page)
  {
    if !hasMore {
      return None;
    }
    var last := page[|page| - 1];
    CursorRoundTrip(last);
    return Some(CursorOf(last));
  }

  /** search, once the cursor is decoded. */
  method SearchAfter(rows: set<Position>, after: Option<Position>, limit: nat)
    returns (page: seq<Position>, next: Option<string>)
    requires ArePositions(rows) && limit >= 1
    ensures IsPage(rows, after, limit, page, next.Some?)
    ensures Names(next, page)
    ensures next.Some? ==> page[|page| - 1] in rows
  {
    var hasMore;
    page, hasMore := FetchPage(rows, after, limit);
    PageMeans(rows, after, limit, page, hasMore);
    if hasMore {
      assert page[|page| - 1] in Rest(rows, after);
    }
    next := NextCursor(page, hasMore);
  }

  /** search_operations: the cursor must name a position that is still one of the rows. */
  method SearchOperations(rows: set<Position>, cursor: Option<string>, limit: nat) returns (result: SearchResult)
    requires ArePositions(rows) && limit >= 1
    ensures result.InvalidCursor?
        <==> cursor.Some? && (DecodeCursor(cursor.value).None? || DecodeCursor(cursor.value).value !in rows)
    ensures result.Found? ==>
              && IsPage(rows, if cursor.Some? then DecodeCursor(cursor.value) else None, limit, result.page,
                        result.next.Some?)
              && Names(result.next, result.page)
              && (result.next.Some? ==> result.page[|result.page| - 1] in rows)
  {
    var after: Option<Position> := None;
    if cursor.Some? {
      after := DecodeCursor(cursor.value);
      if after.None? || after.value !in rows {
        return InvalidCursor;
      }
    }
    var page, next := SearchAfter(rows, after, limit);
    return Found(page, next);
  }

  /** Pages of a snapshot never hold more than it. */
  lemma PagesFit(walk: Walk, limit: nat)
    requires IsWalk(walk, limit)
    ensures |AllPages(walk)| <= |walk.visit.rows|
    ensures walk.visit.hasMore ==> |walk.visit.page| == limit
  {
    WalkIsInOrder(walk, limit);
    OrderedFits(AllPages(walk), walk.visit.rows);
    PageMeans(walk.visit.rows, walk.visit.after, limit, walk.visit.page, walk.visit.hasMore);
  }

  /** The walk so far has read this snapshot up to the given answer. */
  ghost predicate Reading(walk: Walk, rows: set<Position>, limit: nat, result: SearchResult) {
    && IsWalk(walk, limit) && FirstRows(walk) == rows && walk.visit.rows == rows
    && result.Found? && walk.visit.page == result.page && walk.visit.hasMore == result.next.Some?
    && Names(result.next, result.page)
    && (result.next.Some? ==> |result.page| > 0 && result.page[|result.page| - 1] in rows)
  }

  /** One more request with the cursor of the last answer. */
  method Continue(rows: set<Position>, limit: nat, last: SearchResult, ghost walk: Walk)
    returns (result: SearchResult, ghost grown: Walk)
    requires ArePositions(rows) && Reading(walk, rows, limit, last) && last.next.Some?
    ensures Reading(grown, rows, limit, result) && grown == NextVisit(walk, grown.visit)
  {
    ghost var after := Some(LastRow(walk.visit));
    result := SearchOperations(rows, last.next, limit);
    grown := NextVisit(walk, Visit(rows, after, result.page, result.next.Some?));
  }

  /** Reading a whole snapshot through the text cursors ends, and gives its rows in order. */
  method ReadAll(rows: set<Position>, limit: nat) returns (all: seq<Position>)
    requires ArePositions(rows) && limit >= 1
    ensures InOrder(all)
    ensures (set row | row in all) == rows
  {
    var result := SearchOperations(rows, None, limit);
    all := result.page;
    ghost var walk := FirstVisit(Visit(rows, None, result.page, result.next.Some?));
    while result.next.Some?
      invariant Reading(walk, rows, limit, result) && AllPages(walk) == all
      decreases |rows| - |all|, result.next.Some?
    {
      result, walk := Continue(rows, limit, result, walk);
      all := all + result.page;
      PagesFit(walk, limit);
    }
    PagingIsExactlyOnce(walk, limit);
  }
}
