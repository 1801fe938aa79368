/** The audit events of one operation: their sequence numbers (persistence/repositories.py) and
    the pages read from them (application/service.py) while further events are appended. */
module AuditTrail {
  import opened Lifecycle

  // ---------------------------------------------------------------- appending

  ghost function MaxOf(used: set<nat>): (m: nat)
    requires used != {}
    ensures m in used && forall n :: n in used ==> n <= m
  {
    var some :| some in used;
    if used == {some} then some
    else
      var best := MaxOf(used - {some});
      assert forall n :: n in used ==> n == some || n in used - {some};
      if some < best then best else some
  }

  /** next_sequence, under the lock of the operation: MAX(sequence) + 1, or 1. */
  ghost function NextSequence(used: set<nat>): nat {
    if used == {} then 1 else MaxOf(used) + 1
  }

  /** The stored sequences after so many more appends. */
  ghost function Appended(used: set<nat>, count: nat): set<nat> {
    if count == 0 then used
    else
      var before := Appended(used, count - 1);
      before + {NextSequence(before)}
  }

  /** The sequences 1..n, each once. */
  ghost predicate Gapless(used: set<nat>, n: nat) {
    forall k: nat :: k in used <==> 1 <= k <= n
  }

  lemma OneAppendLeavesNoGap(used: set<nat>, n: nat)
    requires Gapless(used, n)
    ensures NextSequence(used) == n + 1 && Gapless(used + {NextSequence(used)}, n + 1)
  {
    if n == 0 {
      assert used == {};
    } else {
      assert n in used;
    }
  }

  /** Any number of appends under the lock leaves no gap. */
  lemma {:induction false} AppendLeavesNoGap(used: set<nat>, n: nat, count: nat)
    requires Gapless(used, n)
    ensures Gapless(Appended(used, count), n + count)
    decreases count
  {
    if count > 0 {
      AppendLeavesNoGap(used, n, count - 1);
      OneAppendLeavesNoGap(Appended(used, count - 1), n + count - 1);
    }
  }

  // ---------------------------------------------------------------- the query

  ghost predicate Ascending(rows: seq<nat>) {
    forall i, j :: 0 <= i < j < |rows| ==> rows[i] < rows[j]
  }

  /** ORDER BY sequence */
  ghost function Ordered(rows: set<nat>): (r: seq<nat>)
    ensures Ascending(r) && |r| == |rows|
    ensures forall n :: n in r <==> n in rows
  {
    if rows == {} then []
    else
      var last := MaxOf(rows);
      Ordered(rows - {last}) + [last]
  }

  /** WHERE sequence > after ORDER BY sequence LIMIT count */
  ghost function Selected(used: set<nat>, after: nat, count: nat): seq<nat> {
    var rows := Ordered(set n | n in used && n > after);
    if |rows| <= count then rows else rows[..count]
  }

  datatype AuditPage = AuditPage(events: seq<nat>, next: Option<nat>)

  /** audit_page over page_for_operation: one row more than the limit tells whether there is
      more, and the last event that is returned is the next cursor. */
  ghost function PageOf(used: set<nat>, after: nat, limit: nat): AuditPage
    requires limit >= 1
  {
    var rows := Selected(used, after, limit + 1);
    if |rows| > limit then AuditPage(rows[..limit], Some(rows[limit - 1])) else AuditPage(rows, None)
  }

  /** How many events a page has when the stored sequences are 1..n. */
  function PageLength(n: nat, after: nat, limit: nat): nat {
    if after >= n then 0 else if n - after < limit then n - after else limit
  }

  /** low + 1, low + 2, ... */
  ghost predicate Consecutive(rows: seq<nat>, low: nat) {
    forall i :: 0 <= i < |rows| ==> rows[i] == low + 1 + i
  }

  lemma {:induction false} OrderedInterval(rows: set<nat>, low: nat, count: nat)
    requires forall k: nat :: k in rows <==> low < k <= low + count
    ensures |Ordered(rows)| == count && Consecutive(Ordered(rows), low)
    decreases count
  {
    if count == 0 {
      assert rows == {};
    } else {
      assert low + count in rows;
      assert MaxOf(rows) == low + count;
      OrderedInterval(rows - {low + count}, low, count - 1);
    }
  }

  lemma SelectedFromGapless(used: set<nat>, n: nat, after: nat, count: nat)
    requires Gapless(used, n)
    ensures |Selected(used, after, count)| == PageLength(n, after, count)
    ensures Consecutive(Selected(used, after, count), after)
  {
    var rows := set k | k in used && k > after;
    OrderedInterval(rows, after, if after >= n then 0 else n - after);
  }

  /** The next events after the cursor, and a next cursor, the last of them, exactly when more
      than the limit were left. */
  ghost predicate IsNextPage(page: AuditPage, n: nat, after: nat, limit: nat) {
    && |page.events| == PageLength(n, after, limit)
    && Consecutive(page.events, after)
    && page.next == (if after + limit < n then Some(after + limit) else None)
  }

  /** Without gaps the query selects the next page. */
  lemma PageOfGapless(used: set<nat>, n: nat, after: nat, limit: nat)
    requires Gapless(used, n) && limit >= 1
    ensures IsNextPage(PageOf(used, after, limit), n, after, limit)
  {
    SelectedFromGapless(used, n, after, limit + 1);
  }

  // ---------------------------------------------------------------- walking

  /** The cursor of the k-th request. */
  function CursorAt(pages: seq<AuditPage>, after: nat, k: nat): nat
    requires k <= |pages|
  {
    if k == 0 || pages[k - 1].next.None? then after else pages[k - 1].next.value
  }

  /** These pages were read one after the other along the next cursors, while events were
      appended: counts[k] is how many there were at the k-th request. */
  ghost predicate IsWalk(pages: seq<AuditPage>, counts: seq<nat>, after: nat, limit: nat) {
    && limit >= 1 && |pages| == |counts|
    && (forall k :: 0 <= k < |pages| - 1 ==> pages[k].next.Some?)
    && forall k :: 0 <= k < |pages| ==> ReadAt(pages, counts, after, limit, k)
  }

  ghost predicate ReadAt(pages: seq<AuditPage>, counts: seq<nat>, after: nat, limit: nat, k: nat)
    requires limit >= 1 && k < |pages| == |counts|
  {
    pages[k] == PageOf(Appended({}, counts[k]), CursorAt(pages, after, k), limit)
  }

  /** The events of these pages, in the order in which they were read. */
  function EventsOf(pages: seq<AuditPage>): seq<nat> {
    if |pages| == 0 then [] else EventsOf(pages[..|pages| - 1]) + pages[|pages| - 1].events
  }

  lemma ReadIsNextPage(pages: seq<AuditPage>, counts: seq<nat>, after: nat, limit: nat, k: nat)
    requires limit >= 1 && k < |pages| == |counts| && ReadAt(pages, counts, after, limit, k)
    ensures IsNextPage(pages[k], counts[k], CursorAt(pages, after, k), limit)
  {
    AppendLeavesNoGap({}, 0, counts[k]);
    PageOfGapless(Appended({}, counts[k]), counts[k], CursorAt(pages, after, k), limit);
  }

  lemma WalkPrefix(pages: seq<AuditPage>, counts: seq<nat>, after: nat, limit: nat)
    requires IsWalk(pages, counts, after, limit) && |pages| > 0
    ensures IsWalk(pages[..|pages| - 1], counts[..|counts| - 1], after, limit)
  {
    var shorter, fewer := pages[..|pages| - 1], counts[..|counts| - 1];
    forall k | 0 <= k < |shorter| ensures ReadAt(shorter, fewer, after, limit, k) {
      assert ReadAt(pages, counts, after, limit, k);
      assert CursorAt(shorter, after, k) == CursorAt(pages, after, k);
    }
  }

  /** The last page follows where the pages before it end. */
  lemma LastPage(pages: seq<AuditPage>, counts: seq<nat>, after: nat, limit: nat)
    requires IsWalk(pages, counts, after, limit) && |pages| > 0
    requires |pages| > 1 ==>
               && pages[|pages| - 2].next.Some?
               && pages[|pages| - 2].next.value == after + |EventsOf(pages[..|pages| - 1])|
    ensures var last := |pages| - 1;
      IsNextPage(pages[last], counts[last], after + |EventsOf(pages[..last])|, limit)
  {
    ReadIsNextPage(pages, counts, after, limit, |pages| - 1);
  }

  lemma ConsecutiveTogether(first: seq<nat>, more: seq<nat>, low: nat)
    requires Consecutive(first, low) && Consecutive(more, low + |first|)
    ensures Consecutive(first + more, low)
  {
  }

  /** However many events are appended between two requests, the pages read are after + 1,
      after + 2, ... without a gap or a repetition, and the next cursor is where they end. */
  lemma {:induction false} AuditPagesAreGapless(
    pages: seq<AuditPage>, counts: seq<nat>, after: nat, limit: nat)
    requires IsWalk(pages, counts, after, limit)
    ensures Consecutive(EventsOf(pages), after)
    ensures |pages| > 0 && pages[|pages| - 1].next.Some?
        ==> pages[|pages| - 1].next.value == after + |EventsOf(pages)|
    decreases |pages|
  {
    if |pages| > 0 {
      var last := |pages| - 1;
      WalkPrefix(pages, counts, after, limit);
      AuditPagesAreGapless(pages[..last], counts[..last], after, limit);
      LastPage(pages, counts, after, limit);
      ConsecutiveTogether(EventsOf(pages[..last]), pages[last].events, after);
    }
  }

  ghost predicate NeverFewer(counts: seq<nat>) {
    forall j, k :: 0 <= j < k < |counts| ==> counts[j] <= counts[k]
  }

  /** A walk that came to a page without a next cursor has read all that was there when it
      started. */
  lemma AuditWalkReadsAll(pages: seq<AuditPage>, counts: seq<nat>, after: nat, limit: nat)
    requires IsWalk(pages, counts, after, limit) && NeverFewer(counts)
    requires |pages| > 0 && pages[|pages| - 1].next.None?
    ensures after + |EventsOf(pages)| >= counts[|counts| - 1] >= counts[0]
  {
    var last := |pages| - 1;
    WalkPrefix(pages, counts, after, limit);
    AuditPagesAreGapless(pages[..last], counts[..last], after, limit);
    LastPage(pages, counts, after, limit);
  }
}
