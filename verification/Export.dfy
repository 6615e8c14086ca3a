/** `streamPredictionsForExport` of predictions.service.js: cursor paging over a
    table that keeps changing, against the plain sorted filter. */
module Export {
  import opened Collections
  import opened Chunking

  /** Primary keys, compared as the database orders them. */
  type RowId = nat

  /** The rows matching the filter when a page is read, in key order. */
  ghost predicate Ascending(xs: seq<RowId>) {
    forall i, j :: 0 <= i < j < |xs| ==> xs[i] < xs[j]
  }

  /** Keys are 128-bit UUIDs: there is a largest one. */
  ghost predicate Snapshot(xs: seq<RowId>, limit: nat) {
    Ascending(xs) && forall x :: x in xs ==> x < limit
  }

  function Take(xs: seq<RowId>, n: nat): seq<RowId> {
    if |xs| <= n then xs else xs[..n]
  }

  /** Rows from key `c` on, and rows after it. */
  function From(xs: seq<RowId>, c: RowId): seq<RowId> {
    if xs == [] || xs[0] >= c then xs else From(xs[1..], c)
  }

  function After(xs: seq<RowId>, c: RowId): seq<RowId> {
    if xs == [] || xs[0] > c then xs else After(xs[1..], c)
  }

  /** `findMany({ cursor: { id }, skip: 1, orderBy: { id: 'asc' }, take })`. */
  function Page(xs: seq<RowId>, cursor: Option<RowId>, take: nat): seq<RowId> {
    match cursor
    case None => Take(xs, take)
    case Some(c) =>
      var rest := From(xs, c);
      Take(if rest == [] then [] else rest[1..], take)
  }

  lemma {:induction false} FromKeeps(xs: seq<RowId>, c: RowId)
    requires Ascending(xs)
    ensures Ascending(From(xs, c))
    ensures forall x :: x in From(xs, c) <==> x in xs && x >= c
  {
    if xs != [] && xs[0] < c {
      FromKeeps(xs[1..], c);
      assert forall x :: x in xs <==> x == xs[0] || x in xs[1..];
    }
  }

  lemma {:induction false} AfterKeeps(xs: seq<RowId>, c: RowId)
    requires Ascending(xs)
    ensures Ascending(After(xs, c))
    ensures forall x :: x in After(xs, c) <==> x in xs && x > c
  {
    if xs != [] && xs[0] <= c {
      AfterKeeps(xs[1..], c);
      assert forall x :: x in xs <==> x == xs[0] || x in xs[1..];
    }
  }

  /** The two differ by the cursor's own row. */
  lemma {:induction false} FromSplits(xs: seq<RowId>, c: RowId)
    requires Ascending(xs)
    ensures c in xs ==> From(xs, c) == [c] + After(xs, c)
    ensures c !in xs ==> From(xs, c) == After(xs, c)
  {
    if xs != [] {
      if xs[0] < c {
        FromSplits(xs[1..], c);
        assert c in xs <==> c in xs[1..];
      } else if xs[0] == c {
        assert xs == [c] + xs[1..];
        AfterAll(xs[1..], c);
      } else {
        assert c !in xs;
      }
    }
  }

  lemma AfterAll(xs: seq<RowId>, c: RowId)
    requires forall x :: x in xs ==> x > c
    ensures After(xs, c) == xs
  {
    assert xs != [] ==> xs[0] in xs;
  }

  lemma TakeKeeps(xs: seq<RowId>, n: nat)
    requires Ascending(xs)
    ensures Ascending(Take(xs, n)) && forall x :: x in Take(xs, n) ==> x in xs
    ensures forall x :: x in xs && x !in Take(xs, n) ==> |Take(xs, n)| == n && forall y :: y in Take(xs, n) ==> y < x
  {
  }

  /** A page holds matching rows only, in order, all after the cursor. */
  lemma PageIsAfterCursor(xs: seq<RowId>, cursor: Option<RowId>, take: nat)
    requires Ascending(xs)
    ensures Ascending(Page(xs, cursor, take)) && |Page(xs, cursor, take)| <= take
    ensures forall x :: x in Page(xs, cursor, take) ==> x in xs && (cursor.Some? ==> x > cursor.value)
  {
    match cursor
    case None => TakeKeeps(xs, take);
    case Some(c) =>
      FromKeeps(xs, c);
      var rest := From(xs, c);
      if rest != [] {
        assert Ascending(rest[1..]);
        TakeKeeps(rest[1..], take);
        assert rest[0] in rest;
        forall x | x in rest[1..] ensures x in xs && x > c {
          assert rest[0] < x && x in rest;
        }
      }
  }

  /** The page after a cursor is what it should be exactly when the cursor's row
      still matches the filter, or nothing follows it: otherwise `skip: 1` drops a
      row that was never delivered. */
  lemma PageExactly(xs: seq<RowId>, c: RowId, take: nat)
    requires Ascending(xs) && take > 0
    ensures Page(xs, Some(c), take) == Take(After(xs, c), take) <==> c in xs || After(xs, c) == []
  {
    FromSplits(xs, c);
    FromKeeps(xs, c);
    var rest := From(xs, c);
    if c in xs {
      assert rest[1..] == After(xs, c);
    } else if rest != [] {
      var lost := rest[0];
      assert lost !in rest[1..];
      TakeKeeps(rest[1..], take);
      assert Take(rest, take)[0] == lost;
    }
  }

  // ---- the export -------------------------------------------------------------------

  /** How many keys the cursor can still move past. */
  function Room(cursor: Option<RowId>, limit: nat): nat {
    if cursor.None? then limit + 1 else if cursor.value < limit then limit - cursor.value else 0
  }

  lemma CursorMovesUp(xs: seq<RowId>, cursor: Option<RowId>, take: nat, limit: nat)
    requires Snapshot(xs, limit) && Page(xs, cursor, take) != []
    ensures var batch := Page(xs, cursor, take); Room(Some(batch[|batch| - 1]), limit) < Room(cursor, limit)
  {
    PageIsAfterCursor(xs, cursor, take);
    var batch := Page(xs, cursor, take);
    assert batch[|batch| - 1] in batch;
  }

  ghost predicate Snapshots(snapshot: nat -> seq<RowId>, limit: nat) {
    forall k: nat :: Snapshot(snapshot(k), limit)
  }

  /** The pages the generator yields when page `n` is read from `snapshot(n)`. */
  ghost function Pages(snapshot: nat -> seq<RowId>, n: nat, cursor: Option<RowId>, take: nat, limit: nat)
    : seq<seq<RowId>>
    requires take > 0 && Snapshots(snapshot, limit)
    decreases Room(cursor, limit)
  {
    var batch := Page(snapshot(n), cursor, take);
    if batch == [] then []
    else if |batch| < take then [batch]
    else
      assert Snapshot(snapshot(n), limit);
      CursorMovesUp(snapshot(n), cursor, take, limit);
      [batch] + Pages(snapshot, n + 1, Some(batch[|batch| - 1]), take, limit)
  }

  /** One page of the generator: the last one, or a full one whose last row is the next
      cursor. */
  lemma PagesUnfold(snapshot: nat -> seq<RowId>, n: nat, cursor: Option<RowId>, take: nat, limit: nat)
    returns (batch: seq<RowId>)
    requires take > 0 && Snapshots(snapshot, limit)
    ensures batch == Page(snapshot(n), cursor, take) && |batch| <= take && Ascending(batch)
    ensures forall x :: x in batch ==> x in snapshot(n) && (cursor.Some? ==> x > cursor.value)
    ensures var out := Pages(snapshot, n, cursor, take, limit);
            if |batch| < take then out == if batch == [] then [] else [batch]
            else
              var last := batch[|batch| - 1];
              && last in batch && Room(Some(last), limit) < Room(cursor, limit)
              && out == [batch] + Pages(snapshot, n + 1, Some(last), take, limit)
  {
    batch := Page(snapshot(n), cursor, take);
    assert Snapshot(snapshot(n), limit);
    PageIsAfterCursor(snapshot(n), cursor, take);
    if |batch| == take {
      CursorMovesUp(snapshot(n), cursor, take, limit);
    }
  }

  /** `streamPredictionsForExport`: it ends, however many rows are inserted while it
      runs, because the cursor only moves up. */
  method StreamForExport(snapshot: nat -> seq<RowId>, take: nat, ghost limit: nat) returns (pages: seq<seq<RowId>>)
    requires take > 0 && Snapshots(snapshot, limit)
    ensures pages == Pages(snapshot, 0, None, take, limit)
  {
    var cursor: Option<RowId> := None;
    var n: nat := 0;
    pages := [];
    while true
      invariant pages + Pages(snapshot, n, cursor, take, limit) == Pages(snapshot, 0, None, take, limit)
      decreases Room(cursor, limit)
    {
      var batch := Page(snapshot(n), cursor, take);
      if |batch| == 0 {
        assert pages + [] == pages;
        return;
      }
      assert Snapshot(snapshot(n), limit);
      CursorMovesUp(snapshot(n), cursor, take, limit);
      if |batch| < take {
        pages := pages + [batch];
        return;
      }
      var next := batch[|batch| - 1];
      Regroup(pages, batch, Pages(snapshot, n + 1, Some(next), take, limit));
      pages := pages + [batch];
      cursor := Some(next);
      n := n + 1;
    }
  }

  lemma Regroup(pages: seq<seq<RowId>>, batch: seq<RowId>, rest: seq<seq<RowId>>)
    ensures pages + ([batch] + rest) == (pages + [batch]) + rest
  {
  }

  ghost predicate AllAfter(xs: seq<RowId>, c: RowId) {
    forall x :: x in xs ==> x > c
  }

  lemma AscendingJoin(a: seq<RowId>, b: seq<RowId>)
    requires Ascending(a) && Ascending(b)
    requires a != [] ==> AllAfter(b, a[|a| - 1])
    ensures Ascending(a + b)
  {
    forall i, j | 0 <= i < j < |a + b| ensures (a + b)[i] < (a + b)[j] {
      if i < |a| <= j {
        assert (a + b)[j] in b && a[i] <= a[|a| - 1];
      }
    }
  }

  /** In key order, and past the cursor if there is one. */
  ghost predicate InOrder(xs: seq<RowId>, cursor: Option<RowId>) {
    Ascending(xs) && (cursor.Some? ==> AllAfter(xs, cursor.value))
  }

  lemma PagesInOrder(batch: seq<RowId>, rest: seq<seq<RowId>>, cursor: Option<RowId>)
    requires InOrder(batch, cursor) && batch != [] && InOrder(Flatten(rest), Some(batch[|batch| - 1]))
    ensures InOrder(Flatten([batch] + rest), cursor)
  {
    FlattenCons(batch, rest);
    AscendingJoin(batch, Flatten(rest));
    assert batch[|batch| - 1] in batch;
  }

  lemma LastPageInOrder(batch: seq<RowId>, out: seq<seq<RowId>>, cursor: Option<RowId>)
    requires InOrder(batch, cursor) && out == if batch == [] then [] else [batch]
    ensures InOrder(Flatten(out), cursor)
  {
    assert Flatten([batch]) == batch + Flatten([]) == batch;
  }

  /** Batches concatenate to strictly increasing keys: no row is written twice. */
  lemma {:induction false} ExportIsOrdered(snapshot: nat -> seq<RowId>, n: nat, cursor: Option<RowId>,
                                         take: nat, limit: nat)
    requires take > 0 && Snapshots(snapshot, limit)
    ensures InOrder(Flatten(Pages(snapshot, n, cursor, take, limit)), cursor)
    decreases Room(cursor, limit)
  {
    var batch := PagesUnfold(snapshot, n, cursor, take, limit);
    if |batch| < take {
      LastPageInOrder(batch, Pages(snapshot, n, cursor, take, limit), cursor);
    } else {
      var last := batch[|batch| - 1];
      ExportIsOrdered(snapshot, n + 1, Some(last), take, limit);
      PagesInOrder(batch, Pages(snapshot, n + 1, Some(last), take, limit), cursor);
    }
  }

  lemma FirstPageSound(snapshot: nat -> seq<RowId>, n: nat, cursor: Option<RowId>, take: nat, limit: nat,
                       out: seq<seq<RowId>>)
    requires take > 0 && Snapshots(snapshot, limit) && out == Pages(snapshot, n, cursor, take, limit) && out != []
    ensures Elements(out[0]) <= Elements(snapshot(n))
  {
    var batch := PagesUnfold(snapshot, n, cursor, take, limit);
    assert out[0] == batch;
  }

  lemma LaterPage(snapshot: nat -> seq<RowId>, n: nat, cursor: Option<RowId>, take: nat, limit: nat,
                  out: seq<seq<RowId>>, k: nat)
    returns (last: RowId, rest: seq<seq<RowId>>)
    requires take > 0 && Snapshots(snapshot, limit) && out == Pages(snapshot, n, cursor, take, limit)
    requires 0 < k < |out|
    ensures rest == Pages(snapshot, n + 1, Some(last), take, limit)
    ensures k - 1 < |rest| && out[k] == rest[k - 1]
  {
    var batch := PagesUnfold(snapshot, n, cursor, take, limit);
    assert |batch| == take;
    last := batch[|batch| - 1];
    rest := Pages(snapshot, n + 1, Some(last), take, limit);
    PageAfterFirst(batch, rest, k);
  }

  lemma PageAfterFirst(batch: seq<RowId>, rest: seq<seq<RowId>>, k: nat)
    requires 0 < k < 1 + |rest|
    ensures ([batch] + rest)[k] == rest[k - 1]
  {
  }

  lemma {:induction false} PageIsSound(snapshot: nat -> seq<RowId>, n: nat, cursor: Option<RowId>, take: nat,
                                       limit: nat, k: nat, out: seq<seq<RowId>>, m: nat)
    requires take > 0 && Snapshots(snapshot, limit) && out == Pages(snapshot, n, cursor, take, limit)
    requires k < |out| && m == n + k
    ensures Elements(out[k]) <= Elements(snapshot(m))
    decreases k
  {
    if k == 0 {
      FirstPageSound(snapshot, n, cursor, take, limit, out);
    } else {
      var last, rest := LaterPage(snapshot, n, cursor, take, limit, out, k);
      PageIsSound(snapshot, n + 1, Some(last), take, limit, k - 1, rest, m);
    }
  }

  /** Every row written matched the filter when its page was read. */
  lemma ExportIsSound(snapshot: nat -> seq<RowId>, n: nat, cursor: Option<RowId>, take: nat, limit: nat, k: nat)
    requires take > 0 && Snapshots(snapshot, limit)
    requires k < |Pages(snapshot, n, cursor, take, limit)|
    ensures Elements(Pages(snapshot, n, cursor, take, limit)[k]) <= Elements(snapshot(n + k))
  {
    PageIsSound(snapshot, n, cursor, take, limit, k, Pages(snapshot, n, cursor, take, limit), n + k);
  }

  /** No row ever leaves the filter while the export runs. */
  ghost predicate NoneLeaves(snapshot: nat -> seq<RowId>) {
    forall k: nat, x :: x in snapshot(k) ==> x in snapshot(k + 1)
  }

  /** With rows inserted between pages and none leaving, every row that matched at
      the start is written, and by `ExportIsOrdered` exactly once. */
  lemma {:induction false} ExportIsComplete(snapshot: nat -> seq<RowId>, n: nat, cursor: Option<RowId>,
                                         take: nat, limit: nat, x: RowId)
    requires take > 0 && Snapshots(snapshot, limit)
    requires NoneLeaves(snapshot)
    requires cursor.Some? ==> cursor.value in snapshot(n)
    requires x in snapshot(n) && (cursor.Some? ==> x > cursor.value)
    ensures x in Flatten(Pages(snapshot, n, cursor, take, limit))
    decreases Room(cursor, limit)
  {
    var xs := snapshot(n);
    var batch := Page(xs, cursor, take);
    assert Snapshot(xs, limit);
    PageIsAfterCursor(xs, cursor, take);
    var due := if cursor.None? then xs else After(xs, cursor.value);
    if cursor.Some? {
      AfterKeeps(xs, cursor.value);
      PageExactly(xs, cursor.value, take);
    }
    assert batch == Take(due, take) && x in due;
    TakeKeeps(due, take);
    var out := Pages(snapshot, n, cursor, take, limit);
    if x in batch {
      assert Flatten(out) == batch + Flatten(out[1..]);
    } else {
      var last := batch[|batch| - 1];
      CursorMovesUp(xs, cursor, take, limit);
      assert last in batch && last in snapshot(n + 1) && x in snapshot(n + 1);
      ExportIsComplete(snapshot, n + 1, Some(last), take, limit, x);
      assert out[1..] == Pages(snapshot, n + 1, Some(last), take, limit);
      assert Flatten(out) == batch + Flatten(out[1..]);
    }
  }

  lemma {:induction false} SameRows(a: seq<RowId>, b: seq<RowId>)
    requires Ascending(a) && Ascending(b) && forall x :: x in a <==> x in b
    ensures a == b
  {
    ElementsSize(a);
    ElementsSize(b);
    assert Elements(a) == Elements(b);
    if a != [] {
      assert a[0] in b && b[0] in a;
      var i :| 0 <= i < |b| && b[i] == a[0];
      var j :| 0 <= j < |a| && a[j] == b[0];
      assert a[0] == b[0];
      forall x | true ensures x in a[1..] <==> x in b[1..] {
        assert x in a <==> x == a[0] || x in a[1..];
        assert x in b <==> x == b[0] || x in b[1..];
        assert x in a[1..] ==> x > a[0];
        assert x in b[1..] ==> x > b[0];
      }
      SameRows(a[1..], b[1..]);
    }
  }

  /** On a table that does not change the export is the sorted filter. */
  lemma ExportOfStaticTable(xs: seq<RowId>, take: nat, limit: nat)
    requires take > 0 && Snapshot(xs, limit)
    ensures Flatten(Pages(k => xs, 0, None, take, limit)) == xs
  {
    var still: nat -> seq<RowId> := k => xs;
    var out := Flatten(Pages(still, 0, None, take, limit));
    ExportIsOrdered(still, 0, None, take, limit);
    forall x | x in xs ensures x in out {
      ExportIsComplete(still, 0, None, take, limit, x);
    }
    forall x | x in out ensures x in xs {
      var k := FlattenMember(Pages(still, 0, None, take, limit), x);
      ExportIsSound(still, 0, None, take, limit, k);
      assert x in Elements(still(0 + k));
    }
    SameRows(out, xs);
  }

  // ---- which rows are lost ------------------------------------------------------------------------

  /** The cursor's row has left the filter and `x` is the first row after it. */
  predicate DropsFirst(xs: seq<RowId>, cursor: Option<RowId>, x: RowId) {
    cursor.Some? && cursor.value !in xs && After(xs, cursor.value) != [] && After(xs, cursor.value)[0] == x
  }

  /** The cursor of read `k`: the last row of the page before it. */
  function CursorOf(out: seq<seq<RowId>>, k: nat, cursor: Option<RowId>): Option<RowId> {
    if k == 0 then cursor
    else if k <= |out| && out[k - 1] != [] then Some(out[k - 1][|out[k - 1]| - 1])
    else None
  }

  /** Page `k` is read, and the read drops `x`. */
  ghost predicate DropsAt(snapshot: nat -> seq<RowId>, n: nat, cursor: Option<RowId>, out: seq<seq<RowId>>,
                          take: nat, k: nat, x: RowId) {
    && (k > 0 ==> k <= |out| && |out[k - 1]| == take)
    && DropsFirst(snapshot(n + k), CursorOf(out, k, cursor), x)
  }

  ghost predicate Dropped(snapshot: nat -> seq<RowId>, n: nat, cursor: Option<RowId>, out: seq<seq<RowId>>,
                          take: nat, x: RowId) {
    exists k: nat :: DropsAt(snapshot, n, cursor, out, take, k, x)
  }

  /** One page: a row that is due is on it, or is dropped by it, or lies after all of a
      full page. */
  lemma PageOrDropped(xs: seq<RowId>, cursor: Option<RowId>, take: nat, x: RowId)
    requires Ascending(xs) && take > 0 && x in xs && (cursor.Some? ==> x > cursor.value)
    ensures var batch := Page(xs, cursor, take);
            && (DropsFirst(xs, cursor, x) ==> forall y :: y in batch ==> y > x)
            && (!DropsFirst(xs, cursor, x) && x !in batch ==> |batch| == take && forall y :: y in batch ==> y < x)
  {
    match cursor
    case None => TakeKeeps(xs, take);
    case Some(c) =>
      FromSplits(xs, c);
      AfterKeeps(xs, c);
      var due, after := From(xs, c)[1..], After(xs, c);
      if c in xs {
        assert due == after;
      } else {
        assert after == [after[0]] + due;
      }
      TakeKeeps(due, take);
  }

  lemma DropLater(snapshot: nat -> seq<RowId>, n: nat, cursor: Option<RowId>, batch: seq<RowId>,
                  rest: seq<seq<RowId>>, take: nat, k: nat, x: RowId)
    requires take > 0 && |batch| == take
    ensures DropsAt(snapshot, n, cursor, [batch] + rest, take, k + 1, x) <==>
            DropsAt(snapshot, n + 1, Some(batch[|batch| - 1]), rest, take, k, x)
  {
    var out := [batch] + rest;
    assert k > 0 && k <= |rest| ==> out[k] == rest[k - 1];
    assert n + (k + 1) == n + 1 + k;
  }

  lemma DroppedLater(snapshot: nat -> seq<RowId>, n: nat, cursor: Option<RowId>, batch: seq<RowId>,
                     rest: seq<seq<RowId>>, take: nat, x: RowId, next: nat, last: Option<RowId>)
    requires take > 0 && |batch| == take && !DropsFirst(snapshot(n), cursor, x)
    requires next == n + 1 && last == Some(batch[|batch| - 1])
    ensures Dropped(snapshot, n, cursor, [batch] + rest, take, x) <==> Dropped(snapshot, next, last, rest, take, x)
  {
    if k: nat :| DropsAt(snapshot, n, cursor, [batch] + rest, take, k, x) {
      assert n + 0 == n;
      DropLater(snapshot, n, cursor, batch, rest, take, k - 1, x);
    }
    if k: nat :| DropsAt(snapshot, next, last, rest, take, k, x) {
      DropLater(snapshot, n, cursor, batch, rest, take, k, x);
    }
  }

  /** Only a full page is followed by another read. */
  lemma ReadsOn(snapshot: nat -> seq<RowId>, n: nat, cursor: Option<RowId>, batch: seq<RowId>,
                out: seq<seq<RowId>>, take: nat, k: nat, x: RowId)
    requires k > 0 && DropsAt(snapshot, n, cursor, out, take, k, x)
    requires |batch| < take ==> out == if batch == [] then [] else [batch]
    ensures |batch| >= take
  {
  }

  /** The cursor only moves up, and what a read drops lies after it. */
  lemma {:induction false} DroppedIsAfter(snapshot: nat -> seq<RowId>, n: nat, cursor: RowId, take: nat, limit: nat,
                                          k: nat, x: RowId)
    requires take > 0 && Snapshots(snapshot, limit)
    requires DropsAt(snapshot, n, Some(cursor), Pages(snapshot, n, Some(cursor), take, limit), take, k, x)
    ensures x > cursor
    decreases k
  {
    if k == 0 {
      assert n + 0 == n && Snapshot(snapshot(n), limit);
      AfterKeeps(snapshot(n), cursor);
      assert x in After(snapshot(n), cursor);
    } else {
      var batch := PagesUnfold(snapshot, n, Some(cursor), take, limit);
      ReadsOn(snapshot, n, Some(cursor), batch, Pages(snapshot, n, Some(cursor), take, limit), take, k, x);
      var last := batch[|batch| - 1];
      DropLater(snapshot, n, Some(cursor), batch, Pages(snapshot, n + 1, Some(last), take, limit), take, k - 1, x);
      DroppedIsAfter(snapshot, n + 1, last, take, limit, k - 1, x);
    }
  }

  /** A row on or before the first page is dropped by no later read. */
  lemma NotDroppedLater(snapshot: nat -> seq<RowId>, n: nat, cursor: RowId, take: nat, limit: nat, x: RowId)
    requires take > 0 && Snapshots(snapshot, limit) && x <= cursor
    ensures !Dropped(snapshot, n, Some(cursor), Pages(snapshot, n, Some(cursor), take, limit), take, x)
    ensures x !in Flatten(Pages(snapshot, n, Some(cursor), take, limit))
  {
    var out := Pages(snapshot, n, Some(cursor), take, limit);
    ExportIsOrdered(snapshot, n, Some(cursor), take, limit);
    forall k: nat ensures !DropsAt(snapshot, n, Some(cursor), out, take, k, x) {
      if DropsAt(snapshot, n, Some(cursor), out, take, k, x) {
        DroppedIsAfter(snapshot, n, cursor, take, limit, k, x);
      }
    }
  }

  lemma DroppedNow(snapshot: nat -> seq<RowId>, n: nat, cursor: Option<RowId>, out: seq<seq<RowId>>,
                   take: nat, x: RowId)
    requires DropsFirst(snapshot(n), cursor, x)
    ensures Dropped(snapshot, n, cursor, out, take, x)
  {
    assert n + 0 == n;
    assert DropsAt(snapshot, n, cursor, out, take, 0, x);
  }

  /** A page that is not full is the last one read. */
  lemma ShortPage(snapshot: nat -> seq<RowId>, n: nat, cursor: Option<RowId>, batch: seq<RowId>,
                  out: seq<seq<RowId>>, take: nat, x: RowId)
    requires |batch| < take && out == (if batch == [] then [] else [batch])
    requires x in batch <==> !DropsFirst(snapshot(n), cursor, x)
    ensures x in Flatten(out) <==> !Dropped(snapshot, n, cursor, out, take, x)
  {
    FlattenCons(batch, []);
    assert batch + [] == batch && [batch] + [] == [batch];
    if DropsFirst(snapshot(n), cursor, x) {
      DroppedNow(snapshot, n, cursor, out, take, x);
    }
    if k: nat :| DropsAt(snapshot, n, cursor, out, take, k, x) {
      assert k == 0 && n + 0 == n;
    }
  }

  /** A full page and what the reads after it do. */
  lemma FullPage(snapshot: nat -> seq<RowId>, n: nat, cursor: Option<RowId>, batch: seq<RowId>,
                 rest: seq<seq<RowId>>, take: nat, x: RowId, next: nat, last: RowId)
    requires take > 0 && |batch| == take && Ascending(batch) && next == n + 1 && last == batch[|batch| - 1]
    requires DropsFirst(snapshot(n), cursor, x) ==> forall y :: y in batch ==> y > x
    requires !DropsFirst(snapshot(n), cursor, x) && x !in batch ==> forall y :: y in batch ==> y < x
    requires x <= last ==> !Dropped(snapshot, next, Some(last), rest, take, x) && x !in Flatten(rest)
    requires x > last ==> (x in Flatten(rest) <==> !Dropped(snapshot, next, Some(last), rest, take, x))
    ensures x in Flatten([batch] + rest) <==> !Dropped(snapshot, n, cursor, [batch] + rest, take, x)
  {
    FlattenCons(batch, rest);
    assert last in batch;
    if DropsFirst(snapshot(n), cursor, x) {
      DroppedNow(snapshot, n, cursor, [batch] + rest, take, x);
    } else {
      DroppedLater(snapshot, n, cursor, batch, rest, take, x, next, Some(last));
    }
  }

  /** A row that matches whenever a page is read, and lies after the cursor, is written
      exactly when no read drops it. */
  lemma {:induction false} WrittenExactly(snapshot: nat -> seq<RowId>, n: nat, cursor: Option<RowId>,
                                          take: nat, limit: nat, x: RowId)
    requires take > 0 && Snapshots(snapshot, limit) && forall j: nat :: x in snapshot(j)
    requires cursor.Some? ==> x > cursor.value
    ensures var out := Pages(snapshot, n, cursor, take, limit);
            x in Flatten(out) <==> !Dropped(snapshot, n, cursor, out, take, x)
    decreases Room(cursor, limit)
  {
    var batch := PagesUnfold(snapshot, n, cursor, take, limit);
    assert Snapshot(snapshot(n), limit);
    PageOrDropped(snapshot(n), cursor, take, x);
    if |batch| < take {
      ShortPage(snapshot, n, cursor, batch, Pages(snapshot, n, cursor, take, limit), take, x);
    } else {
      var next, last := n + 1, batch[|batch| - 1];
      if x <= last {
        NotDroppedLater(snapshot, next, last, take, limit, x);
      } else {
        WrittenExactly(snapshot, next, Some(last), take, limit, x);
      }
      FullPage(snapshot, n, cursor, batch, Pages(snapshot, next, Some(last), take, limit), take, x, next, last);
    }
  }

  /** Over a whole export: a row that matches throughout is lost exactly when, at some
      read, the row the cursor points at has left the filter and the lost row is the
      first one after it. */
  lemma LostExactly(snapshot: nat -> seq<RowId>, take: nat, limit: nat, x: RowId)
    requires take > 0 && Snapshots(snapshot, limit) && forall j: nat :: x in snapshot(j)
    ensures var out := Pages(snapshot, 0, None, take, limit);
            x !in Flatten(out) <==> exists k: nat :: DropsAt(snapshot, 0, None, out, take, k, x)
  {
    WrittenExactly(snapshot, 0, None, take, limit, x);
  }

  /** A row soft-deleted between pages, while it is the cursor, takes the next row
      with it: row 3 matches throughout and is never written. */
  lemma LeavingCursorLosesARow()
    ensures var table: nat -> seq<RowId> := k => if k == 0 then [1, 2, 3] else [1, 3];
            && Snapshots(table, 4) && (forall k: nat :: 3 in table(k))
            && Pages(table, 0, None, 2, 4) == [[1, 2]]
  {
    var table: nat -> seq<RowId> := k => if k == 0 then [1, 2, 3] else [1, 3];
    assert Snapshots(table, 4);
    assert Page(table(0), None, 2) == [1, 2];
    assert From([1, 3], 2) == [3] by {
      assert [1, 3][1..] == [3];
    }
    assert Page(table(1), Some(2), 2) == [];
    assert Pages(table, 1, Some(2), 2, 4) == [];
    assert [[1, 2]] + [] == [[1, 2]];
  }
}
