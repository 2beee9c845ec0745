/** The cursor queries of internal/repository/message_repository.go over the rows of one channel, which
    select by identifier, sort by time, and cut. */
module MessageQueries {
  /** Identifiers are counted from one. */
  type RowId = n: nat | n >= 1 witness 1

  datatype Row = Row(id: RowId, sentAt: int, text: string)

  /** Identifiers are given in insertion order. */
  predicate Increasing(rows: seq<Row>) {
    forall i, j :: 0 <= i < j < |rows| ==> rows[i].id < rows[j].id
  }

  /** Times do not go back from one inserted row to the next. */
  predicate Monotone(rows: seq<Row>) {
    forall i :: 0 < i < |rows| ==> rows[i - 1].sentAt <= rows[i].sentAt
  }

  // ---- ORDER BY sent_at, id ----

  predicate Less(a: Row, b: Row) {
    a.sentAt < b.sentAt || (a.sentAt == b.sentAt && a.id < b.id)
  }

  predicate Ordered(s: seq<Row>) {
    forall i, j :: 0 <= i < j < |s| ==> Less(s[i], s[j])
  }

  function Insert(s: seq<Row>, r: Row): seq<Row> {
    if s == [] then [r]
    else if Less(s[|s| - 1], r) then s + [r]
    else Insert(s[..|s| - 1], r) + [s[|s| - 1]]
  }

  function Sort(rows: seq<Row>): seq<Row> {
    if rows == [] then [] else Insert(Sort(rows[..|rows| - 1]), rows[|rows| - 1])
  }

  lemma {:induction false} InsertKeeps(s: seq<Row>, r: Row)
    ensures multiset(Insert(s, r)) == multiset(s) + multiset{r}
    ensures |Insert(s, r)| == |s| + 1
    decreases |s|
  {
    if s != [] && !Less(s[|s| - 1], r) {
      InsertKeeps(s[..|s| - 1], r);
      assert s == s[..|s| - 1] + [s[|s| - 1]];
    }
  }

  lemma InsertStaysBelow(s: seq<Row>, r: Row, top: Row)
    requires (forall x :: x in s ==> Less(x, top)) && Less(r, top)
    ensures forall x :: x in Insert(s, r) ==> Less(x, top)
  {
    InsertKeeps(s, r);
    forall x | x in Insert(s, r) ensures Less(x, top) {
      assert x in multiset(Insert(s, r));
      assert x in s || x == r;
    }
  }

  lemma BelowLast(s: seq<Row>, r: Row)
    requires Ordered(s) && s != [] && Less(s[|s| - 1], r)
    ensures forall x :: x in s ==> Less(x, r)
  {
  }

  lemma {:induction false} InsertOrders(s: seq<Row>, r: Row)
    requires Ordered(s) && forall x :: x in s ==> x.id != r.id
    ensures Ordered(Insert(s, r))
    decreases |s|
  {
    if s == [] {
    } else if Less(s[|s| - 1], r) {
      BelowLast(s, r);
    } else {
      var n := |s| - 1;
      assert s[n] in s;
      InsertOrders(s[..n], r);
      assert forall x :: x in s[..n] ==> Less(x, s[n]);
      InsertStaysBelow(s[..n], r, s[n]);
    }
  }

  lemma LastIsNew(rows: seq<Row>, s: seq<Row>)
    requires Increasing(rows) && rows != [] && multiset(s) == multiset(rows[..|rows| - 1])
    ensures forall x :: x in s ==> x.id != rows[|rows| - 1].id
  {
    forall x | x in s ensures x.id != rows[|rows| - 1].id {
      assert x in multiset(s);
      assert x in rows[..|rows| - 1];
    }
  }

  lemma WithoutLast(s: seq<Row>)
    requires s != []
    ensures multiset(s) == multiset(s[..|s| - 1]) + multiset{s[|s| - 1]}
    ensures multiset(s[..|s| - 1]) == multiset(s) - multiset{s[|s| - 1]}
  {
    assert s == s[..|s| - 1] + [s[|s| - 1]];
  }

  /** `Sort` is the ordered arrangement of the rows. */
  lemma {:induction false} SortIsOrdered(rows: seq<Row>)
    requires Increasing(rows)
    ensures Ordered(Sort(rows)) && multiset(Sort(rows)) == multiset(rows) && |Sort(rows)| == |rows|
    decreases |rows|
  {
    if rows != [] {
      var n := |rows| - 1;
      SortIsOrdered(rows[..n]);
      InsertKeeps(Sort(rows[..n]), rows[n]);
      LastIsNew(rows, Sort(rows[..n]));
      InsertOrders(Sort(rows[..n]), rows[n]);
      WithoutLast(rows);
    }
  }

  lemma LastIsGreatest(a: seq<Row>, b: seq<Row>)
    requires Ordered(a) && Ordered(b) && multiset(a) == multiset(b) && a != [] && b != []
    ensures a[|a| - 1] == b[|b| - 1]
  {
    var x, y := a[|a| - 1], b[|b| - 1];
    assert x in multiset(b) && y in multiset(a);
    var i :| 0 <= i < |b| && b[i] == x;
    var j :| 0 <= j < |a| && a[j] == y;
  }

  /** The order leaves no choice: rows have one ordered arrangement only. */
  lemma {:induction false} OrderIsUnique(a: seq<Row>, b: seq<Row>)
    requires Ordered(a) && Ordered(b) && multiset(a) == multiset(b)
    ensures a == b
    decreases |a|
  {
    SameLength(a, b);
    if a != [] {
      LastIsGreatest(a, b);
      WithoutLast(a);
      WithoutLast(b);
      OrderIsUnique(a[..|a| - 1], b[..|b| - 1]);
    }
  }

  lemma SameLength(a: seq<Row>, b: seq<Row>)
    requires multiset(a) == multiset(b)
    ensures |a| == |b|
  {
    assert |multiset(a)| == |multiset(b)|;
  }

  lemma {:induction false} MonotoneIsSorted(rows: seq<Row>)
    requires Increasing(rows) && Monotone(rows)
    ensures Sort(rows) == rows
    decreases |rows|
  {
    if rows != [] {
      MonotoneIsSorted(rows[..|rows| - 1]);
    }
  }

  // ---- Selection by identifier ----

  function After(rows: seq<Row>, cursor: int): seq<Row> {
    if rows == [] then []
    else
      var last := rows[|rows| - 1];
      After(rows[..|rows| - 1], cursor) + if last.id > cursor then [last] else []
  }

  function Before(rows: seq<Row>, cursor: int): seq<Row> {
    if rows == [] then []
    else
      var last := rows[|rows| - 1];
      Before(rows[..|rows| - 1], cursor) + if last.id < cursor then [last] else []
  }

  /** The number of rows up to a cursor. */
  function Rank(rows: seq<Row>, cursor: int): (n: nat)
    ensures n <= |rows|
  {
    if rows == [] then 0
    else if rows[|rows| - 1].id <= cursor then |rows|
    else Rank(rows[..|rows| - 1], cursor)
  }

  /** The first `n` rows are those up to the cursor. */
  predicate SplitAt(rows: seq<Row>, cursor: int, n: nat) {
    n <= |rows| && forall i :: 0 <= i < |rows| ==> (i < n <==> rows[i].id <= cursor)
  }

  lemma {:induction false} RankSplits(rows: seq<Row>, cursor: int)
    requires Increasing(rows)
    ensures SplitAt(rows, cursor, Rank(rows, cursor))
    decreases |rows|
  {
    if rows != [] && rows[|rows| - 1].id > cursor {
      RankSplits(rows[..|rows| - 1], cursor);
      assert forall i :: 0 <= i < |rows| - 1 ==> rows[..|rows| - 1][i] == rows[i];
    }
  }

  lemma SplitOfPrefix(rows: seq<Row>, cursor: int, n: nat)
    requires SplitAt(rows, cursor, n) && rows != []
    ensures SplitAt(rows[..|rows| - 1], cursor, if n == |rows| then n - 1 else n)
  {
    assert forall i :: 0 <= i < |rows| - 1 ==> rows[..|rows| - 1][i] == rows[i];
  }

  lemma {:induction false} AfterOfSplit(rows: seq<Row>, cursor: int, n: nat)
    requires SplitAt(rows, cursor, n)
    ensures After(rows, cursor) == rows[n..]
    decreases |rows|
  {
    if rows != [] {
      var last := |rows| - 1;
      SplitOfPrefix(rows, cursor, n);
      if n == |rows| {
        AfterOfSplit(rows[..last], cursor, last);
      } else {
        AfterOfSplit(rows[..last], cursor, n);
        assert rows[..last][n..] + [rows[last]] == rows[n..];
      }
    }
  }

  lemma {:induction false} BeforeOfSplit(rows: seq<Row>, cursor: int, n: nat)
    requires SplitAt(rows, cursor - 1, n)
    ensures Before(rows, cursor) == rows[..n]
    decreases |rows|
  {
    if rows != [] {
      var last := |rows| - 1;
      SplitOfPrefix(rows, cursor - 1, n);
      if n == |rows| {
        BeforeOfSplit(rows[..last], cursor, last);
        assert rows[..last][..last] + [rows[last]] == rows[..n];
      } else {
        BeforeOfSplit(rows[..last], cursor, n);
        assert rows[..last][..n] == rows[..n];
      }
    }
  }

  // ---- The queries ----

  function Clamp(limit: int, default: nat, max: nat): (r: nat)
    ensures default > 0 && max > 0 ==> r > 0
  {
    if limit <= 0 then default else if limit > max then max else limit
  }

  function Take(rows: seq<Row>, n: nat): seq<Row> {
    if |rows| > n then rows[..n] else rows
  }

  function Reversed(rows: seq<Row>): (r: seq<Row>)
    ensures |r| == |rows| && forall i :: 0 <= i < |r| ==> r[i] == rows[|rows| - 1 - i]
  {
    seq(|rows|, i requires 0 <= i < |rows| => rows[|rows| - 1 - i])
  }

  function GetAfterID(rows: seq<Row>, afterId: int, limit: int): seq<Row> {
    Take(Sort(After(rows, afterId)), Clamp(limit, 50, 100))
  }

  function GetBeforeID(rows: seq<Row>, beforeId: int, limit: int): seq<Row> {
    Take(Reversed(Sort(Before(rows, beforeId))), Clamp(limit, 20, 100))
  }

  function GetRecent(rows: seq<Row>, limit: int): seq<Row> {
    Take(Reversed(Sort(rows)), Clamp(limit, 50, 100))
  }

  function GetLatestID(rows: seq<Row>): nat {
    if rows == [] then 0
    else
      var before, last := GetLatestID(rows[..|rows| - 1]), rows[|rows| - 1].id;
      if before > last then before else last
  }

  lemma {:induction false} SortKeepsLength(rows: seq<Row>)
    ensures |Sort(rows)| == |rows|
    decreases |rows|
  {
    if rows != [] {
      SortKeepsLength(rows[..|rows| - 1]);
      InsertKeeps(Sort(rows[..|rows| - 1]), rows[|rows| - 1]);
    }
  }

  /** The number of rows a query answers with, `default` for a limit that is not positive, 100 at most. */
  predicate Full(answer: seq<Row>, found: seq<Row>, limit: int, default: nat) {
    var size := if limit <= 0 then default else if limit > 100 then 100 else limit;
    |answer| == if |found| < size then |found| else size
  }

  /** Every query answers with as many of the rows it selects as its limit allows. */
  lemma QueriesAreFull(rows: seq<Row>, cursor: int, limit: int)
    ensures Full(GetAfterID(rows, cursor, limit), After(rows, cursor), limit, 50)
    ensures Full(GetBeforeID(rows, cursor, limit), Before(rows, cursor), limit, 20)
    ensures Full(GetRecent(rows, limit), rows, limit, 50)
  {
    SortKeepsLength(After(rows, cursor));
    SortKeepsLength(Before(rows, cursor));
    SortKeepsLength(rows);
  }

  /** The queries select by identifier, above the cursor and below it. */
  lemma {:induction false} SelectedByCursor(rows: seq<Row>, cursor: int, r: Row)
    ensures r in After(rows, cursor) <==> r in rows && r.id > cursor
    ensures r in Before(rows, cursor) <==> r in rows && r.id < cursor
    decreases |rows|
  {
    if rows != [] {
      var n := |rows| - 1;
      assert rows == rows[..n] + [rows[n]];
      SelectedByCursor(rows[..n], cursor, r);
    }
  }

  /** On monotone rows the query after a cursor answers with the next rows of the table. */
  lemma AfterPage(rows: seq<Row>, cursor: int, n: nat, limit: int)
    requires Increasing(rows) && Monotone(rows) && SplitAt(rows, cursor, n)
    ensures GetAfterID(rows, cursor, limit) == Take(rows[n..], Clamp(limit, 50, 100))
  {
    AfterOfSplit(rows, cursor, n);
    MonotoneIsSorted(rows[n..]);
  }

  /** On monotone rows the query before a cursor answers with the rows below it, downwards. */
  lemma BeforePage(rows: seq<Row>, cursor: int, n: nat, limit: int)
    requires Increasing(rows) && Monotone(rows) && SplitAt(rows, cursor - 1, n)
    ensures GetBeforeID(rows, cursor, limit) == Take(Reversed(rows[..n]), Clamp(limit, 20, 100))
  {
    BeforeOfSplit(rows, cursor, n);
    assert rows[0..n] == rows[..n];
    MonotoneIsSorted(rows[..n]);
  }

  lemma StepBackMovesFirst(rest: seq<Row>)
    requires Increasing(rest) && |rest| >= 2 && rest[0].sentAt > rest[1].sentAt
    ensures |Sort(rest)| == |rest| && Sort(rest)[0] != rest[0]
  {
    SortIsOrdered(rest);
    var s := Sort(rest);
    assert rest[1] in multiset(s);
    var k :| 0 <= k < |s| && s[k] == rest[1];
    assert k > 0 ==> Less(s[0], s[k]);
  }

  lemma CutKeepsFirst(sorted: seq<Row>, rest: seq<Row>, n: nat)
    requires sorted != [] && rest != [] && n > 0 && sorted[0] != rest[0]
    ensures !(Take(sorted, n) <= rest)
  {
    assert Take(sorted, n)[0] == sorted[0];
  }

  lemma AfterFrom(rows: seq<Row>, i: nat)
    requires Increasing(rows) && i < |rows|
    ensures After(rows, rows[i].id - 1) == rows[i..]
  {
    AfterOfSplit(rows, rows[i].id - 1, i);
  }

  /** The page after a cursor is the next stretch of identifiers. */
  predicate PageExact(rows: seq<Row>, cursor: int, limit: int) {
    GetAfterID(rows, cursor, limit) <= After(rows, cursor)
  }

  ghost predicate PagesExact(rows: seq<Row>, limit: int) {
    forall cursor :: PageExact(rows, cursor, limit)
  }

  lemma StepBackBreaksPage(rows: seq<Row>, i: nat, limit: int)
    requires Increasing(rows) && i + 1 < |rows| && rows[i].sentAt > rows[i + 1].sentAt
    ensures !PageExact(rows, rows[i].id - 1, limit)
  {
    AfterFrom(rows, i);
    var rest := rows[i..];
    StepBackMovesFirst(rest);
    CutKeepsFirst(Sort(rest), rest, Clamp(limit, 50, 100));
  }

  lemma MonotonePageIsExact(rows: seq<Row>, cursor: int, limit: int)
    requires Increasing(rows) && Monotone(rows)
    ensures PageExact(rows, cursor, limit)
  {
    var n := Rank(rows, cursor);
    RankSplits(rows, cursor);
    AfterOfSplit(rows, cursor, n);
    AfterPage(rows, cursor, n, limit);
  }

  lemma MonotonePagesAreExact(rows: seq<Row>, limit: int)
    requires Increasing(rows) && Monotone(rows)
    ensures PagesExact(rows, limit)
  {
    forall cursor ensures PageExact(rows, cursor, limit) {
      MonotonePageIsExact(rows, cursor, limit);
    }
  }

  lemma ExactPagesAreMonotone(rows: seq<Row>, limit: int)
    requires Increasing(rows) && PagesExact(rows, limit)
    ensures Monotone(rows)
  {
    forall i | 0 < i < |rows| ensures rows[i - 1].sentAt <= rows[i].sentAt {
      assert PageExact(rows, rows[i - 1].id - 1, limit);
      if rows[i - 1].sentAt > rows[i].sentAt {
        StepBackBreaksPage(rows, i - 1, limit);
      }
    }
  }

  /** Cut after sorting by time, every page is the next stretch of identifiers if and only if times never
      go back, at any page size. */
  lemma PagesAreExactIffMonotone(rows: seq<Row>, limit: int)
    requires Increasing(rows)
    ensures PagesExact(rows, limit) <==> Monotone(rows)
  {
    if Monotone(rows) {
      MonotonePagesAreExact(rows, limit);
    } else if PagesExact(rows, limit) {
      ExactPagesAreMonotone(rows, limit);
    }
  }

  // ---- The same for the pages before a cursor ----

  lemma BeforeUpTo(rows: seq<Row>, i: nat)
    requires Increasing(rows) && i < |rows|
    ensures Before(rows, rows[i].id + 1) == rows[..i + 1]
  {
    BeforeOfSplit(rows, rows[i].id + 1, i + 1);
  }

  /** The page before a cursor is the next stretch of identifiers, downwards. */
  predicate BackPageExact(rows: seq<Row>, cursor: int, limit: int) {
    GetBeforeID(rows, cursor, limit) <= Reversed(Before(rows, cursor))
  }

  ghost predicate BackPagesExact(rows: seq<Row>, limit: int) {
    forall cursor :: BackPageExact(rows, cursor, limit)
  }

  /** Sorting does not leave the last row where it is. */
  predicate LastMoves(rest: seq<Row>) {
    rest != [] && |Sort(rest)| == |rest| && Sort(rest)[|rest| - 1] != rest[|rest| - 1]
  }

  lemma StepBackMovesLast(rest: seq<Row>)
    requires Increasing(rest) && |rest| >= 2 && rest[|rest| - 2].sentAt > rest[|rest| - 1].sentAt
    ensures LastMoves(rest)
  {
    SortIsOrdered(rest);
    var s, n := Sort(rest), |rest| - 1;
    assert rest[n - 1] in multiset(s);
    var k :| 0 <= k < |s| && s[k] == rest[n - 1];
    assert k < n ==> Less(s[k], s[n]);
  }

  lemma StepBackMovesLastOf(rows: seq<Row>, i: nat)
    requires Increasing(rows) && i + 1 < |rows| && rows[i].sentAt > rows[i + 1].sentAt
    ensures LastMoves(rows[..i + 2])
  {
    StepBackMovesLast(rows[..i + 2]);
  }

  lemma MovedLastBreaksBackPage(rows: seq<Row>, cursor: int, limit: int)
    requires LastMoves(Before(rows, cursor))
    ensures !BackPageExact(rows, cursor, limit)
  {
    var rest := Before(rows, cursor);
    CutKeepsFirst(Reversed(Sort(rest)), Reversed(rest), Clamp(limit, 20, 100));
  }

  lemma StepBackBreaksBackPage(rows: seq<Row>, i: nat, limit: int)
    requires Increasing(rows) && i + 1 < |rows| && rows[i].sentAt > rows[i + 1].sentAt
    ensures !BackPageExact(rows, rows[i + 1].id + 1, limit)
  {
    BeforeUpTo(rows, i + 1);
    StepBackMovesLastOf(rows, i);
    MovedLastBreaksBackPage(rows, rows[i + 1].id + 1, limit);
  }

  lemma MonotoneBackPageIsExact(rows: seq<Row>, cursor: int, limit: int)
    requires Increasing(rows) && Monotone(rows)
    ensures BackPageExact(rows, cursor, limit)
  {
    var n := Rank(rows, cursor - 1);
    RankSplits(rows, cursor - 1);
    BeforeOfSplit(rows, cursor, n);
    BeforePage(rows, cursor, n, limit);
  }

  lemma ExactBackPagesAreMonotone(rows: seq<Row>, limit: int)
    requires Increasing(rows) && BackPagesExact(rows, limit)
    ensures Monotone(rows)
  {
    forall i | 0 < i < |rows| ensures rows[i - 1].sentAt <= rows[i].sentAt {
      assert BackPageExact(rows, rows[i].id + 1, limit);
      if rows[i - 1].sentAt > rows[i].sentAt {
        StepBackBreaksBackPage(rows, i - 1, limit);
      }
    }
  }

  /** Turning back, too, every page is the next stretch of identifiers if and only if times never go back. */
  lemma BackPagesAreExactIffMonotone(rows: seq<Row>, limit: int)
    requires Increasing(rows)
    ensures BackPagesExact(rows, limit) <==> Monotone(rows)
  {
    if Monotone(rows) {
      forall cursor ensures BackPageExact(rows, cursor, limit) {
        MonotoneBackPageIsExact(rows, cursor, limit);
      }
    } else if BackPagesExact(rows, limit) {
      ExactBackPagesAreMonotone(rows, limit);
    }
  }
}
