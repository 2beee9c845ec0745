/** Turning back through the messages of a channel by cursor, and the hand-over from the initial view of
    a channel to its polling (internal/http/handlers/channel_view.go). */
module ChannelHistory {
  import opened MessageQueries
  import opened ChannelView
  import Paging

  // ---- Turning back ----

  /** The rows of the channel, the next `before_id`, and everything the reader has been answered. */
  datatype Book = Book(rows: seq<Row>, before: int, seen: seq<Row>)

  datatype Turn = More(rows: seq<Row>) | Back(pageSize: int)

  /** One request; a size that is out of range is corrected before the query sees it. */
  function TurnedBack(b: Book, pageSize: int): Book {
    var page := GetBeforeID(b.rows, b.before, Paging.ClampSize(pageSize));
    Book(b.rows, NextCursor(b.before, page), b.seen + page)
  }

  function NextBook(b: Book, t: Turn): Book {
    match t
    case More(rows) => b.(rows := b.rows + rows)
    case Back(pageSize) => TurnedBack(b, pageSize)
  }

  function Read(b: Book, turns: seq<Turn>): Book
    decreases |turns|
  {
    if turns == [] then b else Read(NextBook(b, turns[0]), turns[1..])
  }

  /** What was answered is the stretch of rows numbered `lo` to `hi`, downwards, all below the starting
      cursor; of the first `floor` rows none was passed over. */
  predicate Downward(b: Book, start: int, lo: nat, hi: nat, floor: nat) {
    && SplitAt(b.rows, b.before - 1, lo) && floor <= hi && lo <= hi <= |b.rows|
    && (forall i :: 0 <= i < hi ==> b.rows[i].id < start)
    && b.seen == Reversed(b.rows[lo..hi])
    && b.before == if lo == hi then start else b.rows[lo].id
  }

  function PageStart(to: nat, pageSize: int): nat {
    if to > Paging.ClampSize(pageSize) then to - Paging.ClampSize(pageSize) else 0
  }

  lemma TurnAnswers(b: Book, lo: nat, pageSize: int)
    requires Good(b.rows) && SplitAt(b.rows, b.before - 1, lo)
    ensures var from := PageStart(lo, pageSize);
            TurnedBack(b, pageSize)
            == Book(b.rows, if from == lo then b.before else b.rows[from].id, b.seen + Reversed(b.rows[from..lo]))
  {
    BeforePage(b.rows, b.before, lo, Paging.ClampSize(pageSize));
    var from := PageStart(lo, pageSize);
    assert Take(Reversed(b.rows[..lo]), Paging.ClampSize(pageSize)) == Reversed(b.rows[from..lo]);
  }

  lemma ReversedJoins(rows: seq<Row>, a: nat, b: nat, c: nat)
    requires a <= b <= c <= |rows|
    ensures Reversed(rows[b..c]) + Reversed(rows[a..b]) == Reversed(rows[a..c])
  {
  }

  lemma SplitBelowRow(rows: seq<Row>, i: nat)
    requires Increasing(rows) && i < |rows|
    ensures SplitAt(rows, rows[i].id - 1, i)
  {
  }

  lemma TurnKeepsDownward(b: Book, start: int, lo: nat, hi: nat, floor: nat, pageSize: int)
    requires Downward(b, start, lo, hi, floor) && Good(b.rows)
    ensures Downward(TurnedBack(b, pageSize), start, PageStart(lo, pageSize), hi, floor)
  {
    TurnAnswers(b, lo, pageSize);
    var from := PageStart(lo, pageSize);
    ReversedJoins(b.rows, from, lo, hi);
    if from < lo {
      SplitBelowRow(b.rows, from);
    }
  }

  lemma MoreKeepsDownward(b: Book, start: int, lo: nat, hi: nat, floor: nat, more: seq<Row>) returns (lo': nat, hi': nat)
    requires Downward(b, start, lo, hi, floor) && Increasing(b.rows + more)
    ensures Downward(b.(rows := b.rows + more), start, lo', hi', floor)
  {
    var all := b.rows + more;
    assert forall i :: 0 <= i < |b.rows| ==> all[i] == b.rows[i];
    if lo == hi {
      lo' := Rank(all, start - 1);
      hi' := lo';
      RankSplits(all, start - 1);
      if lo > 0 {
        assert all[lo - 1].id <= start - 1;
      }
    } else {
      lo', hi' := lo, hi;
      SplitStays(b.rows, more, b.before - 1, lo, lo);
      assert all[lo..hi] == b.rows[lo..hi];
    }
  }

  lemma {:induction false} RowsOnlyGrowInBook(b: Book, turns: seq<Turn>)
    ensures b.rows <= Read(b, turns).rows
    decreases |turns|
  {
    if turns != [] {
      RowsOnlyGrowInBook(NextBook(b, turns[0]), turns[1..]);
    }
  }

  lemma GoodBeforeTurns(b: Book, turns: seq<Turn>)
    requires Good(Read(b, turns).rows)
    ensures Good(b.rows)
  {
    RowsOnlyGrowInBook(b, turns);
    var all := Read(b, turns).rows;
    assert all == b.rows + all[|b.rows|..];
    GoodPrefix(b.rows, all[|b.rows|..]);
  }

  lemma {:induction false} ReadKeepsDownward(b: Book, start: int, lo: nat, hi: nat, floor: nat, turns: seq<Turn>)
    returns (lo': nat, hi': nat)
    requires Downward(b, start, lo, hi, floor) && Good(Read(b, turns).rows)
    ensures Downward(Read(b, turns), start, lo', hi', floor)
    decreases |turns|
  {
    lo', hi' := lo, hi;
    if turns != [] {
      var b1 := NextBook(b, turns[0]);
      GoodBeforeTurns(b, turns);
      GoodBeforeTurns(b1, turns[1..]);
      match turns[0] {
        case More(rows) => lo', hi' := MoreKeepsDownward(b, start, lo, hi, floor, rows);
        case Back(pageSize) =>
          lo' := PageStart(lo, pageSize);
          TurnKeepsDownward(b, start, lo, hi, floor, pageSize);
      }
      lo', hi' := ReadKeepsDownward(b1, start, lo', hi', floor, turns[1..]);
    }
  }

  lemma DownwardAtFirst(rows: seq<Row>, start: int)
    requires Increasing(rows)
    ensures var n := Rank(rows, start - 1); Downward(Book(rows, start, []), start, n, n, n)
  {
    RankSplits(rows, start - 1);
  }

  /** Turning back is exact: whatever is inserted meanwhile and whatever the page sizes, while times follow
      identifiers the answers joined together are an unbroken stretch of the rows, downwards, from below
      the starting cursor to the current one, and hold every row there that was in the table at first. */
  lemma TurningBackIsExact(rows: seq<Row>, start: int, turns: seq<Turn>)
    requires start > 0 && Good(Read(Book(rows, start, []), turns).rows)
    ensures var b := Read(Book(rows, start, []), turns);
            && (exists lo, hi :: 0 <= lo <= hi <= |b.rows| && b.seen == Reversed(b.rows[lo..hi]))
            && b.before > 0 && (forall r :: r in b.seen ==> b.before <= r.id < start)
            && (forall r :: r in rows && b.before <= r.id < start ==> r in b.seen)
  {
    var b0 := Book(rows, start, []);
    GoodBeforeTurns(b0, turns);
    DownwardAtFirst(rows, start);
    RankSplits(rows, start - 1);
    var n := Rank(rows, start - 1);
    var lo, hi := ReadKeepsDownward(b0, start, n, n, n, turns);
    RowsOnlyGrowInBook(b0, turns);
    DownwardIsExact(rows, Read(b0, turns), start, lo, hi, n);
  }

  lemma DownwardIsExact(rows: seq<Row>, b: Book, start: int, lo: nat, hi: nat, n: nat)
    requires Downward(b, start, lo, hi, n) && rows <= b.rows && SplitAt(rows, start - 1, n)
    ensures forall r :: r in b.seen ==> b.before <= r.id < start
    ensures forall r :: r in rows && b.before <= r.id < start ==> r in b.seen
  {
    forall r | r in b.seen ensures b.before <= r.id < start {
      var k :| 0 <= k < |b.seen| && b.seen[k] == r;
      assert b.rows[lo..hi][hi - lo - 1 - k] == r;
      assert b.rows[hi - 1 - k] == r;
    }
    forall r | r in rows && b.before <= r.id < start ensures r in b.seen {
      var i :| 0 <= i < |rows| && rows[i] == r;
      assert b.rows[i] == r && lo <= i < n;
      assert b.rows[lo..hi][i - lo] == r;
      assert b.seen[hi - 1 - i] == r;
    }
  }

  predicate OnlyBack(turns: seq<Turn>) {
    forall t :: t in turns ==> t.Back?
  }

  /** The number of rows the pages of these turns have room for. */
  function Room(turns: seq<Turn>): nat
    requires OnlyBack(turns)
    decreases |turns|
  {
    if turns == [] then 0 else Paging.ClampSize(turns[0].pageSize) + Room(turns[1..])
  }

  lemma {:induction false} ReadBack(b: Book, start: int, lo: nat, hi: nat, floor: nat, turns: seq<Turn>)
    returns (end: nat)
    requires Downward(b, start, lo, hi, floor) && Good(b.rows) && OnlyBack(turns)
    ensures Downward(Read(b, turns), start, end, hi, floor) && Read(b, turns).rows == b.rows
    ensures end == if lo > Room(turns) then lo - Room(turns) else 0
    decreases |turns|
  {
    end := lo;
    if turns != [] {
      TurnKeepsDownward(b, start, lo, hi, floor, turns[0].pageSize);
      end := ReadBack(NextBook(b, turns[0]), start, PageStart(lo, turns[0].pageSize), hi, floor, turns[1..]);
    }
  }

  /** Without inserts, pages with room for the rows below the starting cursor answer all of them, downwards. */
  lemma TurningBackReachesTheFirst(rows: seq<Row>, start: int, turns: seq<Turn>)
    requires start > 0 && Good(rows) && OnlyBack(turns) && |Before(rows, start)| <= Room(turns)
    ensures Read(Book(rows, start, []), turns).seen == Reversed(Before(rows, start))
  {
    var hi := Rank(rows, start - 1);
    DownwardAtFirst(rows, start);
    BeforeOfSplit(rows, start, hi);
    var end := ReadBack(Book(rows, start, []), start, hi, hi, hi, turns);
    assert rows[0..hi] == rows[..hi];
  }

  // ---- From the view to the polls ----

  function Oldest(shown: seq<Row>): int {
    if shown == [] then 0 else shown[0].id
  }

  /** Nothing from the oldest row shown up to the poller's cursor is missing. */
  ghost predicate Complete(shown: seq<Row>, f: Feed) {
    forall r :: r in f.rows && Oldest(shown) <= r.id <= f.cursor ==> r in shown || r in f.seen
  }

  lemma {:induction false} LatestIsLast(rows: seq<Row>)
    requires Increasing(rows)
    ensures GetLatestID(rows) == if rows == [] then 0 else rows[|rows| - 1].id
    decreases |rows|
  {
    if rows != [] {
      var n := |rows| - 1;
      LatestIsLast(rows[..n]);
    }
  }

  function Shown(rows: seq<Row>): seq<Row> {
    Reversed(GetRecent(rows, VIEW_LIMIT))
  }

  lemma ShownIsTail(rows: seq<Row>)
    requires Good(rows)
    ensures var k := if |rows| > 50 then |rows| - 50 else 0; Shown(rows) == rows[k..]
  {
    MonotoneIsSorted(rows);
  }

  /** The view and the polls after it show everything from the oldest row of the view on if and only if no
      row was inserted between the view's two queries; rows inserted there are never shown. */
  lemma ViewHandsOverIffNothingCameBetween(rows: seq<Row>, between: seq<Row>, events: seq<Event>)
    requires Good(Run(Feed(rows + between, GetLatestID(rows + between), []), events).rows)
    ensures var f := Run(Feed(rows + between, GetLatestID(rows + between), []), events);
            && (Complete(Shown(rows), f) <==> between == [])
            && (forall r :: r in between ==> r !in Shown(rows) && r !in f.seen)
  {
    var f0 := Feed(rows + between, GetLatestID(rows + between), []);
    var f := Run(f0, events);
    GoodBefore(f0, events);
    GoodPrefix(rows, between);
    ShownIsTail(rows);
    LatestIsLast(rows + between);
    ExactAtFirst(f0.rows, f0.cursor);
    var lo, hi := RunKeepsExact(f0, f0.cursor, Rank(f0.rows, f0.cursor), Rank(f0.rows, f0.cursor), events);
    RowsOnlyGrow(f0, events);
    HandOver(rows, between, f, f0.cursor, lo, hi);
  }

  /** Of the rows up to number `hi`, those from `k` on fall into two stretches exactly if these meet. */
  lemma StretchesMeet(all: seq<Row>, k: nat, m: nat, m2: nat, hi: nat)
    requires Increasing(all) && k <= m <= m2 <= hi <= |all|
    ensures (forall i :: k <= i < hi ==> all[i] in all[k..m] || all[i] in all[m2..hi]) <==> m == m2
    ensures forall i :: m <= i < m2 ==> all[i] !in all[k..m] && all[i] !in all[m2..hi]
  {
    forall i | k <= i < hi
      ensures all[i] in all[k..m] <==> i < m
      ensures all[i] in all[m2..hi] <==> m2 <= i
    {
      InStretch(all, k, m, i);
      InStretch(all, m2, hi, i);
    }
    if m < m2 {
      assert !(all[m] in all[k..m] || all[m] in all[m2..hi]);
    }
  }

  lemma CompleteByNumber(f: Feed, k: nat, m: nat, hi: nat)
    requires Increasing(f.rows) && k <= m <= hi <= |f.rows| && (k == m ==> m == 0) && SplitAt(f.rows, f.cursor, hi)
    ensures Complete(f.rows[k..m], f)
            <==> forall i :: k <= i < hi ==> f.rows[i] in f.rows[k..m] || f.rows[i] in f.seen
  {
    var shown := f.rows[k..m];
    forall i | 0 <= i < |f.rows| ensures Oldest(shown) <= f.rows[i].id <= f.cursor <==> k <= i < hi {
      assert k < m ==> shown[0] == f.rows[k];
    }
    if Complete(shown, f) {
      forall i | k <= i < hi ensures f.rows[i] in shown || f.rows[i] in f.seen {
        assert f.rows[i] in f.rows;
      }
    }
  }

  /** From whatever cursor the polls start, a row that the view has shown is answered again if and only if it
      lies above that cursor and the polls have come to it. */
  lemma ShownAgainIffAboveStart(rows: seq<Row>, between: seq<Row>, start: int, events: seq<Event>)
    requires Good(Run(Feed(rows + between, start, []), events).rows)
    ensures var f := Run(Feed(rows + between, start, []), events);
            forall r :: r in Shown(rows) ==> (r in f.seen <==> start < r.id <= f.cursor)
  {
    var f0 := Feed(rows + between, start, []);
    var f := Run(f0, events);
    PollingIsExact(rows + between, start, events);
    RowsOnlyGrow(f0, events);
    GoodBefore(f0, events);
    GoodPrefix(rows, between);
    forall r | r in Shown(rows) ensures r in f.seen <==> start < r.id <= f.cursor {
      ShownIsStored(rows, between, f.rows, r);
      SelectedByCursor(f.rows, start, r);
    }
  }

  /** When the query for the latest identifier succeeds nothing that was shown is answered again. */
  lemma GoodLatestRepeatsNothing(rows: seq<Row>, between: seq<Row>, events: seq<Event>)
    requires Good(Run(Feed(rows + between, GetLatestID(rows + between), []), events).rows)
    ensures var f := Run(Feed(rows + between, GetLatestID(rows + between), []), events);
            forall r :: r in Shown(rows) ==> r !in f.seen
  {
    var all := rows + between;
    var f0 := Feed(all, GetLatestID(all), []);
    GoodBefore(f0, events);
    GoodPrefix(rows, between);
    ShownAgainIffAboveStart(rows, between, GetLatestID(all), events);
    LatestIsLast(all);
    forall r | r in Shown(rows) ensures r.id <= GetLatestID(all) {
      ShownIsStored(rows, between, all, r);
    }
  }

  lemma AfterNothing(rows: seq<Row>)
    requires Increasing(rows)
    ensures After(rows, 0) == rows
  {
    AfterOfSplit(rows, 0, 0);
  }

  /** When that query fails the polls start from 0: nothing is missing, whatever came between, but they answer again
      every row the view has shown, as soon as they come to it. */
  lemma FailedLatestRepeatsTheView(rows: seq<Row>, between: seq<Row>, events: seq<Event>)
    requires Good(Run(Feed(rows + between, 0, []), events).rows)
    ensures var f := Run(Feed(rows + between, 0, []), events);
            && Complete(Shown(rows), f)
            && forall r :: r in Shown(rows) ==> (r in f.seen <==> r.id <= f.cursor)
  {
    var f0 := Feed(rows + between, 0, []);
    var f := Run(f0, events);
    PollingIsExact(rows + between, 0, events);
    AfterNothing(f.rows);
    ShownAgainIffAboveStart(rows, between, 0, events);
  }

  /** A channel with one message: the view shows it, the second query fails, and the first poll answers it
      again. */
  lemma FailedLatestRepeatsARow()
    ensures var row := Row(1, 1, "");
            Shown([row]) == [row] && Run(Feed([row], 0, []), [Poll]) == Feed([row], 1, [row])
  {
    var row := Row(1, 1, "");
    var f := Feed([row], 0, []);
    MonotoneIsSorted([row]);
    AfterNothing([row]);
    assert Run(f, [Poll]) == Run(Polled(f), []);
  }

  lemma ShownIsStored(rows: seq<Row>, between: seq<Row>, all: seq<Row>, r: Row)
    requires Good(rows) && rows + between <= all && r in Shown(rows)
    ensures r in all
  {
    ShownIsTail(rows);
    assert r in rows;
    var i :| 0 <= i < |rows| && rows[i] == r;
    assert (rows + between)[i] == r && all[i] == r;
  }

  lemma HandOver(rows: seq<Row>, between: seq<Row>, f: Feed, start: int, lo: nat, hi: nat)
    requires Exact(f, start, lo, hi) && Good(f.rows) && rows + between <= f.rows
    requires start == if rows + between == [] then 0 else (rows + between)[|rows + between| - 1].id
    requires var k := if |rows| > VIEW_LIMIT then |rows| - VIEW_LIMIT else 0; Shown(rows) == rows[k..]
    ensures Complete(Shown(rows), f) <==> between == []
    ensures forall r :: r in between ==> r !in Shown(rows) && r !in f.seen
  {
    var k := if |rows| > VIEW_LIMIT then |rows| - VIEW_LIMIT else 0;
    var m, m2 := |rows|, |rows| + |between|;
    CursorIsLast(rows + between, f.rows, start, lo);
    assert Shown(rows) == f.rows[k..m];
    CompleteByNumber(f, k, m, hi);
    StretchesMeet(f.rows, k, m, m2, hi);
    forall r | r in between ensures r !in Shown(rows) && r !in f.seen {
      var i :| 0 <= i < |between| && between[i] == r;
      assert f.rows[m + i] == r;
    }
  }

  lemma CursorIsLast(first: seq<Row>, rows: seq<Row>, start: int, lo: nat)
    requires first <= rows && SplitAt(rows, start, lo) && Increasing(rows)
    requires start == if first == [] then 0 else first[|first| - 1].id
    ensures lo == |first|
  {
    if first != [] {
      assert rows[|first| - 1].id == start;
    }
    if |first| < |rows| {
      assert rows[|first|] in rows;
    }
  }
}
