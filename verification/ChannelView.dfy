/** The channel page of internal/http/handlers/channel_view.go: the initial view, polling for newer
    messages, and turning pages back to older ones, while rows are being inserted. */
module ChannelView {
  import opened MessageQueries

  const STREAM_LIMIT := 50
  const VIEW_LIMIT := 50

  // ---- Handlers ----

  datatype Item = Item(id: nat, sentAt: int, text: string)

  function ItemsOf(rows: seq<Row>): (r: seq<Item>)
    ensures |r| == |rows|
  {
    seq(|rows|, i requires 0 <= i < |rows| => Item(rows[i].id, rows[i].sentAt, rows[i].text))
  }

  method MessagesToDTOs(messages: seq<Row>) returns (items: array<Item>)
    ensures fresh(items) && items[..] == ItemsOf(messages)
    ensures items.Length == |messages| && forall k :: 0 <= k < |messages| ==>
              items[k].id == messages[k].id && items[k].sentAt == messages[k].sentAt && items[k].text == messages[k].text
  {
    items := new Item[|messages|](i => Item(0, 0, ""));
    for i := 0 to |messages|
      invariant items[..i] == ItemsOf(messages)[..i]
    {
      items[i] := Item(messages[i].id, messages[i].sentAt, messages[i].text);
    }
  }

  /** The reversal of the items for display, oldest first. */
  method ReverseForDisplay(items: array<Item>)
    modifies items
    ensures forall k :: 0 <= k < items.Length ==> items[k] == old(items[items.Length - 1 - k])
  {
    var i, j := 0, items.Length - 1;
    while i < j
      invariant 0 <= i <= j + 1 && j == items.Length - 1 - i
      invariant forall k :: 0 <= k < i ==> items[k] == old(items[items.Length - 1 - k])
      invariant forall k :: j < k < items.Length ==> items[k] == old(items[items.Length - 1 - k])
      invariant forall k :: i <= k <= j ==> items[k] == old(items[k])
    {
      items[i], items[j] := items[j], items[i];
      i, j := i + 1, j - 1;
    }
  }

  /** The initial view: the recent rows as one query finds them, and the latest identifier as a second
      query finds it, or 0 when that query fails, for its error is dropped. A failure of the first query
      ends the request. */
  method HandleChannelView(atRecent: seq<Row>, recentFails: bool, atLatest: seq<Row>, latestFails: bool)
    returns (ok: bool, items: array<Item>, latestId: nat)
    ensures fresh(items) && ok == !recentFails
    ensures items[..] == if recentFails then [] else ItemsOf(Reversed(GetRecent(atRecent, VIEW_LIMIT)))
    ensures ok ==> latestId == if latestFails then 0 else GetLatestID(atLatest)
  {
    if recentFails {
      items := new Item[0];
      return false, items, 0;
    }
    ok := true;
    var messages := GetRecent(atRecent, VIEW_LIMIT);
    latestId := 0;
    if !latestFails {
      latestId := GetLatestID(atLatest);
    }
    items := MessagesToDTOs(messages);
    ReverseForDisplay(items);
  }

  function NextCursor(cursor: int, page: seq<Row>): int {
    if page == [] then cursor else page[|page| - 1].id
  }

  method HandleMessageStream(rows: seq<Row>, afterId: int) returns (items: array<Item>, latestId: int)
    ensures fresh(items) && items[..] == ItemsOf(GetAfterID(rows, afterId, STREAM_LIMIT))
    ensures latestId == NextCursor(afterId, GetAfterID(rows, afterId, STREAM_LIMIT))
    ensures items.Length == if |After(rows, afterId)| < 50 then |After(rows, afterId)| else 50
  {
    QueriesAreFull(rows, afterId, STREAM_LIMIT);
    var messages := GetAfterID(rows, afterId, STREAM_LIMIT);
    items := MessagesToDTOs(messages);
    latestId := afterId;
    if items.Length > 0 {
      latestId := items[items.Length - 1].id;
    }
  }

  // ---- Polling ----

  /** The rows of the channel, a poller's cursor, and everything the poller has been answered. */
  datatype Feed = Feed(rows: seq<Row>, cursor: int, seen: seq<Row>)

  datatype Event = Inserted(more: seq<Row>) | Poll

  function Polled(f: Feed): Feed {
    var page := GetAfterID(f.rows, f.cursor, STREAM_LIMIT);
    Feed(f.rows, NextCursor(f.cursor, page), f.seen + page)
  }

  function Next(f: Feed, e: Event): Feed {
    match e
    case Inserted(more) => f.(rows := f.rows + more)
    case Poll => Polled(f)
  }

  function Run(f: Feed, events: seq<Event>): Feed
    decreases |events|
  {
    if events == [] then f else Run(Next(f, events[0]), events[1..])
  }

  predicate Good(rows: seq<Row>) {
    Increasing(rows) && Monotone(rows)
  }

  /** What was answered is the stretch of rows numbered `lo` to `hi`, from the starting cursor to the
      current one. */
  predicate Exact(f: Feed, start: int, lo: nat, hi: nat) {
    && SplitAt(f.rows, start, lo) && SplitAt(f.rows, f.cursor, hi) && lo <= hi
    && f.seen == f.rows[lo..hi]
    && f.cursor == if lo == hi then start else f.rows[hi - 1].id
  }

  lemma GoodPrefix(rows: seq<Row>, more: seq<Row>)
    requires Good(rows + more)
    ensures Good(rows)
  {
    assert (rows + more)[0..|rows|] == rows;
  }

  lemma SplitStays(rows: seq<Row>, more: seq<Row>, cursor: int, n: nat, top: nat)
    requires Increasing(rows + more) && top < |rows| && cursor <= rows[top].id && SplitAt(rows, cursor, n)
    ensures SplitAt(rows + more, cursor, n)
  {
    var all := rows + more;
    assert all[top] == rows[top];
    forall i | 0 <= i < |all| ensures i < n <==> all[i].id <= cursor {
      if i < |rows| {
        assert all[i] == rows[i];
      } else {
        assert all[top].id < all[i].id;
      }
    }
  }

  lemma InsertKeepsExact(f: Feed, start: int, lo: nat, hi: nat, more: seq<Row>) returns (lo': nat, hi': nat)
    requires Exact(f, start, lo, hi) && Increasing(f.rows + more)
    ensures Exact(f.(rows := f.rows + more), start, lo', hi')
  {
    if lo == hi {
      lo' := Rank(f.rows + more, start);
      hi' := lo';
      RankSplits(f.rows + more, start);
    } else {
      lo', hi' := lo, hi;
      SplitStays(f.rows, more, f.cursor, hi, hi - 1);
      SplitStays(f.rows, more, start, lo, hi - 1);
      assert (f.rows + more)[lo..hi] == f.rows[lo..hi];
    }
  }

  lemma SplitAtRow(rows: seq<Row>, i: nat)
    requires Increasing(rows) && i < |rows|
    ensures SplitAt(rows, rows[i].id, i + 1)
  {
  }

  function PageEnd(rows: seq<Row>, from: nat): nat
    requires from <= |rows|
  {
    if from + STREAM_LIMIT < |rows| then from + STREAM_LIMIT else |rows|
  }

  /** The next rows have been answered, and the cursor moved to the last of them. */
  lemma PollAdvances(f: Feed, hi: nat)
    requires Good(f.rows) && SplitAt(f.rows, f.cursor, hi)
    ensures var end := PageEnd(f.rows, hi);
            Polled(f) == Feed(f.rows, if hi == end then f.cursor else f.rows[end - 1].id, f.seen + f.rows[hi..end])
  {
    AfterPage(f.rows, f.cursor, hi, STREAM_LIMIT);
    assert Take(f.rows[hi..], STREAM_LIMIT) == f.rows[hi..PageEnd(f.rows, hi)];
  }

  lemma PollKeepsExact(f: Feed, start: int, lo: nat, hi: nat)
    requires Exact(f, start, lo, hi) && Good(f.rows)
    ensures Exact(Polled(f), start, lo, PageEnd(f.rows, hi))
  {
    PollAdvances(f, hi);
    var end := PageEnd(f.rows, hi);
    if hi < end {
      SplitAtRow(f.rows, end - 1);
    }
  }

  lemma {:induction false} RowsOnlyGrow(f: Feed, events: seq<Event>)
    ensures f.rows <= Run(f, events).rows
    decreases |events|
  {
    if events != [] {
      RowsOnlyGrow(Next(f, events[0]), events[1..]);
    }
  }

  lemma GoodBefore(f: Feed, events: seq<Event>)
    requires Good(Run(f, events).rows)
    ensures Good(f.rows)
  {
    RowsOnlyGrow(f, events);
    var all := Run(f, events).rows;
    assert all == f.rows + all[|f.rows|..];
    GoodPrefix(f.rows, all[|f.rows|..]);
  }

  lemma {:induction false} RunKeepsExact(f: Feed, start: int, lo: nat, hi: nat, events: seq<Event>)
    returns (lo': nat, hi': nat)
    requires Exact(f, start, lo, hi) && Good(Run(f, events).rows)
    ensures Exact(Run(f, events), start, lo', hi')
    decreases |events|
  {
    lo', hi' := lo, hi;
    if events != [] {
      var f1 := Next(f, events[0]);
      GoodBefore(f, events);
      GoodBefore(f1, events[1..]);
      match events[0] {
        case Inserted(more) => lo', hi' := InsertKeepsExact(f, start, lo, hi, more);
        case Poll =>
          hi' := PageEnd(f.rows, hi);
          PollKeepsExact(f, start, lo, hi);
      }
      lo', hi' := RunKeepsExact(f1, start, lo', hi', events[1..]);
    }
  }

  lemma ExactAtFirst(rows: seq<Row>, start: int)
    requires Increasing(rows)
    ensures Exact(Feed(rows, start, []), start, Rank(rows, start), Rank(rows, start))
  {
    RankSplits(rows, start);
  }

  /** Polling is exact: whatever is inserted between the polls, while times follow identifiers the answers
      joined together are a prefix of the rows after the starting cursor, namely those up to the current
      one; none is missing and none comes twice. */
  lemma PollingIsExact(rows: seq<Row>, start: int, events: seq<Event>)
    requires Good(Run(Feed(rows, start, []), events).rows)
    ensures var f := Run(Feed(rows, start, []), events);
            && f.seen <= After(f.rows, start)
            && forall r :: r in After(f.rows, start) ==> (r in f.seen <==> r.id <= f.cursor)
  {
    GoodBefore(Feed(rows, start, []), events);
    ExactAtFirst(rows, start);
    var lo, hi := RunKeepsExact(Feed(rows, start, []), start, Rank(rows, start), Rank(rows, start), events);
    ExactIsPrefix(Run(Feed(rows, start, []), events), start, lo, hi);
  }

  lemma ExactIsPrefix(f: Feed, start: int, lo: nat, hi: nat)
    requires Exact(f, start, lo, hi) && Increasing(f.rows)
    ensures f.seen <= After(f.rows, start)
    ensures forall r :: r in After(f.rows, start) ==> (r in f.seen <==> r.id <= f.cursor)
  {
    AfterOfSplit(f.rows, start, lo);
    forall r | r in f.rows[lo..] ensures r in f.seen <==> r.id <= f.cursor {
      var i :| lo <= i < |f.rows| && f.rows[i] == r;
      InStretch(f.rows, lo, hi, i);
    }
  }

  lemma InStretch(rows: seq<Row>, lo: nat, hi: nat, i: nat)
    requires Increasing(rows) && lo <= hi <= |rows| && i < |rows|
    ensures rows[i] in rows[lo..hi] <==> lo <= i < hi
  {
    if lo <= i < hi {
      assert rows[lo..hi][i - lo] == rows[i];
    }
  }

  function Polls(f: Feed, n: nat): Feed
    decreases n
  {
    if n == 0 then f else Polled(Polls(f, n - 1))
  }

  lemma {:induction false} PollsAdvance(f: Feed, start: int, lo: nat, hi: nat, n: nat) returns (end: nat)
    requires Exact(f, start, lo, hi) && Good(f.rows)
    ensures Exact(Polls(f, n), start, lo, end) && Polls(f, n).rows == f.rows
    ensures end == |f.rows| || end == hi + n * STREAM_LIMIT
    decreases n
  {
    end := hi;
    if n > 0 {
      end := PollsAdvance(f, start, lo, hi, n - 1);
      PollKeepsExact(Polls(f, n - 1), start, lo, end);
      end := PageEnd(f.rows, end);
    }
  }

  /** Without inserts, as many polls as the rows after the starting cursor fill pages answer all of them. */
  lemma PollsReachTheEnd(rows: seq<Row>, start: int, n: nat)
    requires Good(rows) && |After(rows, start)| <= n * STREAM_LIMIT
    ensures Polls(Feed(rows, start, []), n).seen == After(rows, start)
  {
    var lo := Rank(rows, start);
    ExactAtFirst(rows, start);
    AfterOfSplit(rows, start, lo);
    var end := PollsAdvance(Feed(rows, start, []), start, lo, lo, n);
  }

  lemma SortAppend(rows: seq<Row>, r: Row)
    ensures Sort(rows + [r]) == Insert(Sort(rows), r)
  {
    assert (rows + [r])[..|rows|] == rows;
  }

  lemma SortTwo(late: Row, early: Row)
    requires Less(early, late)
    ensures Sort([late, early]) == [early, late]
  {
    SortAppend([], late);
    SortAppend([late], early);
    assert [late, early] == [late] + [early] && [late] == [] + [late];
    assert [late][..0] == [];
  }

  lemma TwoRows(late: Row, early: Row)
    requires late.id == 1 && early.id == 2 && late.sentAt > early.sentAt
    ensures After([late, early], 0) == [late, early] && After([late, early], 1) == [early]
  {
    AfterOfSplit([late, early], 0, 0);
    AfterOfSplit([late, early], 1, 1);
  }

  /** When a time goes back, the poller is answered a row twice: here the second row, in both polls. */
  lemma PollingRepeatsARow()
    ensures var late, early := Row(1, 10, ""), Row(2, 5, "");
            Polls(Feed([late, early], 0, []), 2).seen == [early, late, early]
  {
    var late, early := Row(1, 10, ""), Row(2, 5, "");
    var f := Feed([late, early], 0, []);
    TwoRows(late, early);
    SortTwo(late, early);
    MonotoneIsSorted([early]);
    assert Polled(f) == Feed([late, early], 1, [early, late]);
    assert Polls(f, 1) == Polled(f);
  }
}
