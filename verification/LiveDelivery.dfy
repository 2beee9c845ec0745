/** What a live connection is offered and what it receives, over every run of the system. */
module LiveDelivery {
  import opened GoBuiltins
  import opened IngestTypes
  import opened LiveSse

  // ---- Counting offers ----

  function EventsOf(offers: seq<Offer>): (r: seq<Event>)
    ensures |r| == |offers|
  {
    seq(|offers|, i requires 0 <= i < |offers| => offers[i].event)
  }

  /** How often an event was offered to a connection. */
  function Times(c: Conn, e: Event): nat {
    multiset(EventsOf(c.offers))[e]
  }

  lemma {:induction false} OffersSplit(offers: seq<Offer>)
    ensures multiset(EventsOf(offers)) == multiset(By(false, offers)) + multiset(By(true, offers))
    decreases |offers|
  {
    if offers != [] {
      var n := |offers| - 1;
      OffersSplit(offers[..n]);
      assert EventsOf(offers) == EventsOf(offers[..n]) + [offers[n].event];
    }
  }

  lemma {:induction false} AfterIsExact(log: seq<StoredMessage>, deleted: set<nat>, cursor: int, m: StoredMessage)
    requires SortedLog(log)
    ensures multiset(After(log, deleted, cursor))[m]
            == if m in log && m.id > cursor && m.id !in deleted then 1 else 0
  {
    if log != [] {
      var n := |log| - 1;
      assert log == log[..n] + [log[n]];
      AfterIsExact(log[..n], deleted, cursor, m);
    }
  }

  lemma {:induction false} MatchingIsExact(sub: Subscription, log: seq<StoredMessage>, m: StoredMessage)
    requires SortedLog(log)
    ensures multiset(Matching(sub, log))[m] == if m in log && Matches(sub, m) then 1 else 0
  {
    if log != [] {
      var n := |log| - 1;
      assert log == log[..n] + [log[n]];
      MatchingIsExact(sub, log[..n], m);
    }
  }

  lemma {:induction false} NewMessagesCount(msgs: seq<StoredMessage>, m: StoredMessage)
    ensures multiset(NewMessages(msgs))[NewMessage(m)] == multiset(msgs)[m]
  {
    if msgs != [] {
      var n := |msgs| - 1;
      assert msgs == msgs[..n] + [msgs[n]];
      NewMessagesCount(msgs[..n], m);
      NewMessagesAppend(msgs[..n], msgs[n]);
    }
  }

  lemma InSlice(log: seq<StoredMessage>, lo: nat, hi: nat, k: nat)
    requires SortedLog(log) && lo <= hi <= |log| && k < |log|
    ensures SortedLog(log[lo..hi]) && (log[k] in log[lo..hi] <==> lo <= k < hi)
  {
    if lo <= k < hi {
      assert log[lo..hi][k - lo] == log[k];
    }
  }

  // ---- Every message, every connection ----

  /** The backfill loop has sent the message stored as number `k`. */
  predicate Backfilled(c: Conn, m: StoredMessage, k: nat) {
    && c.backfill.Sent? && NewMessage(m) !in c.todo
    && k < c.seen && m.id > c.sub.afterId && m.id !in c.hidden
  }

  lemma BroadcastCount(c: Conn, log: seq<StoredMessage>, sent: nat, k: nat)
    requires sent <= |log| && SortedLog(log) && Tuned(c, log, sent) && k < |log|
    ensures multiset(By(true, c.offers))[NewMessage(log[k])]
            == if c.since <= k < sent && Matches(c.sub, log[k]) then 1 else 0
  {
    InSlice(log, c.since, sent, k);
    MatchingIsExact(c.sub, log[c.since..sent], log[k]);
    NewMessagesCount(Matching(c.sub, log[c.since..sent]), log[k]);
  }

  lemma BackfillEventsCount(c: Conn, log: seq<StoredMessage>, k: nat)
    requires SortedLog(log) && Queried(c, log) && k < |log|
    ensures multiset(BackfillEvents(c.backfill))[NewMessage(log[k])]
            == if c.backfill.Sent? && k < c.seen && log[k].id > c.sub.afterId && log[k].id !in c.hidden then 1 else 0
  {
    if c.backfill.Sent? {
      InSlice(log, 0, c.seen, k);
      assert log[0..c.seen] == log[..c.seen];
      AfterIsExact(log[..c.seen], c.hidden, c.sub.afterId, log[k]);
      NewMessagesCount(c.backfill.rows, log[k]);
    }
  }

  lemma InitialsAreNoMessages(subjects: seq<nat>, m: StoredMessage)
    ensures multiset(Initials(subjects))[NewMessage(m)] == 0
  {
    assert NewMessage(m) !in Initials(subjects);
  }

  lemma ScriptCount(c: Conn, m: StoredMessage)
    requires Scripted(c)
    ensures multiset(Script(c))[NewMessage(m)] == multiset(BackfillEvents(c.backfill))[NewMessage(m)]
  {
    InitialsAreNoMessages(c.initial, m);
  }

  lemma HandlerCount(c: Conn, log: seq<StoredMessage>, k: nat)
    requires SortedLog(log) && Scripted(c) && Queried(c, log) && k < |log|
    ensures multiset(By(false, c.offers))[NewMessage(log[k])] == if Backfilled(c, log[k], k) then 1 else 0
  {
    var e := NewMessage(log[k]);
    ScriptCount(c, log[k]);
    BackfillEventsCount(c, log, k);
    assert multiset(By(false, c.offers) + c.todo)[e] == multiset(By(false, c.offers))[e] + multiset(c.todo)[e];
    assert e in c.todo <==> multiset(c.todo)[e] > 0;
  }

  /** How often a stored message has been offered to a connection: once by the backfill if it was there,
      undeleted and above the cursor, when a successful and short enough query ran, whatever the view; and
      once by its broadcast, if that came after the registration and the view matches. */
  lemma OffersAreExact(steps: seq<Step>, id: string, k: nat)
    requires Valid(Init(), steps)
    requires var w := Run(Init(), steps); id in w.clients && k < |w.log|
    ensures var w := Run(Init(), steps);
            var c, m := w.clients[id], w.log[k];
            Times(c, NewMessage(m)) == (if Backfilled(c, m, k) then 1 else 0)
                                       + (if c.since <= k < w.sent && Matches(c.sub, m) then 1 else 0)
  {
    RunKeepsInv(Init(), steps, id);
    var w := Run(Init(), steps);
    CountInState(w, id, k);
  }

  /** A stored message is offered by broadcasts exactly once if it was broadcast after the registration and
      the view matches, and never otherwise. */
  lemma BroadcastsAreExact(steps: seq<Step>, id: string, k: nat)
    requires Valid(Init(), steps)
    requires var w := Run(Init(), steps); id in w.clients && k < |w.log|
    ensures var w := Run(Init(), steps);
            var c, m := w.clients[id], w.log[k];
            multiset(By(true, c.offers))[NewMessage(m)] == if c.since <= k < w.sent && Matches(c.sub, m) then 1 else 0
  {
    RunKeepsInv(Init(), steps, id);
    var w := Run(Init(), steps);
    BroadcastCount(w.clients[id], w.log, w.sent, k);
  }

  lemma CountInState(w: World, id: string, k: nat)
    requires Inv(w, id) && id in w.clients && k < |w.log|
    ensures var c, m := w.clients[id], w.log[k];
            Times(c, NewMessage(m)) == (if Backfilled(c, m, k) then 1 else 0)
                                       + (if c.since <= k < w.sent && Matches(c.sub, m) then 1 else 0)
  {
    var c := w.clients[id];
    OffersSplit(c.offers);
    HandlerCount(c, w.log, k);
    BroadcastCount(c, w.log, w.sent, k);
  }

  /** The client resumed from a cursor, its backfill is over, and a broadcast message is one it is to see. */
  predicate Resumed(w: World, id: string, k: nat) {
    && id in w.clients && k < w.sent && k < |w.log|
    && var c, m := w.clients[id], w.log[k];
       && (c.phase.Starting? || c.phase.Live?)
       && 0 < c.sub.afterId < m.id && Matches(c.sub, m)
  }

  /** The backfill query answered, and did not find the message deleted. */
  predicate Answered(c: Conn, m: StoredMessage) {
    c.backfill.Sent? && m.id !in c.hidden
  }

  /** Resuming leaves no gap: a broadcast message is offered unless its broadcast came before the
      registration and the backfill query did not answer for it. It is offered twice exactly when it was
      stored before the query, broadcast after the registration, and answered for. */
  lemma ResumeIsGapFree(steps: seq<Step>, id: string, k: nat)
    requires Valid(Init(), steps) && Resumed(Run(Init(), steps), id, k)
    ensures var w := Run(Init(), steps);
            var c, m := w.clients[id], w.log[k];
            var times := Times(c, NewMessage(m));
            && times <= 2
            && (times >= 1 <==> c.since <= k || Answered(c, m))
            && (times == 2 <==> c.since <= k < c.seen && Answered(c, m))
  {
    RunKeepsInv(Init(), steps, id);
    GapFreeInState(Run(Init(), steps), id, k);
  }

  lemma GapFreeInState(w: World, id: string, k: nat)
    requires Inv(w, id) && Resumed(w, id, k)
    ensures var c, m := w.clients[id], w.log[k];
            var times := Times(c, NewMessage(m));
            && times <= 2
            && (times >= 1 <==> c.since <= k || Answered(c, m))
            && (times == 2 <==> c.since <= k < c.seen && Answered(c, m))
  {
    var c, m := w.clients[id], w.log[k];
    CountInState(w, id, k);
    TodoIsInitial(c);
    assert NewMessage(m) !in c.todo;
    assert c.since <= c.seen;
  }

  lemma TodoIsInitial(c: Conn)
    requires Scripted(c) && (c.phase.Starting? || c.phase.Live?)
    ensures forall e :: e in c.todo ==> e.Initial?
  {
    var done, start := By(false, c.offers), [Connected] + BackfillEvents(c.backfill);
    SuffixWithin(done, c.todo, start, Initials(c.initial));
  }

  lemma SuffixWithin(a: seq<Event>, b: seq<Event>, c: seq<Event>, d: seq<Event>)
    requires a + b == c + d && |b| <= |d|
    ensures forall e :: e in b ==> e in d
    ensures c <= a
  {
    forall e | e in b ensures e in d {
      var i :| 0 <= i < |b| && b[i] == e;
      assert (a + b)[|a| + i] == (c + d)[|a| + i];
    }
    forall i | 0 <= i < |c| ensures c[i] == a[i] {
      assert (a + b)[i] == (c + d)[i];
    }
  }

  // ---- What the buffer let through ----

  /** What was written to a client, followed by what waits in its buffer, is in order exactly what the
      buffer accepted; the broadcasts it was offered are exactly the matching messages broadcast since it
      registered, in order. */
  lemma DeliveryIsAccounted(steps: seq<Step>, id: string)
    requires Valid(Init(), steps) && id in Run(Init(), steps).clients
    ensures var w := Run(Init(), steps);
            var c := w.clients[id];
            && |c.buffer| <= BUFFER_SIZE && c.written + c.buffer == AcceptedOf(c.offers)
            && c.since <= w.sent <= |w.log|
            && By(true, c.offers) == NewMessages(Matching(c.sub, w.log[c.since..w.sent]))
  {
    RunKeepsInv(Init(), steps, id);
  }

  lemma {:induction false} ByLengths(offers: seq<Offer>)
    ensures |By(false, offers)| + |By(true, offers)| == |offers|
    decreases |offers|
  {
    if offers != [] {
      ByLengths(offers[..|offers| - 1]);
    }
  }

  /** Where the offers hold the handler's event number `n`: after as many broadcasts as came before it. */
  function Position(offers: seq<Offer>, n: nat): (p: nat)
    requires n < |By(false, offers)|
    ensures p < |offers| && !offers[p].broadcast && offers[p].event == By(false, offers)[n]
    ensures p == n + |By(true, offers[..p])|
    decreases |offers|
  {
    var last := |offers| - 1;
    if n < |By(false, offers[..last])| then
      var p := Position(offers[..last], n);
      assert offers[..last][..p] == offers[..p];
      p
    else
      ByLengths(offers[..last]);
      last
  }

  lemma {:induction false} AcceptedSource(offers: seq<Offer>, e: Event) returns (i: nat)
    requires e in AcceptedOf(offers)
    ensures i < |offers| && offers[i].accepted && offers[i].event == e
    decreases |offers|
  {
    var last := |offers| - 1;
    if e in AcceptedOf(offers[..last]) {
      i := AcceptedSource(offers[..last], e);
    } else {
      i := last;
    }
  }

  lemma TwoOccurrences(s: seq<Event>, e: Event, i: nat, j: nat)
    requires i < |s| && j < |s| && i != j && s[i] == e == s[j]
    ensures multiset(s)[e] >= 2
  {
    var lo, hi := if i < j then i else j, if i < j then j else i;
    assert s == s[..hi] + [s[hi]] + s[hi + 1..];
    assert s[..hi][lo] == e;
  }

  lemma RowIsOffered(c: Conn, j: nat)
    requires Scripted(c) && (c.phase.Starting? || c.phase.Live?) && c.backfill.Sent? && j < |c.backfill.rows|
    ensures 1 + j < |By(false, c.offers)| && By(false, c.offers)[1 + j] == NewMessage(c.backfill.rows[j])
  {
    var start := [Connected] + BackfillEvents(c.backfill);
    SuffixWithin(By(false, c.offers), c.todo, start, Initials(c.initial));
    assert start[1 + j] == NewMessage(c.backfill.rows[j]);
  }

  /** Row number `j` of the backfill reaches the client exactly if, with the connected status, the rows
      before it and the broadcasts offered before it, it is among the first hundred events. So no row
      from the hundredth on ever does. */
  lemma BackfillDelivery(steps: seq<Step>, id: string, j: nat)
    requires Valid(Init(), steps) && id in Run(Init(), steps).clients
    requires var c := Run(Init(), steps).clients[id];
             (c.phase.Starting? || c.phase.Live?) && c.backfill.Sent? && j < |c.backfill.rows|
    ensures var c := Run(Init(), steps).clients[id];
            && 1 + j < |By(false, c.offers)|
            && var p := Position(c.offers, 1 + j);
               && c.offers[p].event == NewMessage(c.backfill.rows[j])
               && (c.offers[p].accepted <==> 1 + j + |By(true, c.offers[..p])| < 100)
  {
    RunKeepsInv(Init(), steps, id);
    RowFate(Run(Init(), steps).clients[id], j);
  }

  lemma RowFate(c: Conn, j: nat)
    requires Scripted(c) && StartedFull(c)
    requires (c.phase.Starting? || c.phase.Live?) && c.backfill.Sent? && j < |c.backfill.rows|
    ensures && 1 + j < |By(false, c.offers)|
            && var p := Position(c.offers, 1 + j);
               && c.offers[p].event == NewMessage(c.backfill.rows[j])
               && (c.offers[p].accepted <==> 1 + j + |By(true, c.offers[..p])| < BUFFER_SIZE)
  {
    RowIsOffered(c, j);
    var p := Position(c.offers, 1 + j);
    assert p < c.startup;
  }

  /** The backlog found by the query that was made for the client. */
  function Backlog(c: Conn, log: seq<StoredMessage>): seq<StoredMessage>
    requires c.seen <= |log|
  {
    After(log[..c.seen], c.hidden, c.sub.afterId)
  }

  /** A resumed client whose query succeeded got the backlog if it was shorter than the limit, and otherwise
      was sent the fallback notice in its place. The notice reaches the client exactly if, with the
      connected status and the broadcasts offered before it, it is among the first hundred events; a client
      that was offered 99 broadcasts before gets neither rows nor notice. */
  lemma LongBacklogFallsBack(steps: seq<Step>, id: string)
    requires Valid(Init(), steps) && id in Run(Init(), steps).clients
    requires var c := Run(Init(), steps).clients[id];
             (c.phase.Starting? || c.phase.Live?) && c.sub.afterId > 0 && !c.backfill.QueryFailed?
    ensures var w := Run(Init(), steps);
            var c := w.clients[id];
            && c.seen <= |w.log|
            && (c.backfill.TooLong? <==> |Backlog(c, w.log)| >= 500)
            && (c.backfill.Sent? <==> |Backlog(c, w.log)| < 500)
            && (c.backfill.TooLong? ==>
                  && |By(false, c.offers)| > 1
                  && var p := Position(c.offers, 1);
                     && c.offers[p].event == Fallback
                     && (c.offers[p].accepted <==> 1 + |By(true, c.offers[..p])| < 100))
  {
    RunKeepsInv(Init(), steps, id);
    var c := Run(Init(), steps).clients[id];
    if c.backfill.TooLong? {
      FallbackFate(c);
    }
  }

  lemma FallbackFate(c: Conn)
    requires Scripted(c) && StartedFull(c) && (c.phase.Starting? || c.phase.Live?) && c.backfill.TooLong?
    ensures && |By(false, c.offers)| > 1
            && var p := Position(c.offers, 1);
               && c.offers[p].event == Fallback
               && (c.offers[p].accepted <==> 1 + |By(true, c.offers[..p])| < BUFFER_SIZE)
  {
    var start := [Connected] + BackfillEvents(c.backfill);
    SuffixWithin(By(false, c.offers), c.todo, start, Initials(c.initial));
    assert start[1] == Fallback;
    var p := Position(c.offers, 1);
    assert p < c.startup;
  }

  /** The documented promise of no gaps fails for a backlog of more than 99 messages that is too short
      for the fallback: on every run, a missed message beyond the first 99 of the backfill, broadcast
      before the client registered, is neither written to the client nor waiting in its buffer. */
  lemma LateRowsAreLost(steps: seq<Step>, id: string, j: nat, k: nat)
    requires Valid(Init(), steps) && id in Run(Init(), steps).clients
    requires var w := Run(Init(), steps);
             var c := w.clients[id];
             && (c.phase.Starting? || c.phase.Live?) && c.backfill.Sent?
             && 99 <= j < |c.backfill.rows|
             && k < c.since && k < |w.log| && w.log[k] == c.backfill.rows[j]
    ensures var c := Run(Init(), steps).clients[id];
            NewMessage(c.backfill.rows[j]) !in c.written + c.buffer
  {
    RunKeepsInv(Init(), steps, id);
    var w := Run(Init(), steps);
    CountInState(w, id, k);
    LostInState(w.clients[id], j);
  }

  lemma LostInState(c: Conn, j: nat)
    requires Accounted(c) && Scripted(c) && StartedFull(c)
    requires (c.phase.Starting? || c.phase.Live?) && c.backfill.Sent? && BUFFER_SIZE - 1 <= j < |c.backfill.rows|
    requires Times(c, NewMessage(c.backfill.rows[j])) <= 1
    ensures NewMessage(c.backfill.rows[j]) !in c.written + c.buffer
  {
    var e := NewMessage(c.backfill.rows[j]);
    RowFate(c, j);
    var p, events := Position(c.offers, 1 + j), EventsOf(c.offers);
    if e in c.written + c.buffer {
      var i := AcceptedSource(c.offers, e);
      assert events[i] == e == events[p];
      TwoOccurrences(events, e, i, p);
    }
  }

  lemma {:induction false} AfterIsIncreasing(log: seq<StoredMessage>, deleted: set<nat>, cursor: int)
    requires SortedLog(log)
    ensures SortedLog(After(log, deleted, cursor))
    ensures forall m :: m in After(log, deleted, cursor) ==> m.id > cursor && m in log
  {
    if log != [] {
      AfterIsIncreasing(log[..|log| - 1], deleted, cursor);
    }
  }

  lemma {:induction false} FirstAreAccepted(offers: seq<Offer>)
    requires forall i :: 0 <= i < |offers| ==> (offers[i].accepted <==> i < BUFFER_SIZE)
    requires By(true, offers) == []
    ensures By(false, offers) == EventsOf(offers)
    ensures AcceptedOf(offers) == EventsOf(offers)[..Min(|offers|, BUFFER_SIZE)]
    decreases |offers|
  {
    if offers != [] {
      var n := |offers| - 1;
      FirstAreAccepted(offers[..n]);
      assert EventsOf(offers) == EventsOf(offers[..n]) + [offers[n].event];
    }
  }

  lemma {:induction false} AcceptedOfPrefix(offers: seq<Offer>, n: nat)
    requires n <= |offers|
    ensures AcceptedOf(offers[..n]) <= AcceptedOf(offers)
    decreases |offers|
  {
    if n == |offers| {
      assert offers[..n] == offers;
    } else {
      AcceptedOfPrefix(offers[..|offers| - 1], n);
      assert offers[..|offers| - 1][..n] == offers[..n];
    }
  }

  lemma {:induction false} ByPrefix(offers: seq<Offer>, n: nat)
    requires n <= |offers| && forall i :: n <= i < |offers| ==> offers[i].broadcast
    ensures By(false, offers[..n]) == By(false, offers)
    decreases |offers|
  {
    if n == |offers| {
      assert offers[..n] == offers;
    } else {
      ByPrefix(offers[..|offers| - 1], n);
      assert offers[..|offers| - 1][..n] == offers[..n];
    }
  }

  /** With no broadcast before the event loop starts, the client receives the first hundred events of the
      handler's script and no later one of it: of a backfill, exactly its first 99 rows at most, in
      strictly increasing order and above the cursor. */
  lemma QuietBackfill(steps: seq<Step>, id: string)
    requires Valid(Init(), steps) && id in Run(Init(), steps).clients
    requires var c := Run(Init(), steps).clients[id];
             c.phase.Live? && c.backfill.Sent? && c.startup <= |c.offers| && By(true, c.offers[..c.startup]) == []
    ensures var c := Run(Init(), steps).clients[id];
            var rows := c.backfill.rows;
            && [Connected] + NewMessages(rows[..Min(|rows|, 99)]) <= c.written + c.buffer
            && AcceptedOf(c.offers[..c.startup]) == Script(c)[..Min(|Script(c)|, 100)]
            && SortedLog(rows) && forall m :: m in rows ==> m.id > c.sub.afterId
  {
    RunKeepsInv(Init(), steps, id);
    var w := Run(Init(), steps);
    var c := w.clients[id];
    QuietInState(c);
    AfterIsIncreasing(w.log[..c.seen], c.hidden, c.sub.afterId);
  }

  lemma QuietInState(c: Conn)
    requires Accounted(c) && Scripted(c) && StartedFull(c)
    requires c.phase.Live? && c.backfill.Sent? && By(true, c.offers[..c.startup]) == []
    ensures AcceptedOf(c.offers[..c.startup]) == Script(c)[..Min(|Script(c)|, BUFFER_SIZE)]
    ensures [Connected] + NewMessages(c.backfill.rows[..Min(|c.backfill.rows|, BUFFER_SIZE - 1)]) <= c.written + c.buffer
  {
    var first := c.offers[..c.startup];
    FirstAreAccepted(first);
    ByPrefix(c.offers, c.startup);
    assert By(false, c.offers) + c.todo == By(false, c.offers);
    AcceptedOfPrefix(c.offers, c.startup);
    ScriptStart(c);
  }

  lemma ScriptStart(c: Conn)
    requires c.phase.Live? && c.backfill.Sent?
    ensures [Connected] + NewMessages(c.backfill.rows[..Min(|c.backfill.rows|, BUFFER_SIZE - 1)])
            <= Script(c)[..Min(|Script(c)|, BUFFER_SIZE)]
  {
  }
}
