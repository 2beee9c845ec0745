/** The handler object of internal/http/handlers/live_sse.go: its client table and the methods that fill
    and drain the clients' buffers, each proved to take the steps of the live update system. */
module SseHandler {
  import opened GoStrings
  import opened IngestTypes
  import opened LiveSse
  import opened LiveDelivery

  /** The validation of the query parameters. */
  function Admit(view: string, user: string): Option<View> {
    if view == "" || view == "messages" then Some(Messages)
    else if view == "channels" then Some(Channels)
    else if view == "users" then Some(Users)
    else if view == "user_profile" && user != "" then Some(UserProfile)
    else None
  }

  /** The initial data of a view, from the channel list and the profile the repositories answer. */
  function InitialSubjects(view: View, channels: seq<nat>, profile: Option<nat>): (r: seq<nat>)
    ensures CanFetch(view, r)
    ensures view.Channels? ==> r == channels
    ensures view.UserProfile? ==> |r| == (if profile.Some? then 1 else 0) && forall s :: s in r ==> profile == Some(s)
  {
    match view
    case Channels => channels
    case UserProfile => if profile.Some? then [profile.value] else []
    case Messages => []
    case Users => []
  }

  /** The requests that are accepted. */
  predicate Accepts(view: string, user: string) {
    view == "" || view == "messages" || view == "channels" || view == "users" || (view == "user_profile" && user != "")
  }

  /** What a request asks to be told of: every message, those of a channel, those of a user, or none. */
  predicate AsksFor(view: string, channel: string, user: string, msg: StoredMessage) {
    || view == "" || view == "messages"
    || (view == "channels" && channel == msg.channelName)
    || (view == "user_profile" && user == msg.username)
  }

  /** The initial data a request asks for. */
  function Wanted(view: string, channels: seq<nat>, profile: Option<nat>): seq<nat> {
    if view == "channels" then channels
    else if view == "user_profile" && profile.Some? then [profile.value] else []
  }

  /** What the query parameters select: an accepted request gets the broadcasts and the initial data it asks
      for, and any other request nothing. */
  lemma ViewIsWhatWasAsked(view: string, afterId: int, channel: string, user: string, c: Conn, msg: StoredMessage,
                           channels: seq<nat>, profile: Option<nat>)
    ensures Admit(view, user).Some? <==> Accepts(view, user)
    ensures Admit(view, user).Some? && c.sub == Subscription(Admit(view, user).value, afterId, channel, user) ==>
              && Broadcasted(c, msg)
                 == (if AsksFor(view, channel, user, msg) then Offered(c, NewMessage(msg), true) else c)
              && InitialSubjects(c.sub.view, channels, profile) == Wanted(view, channels, profile)
  {
  }

  lemma BroadcastsAreAsked(view: string, afterId: int, channel: string, user: string)
    requires Admit(view, user).Some?
    ensures forall c: Conn, msg: StoredMessage :: c.sub == Subscription(Admit(view, user).value, afterId, channel, user) ==>
              Broadcasted(c, msg) == if AsksFor(view, channel, user, msg) then Offered(c, NewMessage(msg), true) else c
  {
    forall c: Conn, msg: StoredMessage | c.sub == Subscription(Admit(view, user).value, afterId, channel, user)
      ensures Broadcasted(c, msg) == if AsksFor(view, channel, user, msg) then Offered(c, NewMessage(msg), true) else c
    {
      ViewIsWhatWasAsked(view, afterId, channel, user, c, msg, [], None);
    }
  }

  lemma InitialsAreAsked(view: string, user: string, channels: seq<nat>, profile: Option<nat>)
    requires Admit(view, user).Some?
    ensures InitialSubjects(Admit(view, user).value, channels, profile) == Wanted(view, channels, profile)
  {
  }

  /** The handler's loop over the events it has still to send. */
  function SendAll(c: Conn): (r: Conn)
    ensures r.todo == [] && r.phase == c.phase && r.sub == c.sub && r.since == c.since
    ensures r.backfill == c.backfill && r.seen == c.seen && r.hidden == c.hidden && r.initial == c.initial
    decreases |c.todo|
  {
    if c.todo == [] then c else SendAll(SentNext(c))
  }

  lemma {:induction false} SendAllOffers(c: Conn)
    ensures By(false, SendAll(c).offers) == By(false, c.offers) + c.todo
    decreases |c.todo|
  {
    if c.todo == [] {
      assert By(false, c.offers) + c.todo == By(false, c.offers);
    } else {
      OfferSplits(c, c.todo[0], false);
      SendAllOffers(SentNext(c));
      assert (By(false, c.offers) + [c.todo[0]]) + c.todo[1..] == By(false, c.offers) + c.todo;
    }
  }

  /** `sendBackfill`, undisturbed. */
  function Resume(c: Conn, log: seq<StoredMessage>, deleted: set<nat>, fault: bool): Conn {
    if c.phase.Asking? then SendAll(Asked(c, log, deleted, fault)) else c
  }

  /** `HandleSSE` from the registration to its event loop, undisturbed. */
  function Started(c: Conn, log: seq<StoredMessage>, deleted: set<nat>, fault: bool, subjects: seq<nat>): Conn {
    SendAll(Fetched(Resume(Greeted(c), log, deleted, fault), subjects)).(phase := Live)
  }

  /** How the backfill of a new client ends. */
  function BackfillFor(sub: Subscription, log: seq<StoredMessage>, deleted: set<nat>, fault: bool): Backfill {
    if sub.afterId > 0 then Ask(log, deleted, sub.afterId, fault) else NotAsked
  }

  /** The handler offers a new client the connected status, the backfill and the initial data, in this order. */
  lemma StartedOffers(sub: Subscription, sent: nat, log: seq<StoredMessage>, deleted: set<nat>, fault: bool, subjects: seq<nat>)
    ensures var c := Started(NewConn(sub, sent), log, deleted, fault, subjects);
            && c.sub == sub && c.phase.Live? && c.todo == []
            && By(false, c.offers) == ([Connected] + BackfillEvents(BackfillFor(sub, log, deleted, fault))) + Initials(subjects)
  {
    var c0 := NewConn(sub, sent);
    var c1 := Greeted(c0);
    OfferSplits(c0, Connected, false);
    assert By(false, c1.offers) == [Connected] && c1.todo == [];
    var c2 := Resume(c1, log, deleted, fault);
    if sub.afterId > 0 {
      SendAllOffers(Asked(c1, log, deleted, fault));
    } else {
      assert [Connected] + BackfillEvents(NotAsked) == [Connected];
    }
    SendAllOffers(Fetched(c2, subjects));
  }

  class SSEClient {
    const id: string
    const sub: Subscription
    /** The buffered channel, and what has been taken from it and written to the response. */
    var events: seq<Event>
    var written: seq<Event>
    var done: bool
    ghost var conn: Conn

    ghost predicate Valid()
      reads this
    {
      conn.sub == sub && conn.buffer == events && conn.written == written
    }

    constructor (id: string, sub: Subscription, ghost since: nat)
      ensures Valid() && this.id == id && this.sub == sub && !done && conn == NewConn(sub, since)
    {
      this.id, this.sub := id, sub;
      events, written, done := [], [], false;
      conn := NewConn(sub, since);
    }

    /** `sendEvent`: the non-blocking send. */
    method SendEvent(e: Event, ghost broadcast: bool)
      requires Valid()
      modifies this`events, this`conn
      ensures Valid() && conn == Offered(old(conn), e, broadcast)
      ensures events == if |old(events)| < 100 then old(events) + [e] else old(events)
    {
      if |events| < BUFFER_SIZE {
        events := events + [e];
      }
      conn := Offered(conn, e, broadcast);
    }

    /** The event loop takes one event and writes it. */
    method WriteNext()
      requires Valid() && events != []
      modifies this`events, this`written, this`conn
      ensures Valid() && conn == Drained(old(conn)) && written + events == old(written + events)
    {
      written := written + [events[0]];
      events := events[1..];
      conn := Drained(conn);
    }

    /** Sends a list of events, one after the other. */
    method SendLoop(todo: seq<Event>)
      requires Valid() && conn.todo == todo
      modifies this`events, this`conn
      ensures Valid() && conn == SendAll(old(conn))
    {
      for i := 0 to |todo|
        invariant Valid() && conn.todo == todo[i..] && SendAll(conn) == SendAll(old(conn))
      {
        ghost var before := conn;
        SendEvent(todo[i], false);
        conn := conn.(todo := todo[i + 1..]);
        assert conn == SentNext(before);
      }
    }

    method SendBackfill(log: seq<StoredMessage>, deleted: set<nat>, fault: bool)
      requires Valid() && (conn.phase.Asking? <==> sub.afterId > 0)
      modifies this`events, this`conn
      ensures Valid() && conn == Resume(old(conn), log, deleted, fault)
    {
      if sub.afterId <= 0 {
        return;
      }
      var answer := Ask(log, deleted, sub.afterId, fault);
      conn := Asked(conn, log, deleted, fault);
      match answer {
        case NotAsked =>
        case QueryFailed =>
        case TooLong => SendLoop([Fallback]);
        case Sent(rows) => SendLoop(NewMessages(rows));
      }
    }

    /** What a broadcast does to one client. */
    method Notify(msg: StoredMessage)
      requires Valid()
      modifies this`events, this`conn
      ensures Valid() && conn == Broadcasted(old(conn), msg)
    {
      if sub.view == Messages {
        SendEvent(NewMessage(msg), true);
      } else if sub.view == Channels && sub.channel == msg.channelName {
        SendEvent(NewMessage(msg), true);
      } else if sub.view == UserProfile && sub.user == msg.username {
        SendEvent(NewMessage(msg), true);
      }
    }

    /** The handler from the connected status to its event loop, with no other step in between. */
    method Stream(log: seq<StoredMessage>, deleted: set<nat>, fault: bool, subjects: seq<nat>)
      requires Valid() && conn.phase == Greeting && conn.todo == []
      modifies this`events, this`conn
      ensures Valid() && conn == Started(old(conn), log, deleted, fault, subjects)
    {
      ghost var greeted := Greeted(conn);
      SendEvent(Connected, false);
      conn := greeted;
      SendBackfill(log, deleted, fault);
      conn := Fetched(conn, subjects);
      SendLoop(Initials(subjects));
      conn := conn.(phase := Live);
    }
  }

  class SSEHandler {
    var clients: map<string, SSEClient>

    ghost predicate Valid()
      reads this, clients.Values
    {
      forall id :: id in clients ==> clients[id].id == id && clients[id].Valid()
    }

    /** What the step system calls the clients. */
    ghost function Conns(): map<string, Conn>
      reads this, clients.Values
    {
      map id | id in clients :: clients[id].conn
    }

    constructor ()
      ensures Valid() && clients == map[]
    {
      clients := map[];
    }

    method RegisterClient(client: SSEClient)
      requires Valid() && client.Valid() && client.id !in clients
      modifies this
      ensures Valid() && clients == old(clients)[client.id := client]
      ensures Conns() == old(Conns())[client.id := client.conn]
    {
      clients := clients[client.id := client];
    }

    method UnregisterClient(client: SSEClient)
      requires Valid() && client.Valid() && !client.done
      modifies this, client`done
      ensures Valid() && clients == old(clients) - {client.id} && client.done
      ensures Conns() == old(Conns()) - {client.id}
    {
      clients := clients - {client.id};
      client.done := true;
    }

    /** Every registered client is offered the message once if its view matches, and no other is touched. */
    method BroadcastMessage(msg: StoredMessage)
      requires Valid()
      modifies clients.Values
      ensures Valid()
      ensures forall id :: id in clients ==> clients[id].conn == Broadcasted(old(clients[id].conn), msg)
    {
      var todo := clients.Values;
      while todo != {}
        invariant todo <= clients.Values
        invariant forall client :: client in clients.Values ==> client.Valid()
        invariant forall client :: client in todo ==> client.conn == old(client.conn)
        invariant forall client :: client in clients.Values - todo ==> client.conn == Broadcasted(old(client.conn), msg)
        decreases |todo|
      {
        var client :| client in todo;
        client.Notify(msg);
        todo := todo - {client};
      }
    }

    /** `HandleSSE` up to its event loop, with no other step in between. */
    method HandleSSE(view: string, afterId: int, channel: string, user: string, clientID: string, flushes: bool,
                     log: seq<StoredMessage>, deleted: set<nat>, fault: bool, channels: seq<nat>, profile: Option<nat>,
                     ghost sent: nat)
      returns (r: Option<SSEClient>)
      requires Valid() && clientID !in clients
      modifies this
      ensures Valid() && (r.Some? <==> flushes && Accepts(view, user))
      ensures r.None? ==> clients == old(clients)
      // What the request asks for is what the client is sent, now and by every broadcast later on.
      ensures r.Some? ==>
                && r.value.id == clientID && r.value.sub == r.value.conn.sub && r.value.conn.phase == Live
                && By(false, r.value.conn.offers)
                   == ([Connected] + BackfillEvents(if afterId > 0 then Ask(log, deleted, afterId, fault) else NotAsked))
                      + Initials(Wanted(view, channels, profile))
                && forall c: Conn, msg: StoredMessage :: c.sub == r.value.sub ==>
                     Broadcasted(c, msg) == if AsksFor(view, channel, user, msg) then Offered(c, NewMessage(msg), true) else c
      ensures r.Some? ==>
                var sub := Subscription(Admit(view, user).value, afterId, channel, user);
                var subjects := InitialSubjects(sub.view, channels, profile);
                && fresh(r.value) && clients == old(clients)[clientID := r.value]
                && r.value.conn == Started(NewConn(sub, sent), log, deleted, fault, subjects)
    {
      if !flushes || Admit(view, user).None? {
        return None;
      }
      var sub := Subscription(Admit(view, user).value, afterId, channel, user);
      var client := new SSEClient(clientID, sub, sent);
      RegisterClient(client);
      client.Stream(log, deleted, fault, InitialSubjects(sub.view, channels, profile));
      StartedOffers(sub, sent, log, deleted, fault, InitialSubjects(sub.view, channels, profile));
      BroadcastsAreAsked(view, afterId, channel, user);
      InitialsAreAsked(view, user, channels, profile);
      r := Some(client);
    }
  }

  // ---- The undisturbed handler is one of the interleavings ----

  lemma {:induction false} SendLoopRun(w: World, steps: seq<Step>, id: string, c: Conn) returns (all: seq<Step>)
    requires Valid(w, steps) && id in Run(w, steps).clients && Run(w, steps).clients[id] == c
    ensures Valid(w, all) && Run(w, all) == Put(Run(w, steps), id, SendAll(c))
    decreases |c.todo|
  {
    var w1 := Run(w, steps);
    if c.todo == [] {
      all := steps;
      assert w1.clients[id := c] == w1.clients;
    } else {
      RunAppend(w, steps, SendNext(id));
      all := SendLoopRun(w, steps + [SendNext(id)], id, SentNext(c));
      assert w1.clients[id := SentNext(c)][id := SendAll(c)] == w1.clients[id := SendAll(c)];
    }
  }

  lemma StepOn(w: World, steps: seq<Step>, w0: World, id: string, c: Conn, s: Step, c': Conn)
    requires Valid(w, steps) && Run(w, steps) == Put(w0, id, c)
    requires Enabled(Put(w0, id, c), s) && Next(Put(w0, id, c), s) == Put(Put(w0, id, c), id, c')
    ensures Valid(w, steps + [s]) && Run(w, steps + [s]) == Put(w0, id, c')
  {
    RunAppend(w, steps, s);
    assert w0.clients[id := c][id := c'] == w0.clients[id := c'];
  }

  lemma LoopOn(w: World, steps: seq<Step>, w0: World, id: string, c: Conn) returns (all: seq<Step>)
    requires Valid(w, steps) && Run(w, steps) == Put(w0, id, c)
    ensures Valid(w, all) && Run(w, all) == Put(w0, id, SendAll(c))
  {
    all := SendLoopRun(w, steps, id, c);
    assert w0.clients[id := c][id := SendAll(c)] == w0.clients[id := SendAll(c)];
  }

  lemma ResumeRun(w: World, steps: seq<Step>, w0: World, id: string, c: Conn, fault: bool) returns (all: seq<Step>)
    requires Valid(w, steps) && Run(w, steps) == Put(w0, id, c)
    ensures Valid(w, all) && Run(w, all) == Put(w0, id, Resume(c, w0.log, w0.deleted, fault))
  {
    if c.phase.Asking? {
      var asked := Asked(c, w0.log, w0.deleted, fault);
      StepOn(w, steps, w0, id, c, Query(id, fault), asked);
      all := LoopOn(w, steps + [Query(id, fault)], w0, id, asked);
    } else {
      all := steps;
    }
  }

  /** What `HandleSSE` does undisturbed, from the registration to the event loop, is a run of the system. */
  lemma HandlerIsARun(w: World, steps: seq<Step>, id: string, sub: Subscription, fault: bool, subjects: seq<nat>)
    returns (all: seq<Step>)
    requires Valid(w, steps) && id !in Run(w, steps).clients && CanFetch(sub.view, subjects)
    ensures var w0 := Run(w, steps);
            && Valid(w, all)
            && Run(w, all) == Put(w0, id, Started(NewConn(sub, w0.sent), w0.log, w0.deleted, fault, subjects))
  {
    var w0 := Run(w, steps);
    var c0 := NewConn(sub, w0.sent);
    RunAppend(w, steps, Register(id, sub));
    var steps1 := steps + [Register(id, sub)];
    StepOn(w, steps1, w0, id, c0, Greet(id), Greeted(c0));
    var steps2 := ResumeRun(w, steps1 + [Greet(id)], w0, id, Greeted(c0), fault);
    var c1 := Resume(Greeted(c0), w0.log, w0.deleted, fault);
    StepOn(w, steps2, w0, id, c1, Fetch(id, subjects), Fetched(c1, subjects));
    var steps3 := LoopOn(w, steps2 + [Fetch(id, subjects)], w0, id, Fetched(c1, subjects));
    var c2 := SendAll(Fetched(c1, subjects));
    StepOn(w, steps3, w0, id, c2, GoLive(id), c2.(phase := Live));
    all := steps3 + [GoLive(id)];
  }

  // ---- A backlog of one hundred messages ----

  function Hundred(): (r: seq<StoredMessage>)
    ensures |r| == 100
  {
    seq(100, i requires 0 <= i < 100 => StoredMessage(i + 2, 1, "c", 1, "u", "u", "x", i))
  }

  lemma {:induction false} AfterKeepsAll(log: seq<StoredMessage>, cursor: int)
    requires forall m :: m in log ==> m.id > cursor
    ensures After(log, {}, cursor) == log
    decreases |log|
  {
    if log != [] {
      var n := |log| - 1;
      assert log[n] in log;
      AfterKeepsAll(log[..n], cursor);
      assert log == log[..n] + [log[n]];
    }
  }

  lemma {:induction false} BroadcastsRun(w: World, steps: seq<Step>, n: nat) returns (all: seq<Step>)
    requires Valid(w, steps) && Run(w, steps).clients == map[] && n <= |Run(w, steps).log| - Run(w, steps).sent
    ensures Valid(w, all) && Run(w, all) == Run(w, steps).(sent := Run(w, steps).sent + n)
    decreases n
  {
    if n == 0 {
      all := steps;
    } else {
      RunAppend(w, steps, Broadcast);
      assert BroadcastTo(map[], Run(w, steps).log[Run(w, steps).sent]) == map[];
      all := BroadcastsRun(w, steps + [Broadcast], n - 1);
    }
  }

  /** The backlog stored and broadcast, nobody listening. */
  lemma HundredRun() returns (steps: seq<Step>)
    ensures Valid(Init(), steps) && Run(Init(), steps) == World(Hundred(), {}, 100, map[])
  {
    RunAppend(Init(), [], Commit(Hundred()));
    assert [] + Hundred() == Hundred();
    steps := BroadcastsRun(Init(), [] + [Commit(Hundred())], 100);
  }

  /** A client that resumes behind that backlog. */
  lemma ResumeBehindHundred(id: string, sub: Subscription) returns (steps: seq<Step>)
    requires sub.afterId == 1 && CanFetch(sub.view, [])
    ensures Valid(Init(), steps) && id in Run(Init(), steps).clients
    ensures var w := Run(Init(), steps);
            var c := w.clients[id];
            && w.log == Hundred() && w.sent == 100
            && c.phase.Live? && c.sub == sub && c.todo == [] && c.since == 100
            && c.backfill == Sent(Hundred()) && c.seen == 100 && c.hidden == {}
  {
    var before := HundredRun();
    steps := HandlerIsARun(Init(), before, id, sub, false, []);
    AfterKeepsAll(Hundred(), 1);
  }

  /** The gap is real: a client that resumes after identifier 1 while messages 2 to 101 are stored gets
      no fallback notice and never message 101, though nothing at all happens beside its registration. */
  lemma BacklogOfOneHundredLosesTheLast(id: string)
    ensures exists steps :: Valid(Init(), steps) && id in Run(Init(), steps).clients
              && var c := Run(Init(), steps).clients[id];
                 && c.phase.Live? && c.sub == Subscription(Messages, 1, "", "") && c.backfill == Sent(Hundred())
                 && NewMessage(Hundred()[99]) !in c.written + c.buffer
  {
    var steps := ResumeBehindHundred(id, Subscription(Messages, 1, "", ""));
    LateRowsAreLost(steps, id, 99, 99);
  }

  /** The backfill asks for no channel: a client that follows channel `d` and resumes after identifier 1 is
      offered message 2 of channel `c`, which no broadcast would offer it. */
  lemma BackfillIgnoresTheView(id: string)
    ensures exists steps :: Valid(Init(), steps) && id in Run(Init(), steps).clients
              && var c := Run(Init(), steps).clients[id];
                 && c.sub == Subscription(Channels, 1, "d", "") && !Matches(c.sub, Hundred()[0])
                 && Times(c, NewMessage(Hundred()[0])) == 1
  {
    var steps := ResumeBehindHundred(id, Subscription(Channels, 1, "d", ""));
    OffersAreExact(steps, id, 0);
    assert Hundred()[0].channelName == "c" && "c" != "d";
  }

  // ---- A notice that is lost ----

  function Long(): (r: seq<StoredMessage>)
    ensures |r| == 600
  {
    seq(600, i requires 0 <= i < 600 => StoredMessage(i + 2, 1, "c", 1, "u", "u", "x", i))
  }

  /** Only the buffer and the history of offers have changed, and no notice is in the buffer. */
  predicate Crowded(c: Conn, c': Conn, n: nat) {
    && c'.phase == c.phase && c'.todo == c.todo && c'.written == c.written && c'.sub == c.sub && c'.backfill == c.backfill
    && |c'.buffer| == |c.buffer| + n && Fallback !in c'.buffer
  }

  lemma BroadcastToOne(w0: World, id: string, c: Conn)
    requires w0.clients == map[] && w0.sent < |w0.log| && c.sub.view.Messages?
    ensures Next(Put(w0, id, c), Broadcast)
            == Put(w0.(sent := w0.sent + 1), id, Offered(c, NewMessage(w0.log[w0.sent]), true))
  {
    var c' := Offered(c, NewMessage(w0.log[w0.sent]), true);
    assert BroadcastTo(map[][id := c], w0.log[w0.sent]) == map[][id := c'];
  }

  /** Broadcasts that a client takes in while its handler has not reached the event loop. */
  lemma {:induction false} CrowdingRun(w: World, steps: seq<Step>, w0: World, id: string, c: Conn, n: nat)
    returns (all: seq<Step>, c': Conn)
    requires Valid(w, steps) && Run(w, steps) == Put(w0, id, c) && w0.clients == map[] && w0.sent + n <= |w0.log|
    requires c.sub.view.Messages? && |c.buffer| + n <= BUFFER_SIZE && Fallback !in c.buffer
    ensures Valid(w, all) && Run(w, all) == Put(w0.(sent := w0.sent + n), id, c') && Crowded(c, c', n)
    decreases n
  {
    all, c' := steps, c;
    if n > 0 {
      var c1 := Offered(c, NewMessage(w0.log[w0.sent]), true);
      BroadcastToOne(w0, id, c);
      RunAppend(w, steps, Broadcast);
      all, c' := CrowdingRun(w, steps + [Broadcast], w0.(sent := w0.sent + 1), id, c1, n - 1);
    }
  }

  /** Six hundred messages stored, none broadcast, nobody listening. */
  const LONG_WORLD := World(Long(), {}, 0, map[])

  lemma LongRun()
    ensures var steps := [] + [Commit(Long())]; Valid(Init(), steps) && Run(Init(), steps) == LONG_WORLD
  {
    RunAppend(Init(), [], Commit(Long()));
    assert [] + Long() == Long();
  }

  /** The client has asked and is about to be sent the notice. */
  lemma NoticeRun(id: string) returns (steps: seq<Step>, c: Conn)
    ensures Valid(Init(), steps) && Run(Init(), steps) == Put(LONG_WORLD, id, c)
    ensures c.phase.Backfilling? && c.todo == [Fallback] && c.backfill.TooLong? && c.buffer == [Connected]
    ensures c.sub == Subscription(Messages, 1, "", "") && c.written == []
  {
    var c0 := NewConn(Subscription(Messages, 1, "", ""), 0);
    LongRun();
    steps := [] + [Commit(Long())];
    RunAppend(Init(), steps, Register(id, c0.sub));
    steps := steps + [Register(id, c0.sub)];
    StepOn(Init(), steps, LONG_WORLD, id, c0, Greet(id), Greeted(c0));
    steps := steps + [Greet(id)];
    AfterKeepsAll(Long(), 1);
    c := Asked(Greeted(c0), Long(), {}, false);
    StepOn(Init(), steps, LONG_WORLD, id, Greeted(c0), Query(id, false), c);
    steps := steps + [Query(id, false)];
  }

  /** A client that resumes after identifier 1 behind 600 messages, while 99 broadcasts come in between its
      query and the notice, is live with neither a backfill row nor the notice. */
  lemma CrowdedBufferLosesTheNotice(id: string)
    ensures exists steps :: Valid(Init(), steps) && id in Run(Init(), steps).clients
              && var c := Run(Init(), steps).clients[id];
                 && c.phase.Live? && c.sub == Subscription(Messages, 1, "", "") && c.backfill.TooLong?
                 && Fallback !in c.written + c.buffer
  {
    var asked, c := NoticeRun(id);
    var crowded, c' := CrowdingRun(Init(), asked, LONG_WORLD, id, c, 99);
    var steps := NoticeIsDropped(Init(), crowded, LONG_WORLD.(sent := 99), id, c');
  }

  /** The rest of the handler, from a full buffer on. */
  lemma NoticeIsDropped(w: World, steps: seq<Step>, w0: World, id: string, c: Conn) returns (all: seq<Step>)
    requires Valid(w, steps) && Run(w, steps) == Put(w0, id, c)
    requires c.phase.Backfilling? && c.todo == [Fallback] && c.sub.view.Messages? && |c.buffer| == BUFFER_SIZE
    ensures Valid(w, all) && id in Run(w, all).clients
    ensures var c' := Run(w, all).clients[id];
            && c'.phase.Live? && c'.sub == c.sub && c'.backfill == c.backfill
            && c'.written == c.written && c'.buffer == c.buffer
  {
    var c1 := SentNext(c);
    StepOn(w, steps, w0, id, c, SendNext(id), c1);
    var c2 := Fetched(c1, []);
    StepOn(w, steps + [SendNext(id)], w0, id, c1, Fetch(id, []), c2);
    var fetched := steps + [SendNext(id)] + [Fetch(id, [])];
    StepOn(w, fetched, w0, id, c2, GoLive(id), c2.(phase := Live));
    all := fetched + [GoLive(id)];
  }
}
