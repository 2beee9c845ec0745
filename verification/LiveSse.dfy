/** Live updates of internal/http/handlers/live_sse.go: connections with bounded buffers beside a log of
    stored messages, under every interleaving of commits, deletions, broadcasts, registration, backfill
    and delivery. */
module LiveSse {
  import opened IngestTypes

  const BUFFER_SIZE := 100
  const MAX_BACKFILL := 500

  datatype View = Messages | Channels | Users | UserProfile

  datatype Subscription = Subscription(view: View, afterId: int, channel: string, user: string)

  datatype Event = Connected | Fallback | NewMessage(msg: StoredMessage) | Initial(subject: nat)

  predicate Matches(sub: Subscription, msg: StoredMessage) {
    match sub.view
    case Messages => true
    case Channels => sub.channel == msg.channelName
    case UserProfile => sub.user == msg.username
    case Users => false
  }

  // ---- Selections from the log ----

  predicate SortedLog(log: seq<StoredMessage>) {
    forall i, j :: 0 <= i < j < |log| ==> log[i].id < log[j].id
  }

  /** The stored messages above a cursor that have not been deleted, in identifier order. */
  function After(log: seq<StoredMessage>, deleted: set<nat>, cursor: int): seq<StoredMessage> {
    if log == [] then []
    else
      var last := log[|log| - 1];
      After(log[..|log| - 1], deleted, cursor) + if last.id > cursor && last.id !in deleted then [last] else []
  }

  /** The messages a subscription is sent. */
  function Matching(sub: Subscription, log: seq<StoredMessage>): seq<StoredMessage> {
    if log == [] then []
    else
      var last := log[|log| - 1];
      Matching(sub, log[..|log| - 1]) + if Matches(sub, last) then [last] else []
  }

  function NewMessages(msgs: seq<StoredMessage>): (r: seq<Event>)
    ensures |r| == |msgs|
  {
    seq(|msgs|, i requires 0 <= i < |msgs| => NewMessage(msgs[i]))
  }

  function Initials(subjects: seq<nat>): (r: seq<Event>)
    ensures |r| == |subjects|
  {
    seq(|subjects|, i requires 0 <= i < |subjects| => Initial(subjects[i]))
  }

  // ---- A connection ----

  /** How the backfill query ended. */
  datatype Backfill = NotAsked | QueryFailed | TooLong | Sent(rows: seq<StoredMessage>)

  /** `GetGlobalAfterID` with the backfill limit, and what `sendBackfill` makes of its answer. */
  function Ask(log: seq<StoredMessage>, deleted: set<nat>, afterId: int, fault: bool): Backfill {
    var found := After(log, deleted, afterId);
    var rows := if |found| > MAX_BACKFILL then found[..MAX_BACKFILL] else found;
    if fault then QueryFailed else if |rows| >= MAX_BACKFILL then TooLong else Sent(rows)
  }

  function BackfillEvents(b: Backfill): seq<Event> {
    match b
    case Sent(rows) => NewMessages(rows)
    case TooLong => [Fallback]
    case NotAsked => []
    case QueryFailed => []
  }

  datatype Phase = Greeting | Asking | Backfilling | Starting | Live

  /** An event offered to the buffer: accepted or dropped, by a broadcast or by the handler itself. */
  datatype Offer = Offer(event: Event, accepted: bool, broadcast: bool)

  /** `todo` is what the handler's current loop has still to send. The last six fields are history: all
      offers, the number of messages broadcast before the client registered, the outcome of the backfill
      query, the number of messages stored and the identifiers deleted when it ran, the subjects of the
      initial data, and the number of offers made before the event loop started. */
  datatype Conn = Conn(
    sub: Subscription, phase: Phase, todo: seq<Event>, buffer: seq<Event>, written: seq<Event>,
    offers: seq<Offer>, since: nat, backfill: Backfill, seen: nat, hidden: set<nat>, initial: seq<nat>, startup: nat)

  function NewConn(sub: Subscription, since: nat): Conn {
    Conn(sub, Greeting, [], [], [], [], since, NotAsked, since, {}, [], 0)
  }

  /** `sendEvent`: a send that never blocks. */
  function Push(buffer: seq<Event>, e: Event): seq<Event> {
    if |buffer| < BUFFER_SIZE then buffer + [e] else buffer
  }

  function Offered(c: Conn, e: Event, broadcast: bool): Conn {
    c.(buffer := Push(c.buffer, e),
       offers := c.offers + [Offer(e, |c.buffer| < BUFFER_SIZE, broadcast)],
       startup := if c.phase.Live? then c.startup else |c.offers| + 1)
  }

  function Greeted(c: Conn): Conn {
    Offered(c, Connected, false).(phase := if c.sub.afterId > 0 then Asking else Backfilling)
  }

  function Asked(c: Conn, log: seq<StoredMessage>, deleted: set<nat>, fault: bool): Conn {
    WithBackfill(c, Ask(log, deleted, c.sub.afterId, fault), |log|, deleted)
  }

  function WithBackfill(c: Conn, b: Backfill, seen: nat, hidden: set<nat>): Conn {
    c.(phase := Backfilling, todo := BackfillEvents(b), backfill := b, seen := seen, hidden := hidden)
  }

  function SentNext(c: Conn): Conn
    requires c.todo != []
  {
    Offered(c, c.todo[0], false).(todo := c.todo[1..])
  }

  function Fetched(c: Conn, subjects: seq<nat>): Conn {
    c.(phase := Starting, todo := Initials(subjects), initial := subjects)
  }

  function Drained(c: Conn): Conn
    requires c.buffer != []
  {
    c.(written := c.written + [c.buffer[0]], buffer := c.buffer[1..])
  }

  function Broadcasted(c: Conn, msg: StoredMessage): Conn {
    if Matches(c.sub, msg) then Offered(c, NewMessage(msg), true) else c
  }

  // ---- The system ----

  /** The messages stored so far, the identifiers deleted, the number of messages broadcast, the clients. */
  datatype World = World(log: seq<StoredMessage>, deleted: set<nat>, sent: nat, clients: map<string, Conn>)

  datatype Step =
    | Commit(msgs: seq<StoredMessage>)
    | Delete(ids: set<nat>)
    | Broadcast
    | Register(id: string, sub: Subscription)
    | Greet(id: string)
    | Query(id: string, fault: bool)
    | SendNext(id: string)
    | Fetch(id: string, subjects: seq<nat>)
    | GoLive(id: string)
    | Drain(id: string)
    | Leave(id: string)

  function Init(): World {
    World([], {}, 0, map[])
  }

  predicate InPhase(w: World, id: string, phase: Phase) {
    id in w.clients && w.clients[id].phase == phase
  }

  predicate CanFetch(view: View, subjects: seq<nat>) {
    match view
    case Channels => true
    case UserProfile => |subjects| <= 1
    case Messages => subjects == []
    case Users => subjects == []
  }

  predicate Enabled(w: World, s: Step) {
    match s
    case Commit(msgs) => SortedLog(w.log + msgs)
    case Delete(_) => true
    case Broadcast => w.sent < |w.log|
    case Register(id, _) => id !in w.clients
    case Greet(id) => InPhase(w, id, Greeting)
    case Query(id, _) => InPhase(w, id, Asking)
    case SendNext(id) => id in w.clients && w.clients[id].todo != []
    case Fetch(id, subjects) =>
      InPhase(w, id, Backfilling) && w.clients[id].todo == [] && CanFetch(w.clients[id].sub.view, subjects)
    case GoLive(id) => InPhase(w, id, Starting) && w.clients[id].todo == []
    case Drain(id) => InPhase(w, id, Live) && w.clients[id].buffer != []
    case Leave(id) => InPhase(w, id, Live)
  }

  function Next(w: World, s: Step): World
    requires Enabled(w, s)
  {
    match s
    case Commit(msgs) => w.(log := w.log + msgs)
    case Delete(ids) => w.(deleted := w.deleted + ids)
    case Broadcast =>
      w.(sent := w.sent + 1, clients := BroadcastTo(w.clients, w.log[w.sent]))
    case Register(id, sub) => Put(w, id, NewConn(sub, w.sent))
    case Greet(id) => Put(w, id, Greeted(w.clients[id]))
    case Query(id, fault) => Put(w, id, Asked(w.clients[id], w.log, w.deleted, fault))
    case SendNext(id) => Put(w, id, SentNext(w.clients[id]))
    case Fetch(id, subjects) => Put(w, id, Fetched(w.clients[id], subjects))
    case GoLive(id) => Put(w, id, w.clients[id].(phase := Live))
    case Drain(id) => Put(w, id, Drained(w.clients[id]))
    case Leave(id) => w.(clients := w.clients - {id})
  }

  /** `BroadcastMessage`: every registered client is offered the message, if its view matches. */
  function BroadcastTo(clients: map<string, Conn>, msg: StoredMessage): map<string, Conn> {
    map id | id in clients :: Broadcasted(clients[id], msg)
  }

  function Put(w: World, id: string, c: Conn): World {
    w.(clients := w.clients[id := c])
  }

  predicate Valid(w: World, steps: seq<Step>)
    decreases |steps|
  {
    steps == [] || (Enabled(w, steps[0]) && Valid(Next(w, steps[0]), steps[1..]))
  }

  function Run(w: World, steps: seq<Step>): World
    requires Valid(w, steps)
    decreases |steps|
  {
    if steps == [] then w else Run(Next(w, steps[0]), steps[1..])
  }

  lemma {:induction false} RunAppend(w: World, steps: seq<Step>, s: Step)
    requires Valid(w, steps) && Enabled(Run(w, steps), s)
    ensures Valid(w, steps + [s]) && Run(w, steps + [s]) == Next(Run(w, steps), s)
    decreases |steps|
  {
    if steps == [] {
      assert steps + [s] == [s] && [s][1..] == [];
    } else {
      RunAppend(Next(w, steps[0]), steps[1..], s);
      assert (steps + [s])[1..] == steps[1..] + [s];
    }
  }

  // ---- What each connection keeps ----

  function AcceptedOf(offers: seq<Offer>): seq<Event> {
    if offers == [] then []
    else
      var last := offers[|offers| - 1];
      AcceptedOf(offers[..|offers| - 1]) + if last.accepted then [last.event] else []
  }

  /** The events offered by broadcasts, or those offered by the handler. */
  function By(broadcast: bool, offers: seq<Offer>): seq<Event> {
    if offers == [] then []
    else
      var last := offers[|offers| - 1];
      By(broadcast, offers[..|offers| - 1]) + if last.broadcast == broadcast then [last.event] else []
  }

  /** What the handler sends a client up to and in its current phase. */
  function Script(c: Conn): seq<Event> {
    match c.phase
    case Greeting => []
    case Asking => [Connected]
    case Backfilling => [Connected] + BackfillEvents(c.backfill)
    case Starting => ([Connected] + BackfillEvents(c.backfill)) + Initials(c.initial)
    case Live => ([Connected] + BackfillEvents(c.backfill)) + Initials(c.initial)
  }

  /** What was written to the client, followed by its buffer, is what was accepted. */
  predicate Accounted(c: Conn) {
    |c.buffer| <= BUFFER_SIZE && c.written + c.buffer == AcceptedOf(c.offers)
  }

  /** The handler follows its script, and stops at its end. */
  predicate Scripted(c: Conn) {
    && By(false, c.offers) + c.todo == Script(c)
    && (c.phase.Greeting? || c.phase.Asking? || c.phase.Live? ==> c.todo == [])
    && (c.phase.Greeting? || c.phase.Asking? ==> c.backfill.NotAsked?)
    && (c.phase.Asking? ==> c.sub.afterId > 0)
    && (c.phase.Starting? ==> |c.todo| <= |c.initial|)
    && (c.sub.afterId <= 0 ==> c.backfill.NotAsked?)
    && (c.sub.afterId > 0 && !c.phase.Greeting? && !c.phase.Asking? ==> !c.backfill.NotAsked?)
  }

  /** Broadcasts reach the client from its registration on. */
  predicate Tuned(c: Conn, log: seq<StoredMessage>, sent: nat)
    requires sent <= |log|
  {
    c.since <= sent && By(true, c.offers) == NewMessages(Matching(c.sub, log[c.since..sent]))
  }

  /** The backfill is the log as it was when the query ran. */
  predicate Queried(c: Conn, log: seq<StoredMessage>) {
    c.since <= c.seen <= |log|
    && var found := After(log[..c.seen], c.hidden, c.sub.afterId);
       && (c.backfill.TooLong? ==> |found| >= MAX_BACKFILL)
       && (c.backfill.Sent? ==> c.backfill.rows == found && |found| < MAX_BACKFILL)
  }

  /** Nothing leaves the buffer before the event loop starts, so it then holds the first offers; the
      handler offers nothing more afterwards. */
  predicate StartedFull(c: Conn) {
    && c.startup <= |c.offers|
    && (forall i :: 0 <= i < c.startup ==> (c.offers[i].accepted <==> i < BUFFER_SIZE))
    && (forall i :: c.startup <= i < |c.offers| ==> c.offers[i].broadcast)
    && (!c.phase.Live? ==>
          && c.startup == |c.offers| && c.written == []
          && |c.buffer| == if |c.offers| < BUFFER_SIZE then |c.offers| else BUFFER_SIZE)
  }

  predicate ConnInv(c: Conn, log: seq<StoredMessage>, sent: nat)
    requires sent <= |log|
  {
    Accounted(c) && Scripted(c) && Tuned(c, log, sent) && Queried(c, log) && StartedFull(c)
  }

  /** The invariant, for the connection of one client. */
  predicate Inv(w: World, id: string) {
    && SortedLog(w.log) && w.sent <= |w.log|
    && (id in w.clients ==> ConnInv(w.clients[id], w.log, w.sent))
  }

  lemma OfferKeepsStartedFull(c: Conn, e: Event, broadcast: bool)
    requires StartedFull(c) && (c.phase.Live? ==> broadcast)
    ensures StartedFull(Offered(c, e, broadcast))
  {
  }

  lemma OfferSplits(c: Conn, e: Event, broadcast: bool)
    ensures var c' := Offered(c, e, broadcast);
            && By(broadcast, c'.offers) == By(broadcast, c.offers) + [e]
            && By(!broadcast, c'.offers) == By(!broadcast, c.offers)
  {
    var o := Offer(e, |c.buffer| < BUFFER_SIZE, broadcast);
  }

  lemma MatchingOfNext(sub: Subscription, log: seq<StoredMessage>, since: nat, sent: nat)
    requires since <= sent < |log|
    ensures Matching(sub, log[since..sent + 1])
            == Matching(sub, log[since..sent]) + if Matches(sub, log[sent]) then [log[sent]] else []
  {
    assert log[since..sent + 1][..sent - since] == log[since..sent];
  }

  lemma NewMessagesAppend(msgs: seq<StoredMessage>, m: StoredMessage)
    ensures NewMessages(msgs + [m]) == NewMessages(msgs) + [NewMessage(m)]
  {
  }

  lemma BroadcastKeepsTuned(c: Conn, log: seq<StoredMessage>, sent: nat)
    requires sent < |log| && Tuned(c, log, sent)
    ensures Tuned(Broadcasted(c, log[sent]), log, sent + 1)
  {
    MatchingOfNext(c.sub, log, c.since, sent);
    NewMessagesAppend(Matching(c.sub, log[c.since..sent]), log[sent]);
    OfferSplits(c, NewMessage(log[sent]), true);
  }

  lemma BroadcastKeepsScripted(c: Conn, m: StoredMessage)
    requires Scripted(c)
    ensures Scripted(Broadcasted(c, m))
  {
    OfferSplits(c, NewMessage(m), true);
  }

  lemma BroadcastKeeps(c: Conn, c': Conn, log: seq<StoredMessage>, sent: nat)
    requires sent < |log| && ConnInv(c, log, sent) && c' == Broadcasted(c, log[sent])
    ensures ConnInv(c', log, sent + 1)
  {
    BroadcastKeepsTuned(c, log, sent);
    BroadcastKeepsScripted(c, log[sent]);
    OfferKeepsStartedFull(c, NewMessage(log[sent]), true);
  }

  lemma GreetKeeps(c: Conn, log: seq<StoredMessage>, sent: nat)
    requires sent <= |log| && ConnInv(c, log, sent) && c.phase.Greeting?
    ensures ConnInv(Greeted(c), log, sent)
  {
    OfferKeepsStartedFull(c, Connected, false);
  }

  lemma BackfillKeepsScripted(c: Conn, b: Backfill, seen: nat, hidden: set<nat>)
    requires Scripted(c) && c.phase.Asking? && !b.NotAsked?
    ensures Scripted(WithBackfill(c, b, seen, hidden))
  {
    var done := By(false, c.offers);
    assert done + c.todo == done;
    assert done == [Connected];
  }

  lemma AskKeeps(c: Conn, log: seq<StoredMessage>, sent: nat, deleted: set<nat>, fault: bool)
    requires sent <= |log| && ConnInv(c, log, sent) && c.phase.Asking? && c.sub.afterId > 0
    ensures ConnInv(Asked(c, log, deleted, fault), log, sent)
  {
    BackfillKeepsScripted(c, Ask(log, deleted, c.sub.afterId, fault), |log|, deleted);
    assert log[..|log|] == log;
  }

  lemma SendKeepsScripted(c: Conn)
    requires Scripted(c) && c.todo != []
    ensures Scripted(SentNext(c)) && By(true, SentNext(c).offers) == By(true, c.offers)
  {
    OfferSplits(c, c.todo[0], false);
    var done := By(false, c.offers);
    assert (done + [c.todo[0]]) + c.todo[1..] == done + c.todo;
  }

  lemma SendKeeps(c: Conn, log: seq<StoredMessage>, sent: nat)
    requires sent <= |log| && ConnInv(c, log, sent) && c.todo != []
    ensures ConnInv(SentNext(c), log, sent)
  {
    SendKeepsScripted(c);
    OfferKeepsStartedFull(c, c.todo[0], false);
  }

  lemma FetchKeepsScripted(c: Conn, subjects: seq<nat>)
    requires Scripted(c) && c.phase.Backfilling? && c.todo == []
    ensures Scripted(Fetched(c, subjects))
  {
    assert By(false, c.offers) + c.todo == By(false, c.offers);
  }

  lemma FetchKeeps(c: Conn, log: seq<StoredMessage>, sent: nat, subjects: seq<nat>)
    requires sent <= |log| && ConnInv(c, log, sent) && c.phase.Backfilling? && c.todo == []
    ensures ConnInv(Fetched(c, subjects), log, sent)
  {
    FetchKeepsScripted(c, subjects);
  }

  lemma DrainKeeps(c: Conn, log: seq<StoredMessage>, sent: nat)
    requires sent <= |log| && ConnInv(c, log, sent) && c.phase.Live? && c.buffer != []
    ensures ConnInv(Drained(c), log, sent)
  {
    assert (c.written + [c.buffer[0]]) + c.buffer[1..] == c.written + c.buffer;
  }

  lemma RegisterInv(sub: Subscription, log: seq<StoredMessage>, sent: nat)
    requires sent <= |log|
    ensures ConnInv(NewConn(sub, sent), log, sent)
  {
  }

  lemma CommitKeeps(c: Conn, log: seq<StoredMessage>, sent: nat, msgs: seq<StoredMessage>)
    requires sent <= |log| && ConnInv(c, log, sent)
    ensures ConnInv(c, log + msgs, sent)
  {
    assert (log + msgs)[c.since..sent] == log[c.since..sent];
    assert (log + msgs)[..c.seen] == log[..c.seen];
  }

  /** The step is one of the client's own handler. */
  predicate Moves(s: Step, id: string) {
    (s.Greet? || s.Query? || s.SendNext? || s.Fetch? || s.GoLive? || s.Drain?) && s.id == id
  }

  lemma GoLiveKeeps(c: Conn, log: seq<StoredMessage>, sent: nat)
    requires sent <= |log| && ConnInv(c, log, sent) && c.phase.Starting? && c.todo == []
    ensures ConnInv(c.(phase := Live), log, sent)
  {
  }

  lemma MoveKeeps(w: World, s: Step, id: string)
    requires Inv(w, id) && Enabled(w, s) && Moves(s, id)
    ensures Inv(Next(w, s), id)
  {
    var c := w.clients[id];
    match s
    case Greet(_) => GreetKeeps(c, w.log, w.sent);
    case Query(_, fault) => AskKeeps(c, w.log, w.sent, w.deleted, fault);
    case SendNext(_) => SendKeeps(c, w.log, w.sent);
    case Fetch(_, subjects) => FetchKeeps(c, w.log, w.sent, subjects);
    case GoLive(_) => GoLiveKeeps(c, w.log, w.sent);
    case Drain(_) => DrainKeeps(c, w.log, w.sent);
  }

  lemma CommitKeepsInv(w: World, msgs: seq<StoredMessage>, id: string)
    requires Inv(w, id) && Enabled(w, Commit(msgs))
    ensures Inv(Next(w, Commit(msgs)), id)
  {
    if id in w.clients {
      CommitKeeps(w.clients[id], w.log, w.sent, msgs);
    }
  }

  lemma BroadcastKeepsInv(w: World, id: string)
    requires Inv(w, id) && Enabled(w, Broadcast)
    ensures Inv(Next(w, Broadcast), id)
  {
    if id in w.clients {
      BroadcastKeeps(w.clients[id], Next(w, Broadcast).clients[id], w.log, w.sent);
    }
  }

  lemma RegisterKeepsInv(w: World, newcomer: string, sub: Subscription, id: string)
    requires Inv(w, id) && Enabled(w, Register(newcomer, sub))
    ensures Inv(Next(w, Register(newcomer, sub)), id)
  {
    RegisterInv(sub, w.log, w.sent);
  }

  lemma OthersKeepInv(w: World, s: Step, id: string)
    requires Inv(w, id) && Enabled(w, s) && !Moves(s, id) && !s.Commit? && !s.Broadcast? && !s.Register?
    ensures Inv(Next(w, s), id)
  {
    var w' := Next(w, s);
    assert w'.log == w.log && w'.sent == w.sent;
    assert id in w'.clients ==> id in w.clients && w'.clients[id] == w.clients[id];
  }

  lemma StepKeepsInv(w: World, s: Step, id: string)
    requires Inv(w, id) && Enabled(w, s)
    ensures Inv(Next(w, s), id)
  {
    if s.Commit? {
      CommitKeepsInv(w, s.msgs, id);
    } else if s.Broadcast? {
      BroadcastKeepsInv(w, id);
    } else if s.Register? {
      RegisterKeepsInv(w, s.id, s.sub, id);
    } else if Moves(s, id) {
      MoveKeeps(w, s, id);
    } else {
      OthersKeepInv(w, s, id);
    }
  }

  lemma {:induction false} RunKeepsInv(w: World, steps: seq<Step>, id: string)
    requires Inv(w, id) && Valid(w, steps)
    ensures Inv(Run(w, steps), id)
    decreases |steps|
  {
    if steps != [] {
      StepKeepsInv(w, steps[0], id);
      RunKeepsInv(Next(w, steps[0]), steps[1..], id);
    }
  }
}
