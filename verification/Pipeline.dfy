/** The ingestion pipeline of internal/ingestion/pipeline.go: a bounded queue, one consumer with a batch
    and a flush timer, and a store that may fail. */
module Pipeline {
  import opened IngestTypes

  datatype Config = Config(batchSize: int, flushTimeout: int, bufferSize: int) {
    predicate Positive() {
      batchSize > 0 && flushTimeout > 0 && bufferSize > 0
    }
  }

  const DEFAULTS := Config(100, 100_000_000, 10000)

  /** The defaults `NewPipeline` puts in for values that are not positive. */
  function Normalize(cfg: Config): (r: Config)
    ensures r.Positive()
    ensures cfg.Positive() ==> r == cfg
  {
    Config(if cfg.batchSize <= 0 then DEFAULTS.batchSize else cfg.batchSize,
           if cfg.flushTimeout <= 0 then DEFAULTS.flushTimeout else cfg.flushTimeout,
           if cfg.bufferSize <= 0 then DEFAULTS.bufferSize else cfg.bufferSize)
  }

  /** `Ticked` is a timer that went off and whose tick nobody has received yet. */
  datatype Timer = NoTimer | Armed(deadline: int) | Ticked(deadline: int) | Spent

  /** Where a call of `flush` stands: before its critical section, with the batch taken, inside
      `StoreBatch`, or done. */
  datatype Flush = Begin | Taken(batch: seq<Message>) | Storing(batch: seq<Message>) | Done

  /** Where the consumer goroutine stands; `Flushing(Done)` is about to reset the timer. */
  datatype Loop = NotStarted | Waiting | Received(msg: Message) | Flushing(flush: Flush) | Exited

  /** Where the one call of `Stop` that does the work stands. */
  datatype Stop = NotCalled | Closing | Joining | Draining(flush: Flush) | Returned

  datatype Outcome = Pending | Stored | Lost

  /** A batch handed to `StoreBatch`, and what came of it. */
  datatype Attempt = Attempt(batch: seq<Message>, outcome: Outcome)

  /** The pipeline, its two goroutines, the clock, and what has been observed so far: the messages
      accepted by `Ingest`, the batches handed to the store, the refused messages and the recorded drops. */
  datatype State = State(
    cfg: Config,
    queue: seq<Message>, batch: seq<Message>, timer: Timer, running: bool, done: bool, cancelled: bool,
    loop: Loop, stop: Stop, now: int,
    accepted: seq<Message>, attempts: seq<Attempt>, refused: nat, drops: nat, since: int)

  function Init(cfg: Config): State {
    State(Normalize(cfg), [], [], NoTimer, false, false, false, NotStarted, NotCalled, 0, [], [], 0, 0, 0)
  }

  /** Which goroutine runs `flush`. */
  datatype Who = Consumer | Stopper

  datatype Event =
    | Start
    | Ingest(msg: Message)
    | Receive
    | Append
    | Tick
    | Exit
    | TakeBatch(who: Who)
    | HandOver(who: Who)
    | Result(who: Who, ok: bool)
    | ResetTimer
    | StopCall
    | CloseDone
    | JoinLoop
    | StopReturn
    | Fire
    | Advance(elapsed: nat)
    | Cancel

  /** The flush a goroutine is in, if any. */
  function FlushOf(s: State, who: Who): Flush {
    match who
    case Consumer => if s.loop.Flushing? then s.loop.flush else Done
    case Stopper => if s.stop.Draining? then s.stop.flush else Done
  }

  function WithFlush(s: State, who: Who, f: Flush): State {
    match who
    case Consumer => s.(loop := Flushing(f))
    case Stopper => s.(stop := Draining(f))
  }

  predicate Enabled(s: State, e: Event) {
    match e
    case Start => s.running || s.loop.NotStarted?
    case Ingest(_) => true
    case Receive => s.loop.Waiting? && s.queue != []
    case Append => s.loop.Received?
    case Tick => s.loop.Waiting? && s.timer.Ticked?
    case Exit => s.loop.Waiting? && (s.done || s.cancelled)
    case TakeBatch(who) => FlushOf(s, who).Begin?
    case HandOver(who) => FlushOf(s, who).Taken?
    case Result(who, _) => FlushOf(s, who).Storing?
    case ResetTimer => s.loop == Flushing(Done)
    case StopCall => true
    case CloseDone => s.stop.Closing?
    case JoinLoop => s.stop.Joining? && s.loop.Exited?
    case StopReturn => s.stop == Draining(Done)
    case Fire => s.timer.Armed? && s.timer.deadline <= s.now
    case Advance(_) => true
    case Cancel => true
  }

  /** One atomic step: a critical section of the mutex, a channel operation, or a timer event. */
  function Next(s: State, e: Event): State
    requires Enabled(s, e)
  {
    match e
    case Start =>
      if s.running then s
      else s.(running := true, timer := Armed(s.now + s.cfg.flushTimeout), loop := Waiting)
    case Ingest(m) =>
      if |s.queue| < s.cfg.bufferSize then s.(queue := s.queue + [m], accepted := s.accepted + [m])
      else s.(refused := s.refused + 1, drops := s.drops + 1)
    case Receive => s.(queue := s.queue[1..], loop := Received(s.queue[0]))
    case Append =>
      var batch := s.batch + [s.loop.msg];
      s.(batch := batch,
         since := if s.batch == [] then s.now else s.since,
         loop := if |batch| >= s.cfg.batchSize then Flushing(Begin) else Waiting)
    case Tick => s.(timer := Spent, loop := Flushing(Begin))
    case Exit => s.(loop := Exited)
    case TakeBatch(who) =>
      if s.batch == [] then WithFlush(s, who, Done)
      else WithFlush(s.(batch := []), who, Taken(s.batch))
    case HandOver(who) =>
      var b := FlushOf(s, who).batch;
      WithFlush(s.(attempts := s.attempts + [Attempt(b, Pending)]), who, Storing(b))
    case Result(who, ok) =>
      var b := FlushOf(s, who).batch;
      WithFlush(s.(attempts := Settle(s.attempts, ok), drops := if ok then s.drops else s.drops + |b|), who, Done)
    case ResetTimer => s.(timer := Armed(s.now + s.cfg.flushTimeout), loop := Waiting)
    case StopCall => if s.running then s.(running := false, stop := Closing) else s
    case CloseDone => s.(done := true, stop := Joining)
    case JoinLoop => s.(stop := Draining(Begin))
    case StopReturn => s.(stop := Returned)
    case Fire => s.(timer := Ticked(s.timer.deadline))
    case Advance(elapsed) => s.(now := s.now + elapsed)
    case Cancel => s.(cancelled := true)
  }

  /** The outcome of the last batch handed over becomes known. */
  function Settle(attempts: seq<Attempt>, ok: bool): seq<Attempt> {
    if attempts == [] then []
    else
      var last := |attempts| - 1;
      attempts[last := attempts[last].(outcome := if ok then Stored else Lost)]
  }

  ghost predicate Valid(s: State, events: seq<Event>)
    decreases |events|
  {
    events == [] || (Enabled(s, events[0]) && Valid(Next(s, events[0]), events[1..]))
  }

  ghost function Run(s: State, events: seq<Event>): State
    requires Valid(s, events)
    decreases |events|
  {
    if events == [] then s else Run(Next(s, events[0]), events[1..])
  }

  // ---- What every step keeps ----

  /** The messages handed to the store, in order. */
  function Delivered(attempts: seq<Attempt>): seq<Message> {
    if attempts == [] then [] else Delivered(attempts[..|attempts| - 1]) + attempts[|attempts| - 1].batch
  }

  /** The number of messages in batches the store refused. */
  function LostCount(attempts: seq<Attempt>): nat {
    if attempts == [] then 0
    else
      var last := attempts[|attempts| - 1];
      LostCount(attempts[..|attempts| - 1]) + if last.outcome.Lost? then |last.batch| else 0
  }

  /** A batch taken by a flush and not handed over yet. */
  function InHand(s: State, who: Who): seq<Message> {
    var f := FlushOf(s, who);
    if f.Taken? then f.batch else []
  }

  /** The message received and not yet in the batch. */
  function InFlight(s: State): seq<Message> {
    if s.loop.Received? then [s.loop.msg] else []
  }

  /** Everything accepted and not handed over yet, oldest first. */
  function Held(s: State): seq<Message> {
    InHand(s, Consumer) + (InHand(s, Stopper) + Waitlist(s))
  }

  /** The part of it that no flush has taken. */
  function Waitlist(s: State): seq<Message> {
    s.batch + (InFlight(s) + s.queue)
  }

  predicate StoringAny(s: State) {
    FlushOf(s, Consumer).Storing? || FlushOf(s, Stopper).Storing?
  }

  ghost predicate SizeOk(s: State, f: Flush) {
    f.Taken? || f.Storing? ==> 1 <= |f.batch| <= s.cfg.batchSize
  }

  /** Conservation and first-in first-out order. */
  ghost predicate Conserved(s: State) {
    s.accepted == Delivered(s.attempts) + Held(s)
  }

  ghost predicate Sizes(s: State) {
    && |s.queue| <= s.cfg.bufferSize
    && |s.batch| <= s.cfg.batchSize
    && (s.loop.Waiting? || s.loop.Received? || s.loop.Exited? ==> |s.batch| < s.cfg.batchSize)
    && (forall who :: SizeOk(s, FlushOf(s, who)))
    && (forall a :: a in s.attempts ==> 1 <= |a.batch| <= s.cfg.batchSize)
  }

  ghost predicate Outcomes(s: State) {
    && s.drops == s.refused + LostCount(s.attempts)
    && (forall k :: 0 <= k < |s.attempts| ==> (s.attempts[k].outcome.Pending? <==> k == |s.attempts| - 1 && StoringAny(s)))
    && (forall who :: FlushOf(s, who).Storing? ==>
          s.attempts != [] && s.attempts[|s.attempts| - 1].batch == FlushOf(s, who).batch)
  }

  /** The goroutines take turns: `Stop` flushes only after the consumer has left. */
  ghost predicate Control(s: State) {
    && s.cfg.Positive()
    && (s.running ==> !s.loop.NotStarted? && s.stop.NotCalled?)
    && (s.loop.NotStarted? ==> s.stop.NotCalled? && s.batch == [])
    && (!s.loop.NotStarted? ==> !s.timer.NoTimer?)
    && (s.stop.Draining? || s.stop.Returned? ==> s.loop.Exited?)
    && (s.stop.Draining? && !s.stop.flush.Begin? ==> s.batch == [])
    && (s.stop.Returned? ==> s.batch == [])
    && (s.loop.Flushing? && !s.loop.flush.Begin? ==> s.batch == [])
  }

  /** The timer guards the oldest message of the batch. */
  ghost predicate Deadlines(s: State) {
    && (s.loop.Waiting? || s.loop.Received? ==> s.timer.Armed? || s.timer.Ticked?)
    && (s.timer.Armed? || s.timer.Ticked? ==> s.timer.deadline <= s.now + s.cfg.flushTimeout)
    && ((s.timer.Armed? || s.timer.Ticked?) && s.batch != [] ==> s.timer.deadline <= s.since + s.cfg.flushTimeout)
    && (s.timer.Ticked? ==> s.timer.deadline <= s.now)
    && (s.batch != [] ==> s.since <= s.now)
  }

  ghost predicate Inv(s: State) {
    Control(s) && Sizes(s) && Outcomes(s) && Deadlines(s) && Conserved(s)
  }

  lemma DeliveredOfAppend(attempts: seq<Attempt>, a: Attempt)
    ensures Delivered(attempts + [a]) == Delivered(attempts) + a.batch
    ensures LostCount(attempts + [a]) == LostCount(attempts) + if a.outcome.Lost? then |a.batch| else 0
  {
    assert (attempts + [a])[..|attempts|] == attempts;
  }

  lemma SettleKeepsDelivered(attempts: seq<Attempt>, ok: bool)
    requires attempts != [] && attempts[|attempts| - 1].outcome.Pending?
    ensures Delivered(Settle(attempts, ok)) == Delivered(attempts)
    ensures LostCount(Settle(attempts, ok)) == LostCount(attempts) + if ok then 0 else |attempts[|attempts| - 1].batch|
  {
    var settled := Settle(attempts, ok);
    assert settled[..|settled| - 1] == attempts[..|attempts| - 1];
  }

  lemma StepKeepsControl(s: State, e: Event)
    requires Control(s) && Enabled(s, e)
    ensures Control(Next(s, e))
  {
  }

  lemma StepKeepsSizes(s: State, e: Event)
    requires Control(s) && Sizes(s) && Enabled(s, e)
    ensures Sizes(Next(s, e))
  {
    var t := Next(s, e);
    forall who ensures SizeOk(t, FlushOf(t, who)) {
      StepKeepsFlushSize(s, e, who);
    }
    AttemptSizes(s, e);
  }

  lemma StepKeepsFlushSize(s: State, e: Event, who: Who)
    requires Sizes(s) && Enabled(s, e)
    ensures var t := Next(s, e); SizeOk(t, FlushOf(t, who))
  {
    assert SizeOk(s, FlushOf(s, who));
  }

  lemma AttemptSizes(s: State, e: Event)
    requires Sizes(s) && Enabled(s, e)
    ensures var t := Next(s, e); forall a :: a in t.attempts ==> 1 <= |a.batch| <= t.cfg.batchSize
  {
    if e.HandOver? {
      assert SizeOk(s, FlushOf(s, e.who));
    } else if !e.Result? {
      OtherKeepsAttempts(s, e);
    }
  }

  lemma StepKeepsDeadlines(s: State, e: Event)
    requires Control(s) && Deadlines(s) && Enabled(s, e)
    ensures Deadlines(Next(s, e))
  {
  }

  lemma ResultKeepsOutcomes(s: State, who: Who, ok: bool)
    requires Inv(s) && Enabled(s, Result(who, ok))
    ensures Outcomes(Next(s, Result(who, ok)))
  {
    var t := Next(s, Result(who, ok));
    assert FlushOf(s, who).Storing?;
    SettleKeepsDelivered(s.attempts, ok);
    assert FlushOf(t, Consumer) == Done || !FlushOf(t, Consumer).Storing?;
  }

  lemma HandOverKeepsOutcomes(s: State, who: Who)
    requires Inv(s) && Enabled(s, HandOver(who))
    ensures Outcomes(Next(s, HandOver(who)))
  {
    DeliveredOfAppend(s.attempts, Attempt(FlushOf(s, who).batch, Pending));
    var t := Next(s, HandOver(who));
    assert FlushOf(t, who).Storing?;
    assert !StoringAny(s);
  }

  lemma OtherKeepsOutcomes(s: State, e: Event)
    requires Control(s) && Outcomes(s) && Enabled(s, e) && !e.HandOver? && !e.Result?
    ensures Outcomes(Next(s, e))
  {
    var t := Next(s, e);
    assert t.attempts == s.attempts;
    forall who ensures FlushOf(t, who).Storing? <==> FlushOf(s, who).Storing?
               ensures FlushOf(s, who).Storing? ==> FlushOf(t, who) == FlushOf(s, who)
    {
    }
    assert StoringAny(t) <==> StoringAny(s);
  }

  lemma StepKeepsOutcomes(s: State, e: Event)
    requires Inv(s) && Enabled(s, e)
    ensures Outcomes(Next(s, e))
  {
    match e
    case HandOver(who) => HandOverKeepsOutcomes(s, who);
    case Result(who, ok) => ResultKeepsOutcomes(s, who, ok);
    case _ => OtherKeepsOutcomes(s, e);
  }

  /** Only one of the goroutines has a batch in hand. */
  lemma OneFlushAtATime(s: State, who: Who)
    requires Control(s) && (FlushOf(s, who).Begin? || FlushOf(s, who).Taken? || FlushOf(s, who).Storing?)
    ensures var other := if who == Consumer then Stopper else Consumer;
            InHand(s, other) == [] && InFlight(s) == []
    ensures !FlushOf(s, who).Begin? ==> s.batch == []
  {
  }

  lemma TakeBatchKeepsHeld(s: State, who: Who)
    requires Control(s) && Enabled(s, TakeBatch(who))
    ensures Held(Next(s, TakeBatch(who))) == Held(s)
  {
    OneFlushAtATime(s, who);
  }

  lemma HandOverMovesHeld(s: State, who: Who)
    requires Control(s) && Enabled(s, HandOver(who))
    ensures Held(s) == FlushOf(s, who).batch + Held(Next(s, HandOver(who)))
  {
    OneFlushAtATime(s, who);
  }

  lemma ResultKeepsHeld(s: State, who: Who, ok: bool)
    requires Control(s) && Enabled(s, Result(who, ok))
    ensures Held(Next(s, Result(who, ok))) == Held(s)
  {
    OneFlushAtATime(s, who);
  }

  lemma OtherKeepsHands(s: State, e: Event)
    requires Control(s) && Enabled(s, e) && !e.TakeBatch? && !e.HandOver? && !e.Result?
    ensures var t := Next(s, e); InHand(t, Consumer) == InHand(s, Consumer) && InHand(t, Stopper) == InHand(s, Stopper)
  {
  }

  lemma OtherMovesHeld(s: State, e: Event)
    requires Control(s) && Enabled(s, e) && !e.TakeBatch? && !e.HandOver? && !e.Result?
    ensures var t := Next(s, e);
            if t.accepted == s.accepted then Held(t) == Held(s)
            else e.Ingest? && t.accepted == s.accepted + [e.msg] && Held(t) == Held(s) + [e.msg]
  {
    OtherKeepsHands(s, e);
    OtherMovesWaitlist(s, e);
    var a, b, w := InHand(s, Consumer), InHand(s, Stopper), Waitlist(s);
    assert e.Ingest? ==> a + (b + (w + [e.msg])) == (a + (b + w)) + [e.msg];
  }

  lemma OtherMovesWaitlist(s: State, e: Event)
    requires Control(s) && Enabled(s, e) && !e.TakeBatch? && !e.HandOver? && !e.Result?
    ensures var t := Next(s, e);
            if t.accepted == s.accepted then Waitlist(t) == Waitlist(s)
            else e.Ingest? && t.accepted == s.accepted + [e.msg] && Waitlist(t) == Waitlist(s) + [e.msg]
  {
    match e
    case Receive => ReceiveKeepsWaitlist(s);
    case Append => AppendKeepsWaitlist(s);
    case Ingest(m) =>
      assert s.batch + (InFlight(s) + (s.queue + [m])) == Waitlist(s) + [m];
      assert |s.accepted + [m]| == |s.accepted| + 1;
    case _ =>
  }

  lemma ReceiveKeepsWaitlist(s: State)
    requires Enabled(s, Receive)
    ensures Waitlist(Next(s, Receive)) == Waitlist(s)
  {
    assert [s.queue[0]] + s.queue[1..] == s.queue;
  }

  lemma AppendKeepsWaitlist(s: State)
    requires Enabled(s, Append)
    ensures Waitlist(Next(s, Append)) == Waitlist(s)
  {
    assert (s.batch + [s.loop.msg]) + ([] + s.queue) == s.batch + ([s.loop.msg] + s.queue);
  }

  lemma StepKeepsConserved(s: State, e: Event)
    requires Inv(s) && Enabled(s, e)
    ensures Conserved(Next(s, e))
  {
    match e
    case TakeBatch(who) => TakeBatchKeepsHeld(s, who);
    case HandOver(who) => HandOverConserves(s, who);
    case Result(who, ok) =>
      ResultKeepsHeld(s, who, ok);
      SettleKeepsDelivered(s.attempts, ok);
    case _ => OtherConserves(s, e);
  }

  lemma HandOverConserves(s: State, who: Who)
    requires Control(s) && Conserved(s) && Enabled(s, HandOver(who))
    ensures Conserved(Next(s, HandOver(who)))
  {
    HandOverMovesHeld(s, who);
    MoveToDelivered(s.attempts, FlushOf(s, who).batch, Held(Next(s, HandOver(who))));
  }

  lemma MoveToDelivered(attempts: seq<Attempt>, batch: seq<Message>, rest: seq<Message>)
    ensures Delivered(attempts) + (batch + rest) == Delivered(attempts + [Attempt(batch, Pending)]) + rest
  {
    DeliveredOfAppend(attempts, Attempt(batch, Pending));
  }

  lemma OtherKeepsAttempts(s: State, e: Event)
    requires Enabled(s, e) && !e.HandOver? && !e.Result?
    ensures Next(s, e).attempts == s.attempts
  {
  }

  lemma OtherConserves(s: State, e: Event)
    requires Control(s) && Conserved(s) && Enabled(s, e) && !e.TakeBatch? && !e.HandOver? && !e.Result?
    ensures Conserved(Next(s, e))
  {
    OtherMovesHeld(s, e);
    OtherKeepsAttempts(s, e);
  }

  lemma StepKeepsInv(s: State, e: Event)
    requires Inv(s) && Enabled(s, e)
    ensures Inv(Next(s, e))
  {
    StepKeepsControl(s, e);
    StepKeepsSizes(s, e);
    StepKeepsOutcomes(s, e);
    StepKeepsDeadlines(s, e);
    StepKeepsConserved(s, e);
  }

  lemma {:induction false} RunKeepsInv(s: State, events: seq<Event>)
    requires Inv(s) && Valid(s, events)
    ensures Inv(Run(s, events))
    decreases |events|
  {
    if events != [] {
      StepKeepsInv(s, events[0]);
      RunKeepsInv(Next(s, events[0]), events[1..]);
    }
  }

  lemma InitInv(cfg: Config)
    ensures Inv(Init(cfg))
  {
  }

  // ---- The promises of the pipeline, over every interleaving ----

  /** Accepted messages are never lost, duplicated or reordered on the way to the store, every batch has
      between one message and the batch size, and the recorded drops are the refused messages and the
      messages of the batches the store rejected. */
  lemma ConservationAndOrder(cfg: Config, events: seq<Event>)
    requires Valid(Init(cfg), events)
    ensures var s := Run(Init(cfg), events);
            && s.accepted == Delivered(s.attempts) + Held(s)
            && (forall a :: a in s.attempts ==> 1 <= |a.batch| <= Normalize(cfg).batchSize)
            && s.drops == s.refused + LostCount(s.attempts)
  {
    InitInv(cfg);
    RunKeepsInv(Init(cfg), events);
    RunKeepsConfig(Init(cfg), events);
  }

  lemma {:induction false} RunKeepsConfig(s: State, events: seq<Event>)
    requires Valid(s, events)
    ensures Run(s, events).cfg == s.cfg
    decreases |events|
  {
    if events != [] {
      RunKeepsConfig(Next(s, events[0]), events[1..]);
    }
  }

  /** After `Stop` returns, the accepted messages are the delivered ones followed by exactly what is
      left in the queue, which nobody stores and nobody counts as dropped. */
  lemma StopLeavesTheQueue(cfg: Config, events: seq<Event>)
    requires Valid(Init(cfg), events) && Run(Init(cfg), events).stop.Returned?
    ensures var s := Run(Init(cfg), events);
            s.accepted == Delivered(s.attempts) + s.queue && s.batch == []
  {
    InitInv(cfg);
    RunKeepsInv(Init(cfg), events);
    var s := Run(Init(cfg), events);
    assert Held(s) == s.queue;
  }

  lemma RunStep(s: State, e: Event, events: seq<Event>)
    requires Enabled(s, e) && Valid(Next(s, e), events)
    ensures Valid(s, [e] + events) && Run(s, [e] + events) == Run(Next(s, e), events)
  {
    assert ([e] + events)[1..] == events;
  }

  /** `Stop` from its flush on, with nothing in the batch. */
  lemma EmptyFlushRun(s: State)
    requires s.stop == Draining(Begin) && s.batch == []
    ensures var events := [TakeBatch(Stopper)] + ([StopReturn] + []);
            Valid(s, events) && Run(s, events) == s.(stop := Returned)
  {
    var t := Next(s, TakeBatch(Stopper));
    RunStep(t, StopReturn, []);
    RunStep(s, TakeBatch(Stopper), [StopReturn] + []);
  }

  /** A whole call of `Stop` while the consumer waits with an empty batch. */
  lemma StopRun(s: State) returns (events: seq<Event>)
    requires s.running && s.loop.Waiting? && s.batch == []
    ensures Valid(s, events) && Run(s, events) == s.(running := false, done := true, loop := Exited, stop := Returned)
  {
    var s1 := Next(s, StopCall);
    var s2 := Next(s1, CloseDone);
    var s3 := Next(s2, Exit);
    var s4 := Next(s3, JoinLoop);
    EmptyFlushRun(s4);
    events := [TakeBatch(Stopper)] + ([StopReturn] + []);
    RunStep(s3, JoinLoop, events);
    events := [JoinLoop] + events;
    RunStep(s2, Exit, events);
    events := [Exit] + events;
    RunStep(s1, CloseDone, events);
    events := [CloseDone] + events;
    RunStep(s, StopCall, events);
    events := [StopCall] + events;
  }

  /** A stop right after a message came in: it is accepted, and when `Stop` has returned it is still in the
      queue, neither handed to the store nor counted as dropped. */
  lemma StopLosesAMessage(cfg: Config, m: Message)
    ensures exists events :: Valid(Init(cfg), events)
              && var s := Run(Init(cfg), events);
                 s.stop.Returned? && s.accepted == [m] == s.queue && s.attempts == [] && s.drops == 0
  {
    var s := Next(Init(cfg), Start);
    var events := StopRun(Next(s, Ingest(m)));
    RunStep(s, Ingest(m), events);
    RunStep(Init(cfg), Start, [Ingest(m)] + events);
    assert Valid(Init(cfg), [Start] + ([Ingest(m)] + events));
  }

  /** Whenever the consumer waits, its batch is not full, and the timer is armed or has ticked; when the
      batch holds messages, it ticks at most the flush timeout after the first of them was appended. */
  lemma FlushDeadline(cfg: Config, events: seq<Event>)
    requires Valid(Init(cfg), events) && Run(Init(cfg), events).loop.Waiting?
    ensures var s := Run(Init(cfg), events);
            && |s.batch| < Normalize(cfg).batchSize && (s.timer.Armed? || s.timer.Ticked?)
            && (s.batch != [] ==> s.timer.deadline <= s.since + Normalize(cfg).flushTimeout)
  {
    InitInv(cfg);
    RunKeepsInv(Init(cfg), events);
    RunKeepsConfig(Init(cfg), events);
  }

  // ---- The timer waits in full ----

  /** The step arms the timer: a start that is not the second, or a reset. */
  predicate Arms(s: State, e: Event) {
    (e.Start? && !s.running) || e.ResetTimer?
  }

  /** The time at which a run armed the timer last, `at` standing for before. */
  ghost function LastArmed(s: State, events: seq<Event>, at: int): int
    requires Valid(s, events)
    decreases |events|
  {
    if events == [] then at
    else LastArmed(Next(s, events[0]), events[1..], if Arms(s, events[0]) then s.now else at)
  }

  /** The messages the consumer is about to hand over, while it flushes. */
  function InFlush(s: State): seq<Message>
    requires s.loop.Flushing? && !s.loop.flush.Done?
  {
    if s.loop.flush.Begin? then s.batch else s.loop.flush.batch
  }

  /** A timer armed at `at` goes off after the whole timeout, and the consumer flushes a full batch or one
      whose timer has gone off. */
  ghost predicate WaitsInFull(s: State, at: int) {
    && (s.timer.Armed? || s.timer.Ticked? ==> s.timer.deadline == at + s.cfg.flushTimeout)
    && (s.timer.Ticked? || s.timer.Spent? ==> s.now >= at + s.cfg.flushTimeout)
    && (s.loop.Flushing? && !s.loop.flush.Done? ==> |InFlush(s)| >= s.cfg.batchSize || s.timer.Spent?)
  }

  lemma StepWaitsInFull(s: State, e: Event, at: int)
    requires Control(s) && WaitsInFull(s, at) && Enabled(s, e)
    ensures WaitsInFull(Next(s, e), if Arms(s, e) then s.now else at)
  {
  }

  lemma {:induction false} RunWaitsInFull(s: State, events: seq<Event>, at: int)
    requires Control(s) && WaitsInFull(s, at) && Valid(s, events)
    ensures WaitsInFull(Run(s, events), LastArmed(s, events, at))
    decreases |events|
  {
    if events != [] {
      StepKeepsControl(s, events[0]);
      StepWaitsInFull(s, events[0], at);
      RunWaitsInFull(Next(s, events[0]), events[1..], if Arms(s, events[0]) then s.now else at);
    }
  }

  /** Over every run the timer goes off exactly the flush timeout after it was armed last, by the start or by
      a reset. So no tick is received before, and until then the consumer hands over full batches only. */
  lemma TimerWaitsInFull(cfg: Config, events: seq<Event>)
    requires Valid(Init(cfg), events)
    ensures var s, due := Run(Init(cfg), events), LastArmed(Init(cfg), events, 0) + Normalize(cfg).flushTimeout;
            && (s.timer.Armed? || s.timer.Ticked? ==> s.timer.deadline == due)
            && (Enabled(s, Tick) ==> s.now >= due)
            && (s.loop.Flushing? && s.loop.flush.Taken? && s.now < due ==> |s.loop.flush.batch| == Normalize(cfg).batchSize)
  {
    InitInv(cfg);
    RunKeepsInv(Init(cfg), events);
    RunKeepsConfig(Init(cfg), events);
    RunWaitsInFull(Init(cfg), events, 0);
    var s := Run(Init(cfg), events);
    assert SizeOk(s, FlushOf(s, Consumer));
  }

  /** A message is never stuck: once the deadline of the batch has passed, the tick has come or can come,
      and receiving it starts a flush. */
  lemma OverdueBatchIsFlushed(s: State)
    requires Inv(s) && s.loop.Waiting? && s.batch != [] && s.now >= s.since + s.cfg.flushTimeout
    ensures Enabled(s, Tick) || (Enabled(s, Fire) && Enabled(Next(s, Fire), Tick))
    ensures var t := if Enabled(s, Tick) then s else Next(s, Fire);
            var u := Next(Next(t, Tick), TakeBatch(Consumer));
            FlushOf(u, Consumer) == Taken(s.batch) && u.batch == []
  {
  }

  // ---- The code, run without interruption ----

  /** The state after one whole call of `flush`. */
  function AfterFlush(s: State, who: Who, ok: bool): (t: State)
    requires FlushOf(s, who).Begin?
    ensures FlushOf(t, who).Done? && (who.Consumer? ==> t.loop == Flushing(Done))
  {
    var t := Next(s, TakeBatch(who));
    if s.batch == [] then t else Next(Next(t, HandOver(who)), Result(who, ok))
  }

  /** A flush empties the batch, counts its messages as dropped if the store fails, and leaves everything else
      of the pipeline to the steps around it. */
  lemma FlushSays(s: State, who: Who, ok: bool)
    requires Control(s) && FlushOf(s, who).Begin?
    ensures var t := AfterFlush(s, who, ok);
            && Control(t) && t.batch == [] && t.drops == s.drops + (if ok then 0 else |s.batch|)
            && t.cfg == s.cfg && t.queue == s.queue && t.timer == s.timer && t.running == s.running
            && t.done == s.done && t.now == s.now
  {
    var t := Next(s, TakeBatch(who));
    StepKeepsControl(s, TakeBatch(who));
    if s.batch != [] {
      StepKeepsControl(t, HandOver(who));
      StepKeepsControl(Next(t, HandOver(who)), Result(who, ok));
    }
  }

  /** The state after one whole call of `addToBatch`. */
  function AfterAdd(s: State, ok: bool): State
    requires s.loop.Received?
  {
    var t := Next(s, Append);
    if t.loop.Waiting? then t else Next(AfterFlush(t, Consumer, ok), Event.ResetTimer)
  }

  /** The state in which `Stop`, called on a running pipeline whose consumer waits or has left, starts
      its own flush. */
  function Quiesced(s: State): (t: State)
    requires s.running && (s.loop.Waiting? || s.loop.Exited?)
    ensures t.stop == Draining(Begin) && t.loop.Exited? && !t.running && t.done
    ensures t.queue == s.queue && t.batch == s.batch && t.timer == s.timer && t.now == s.now && t.cfg == s.cfg
  {
    s.(running := false, done := true, loop := Exited, stop := Draining(Begin))
  }

  lemma QuiescedKeepsControl(s: State)
    requires Control(s) && s.running && (s.loop.Waiting? || s.loop.Exited?)
    ensures Control(Quiesced(s)) && FlushOf(Quiesced(s), Stopper).Begin?
  {
  }

  lemma QuiescedReaches(s: State)
    requires s.running && (s.loop.Waiting? || s.loop.Exited?)
    ensures Reaches(s, Quiesced(s))
  {
    var t := Next(Next(s, StopCall), CloseDone);
    OneStep(s, StopCall);
    OneStep(Next(s, StopCall), CloseDone);
    ReachesIsTransitive(s, Next(s, StopCall), t);
    var u := t.(loop := Exited);
    if t.loop.Waiting? {
      OneStep(t, Exit);
      ReachesIsTransitive(s, t, u);
    }
    OneStep(u, JoinLoop);
    ReachesIsTransitive(s, u, Next(u, JoinLoop));
    assert Next(u, JoinLoop) == Quiesced(s);
  }

  /** The state after one whole call of `Stop`. */
  function AfterStop(s: State, ok: bool): (t: State)
    requires s.running ==> s.loop.Waiting? || s.loop.Exited?
    ensures t.queue == s.queue
  {
    if s.running then Next(AfterFlush(Quiesced(s), Stopper, ok), StopReturn) else s
  }

  /** A stop of a running pipeline ends it and empties the batch; the queue stays. */
  lemma StopSays(s: State, ok: bool)
    requires Control(s) && (s.running ==> s.loop.Waiting? || s.loop.Exited?)
    ensures var t := AfterStop(s, ok);
            && Control(t) && !t.running && t.cfg == s.cfg && t.queue == s.queue && t.timer == s.timer && t.now == s.now
            && (if s.running then t.done && t.batch == [] else t == s)
  {
    if s.running {
      QuiescedKeepsControl(s);
      FlushSays(Quiesced(s), Stopper, ok);
      StepKeepsControl(AfterFlush(Quiesced(s), Stopper, ok), StopReturn);
    }
  }

  ghost predicate Reaches(s: State, t: State) {
    exists events :: Valid(s, events) && Run(s, events) == t
  }

  lemma {:induction false} RunOfAppend(s: State, a: seq<Event>, b: seq<Event>)
    requires Valid(s, a) && Valid(Run(s, a), b)
    ensures Valid(s, a + b) && Run(s, a + b) == Run(Run(s, a), b)
    decreases |a|
  {
    if a == [] {
      assert a + b == b;
    } else {
      assert (a + b)[1..] == a[1..] + b;
      RunOfAppend(Next(s, a[0]), a[1..], b);
    }
  }

  lemma ReachesIsTransitive(s: State, t: State, u: State)
    requires Reaches(s, t) && Reaches(t, u)
    ensures Reaches(s, u)
  {
    var a :| Valid(s, a) && Run(s, a) == t;
    var b :| Valid(t, b) && Run(t, b) == u;
    RunOfAppend(s, a, b);
  }

  lemma OneStep(s: State, e: Event)
    requires Enabled(s, e)
    ensures Valid(s, [e]) && Run(s, [e]) == Next(s, e) && Reaches(s, Next(s, e))
  {
    assert [e][1..] == [];
    assert Valid(Next(s, e), []);
  }

  lemma ReachesItself(s: State)
    ensures Reaches(s, s)
  {
    assert Valid(s, []) && Run(s, []) == s;
  }

  lemma FlushReaches(s: State, who: Who, ok: bool)
    requires FlushOf(s, who).Begin?
    ensures Reaches(s, AfterFlush(s, who, ok))
  {
    var t := Next(s, TakeBatch(who));
    OneStep(s, TakeBatch(who));
    if s.batch != [] {
      var u := Next(t, HandOver(who));
      OneStep(t, HandOver(who));
      OneStep(u, Result(who, ok));
      ReachesIsTransitive(s, t, u);
      ReachesIsTransitive(s, u, Next(u, Result(who, ok)));
    }
  }

  lemma StopReaches(s: State, ok: bool)
    requires s.running ==> s.loop.Waiting? || s.loop.Exited?
    ensures Reaches(s, AfterStop(s, ok))
  {
    if s.running {
      var t := Quiesced(s);
      var u := AfterFlush(t, Stopper, ok);
      QuiescedReaches(s);
      FlushReaches(t, Stopper, ok);
      ReachesIsTransitive(s, t, u);
      OneStep(u, StopReturn);
      ReachesIsTransitive(s, u, Next(u, StopReturn));
    } else {
      ReachesItself(s);
    }
  }

  lemma FlushAndResetReaches(s: State, ok: bool)
    requires s.loop == Flushing(Begin)
    ensures Reaches(s, Next(AfterFlush(s, Consumer, ok), Event.ResetTimer))
  {
    var t := AfterFlush(s, Consumer, ok);
    FlushReaches(s, Consumer, ok);
    OneStep(t, Event.ResetTimer);
    ReachesIsTransitive(s, t, Next(t, Event.ResetTimer));
  }

  lemma TickReaches(s: State, ok: bool)
    requires Enabled(s, Tick)
    ensures Reaches(s, Next(AfterFlush(Next(s, Tick), Consumer, ok), Event.ResetTimer))
  {
    OneStep(s, Tick);
    FlushAndResetReaches(Next(s, Tick), ok);
    ReachesIsTransitive(s, Next(s, Tick), Next(AfterFlush(Next(s, Tick), Consumer, ok), Event.ResetTimer));
  }

  lemma ReceiveReaches(s: State, ok: bool)
    requires Enabled(s, Receive)
    ensures Reaches(s, AfterAdd(Next(s, Receive), ok))
  {
    var t := Next(s, Receive);
    var u := Next(t, Append);
    OneStep(s, Receive);
    OneStep(t, Append);
    ReachesIsTransitive(s, t, u);
    if !u.loop.Waiting? {
      FlushAndResetReaches(u, ok);
      ReachesIsTransitive(s, u, AfterAdd(t, ok));
    }
  }

  /** What happens around one turn of the consumer's select: time passes, messages arrive, and when both
      a message and a tick are ready, either may be picked. */
  datatype Turn = Turn(elapsed: nat, arrivals: seq<Message>, preferTick: bool, storeOk: bool)

  class Pipeline {
    const cfg: Config
    var messages: seq<Message>
    var batch: seq<Message>
    var timer: Timer
    var running: bool
    var done: bool
    var now: int
    ghost var state: State

    ghost predicate Valid()
      reads this
    {
      && Control(state) && state.cfg == cfg && state.queue == messages && state.batch == batch
      && state.timer == timer && state.running == running && state.done == done && state.now == now
    }

    constructor (config: Config)
      ensures Valid() && state == Init(config)
      ensures cfg.batchSize == if config.batchSize > 0 then config.batchSize else 100
      ensures cfg.flushTimeout == if config.flushTimeout > 0 then config.flushTimeout else 100_000_000
      ensures cfg.bufferSize == if config.bufferSize > 0 then config.bufferSize else 10_000
    {
      cfg := Normalize(config);
      messages, batch, timer, running, done, now := [], [], NoTimer, false, false, 0;
      state := Init(config);
    }

    /** Records a step of the model that the fields have just made. */
    ghost method Record(e: Event)
      requires Control(state) && Enabled(state, e)
      modifies this`state
      ensures Control(state) && state == Next(old(state), e)
    {
      StepKeepsControl(state, e);
      state := Next(state, e);
    }

    method Start()
      requires Valid() && Enabled(state, Event.Start)
      modifies this
      ensures Valid() && state == Next(old(state), Event.Start)
      ensures running && (timer == if old(running) then old(timer) else Armed(now + cfg.flushTimeout))
      ensures messages == old(messages) && batch == old(batch)
    {
      Record(Event.Start);
      if running {
        return;
      }
      running := true;
      timer := Armed(now + cfg.flushTimeout);
    }

    method Ingest(msg: Message) returns (dropped: nat)
      requires Valid()
      modifies this
      ensures Valid() && state == Next(old(state), Event.Ingest(msg))
      ensures dropped == state.drops - old(state.drops)
      ensures dropped == if |old(messages)| < cfg.bufferSize then 0 else 1
      ensures messages == if dropped == 0 then old(messages) + [msg] else old(messages)
    {
      Record(Event.Ingest(msg));
      if |messages| < cfg.bufferSize {
        messages := messages + [msg];
        dropped := 0;
      } else {
        dropped := 1;
      }
    }

    /** `storeOk` says whether `StoreBatch` succeeds, should it be called. */
    method Flush(ghost who: Who, storeOk: bool) returns (dropped: nat)
      requires Valid() && FlushOf(state, who).Begin?
      modifies this
      ensures Valid() && state == AfterFlush(old(state), who, storeOk)
      ensures dropped == state.drops - old(state.drops)
      ensures batch == [] && messages == old(messages) && dropped == if storeOk then 0 else |old(batch)|
    {
      FlushSays(state, who, storeOk);
      state := AfterFlush(state, who, storeOk);
      if |batch| == 0 {
        return 0;
      }
      var taken := batch;
      batch := [];
      dropped := if storeOk then 0 else |taken|;
    }

    method ResetTimer()
      requires Valid() && state.loop == Flushing(Done)
      modifies this
      ensures Valid() && state == Next(old(state), Event.ResetTimer)
      ensures timer == Armed(now + cfg.flushTimeout) && messages == old(messages) && batch == old(batch)
    {
      Record(Event.ResetTimer);
      if !timer.NoTimer? {
        timer := Armed(now + cfg.flushTimeout);
      }
    }

    method AddToBatch(msg: Message, storeOk: bool)
      requires Valid() && state.loop == Received(msg)
      modifies this
      ensures Valid() && state == AfterAdd(old(state), storeOk)
      ensures messages == old(messages)
      ensures batch == if |old(batch)| + 1 >= cfg.batchSize then [] else old(batch) + [msg]
    {
      Record(Append);
      batch := batch + [msg];
      if |batch| >= cfg.batchSize {
        var _ := Flush(Consumer, storeOk);
        ResetTimer();
      }
    }

    /** The environment of the consumer between two turns: time passes, messages come in, the timer
        goes off when it is due. */
    method Environment(turn: Turn)
      requires Valid() && state.loop.Waiting?
      modifies this
      ensures Valid() && state.loop.Waiting? && Reaches(old(state), state)
    {
      ghost var s := state;
      OneStep(s, Advance(turn.elapsed));
      Record(Advance(turn.elapsed));
      now := now + turn.elapsed;
      for k := 0 to |turn.arrivals|
        invariant Valid() && state.loop.Waiting? && Reaches(s, state)
      {
        ghost var t := state;
        var _ := Ingest(turn.arrivals[k]);
        OneStep(t, Event.Ingest(turn.arrivals[k]));
        ReachesIsTransitive(s, t, state);
      }
      ghost var t := state;
      FireIfDue();
      ReachesIsTransitive(s, t, state);
    }

    method FireIfDue()
      requires Valid() && state.loop.Waiting?
      modifies this
      ensures Valid() && state.loop.Waiting? && Reaches(old(state), state)
    {
      if timer.Armed? && timer.deadline <= now {
        OneStep(state, Fire);
        Record(Fire);
        timer := Ticked(timer.deadline);
      } else {
        ReachesItself(state);
      }
    }

    /** One turn of the select: a message is added to the batch, or a tick flushes it. */
    method Select(preferTick: bool, storeOk: bool)
      requires Valid() && state.loop.Waiting?
      modifies this
      ensures Valid() && state.loop.Waiting? && Reaches(old(state), state)
      ensures old(timer).Ticked? && (preferTick || old(messages) == []) ==>
                state == Next(AfterFlush(Next(old(state), Tick), Consumer, storeOk), Event.ResetTimer)
      ensures !(old(timer).Ticked? && preferTick) && old(messages) != [] ==>
                state == AfterAdd(Next(old(state), Receive), storeOk)
    {
      if timer.Ticked? && (preferTick || |messages| == 0) {
        TickReaches(state, storeOk);
        Record(Tick);
        timer := Spent;
        var _ := Flush(Consumer, storeOk);
        ResetTimer();
      } else if |messages| > 0 {
        ReceiveReaches(state, storeOk);
        var msg := messages[0];
        Record(Receive);
        messages := messages[1..];
        AddToBatch(msg, storeOk);
      } else {
        ReachesItself(state);
      }
    }

    /** The consumer's loop over any schedule of turns. */
    method ProcessLoop(turns: seq<Turn>)
      requires Valid() && state.loop.Waiting?
      modifies this
      ensures Valid() && state.loop.Waiting? && Reaches(old(state), state)
    {
      ghost var s := state;
      ReachesItself(s);
      for k := 0 to |turns|
        invariant Valid() && state.loop.Waiting? && Reaches(s, state)
      {
        ghost var t := state;
        Environment(turns[k]);
        ReachesIsTransitive(s, t, state);
        ghost var u := state;
        Select(turns[k].preferTick, turns[k].storeOk);
        ReachesIsTransitive(s, u, state);
      }
    }

    /** `Stop`, with the consumer at its select: the first call closes `done`, waits for the consumer to
        leave and flushes what is in the batch; any other call does nothing. */
    method Stop(storeOk: bool)
      requires Valid() && (running ==> state.loop.Waiting? || state.loop.Exited?)
      modifies this
      ensures Valid() && state == AfterStop(old(state), storeOk) && Reaches(old(state), state)
      ensures !running && messages == old(messages) && (old(running) ==> done && batch == [])
    {
      ghost var stopped := AfterStop(state, storeOk);
      StopReaches(state, storeOk);
      StopSays(state, storeOk);
      if !running {
        return;
      }
      running := false;
      done := true;
      state := Quiesced(state);
      var _ := Flush(Stopper, storeOk);
      state := stopped;
    }
  }
}
