/** The join set and the reconnect loop of internal/irc/client.go. */
module IrcClient {
  import opened GoBuiltins
  import opened GoStrings

  function NormalizeChannel(channel: string): (r: string)
    ensures HasPrefix(r, "#")
  {
    var channel := ToLower(TrimSpace(channel));
    if HasPrefix(channel, "#") then channel else
      assert ("#" + channel)[..1] == "#";
      "#" + channel
  }

  // ---- The client and the server it talks to ----

  /** What the client wants joined, and what the server it is connected to has joined for it.
      `epoch` counts the connections made so far. */
  datatype Link = Link(wanted: set<string>, connected: bool, server: set<string>, epoch: nat) {
    function Joined(ch: string): Link {
      if ch in wanted then this
      else this.(wanted := wanted + {ch}, server := if connected then server + {ch} else server)
    }

    function Parted(ch: string): Link {
      if ch !in wanted then this
      else this.(wanted := wanted - {ch}, server := if connected then server - {ch} else server)
    }

    /** A lost connection; the server forgets the client's channels. */
    function Dropped(): Link {
      this.(connected := false, server := {})
    }

    /** A successful `Connect`; it does nothing on a live connection. */
    function Dialed(): Link {
      if connected then this else this.(connected := true, server := {}, epoch := epoch + 1)
    }

    /** A JOIN written by a rejoin loop; on a dead connection it is lost. */
    function Rejoined(ch: string): Link {
      if connected then this.(server := server + {ch}) else this
    }
  }

  // ---- Reconnect loops running beside Join and Part ----

  /** Where one `reconnect` goroutine stands, with the connection it found when `Connect` returned. */
  datatype Loop = Dialing | Connected(epoch: nat) | Rejoining(epoch: nat, remaining: seq<string>)

  /** Each lost connection starts a loop of its own, so several may run at once. */
  datatype Net = Net(link: Link, loops: map<nat, Loop>, nextLoop: nat)

  datatype Event =
    | Join(channel: string)
    | Part(channel: string)
    | FirstConnect
    | Drop
    | DialOk(loop: nat)
    | DialFail(loop: nat)
    | Snapshot(loop: nat, order: seq<string>)
    | Send(loop: nat)
    | Finish(loop: nat)

  ghost function Elements(s: seq<string>): set<string> {
    set x | x in s
  }

  ghost predicate Enabled(n: Net, e: Event) {
    match e
    case Join(_) => true
    case Part(_) => true
    case FirstConnect => n.link.epoch == 0
    case Drop => n.link.connected
    case DialOk(i) => i in n.loops && n.loops[i].Dialing?
    case DialFail(i) => i in n.loops && n.loops[i].Dialing?
    case Snapshot(i, order) => i in n.loops && n.loops[i].Connected? && Elements(order) == n.link.wanted
    case Send(i) => i in n.loops && n.loops[i].Rejoining? && n.loops[i].remaining != []
    case Finish(i) => i in n.loops && n.loops[i].Rejoining? && n.loops[i].remaining == []
  }

  /** One atomic step: a critical section of the client's mutex. */
  ghost function Next(n: Net, e: Event): Net
    requires Enabled(n, e)
  {
    match e
    case Join(ch) => n.(link := n.link.Joined(ch))
    case Part(ch) => n.(link := n.link.Parted(ch))
    case FirstConnect => n.(link := n.link.Dialed())
    case Drop => n.(link := n.link.Dropped(), loops := n.loops[n.nextLoop := Dialing], nextLoop := n.nextLoop + 1)
    case DialOk(i) =>
      var link := n.link.Dialed();
      n.(link := link, loops := n.loops[i := Connected(link.epoch)])
    case DialFail(_) => n
    case Snapshot(i, order) => n.(loops := n.loops[i := Rejoining(n.loops[i].epoch, order)])
    case Send(i) =>
      var loop := n.loops[i];
      n.(link := n.link.Rejoined(loop.remaining[0]),
         loops := n.loops[i := loop.(remaining := loop.remaining[1..])])
    case Finish(i) => n.(loops := n.loops - {i})
  }

  const START := Net(Link({}, false, {}, 0), map[], 0)

  ghost predicate Valid(n: Net, events: seq<Event>)
    decreases |events|
  {
    events == [] || (Enabled(n, events[0]) && Valid(Next(n, events[0]), events[1..]))
  }

  ghost function Run(n: Net, events: seq<Event>): Net
    requires Valid(n, events)
    decreases |events|
  {
    if events == [] then n else Run(Next(n, events[0]), events[1..])
  }

  /** On the live connection, what a rejoin loop has not sent yet is all that may be missing. */
  ghost predicate Inv(n: Net) {
    && (forall i :: i in n.loops ==> i < n.nextLoop)
    && (!n.link.connected ==> n.link.server == {})
    && (forall i :: i in n.loops && !n.loops[i].Dialing? ==> n.loops[i].epoch <= n.link.epoch)
    && (forall i :: i in n.loops && n.loops[i].Rejoining? && n.loops[i].epoch == n.link.epoch && n.link.connected ==>
          n.link.wanted <= n.link.server + Elements(n.loops[i].remaining))
  }

  lemma {:induction false} RunKeepsInv(n: Net, events: seq<Event>)
    requires Inv(n) && Valid(n, events)
    ensures Inv(Run(n, events))
    decreases |events|
  {
    if events != [] {
      RunKeepsInv(Next(n, events[0]), events[1..]);
    }
  }

  /** When a rejoin loop ends on the connection it found, the server has joined every wanted channel,
      whatever joins, parts and other loops ran in between. */
  lemma RejoinCoversWanted(events: seq<Event>, i: nat)
    requires Valid(START, events)
    requires var n := Run(START, events);
             && Enabled(n, Finish(i)) && n.link.connected && n.loops[i].epoch == n.link.epoch
    ensures Run(START, events).link.wanted <= Run(START, events).link.server
  {
    RunKeepsInv(START, events);
  }

  ghost predicate DropFree(events: seq<Event>) {
    forall e :: e in events ==> !e.Drop?
  }

  /** Once every wanted channel is joined, this stays so until the connection is lost. */
  lemma {:induction false} CoverPersists(n: Net, events: seq<Event>)
    requires Valid(n, events) && DropFree(events) && n.link.connected && n.link.wanted <= n.link.server
    ensures var m := Run(n, events); m.link.connected && m.link.wanted <= m.link.server
    decreases |events|
  {
    if events != [] {
      assert events[0] in events;
      CoverPersists(Next(n, events[0]), events[1..]);
    }
  }

  // ---- The exact join set at the end of a rejoin ----

  /** The channels some rejoin loop is still going to send. */
  ghost predicate Ahead(n: Net, ch: string) {
    exists i :: i in n.loops && n.loops[i].Rejoining? && ch in n.loops[i].remaining
  }

  /** The channels parted while a rejoin loop still had them ahead, and not joined again since. */
  ghost function Strays(n: Net, events: seq<Event>, before: set<string>): set<string>
    requires Valid(n, events)
    decreases |events|
  {
    if events == [] then before
    else
      var after :=
        match events[0]
        case Part(ch) => if ch in n.link.wanted && Ahead(n, ch) then before + {ch} else before
        case Join(ch) => before - {ch}
        case _ => before;
      Strays(Next(n, events[0]), events[1..], after)
  }

  /** `strays` are the channels on the server, or on their way to it, that nobody wants. */
  ghost predicate StraysAre(n: Net, strays: set<string>) {
    forall ch :: ch in strays <==> (ch in n.link.server || Ahead(n, ch)) && ch !in n.link.wanted
  }

  lemma AheadAfter(n: Net, e: Event, ch: string)
    requires Inv(n) && Enabled(n, e) && n.link.connected && !e.Drop?
    ensures e.Join? || e.Part? || e.FirstConnect? || e.DialOk? || e.DialFail? || e.Finish? ==>
              (Ahead(Next(n, e), ch) <==> Ahead(n, ch))
    ensures e.Snapshot? ==> (Ahead(Next(n, e), ch) <==> Ahead(n, ch) || ch in n.link.wanted)
    ensures e.Send? ==> (Ahead(n, ch) <==> Ahead(Next(n, e), ch) || ch == n.loops[e.loop].remaining[0])
  {
    var m := Next(n, e);
    if Ahead(n, ch) {
      var i :| i in n.loops && n.loops[i].Rejoining? && ch in n.loops[i].remaining;
      if e.Send? && i == e.loop {
        assert n.loops[i].remaining == [n.loops[i].remaining[0]] + m.loops[i].remaining;
      } else {
        assert i in m.loops && m.loops[i] == n.loops[i];
      }
    }
    if Ahead(m, ch) {
      var i :| i in m.loops && m.loops[i].Rejoining? && ch in m.loops[i].remaining;
      assert i in n.loops;
      if e.Snapshot? && i == e.loop {
        assert ch in Elements(e.order);
      }
    }
    if e.Snapshot? && ch in n.link.wanted {
      assert ch in Elements(e.order);
      assert m.loops[e.loop].remaining == e.order;
    }
    if e.Send? && ch == n.loops[e.loop].remaining[0] {
      assert ch in n.loops[e.loop].remaining;
    }
  }

  lemma StepMovesStrays(n: Net, e: Event, strays: set<string>)
    requires Inv(n) && Enabled(n, e) && n.link.connected && !e.Drop? && StraysAre(n, strays)
    ensures Next(n, e).link.connected
    ensures StraysAre(Next(n, e),
              match e
              case Part(ch) => if ch in n.link.wanted && Ahead(n, ch) then strays + {ch} else strays
              case Join(ch) => strays - {ch}
              case _ => strays)
  {
    forall ch ensures e.Join? || e.Part? || e.FirstConnect? || e.DialOk? || e.DialFail? || e.Finish? ==>
              (Ahead(Next(n, e), ch) <==> Ahead(n, ch))
              ensures e.Snapshot? ==> (Ahead(Next(n, e), ch) <==> Ahead(n, ch) || ch in n.link.wanted)
              ensures e.Send? ==> (Ahead(n, ch) <==> Ahead(Next(n, e), ch) || ch == n.loops[e.loop].remaining[0])
    {
      AheadAfter(n, e, ch);
    }
  }

  lemma {:induction false} RunMovesStrays(n: Net, events: seq<Event>, strays: set<string>)
    requires Inv(n) && Valid(n, events) && DropFree(events) && n.link.connected && StraysAre(n, strays)
    ensures StraysAre(Run(n, events), Strays(n, events, strays)) && Run(n, events).link.connected
    decreases |events|
  {
    if events != [] {
      assert events[0] in events;
      StepMovesStrays(n, events[0], strays);
      var after :=
        match events[0]
        case Part(ch) => if ch in n.link.wanted && Ahead(n, ch) then strays + {ch} else strays
        case Join(ch) => strays - {ch}
        case _ => strays;
      RunMovesStrays(Next(n, events[0]), events[1..], after);
    }
  }

  /** From a clean connection to the end of its last rejoin loop: the server holds the wanted channels
      and the strays, so it holds exactly the wanted ones if and only if every channel parted ahead of
      its JOIN was joined again. */
  lemma JoinedSetIsExact(n: Net, events: seq<Event>, i: nat)
    requires Inv(n) && n.link.connected && StraysAre(n, {}) && Valid(n, events) && DropFree(events)
    requires var m := Run(n, events);
             && Enabled(m, Finish(i)) && m.loops[i].epoch == m.link.epoch && forall ch :: !Ahead(m, ch)
    ensures var m := Run(n, events);
            && m.link.server == m.link.wanted + Strays(n, events, {})
            && (m.link.server == m.link.wanted <==> Strays(n, events, {}) == {})
  {
    RunKeepsInv(n, events);
    RunMovesStrays(n, events, {});
    var m, s := Run(n, events), Strays(n, events, {});
    assert m.loops[i].remaining == [];
    assert m.link.wanted <= m.link.server;
    assert m.link.server == m.link.wanted + s;
    assert s == m.link.server - m.link.wanted;
  }

  /** A connection just made is clean when no rejoin loop is still running. */
  lemma NewConnectionIsClean(n: Net, i: nat)
    requires Inv(n) && Enabled(n, DialOk(i)) && !n.link.connected && forall ch :: !Ahead(n, ch)
    ensures StraysAre(Next(n, DialOk(i)), {}) && Next(n, DialOk(i)).link.connected
  {
    forall ch ensures !Ahead(Next(n, DialOk(i)), ch) {
      DialingSendsNothing(n, i, ch);
    }
  }

  lemma DialingSendsNothing(n: Net, i: nat, ch: string)
    requires Enabled(n, DialOk(i))
    ensures Ahead(Next(n, DialOk(i)), ch) ==> Ahead(n, ch)
  {
    var m := Next(n, DialOk(i));
    if Ahead(m, ch) {
      var k :| k in m.loops && m.loops[k].Rejoining? && ch in m.loops[k].remaining;
      assert k in n.loops && n.loops[k] == m.loops[k];
    }
  }

  /** No channel is parted while a rejoin loop still has its JOIN ahead. */
  ghost predicate NoPartAhead(n: Net, events: seq<Event>)
    requires Valid(n, events)
    decreases |events|
  {
    events != [] ==>
      && (events[0].Part? ==> !(events[0].channel in n.link.wanted && Ahead(n, events[0].channel)))
      && NoPartAhead(Next(n, events[0]), events[1..])
  }

  /** Without a part ahead of a JOIN nothing strays. */
  lemma {:induction false} NoPartAheadNoStrays(n: Net, events: seq<Event>)
    requires Valid(n, events) && NoPartAhead(n, events)
    ensures Strays(n, events, {}) == {}
    decreases |events|
  {
    if events != [] {
      assert events[0].Join? ==> {} - {events[0].channel} == {};
      NoPartAheadNoStrays(Next(n, events[0]), events[1..]);
    }
  }

  /** From a clean connection to the end of its last rejoin loop the server holds exactly the wanted
      channels, if no part comes ahead of a JOIN; other parts may come at any time. */
  lemma NoPartAheadJoinsExactly(n: Net, events: seq<Event>, i: nat)
    requires Inv(n) && n.link.connected && StraysAre(n, {}) && Valid(n, events) && DropFree(events)
    requires NoPartAhead(n, events)
    requires var m := Run(n, events);
             && Enabled(m, Finish(i)) && m.loops[i].epoch == m.link.epoch && forall ch :: !Ahead(m, ch)
    ensures Run(n, events).link.server == Run(n, events).link.wanted
  {
    NoPartAheadNoStrays(n, events);
    JoinedSetIsExact(n, events, i);
  }

  /** A channel parted between the snapshot and its JOIN stays joined on the server, unwanted. */
  lemma PartDuringRejoinLeavesStray(ch: string)
    ensures var events := [FirstConnect, Join(ch), Drop, DialOk(0), Snapshot(0, [ch]), Part(ch), Send(0), Finish(0)];
            && Valid(START, events)
            && Run(START, events).link.wanted == {} && Run(START, events).link.server == {ch}
  {
    var e := [FirstConnect, Join(ch), Drop, DialOk(0), Snapshot(0, [ch]), Part(ch), Send(0), Finish(0)];
    var n1 := Next(START, e[0]);
    var n2 := Next(n1, e[1]);
    var n3 := Next(n2, e[2]);
    var n4 := Next(n3, e[3]);
    assert Elements([ch]) == {ch} == n4.link.wanted;
    var n5 := Next(n4, e[4]);
    var n6 := Next(n5, e[5]);
    var n7 := Next(n6, e[6]);
    var n8 := Next(n7, e[7]);
    assert n8.link.wanted == {} && n8.link.server == {ch};
    Unroll(n7, e[7..]);
    Unroll(n6, e[6..]);
    Unroll(n5, e[5..]);
    Unroll(n4, e[4..]);
    Unroll(n3, e[3..]);
    Unroll(n2, e[2..]);
    Unroll(n1, e[1..]);
    Unroll(START, e);
  }

  lemma Unroll(n: Net, events: seq<Event>)
    requires events != [] && Enabled(n, events[0]) && Valid(Next(n, events[0]), events[1..])
    ensures Valid(n, events) && Run(n, events) == Run(Next(n, events[0]), events[1..])
  {
  }

  // ---- Backoff ----

  const SECOND := 1_000_000_000
  const INITIAL_DELAY := 1 * SECOND
  const MAX_DELAY := 30 * SECOND
  const BACKOFF_MULT := 2
  const MAX_ATTEMPTS := 10
  const JITTER_FACTOR := 0.2

  function Pow2(k: nat): (r: nat)
    ensures r >= 1
  {
    if k == 0 then 1 else 2 * Pow2(k - 1)
  }

  /** The delay after `k` failures in a row, in nanoseconds. */
  function Backoff(k: nat): (d: int)
    ensures INITIAL_DELAY <= d <= MAX_DELAY
  {
    Min(Pow2(k) * SECOND, MAX_DELAY)
  }

  lemma BackoffDoubles(k: nat)
    ensures Backoff(k + 1) == Min(Backoff(k) * BACKOFF_MULT, MAX_DELAY)
  {
  }

  /** From the fifth failure on the delay is at its maximum. */
  lemma {:induction false} BackoffSaturates(k: nat)
    requires k >= 5
    ensures Backoff(k) == MAX_DELAY == 30_000_000_000 && Backoff(0) == 1_000_000_000
  {
    if k == 5 {
      assert Pow2(5) == 2 * Pow2(4) == 4 * Pow2(3) == 8 * Pow2(2) == 16 * Pow2(1) == 32;
    } else {
      BackoffSaturates(k - 1);
      BackoffDoubles(k - 1);
    }
  }

  /** Conversion of a floating-point number to a duration cuts towards zero. */
  function Truncate(x: real): int {
    if x >= 0.0 then x.Floor else -((-x).Floor)
  }

  /** A sleep within the jitter of a delay. */
  predicate Jittered(sleep: int, delay: int) {
    sleep >= 0 && delay as real * (1.0 - JITTER_FACTOR) <= sleep as real <= delay as real * (1.0 + JITTER_FACTOR)
  }

  function Scale(d: real, f: real): (x: real)
    requires d >= 0.0 && -1.0 <= f <= 1.0
    ensures -d <= x <= d
  {
    d * f
  }

  /** The random part of a sleep; `random` is between 0 and 1. */
  function Jitter(delay: int, random: real): (jitter: int)
    requires delay >= 0 && 0.0 <= random < 1.0
    ensures Jittered(delay + jitter, delay)
  {
    var d := delay as real * JITTER_FACTOR;
    var x := Scale(d, 2.0 * random - 1.0);
    Truncate(x)
  }

  lemma TruncateGrows(x: real, y: real)
    requires x <= y
    ensures Truncate(x) <= Truncate(y)
  {
  }

  lemma ScaleGrows(d: real, f: real, g: real)
    requires d >= 0.0 && -1.0 <= f <= g <= 1.0
    ensures Scale(d, f) <= Scale(d, g)
  {
    assert d * (g - f) >= 0.0;
    assert d * g == d * f + d * (g - f);
  }

  /** The jitter grows with the random number, from a fifth of the delay less over none at all. */
  lemma JitterSpreads(k: nat, low: real, high: real)
    requires 0.0 <= low <= high < 1.0
    ensures Jitter(5 * k, 0.0) == 0 - k && Jitter(5 * k, 0.5) == 0 && Jitter(10 * k, 0.75) == k
    ensures Jitter(5 * k, low) <= Jitter(5 * k, high)
  {
    var d := (5 * k) as real * JITTER_FACTOR;
    assert d == k as real && (10 * k) as real * JITTER_FACTOR == 2.0 * d;
    ScaleGrows(d, 2.0 * low - 1.0, 2.0 * high - 1.0);
    TruncateGrows(Scale(d, 2.0 * low - 1.0), Scale(d, 2.0 * high - 1.0));
    assert Scale(d, -1.0) == -d && Scale(d, 0.0) == 0.0 && Scale(2.0 * d, 0.5) == d;
  }

  // ---- The client ----

  class Client {
    var channels: set<string>
    var connected: bool
    var reconnectDelay: int
    /** The server's side of the connection. */
    var joined: set<string>
    var connections: nat

    ghost function View(): Link
      reads this
    {
      Link(channels, connected, joined, connections)
    }

    constructor ()
      ensures View() == START.link && reconnectDelay == INITIAL_DELAY
    {
      channels, connected, reconnectDelay, joined, connections := {}, false, INITIAL_DELAY, {}, 0;
    }

    /** `dialOk` says whether the handshake succeeds, should one be needed. */
    method Connect(dialOk: bool) returns (ok: bool)
      modifies this
      ensures ok == (old(connected) || dialOk)
      ensures View() == if ok then old(View()).Dialed() else old(View())
      ensures reconnectDelay == if !old(connected) && dialOk then INITIAL_DELAY else old(reconnectDelay)
    {
      if connected {
        return true;
      }
      if !dialOk {
        return false;
      }
      joined, connections := {}, connections + 1;
      connected := true;
      reconnectDelay := INITIAL_DELAY;
      ok := true;
    }

    /** `sendOk` says whether writing to the connection succeeds, should it be needed. */
    method Join(name: string, sendOk: bool) returns (ok: bool)
      modifies this`channels, this`joined
      ensures ok == (NormalizeChannel(name) in old(channels) || !connected || sendOk)
      ensures View() == if ok then old(View()).Joined(NormalizeChannel(name)) else old(View())
    {
      var channel := NormalizeChannel(name);
      if channel in channels {
        return true;
      }
      if connected {
        if !sendOk {
          return false;
        }
        joined := joined + {channel};
      }
      channels := channels + {channel};
      ok := true;
    }

    method Part(name: string, sendOk: bool) returns (ok: bool)
      modifies this`channels, this`joined
      ensures ok == (NormalizeChannel(name) !in old(channels) || !connected || sendOk)
      ensures View() == if ok then old(View()).Parted(NormalizeChannel(name)) else old(View())
    {
      var channel := NormalizeChannel(name);
      if channel !in channels {
        return true;
      }
      if connected {
        if !sendOk {
          return false;
        }
        joined := joined - {channel};
      }
      channels := channels - {channel};
      ok := true;
    }

    method HandleDisconnect()
      modifies this`connected, this`joined
      ensures View() == old(View()).Dropped()
    {
      connected, joined := false, {};
    }

    /** The rejoin loop, when nothing runs beside it. */
    method Rejoin(order: seq<string>)
      requires connected
      modifies this`joined
      ensures joined == old(joined) + Elements(order)
    {
      for k := 0 to |order|
        invariant joined == old(joined) + Elements(order[..k])
      {
        assert order[..k + 1] == order[..k] + [order[k]];
        joined := joined + {order[k]};
      }
      assert order[..|order|] == order;
    }

    /** The dialling part of `reconnect`: attempt `i` sleeps, then dials with outcome `dials[i]`; running
        out of outcomes stands for the client being closed. The sleeps follow the backoff whatever the
        number of attempts, so the branch taken after ten of them never changes the delay. */
    method Redial(dials: seq<bool>, randoms: seq<real>) returns (sleeps: seq<int>, ok: bool)
      requires !connected && reconnectDelay == INITIAL_DELAY
      requires |randoms| == |dials| && forall i :: 0 <= i < |randoms| ==> 0.0 <= randoms[i] < 1.0
      modifies this
      ensures |sleeps| <= |dials| && forall i :: 0 <= i < |sleeps| ==> Jittered(sleeps[i], Backoff(i))
      ensures ok ==> sleeps != [] && dials[|sleeps| - 1] && forall i :: 0 <= i < |sleeps| - 1 ==> !dials[i]
      ensures !ok ==> |sleeps| == |dials| && forall i :: 0 <= i < |dials| ==> !dials[i]
      ensures View() == if ok then old(View()).Dialed() else old(View())
      ensures reconnectDelay == if ok then INITIAL_DELAY else Backoff(|dials|)
    {
      var attempts := 0;
      sleeps, ok := [], false;
      while |sleeps| < |dials|
        invariant !ok && |sleeps| <= |dials| && View() == old(View())
        invariant forall i :: 0 <= i < |sleeps| ==> !dials[i] && Jittered(sleeps[i], Backoff(i))
        invariant reconnectDelay == Backoff(|sleeps|)
        invariant 0 <= attempts <= MAX_ATTEMPTS && attempts <= |sleeps|
      {
        var n := |sleeps|;
        attempts := attempts + 1;
        if attempts > MAX_ATTEMPTS {
          BackoffSaturates(n);
          reconnectDelay := MAX_DELAY;
          attempts := 0;
        }
        var delay := reconnectDelay;
        var sleepTime := delay + Jitter(delay, randoms[n]);
        if sleepTime < 0 {
          sleepTime := delay;
        }
        sleeps := sleeps + [sleepTime];
        ok := Connect(dials[n]);
        if ok {
          return;
        }
        BackoffDoubles(n);
        reconnectDelay := Min(reconnectDelay * BACKOFF_MULT, MAX_DELAY);
      }
    }
  }
}
