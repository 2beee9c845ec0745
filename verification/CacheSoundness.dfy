/** What the processor's caches may answer, over any run of lookups, evictions and table changes. */
module CacheSoundness {
  import opened ChannelNames
  import opened GoStrings
  import opened Schema
  import opened Processor

  /** One use of the caches, or one committed change of the tables, at a time. */
  datatype Op =
    | FindChannelId(name: string, fault: bool)
    | FindUserId(name: string, displayName: string, fault: bool)
    | Evict
    | Invalidate(name: string)
    | Clear
    | Write(change: Change)

  datatype Timed = Timed(op: Op, now: int)

  function Do(m: Memo, t: Timed, ttl: int): (Option<Lookup>, Memo) {
    match t.op
    case FindChannelId(name, fault) => var (r, m') := LookupChannel(m, name, t.now, ttl, fault); (Some(r), m')
    case FindUserId(name, displayName, fault) =>
      var (r, m') := LookupUser(m, name, displayName, t.now, ttl, fault); (Some(r), m')
    case Evict => (None, m.(channels := Evicted(m.channels, t.now, ttl), users := Evicted(m.users, t.now, ttl)))
    case Invalidate(name) => (None, m.(channels := m.channels - {NormalizeChannelName(name)}))
    case Clear => (None, m.(channels := map[], users := map[]))
    case Write(change) => (None, m.(db := Apply(m.db, change)))
  }

  /** The answers of a run. */
  function Answers(m: Memo, ops: seq<Timed>, ttl: int): seq<Option<Lookup>>
    decreases |ops|
  {
    if ops == [] then []
    else
      var (r, m') := Do(m, ops[0], ttl);
      [r] + Answers(m', ops[1..], ttl)
  }

  ghost predicate Monotone(clock: int, ops: seq<Timed>)
    decreases |ops|
  {
    ops == [] || (clock <= ops[0].now && Monotone(ops[0].now, ops[1..]))
  }

  // ---- Who a cached identifier names ----

  /** A cached channel identifier names the channel of its name or no channel; a cached user identifier is
      the table's. */
  ghost predicate Sound(m: Memo) {
    Inv(m.db) && EntriesTrue(m)
  }

  /** A cached channel identifier is that of the name, or of no channel any more and never again; a cached
      user identifier is that of the name. */
  ghost predicate EntriesTrue(m: Memo) {
    && (forall n :: n in m.channels ==>
          && 1 <= m.channels[n].value < m.db.nextChannel
          && (FindChannel(m.db, n) == Some(m.channels[n].value) || m.channels[n].value !in m.db.channels))
    && (forall n :: n in m.users ==> FindUser(m.db, n) == Some(m.users[n].value))
  }

  /** What a change of the tables leaves of the names: users stay, a channel identifier keeps its name
      while it lives, and new identifiers are new. */
  ghost predicate NamesKept(before: Db, after: Db) {
    && before.nextChannel <= after.nextChannel
    && (forall n :: n in before.userIds ==> n in after.userIds && after.userIds[n] == before.userIds[n])
    && (forall n :: n in before.channelIds && before.channelIds[n] in after.channels ==>
          n in after.channelIds && after.channelIds[n] == before.channelIds[n])
    && (forall id :: id in after.channels ==> id in before.channels || before.nextChannel <= id)
  }

  lemma {:induction false} InsertAllKeepsNames(db: Db, rows: seq<MessageRow>)
    requires InsertAll(db, rows).Some?
    ensures var d := InsertAll(db, rows).value;
            && d.userIds == db.userIds && d.channelIds == db.channelIds && d.nextChannel == db.nextChannel
            && d.channels.Keys == db.channels.Keys
  {
    if rows != [] {
      InsertAllKeepsNames(db, rows[..|rows| - 1]);
      var d, row := InsertAll(db, rows[..|rows| - 1]).value, rows[|rows| - 1];
      assert InsertMessage(d, row).value.channels.Keys == d.channels.Keys + {row.channelId};
    }
  }

  lemma ApplyKeepsNames(db: Db, c: Change)
    requires IndexInv(db) && KeysInv(db)
    ensures NamesKept(db, Apply(db, c))
  {
    match c
    case InsertBatch(rows) => if InsertAll(db, rows).Some? { InsertAllKeepsNames(db, rows); }
    case DeleteChannel(id) => DropKeepsNames(db, id);
    case NewChannel(name, displayName, enabled, retain) => AddKeepsNames(db, name, displayName, enabled, retain);
    case _ =>
  }

  lemma DropKeepsNames(db: Db, id: nat)
    requires IndexInv(db)
    ensures NamesKept(db, DropChannel(db, id))
  {
  }

  lemma AddKeepsNames(db: Db, name: string, displayName: string, enabled: bool, retain: bool)
    requires KeysInv(db)
    ensures var d := AddChannel(db, name, displayName, enabled, retain); d.Some? ==> NamesKept(db, d.value)
  {
  }

  lemma NamesKeptKeepEntries(m: Memo, after: Db)
    requires EntriesTrue(m) && NamesKept(m.db, after)
    ensures EntriesTrue(m.(db := after))
  {
  }

  lemma WriteKeepsSound(m: Memo, c: Change)
    requires Sound(m)
    ensures Sound(m.(db := Apply(m.db, c)))
  {
    ApplyKeepsInv(m.db, c);
    ApplyKeepsNames(m.db, c);
    NamesKeptKeepEntries(m, Apply(m.db, c));
  }

  /** The change of the tables that finding or creating a user comes to. */
  lemma GetOrCreateIsAChange(db: Db, name: string, displayName: string, now: int) returns (c: Change)
    ensures var after := GetOrCreate(db, name, displayName, now).1; after == db || after == Apply(db, c)
  {
    c := if FindUser(db, name).Some? then EditUser(FindUser(db, name).value, displayName)
         else NewUser(name, displayName, now);
  }

  lemma GetOrCreateKeepsSound(m: Memo, name: string, displayName: string, now: int)
    requires Sound(m)
    ensures var after := GetOrCreate(m.db, name, displayName, now).1;
            Sound(m.(db := after)) && NamesKept(m.db, after)
  {
    var c := GetOrCreateIsAChange(m.db, name, displayName, now);
    if GetOrCreate(m.db, name, displayName, now).1 != m.db {
      WriteKeepsSound(m, c);
      ApplyKeepsNames(m.db, c);
    }
  }

  lemma LookupUserKeepsSound(m: Memo, name: string, displayName: string, now: int, ttl: int, fault: bool)
    requires Sound(m)
    ensures var m' := LookupUser(m, name, displayName, now, ttl, fault).1; Sound(m') && NamesKept(m.db, m'.db)
  {
    GetOrCreateKeepsSound(m, name, displayName, now);
  }

  lemma NamesKeptOnwards(a: Db, b: Db, c: Db)
    requires Inv(a) && NamesKept(a, b) && NamesKept(b, c)
    ensures NamesKept(a, c)
  {
  }

  lemma {:induction false} MeanwhileKeepsSound(m: Memo, changes: seq<Change>)
    requires Sound(m)
    ensures Sound(Meanwhile(m, changes)) && NamesKept(m.db, Meanwhile(m, changes).db)
    decreases |changes|
  {
    if changes != [] {
      var m1 := m.(db := Apply(m.db, changes[0]));
      WriteKeepsSound(m, changes[0]);
      ApplyKeepsNames(m.db, changes[0]);
      MeanwhileKeepsSound(m1, changes[1..]);
      assert Meanwhile(m, changes) == Meanwhile(m1, changes[1..]);
      NamesKeptOnwards(m.db, m1.db, Meanwhile(m, changes).db);
    }
  }

  lemma DoKeepsSound(m: Memo, t: Timed, ttl: int)
    requires Sound(m)
    ensures Sound(Do(m, t, ttl).1)
  {
    match t.op
    case FindUserId(name, displayName, fault) => LookupUserKeepsSound(m, name, displayName, t.now, ttl, fault);
    case Write(change) => WriteKeepsSound(m, change);
    case _ =>
  }

  function After(m: Memo, ops: seq<Timed>, ttl: int): Memo
    decreases |ops|
  {
    if ops == [] then m else After(Do(m, ops[0], ttl).1, ops[1..], ttl)
  }

  /** Over every run, a cached channel identifier names either the same channel or no channel, and a
      cached user identifier always equals the table's. */
  lemma {:induction false} CachesStaySound(m: Memo, ops: seq<Timed>, ttl: int)
    requires Sound(m)
    ensures Sound(After(m, ops, ttl))
    decreases |ops|
  {
    if ops != [] {
      DoKeepsSound(m, ops[0], ttl);
      CachesStaySound(Do(m, ops[0], ttl).1, ops[1..], ttl);
    }
  }

  // ---- How old an answer may be ----

  /** The channel names of the table at a moment of the past. */
  datatype Snapshot = Snapshot(time: int, ids: map<string, nat>)

  /** A run so far: the caches and tables, and the table's names at the time of each operation. */
  datatype History = History(m: Memo, clock: int, seen: seq<Snapshot>)

  function Advance(h: History, t: Timed, ttl: int): History {
    History(Do(h.m, t, ttl).1, t.now, h.seen + [Snapshot(t.now, h.m.db.channelIds)])
  }

  /** The table held `id` for `name` at some moment from `since` (exclusive) to `until`. */
  ghost predicate Held(seen: seq<Snapshot>, name: string, id: nat, since: int, until: int) {
    exists k :: 0 <= k < |seen| && since < seen[k].time <= until
                && ToLower(name) in seen[k].ids && seen[k].ids[ToLower(name)] == id
  }

  /** Every cached channel was in the table when its entry was made. */
  ghost predicate Dated(h: History) {
    forall n :: n in h.m.channels ==>
      && h.m.channels[n].createdAt <= h.clock
      && Held(h.seen, n, h.m.channels[n].value, h.m.channels[n].createdAt - 1, h.m.channels[n].createdAt)
  }

  lemma HeldStays(seen: seq<Snapshot>, s: Snapshot, name: string, id: nat, since: int, until: int)
    requires Held(seen, name, id, since, until)
    ensures Held(seen + [s], name, id, since, until)
  {
    var k :| 0 <= k < |seen| && since < seen[k].time <= until
             && ToLower(name) in seen[k].ids && seen[k].ids[ToLower(name)] == id;
    assert (seen + [s])[k] == seen[k];
  }

  lemma HeldNow(seen: seq<Snapshot>, s: Snapshot, name: string, id: nat)
    requires ToLower(name) in s.ids && s.ids[ToLower(name)] == id
    ensures Held(seen + [s], name, id, s.time - 1, s.time)
  {
    assert (seen + [s])[|seen|] == s;
  }

  lemma AdvanceKeepsDated(h: History, t: Timed, ttl: int)
    requires Dated(h) && h.clock <= t.now
    ensures Dated(Advance(h, t, ttl))
  {
    var h', s := Advance(h, t, ttl), Snapshot(t.now, h.m.db.channelIds);
    forall n | n in h'.m.channels
      ensures h'.m.channels[n].createdAt <= h'.clock
      ensures Held(h'.seen, n, h'.m.channels[n].value, h'.m.channels[n].createdAt - 1, h'.m.channels[n].createdAt)
    {
      if n in h.m.channels && h'.m.channels[n] == h.m.channels[n] {
        HeldStays(h.seen, s, n, h.m.channels[n].value, h.m.channels[n].createdAt - 1, h.m.channels[n].createdAt);
      } else {
        HeldNow(h.seen, s, n, h'.m.channels[n].value);
      }
    }
  }

  /** A channel identifier found at `now` is one the table held for that name within the last TTL. */
  lemma FoundWasHeldWithinTTL(h: History, name: string, now: int, ttl: int, fault: bool)
    requires Dated(h) && h.clock <= now && ttl > 0
    ensures var r := LookupChannel(h.m, name, now, ttl, fault).0;
            r.Found? ==> Held(Advance(h, Timed(FindChannelId(name, fault), now), ttl).seen, name, r.id, now - ttl, now)
  {
    var s, r := Snapshot(now, h.m.db.channelIds), LookupChannel(h.m, name, now, ttl, fault).0;
    if Fresh(h.m.channels, name, now, ttl) {
      var e := h.m.channels[name];
      HeldStays(h.seen, s, name, e.value, e.createdAt - 1, e.createdAt);
    } else if r.Found? {
      HeldNow(h.seen, s, name, r.id);
    }
  }

  function Replay(h: History, ops: seq<Timed>, ttl: int): History
    decreases |ops|
  {
    if ops == [] then h else Replay(Advance(h, ops[0], ttl), ops[1..], ttl)
  }

  lemma {:induction false} HistoriesStayDated(h: History, ops: seq<Timed>, ttl: int)
    requires Dated(h) && Monotone(h.clock, ops)
    ensures Dated(Replay(h, ops, ttl))
    decreases |ops|
  {
    if ops != [] {
      AdvanceKeepsDated(h, ops[0], ttl);
      HistoriesStayDated(Advance(h, ops[0], ttl), ops[1..], ttl);
    }
  }

  // ---- Eviction ----

  /** From time `t` on, the two caches answer alike. */
  ghost predicate AlikeFrom(a: Cache, b: Cache, t: int, ttl: int) {
    forall n :: (Fresh(a, n, t, ttl) <==> Fresh(b, n, t, ttl)) && (Fresh(a, n, t, ttl) ==> a[n] == b[n])
  }

  ghost predicate MemosAlike(a: Memo, b: Memo, t: int, ttl: int) {
    a.db == b.db && AlikeFrom(a.channels, b.channels, t, ttl) && AlikeFrom(a.users, b.users, t, ttl)
  }

  lemma UpdatedAlike(a: Cache, b: Cache, t: int, ttl: int, name: string, e: Entry)
    requires AlikeFrom(a, b, t, ttl)
    ensures AlikeFrom(a[name := e], b[name := e], t, ttl)
  {
    var a', b' := a[name := e], b[name := e];
    forall n ensures (Fresh(a', n, t, ttl) <==> Fresh(b', n, t, ttl)) && (Fresh(a', n, t, ttl) ==> a'[n] == b'[n])
    {
      assert Fresh(a, n, t, ttl) <==> Fresh(b, n, t, ttl);
    }
  }

  lemma RemovedAlike(a: Cache, b: Cache, t: int, ttl: int, name: string)
    requires AlikeFrom(a, b, t, ttl)
    ensures AlikeFrom(a - {name}, b - {name}, t, ttl)
  {
    var a', b' := a - {name}, b - {name};
    forall n ensures (Fresh(a', n, t, ttl) <==> Fresh(b', n, t, ttl)) && (Fresh(a', n, t, ttl) ==> a'[n] == b'[n])
    {
      assert Fresh(a, n, t, ttl) <==> Fresh(b, n, t, ttl);
    }
  }

  lemma DoAlike(a: Memo, b: Memo, t: Timed, ttl: int)
    requires MemosAlike(a, b, t.now, ttl)
    ensures Do(a, t, ttl).0 == Do(b, t, ttl).0 && MemosAlike(Do(a, t, ttl).1, Do(b, t, ttl).1, t.now, ttl)
  {
    match t.op
    case FindChannelId(name, fault) =>
      assert Fresh(a.channels, name, t.now, ttl) <==> Fresh(b.channels, name, t.now, ttl);
      if FindChannel(a.db, name).Some? {
        UpdatedAlike(a.channels, b.channels, t.now, ttl, name, Entry(FindChannel(a.db, name).value, t.now));
      }
    case FindUserId(name, displayName, fault) =>
      assert Fresh(a.users, name, t.now, ttl) <==> Fresh(b.users, name, t.now, ttl);
      UpdatedAlike(a.users, b.users, t.now, ttl, name, Entry(GetOrCreate(a.db, name, displayName, t.now).0, t.now));
    case Evict =>
    case Invalidate(name) => RemovedAlike(a.channels, b.channels, t.now, ttl, NormalizeChannelName(name));
    case Clear =>
    case Write(change) =>
  }

  lemma {:induction false} AlikeMemosAnswerAlike(a: Memo, b: Memo, clock: int, ops: seq<Timed>, ttl: int)
    requires MemosAlike(a, b, clock, ttl) && Monotone(clock, ops)
    ensures Answers(a, ops, ttl) == Answers(b, ops, ttl)
    decreases |ops|
  {
    if ops != [] {
      DoAlike(a, b, ops[0], ttl);
      AlikeMemosAnswerAlike(Do(a, ops[0], ttl).1, Do(b, ops[0], ttl).1, ops[0].now, ops[1..], ttl);
    }
  }

  /** An eviction never changes the answer of any later lookup. */
  lemma EvictionChangesNoAnswer(m: Memo, now: int, ops: seq<Timed>, ttl: int)
    requires Monotone(now, ops)
    ensures Answers(Do(m, Timed(Evict, now), ttl).1, ops, ttl) == Answers(m, ops, ttl)
  {
    AlikeMemosAnswerAlike(Do(m, Timed(Evict, now), ttl).1, m, now, ops, ttl);
  }
}
