/** The channel service of internal/services/channel_service.go: a write-through cache of the channels
    table, kept beside the set of channels the IRC client has joined. */
module ChannelService {
  import opened ChannelNames
  import opened GoStrings
  import opened IrcClient
  import opened Schema

  /** What a cached channel says; its name is its key. */
  datatype Cached = Cached(id: nat, displayName: string, enabled: bool, retain: bool)

  datatype State = State(db: Db, link: Link, cache: map<string, Cached>)

  /** Whether reading the table, writing it, reading a new row again, and writing to the IRC connection
      succeed. */
  datatype Luck = Luck(read: bool, write: bool, reread: bool, send: bool)

  datatype Outcome = Done(id: nat) | NotFound | Exists | InvalidName | RepoError

  datatype Op =
    | Create(name: string, displayName: string, enabled: bool, retain: bool)
    | Update(id: nat, newDisplayName: Option<string>, newEnabled: Option<bool>, newRetain: Option<bool>)
    | Delete(id: nat, retainHistory: bool)
    /** Messages are stored, the connection is lost, or it is back with all wanted channels joined. */
    | Ingested(rows: seq<MessageRow>)
    | Lost
    | Regained

  function CachedOf(id: nat, row: ChannelRow): Cached {
    Cached(id, row.displayName, row.enabled, row.retain)
  }

  function Chosen<T>(choice: Option<T>, current: T): T {
    if choice.Some? then choice.value else current
  }

  function Joining(link: Link, name: string, send: bool): Link {
    if link.connected && send then link.Joined(NormalizeChannel("#" + name)) else link
  }

  function Parting(link: Link, name: string, send: bool): Link {
    if link.connected && send then link.Parted(NormalizeChannel("#" + name)) else link
  }

  /** The message to the server that goes with a change from `was` to `on`. */
  function Followed(link: Link, name: string, was: bool, on: bool, send: bool): Link {
    if !was && on then Joining(link, name, send) else if was && !on then Parting(link, name, send) else link
  }

  // ---- Operations ----

  function CreateStep(s: State, name: string, displayName: string, enabled: bool, retain: bool, l: Luck): (Outcome, State) {
    var n := NormalizeChannelName(name);
    if n == "" then (InvalidName, s)
    else if !l.read then (RepoError, s)
    else if FindChannel(s.db, n).Some? then (Exists, s)
    else if !l.write then (RepoError, s)
    else
      var shown, id := if displayName == "" then n else displayName, s.db.nextChannel;
      var db := AddChannel(s.db, n, shown, enabled, retain).value;
      if !l.reread then (RepoError, s.(db := db))
      else (Done(id), State(db, if enabled then Joining(s.link, n, l.send) else s.link,
                            s.cache[n := Cached(id, shown, enabled, retain)]))
  }

  /** `Create` gets as far as inserting the row. */
  predicate Inserts(s: State, name: string, l: Luck) {
    var n := NormalizeChannelName(name);
    n != "" && l.read && FindChannel(s.db, n).None? && l.write
  }

  function UpdateStep(s: State, id: nat, displayName: Option<string>, enabled: Option<bool>, retain: Option<bool>,
                      l: Luck): (Outcome, State) {
    if !l.read then (RepoError, s)
    else if id !in s.db.channels then (NotFound, s)
    else if !l.write then (RepoError, s)
    else
      var row := s.db.channels[id];
      var on := Chosen(enabled, row.enabled);
      var c := Cached(id, Chosen(displayName, row.displayName), on, Chosen(retain, row.retain));
      (Done(id), State(SetChannel(s.db, id, c.displayName, on, c.retain),
                       Followed(s.link, row.name, row.enabled, on, l.send),
                       s.cache[row.name := c]))
  }

  /** The IRC part goes out before the row is deleted, and stays out if that fails. */
  function DeleteStep(s: State, id: nat, retainHistory: bool, l: Luck): (Outcome, State) {
    if !l.read then (RepoError, s)
    else if id !in s.db.channels then (NotFound, s)
    else
      var row := s.db.channels[id];
      var link := if row.enabled then Parting(s.link, row.name, l.send) else s.link;
      if !l.write then (RepoError, s.(link := link))
      else (Done(id), State(DropChannel(s.db, id), link, s.cache - {row.name}))
  }

  function Step(s: State, op: Op, l: Luck): State {
    match op
    case Create(name, displayName, enabled, retain) => CreateStep(s, name, displayName, enabled, retain, l).1
    case Update(id, displayName, enabled, retain) => UpdateStep(s, id, displayName, enabled, retain, l).1
    case Delete(id, retainHistory) => DeleteStep(s, id, retainHistory, l).1
    case Ingested(rows) => s.(db := Apply(s.db, InsertBatch(rows)))
    case Lost => s.(link := s.link.Dropped())
    case Regained => s.(link := s.link.(connected := true, server := s.link.wanted))
  }

  /** The rows of the table in some order, each once. */
  ghost predicate Enumerates(order: seq<nat>, channels: map<nat, ChannelRow>) {
    (forall id :: id in order <==> id in channels) && forall i, j :: 0 <= i < j < |order| ==> order[i] != order[j]
  }

  /** The loop of `Initialize` over the listed channels; the JOINs of the channels `failing` cannot be sent. */
  function LoadAll(s: State, order: seq<nat>, failing: set<nat>): (r: State)
    requires forall id :: id in order ==> id in s.db.channels
    ensures r.db == s.db && r.link.connected == s.link.connected
  {
    if order == [] then s
    else
      var n := |order| - 1;
      var s1, id := LoadAll(s, order[..n], failing), order[n];
      assert id in order;
      var row := s.db.channels[id];
      State(s.db, if row.enabled then Joining(s1.link, row.name, id !in failing) else s1.link,
            s1.cache[row.name := CachedOf(id, row)])
  }

  datatype Answer = Channel(c: Cached) | Absent | Failure

  function Direct(db: Db, name: string): Answer {
    match FindChannel(db, name)
    case None => Absent
    case Some(id) => if id in db.channels then Channel(CachedOf(id, db.channels[id])) else Absent
  }

  function GetByNameOf(s: State, name: string, read: bool): Answer {
    var n := NormalizeChannelName(name);
    if n in s.cache then Channel(s.cache[n]) else if !read then Failure else Direct(s.db, n)
  }

  // ---- The cache agrees with the table ----

  /** The channels are found under their names, which are names the service gives. */
  ghost predicate Sound(db: Db) {
    forall id :: id in db.channels ==>
      id < db.nextChannel && Plain(db.channels[id].name) && FindChannel(db, db.channels[id].name) == Some(id)
  }

  ghost predicate Tells(cache: map<string, Cached>, channels: map<nat, ChannelRow>) {
    forall n :: n in cache ==>
      cache[n].id in channels && channels[cache[n].id].name == n && cache[n] == CachedOf(cache[n].id, channels[cache[n].id])
  }

  ghost predicate Covers(cache: map<string, Cached>, channels: map<nat, ChannelRow>) {
    forall id :: id in channels ==> channels[id].name in cache
  }

  /** Every cached channel is in the table, and is there as cached. */
  ghost predicate CacheTrue(s: State) {
    Tells(s.cache, s.db.channels)
  }

  /** The operation does not insert a channel it then fails to read again. */
  predicate Covered(s: State, op: Op, l: Luck) {
    op.Create? && Inserts(s, op.name, l) ==> l.reread
  }

  /** Every channel of the table is cached. */
  ghost predicate CacheFull(s: State) {
    Covers(s.cache, s.db.channels)
  }

  /** Two tables that differ in message counts at most. */
  ghost predicate SameChannels(a: Db, b: Db) {
    && a.channelIds == b.channelIds && a.nextChannel == b.nextChannel && a.channels.Keys == b.channels.Keys
    && forall id :: id in a.channels ==>
         b.channels[id].name == a.channels[id].name && CachedOf(id, b.channels[id]) == CachedOf(id, a.channels[id])
  }

  lemma {:induction false} InsertKeepsChannels(db: Db, rows: seq<MessageRow>)
    requires InsertAll(db, rows).Some?
    ensures SameChannels(db, InsertAll(db, rows).value)
  {
    if rows != [] {
      InsertKeepsChannels(db, rows[..|rows| - 1]);
    }
  }

  /** Every reachable database with plain channel names is sound. */
  lemma InvIsSound(db: Db)
    requires Schema.Inv(db) && forall id :: id in db.channels ==> Plain(db.channels[id].name)
    ensures Sound(db)
  {
  }

  ghost predicate NamesDiffer(channels: map<nat, ChannelRow>) {
    forall a, b :: a in channels && b in channels && a != b ==> channels[a].name != channels[b].name
  }

  lemma SoundNamesDiffer(db: Db)
    requires Sound(db)
    ensures NamesDiffer(db.channels)
  {
  }

  lemma AddKeepsSound(db: Db, name: string, displayName: string, enabled: bool, retain: bool)
    requires Sound(db) && Plain(name) && FindChannel(db, name).None?
    ensures Sound(AddChannel(db, name, displayName, enabled, retain).value)
  {
  }

  lemma SetKeepsSound(db: Db, id: nat, displayName: string, enabled: bool, retain: bool)
    requires Sound(db)
    ensures Sound(SetChannel(db, id, displayName, enabled, retain))
  {
  }

  lemma DropKeepsSound(db: Db, id: nat)
    requires Sound(db)
    ensures Sound(DropChannel(db, id))
  {
    if id in db.channels {
      var d := DropChannel(db, id);
      forall k | k in d.channels ensures FindChannel(d, d.channels[k].name) == Some(k) {
        assert FindChannel(db, db.channels[k].name) == Some(k) && FindChannel(db, db.channels[id].name) == Some(id);
      }
    }
  }

  lemma IngestKeepsSound(db: Db, rows: seq<MessageRow>)
    requires Sound(db)
    ensures var d := Apply(db, InsertBatch(rows)); Sound(d) && SameChannels(db, d)
  {
    if InsertAll(db, rows).Some? {
      InsertKeepsChannels(db, rows);
    }
  }

  lemma StepKeepsSound(s: State, op: Op, l: Luck)
    requires Sound(s.db)
    ensures Sound(Step(s, op, l).db)
  {
    match op
    case Create(name, displayName, enabled, retain) =>
      if Inserts(s, name, l) {
        var n := NormalizeChannelName(name);
        NormalizedIsPlain(name);
        AddKeepsSound(s.db, n, if displayName == "" then n else displayName, enabled, retain);
      }
    case Update(id, displayName, enabled, retain) =>
      if id in s.db.channels {
        var row := s.db.channels[id];
        SetKeepsSound(s.db, id, Chosen(displayName, row.displayName), Chosen(enabled, row.enabled), Chosen(retain, row.retain));
      }
    case Delete(id, _) => DropKeepsSound(s.db, id);
    case Ingested(rows) => IngestKeepsSound(s.db, rows);
    case Lost =>
    case Regained =>
  }

  lemma PutKeepsCache(cache: map<string, Cached>, channels: map<nat, ChannelRow>, id: nat, row: ChannelRow)
    requires Tells(cache, channels) && NamesDiffer(channels[id := row])
    requires id in channels ==> channels[id].name == row.name
    ensures Tells(cache[row.name := CachedOf(id, row)], channels[id := row])
    ensures Covers(cache, channels) ==> Covers(cache[row.name := CachedOf(id, row)], channels[id := row])
  {
  }

  lemma DropKeepsCache(cache: map<string, Cached>, channels: map<nat, ChannelRow>, id: nat)
    requires Tells(cache, channels) && NamesDiffer(channels) && id in channels
    ensures Tells(cache - {channels[id].name}, channels - {id})
    ensures Covers(cache, channels) ==> Covers(cache - {channels[id].name}, channels - {id})
  {
  }

  /** The row `Create` adds. */
  function NewRow(op: Op): ChannelRow
    requires op.Create?
  {
    var n := NormalizeChannelName(op.name);
    ChannelRow(n, if op.displayName == "" then n else op.displayName, op.enabled, op.retain, 0, None)
  }

  /** A row that is added and not cached leaves the cache true and no longer full. */
  lemma AddOnlyKeepsCache(cache: map<string, Cached>, channels: map<nat, ChannelRow>, id: nat, row: ChannelRow)
    requires Tells(cache, channels) && id !in channels && forall k :: k in channels ==> channels[k].name != row.name
    ensures Tells(cache, channels[id := row]) && !Covers(cache, channels[id := row])
  {
    assert channels[id := row][id].name !in cache;
  }

  lemma CreateKeepsCache(s: State, op: Op, l: Luck)
    requires Sound(s.db) && CacheTrue(s) && op.Create?
    ensures CacheTrue(Step(s, op, l)) && (CacheFull(s) ==> (CacheFull(Step(s, op, l)) <==> Covered(s, op, l)))
  {
    if Inserts(s, op.name, l) {
      var row := NewRow(op);
      if l.reread {
        PutKeepsCache(s.cache, s.db.channels, s.db.nextChannel, row);
      } else {
        AddOnlyKeepsCache(s.cache, s.db.channels, s.db.nextChannel, row);
      }
    }
  }

  lemma UpdateKeepsCache(s: State, op: Op, l: Luck)
    requires Sound(s.db) && CacheTrue(s) && op.Update?
    ensures CacheTrue(Step(s, op, l)) && (CacheFull(s) ==> CacheFull(Step(s, op, l)))
  {
    SoundNamesDiffer(s.db);
    if op.id in s.db.channels && l.read && l.write {
      var row := Step(s, op, l).db.channels[op.id];
      PutKeepsCache(s.cache, s.db.channels, op.id, row);
    }
  }

  lemma DeleteKeepsCache(s: State, op: Op, l: Luck)
    requires Sound(s.db) && CacheTrue(s) && op.Delete?
    ensures CacheTrue(Step(s, op, l)) && (CacheFull(s) ==> CacheFull(Step(s, op, l)))
  {
    SoundNamesDiffer(s.db);
    if op.id in s.db.channels {
      DropKeepsCache(s.cache, s.db.channels, op.id);
    }
  }

  /** Whatever fails, what is cached is in the table as it is cached; and a full cache stays full if and
      only if no channel is inserted whose row is then not read again. */
  lemma StepKeepsCache(s: State, op: Op, l: Luck)
    requires Sound(s.db) && CacheTrue(s)
    ensures CacheTrue(Step(s, op, l)) && (CacheFull(s) ==> (CacheFull(Step(s, op, l)) <==> Covered(s, op, l)))
  {
    match op
    case Create(_, _, _, _) => CreateKeepsCache(s, op, l);
    case Update(_, _, _, _) => UpdateKeepsCache(s, op, l);
    case Delete(_, _) => DeleteKeepsCache(s, op, l);
    case Ingested(rows) => IngestKeepsSound(s.db, rows);
    case Lost =>
    case Regained =>
  }

  /** A lookup through the cache answers what a lookup in the table would, and needs the table only for a name
      that is not cached. */
  lemma GetByNameIsDirect(s: State, name: string, read: bool)
    requires Sound(s.db) && CacheTrue(s)
    ensures GetByNameOf(s, name, read)
            == if read || NormalizeChannelName(name) in s.cache then Direct(s.db, NormalizeChannelName(name)) else Failure
  {
    var n := NormalizeChannelName(name);
    if n in s.cache {
      assert FindChannel(s.db, n) == Some(s.cache[n].id);
    }
  }

  // ---- What an operation does ----

  /** The value that was given, or else the value as before. */
  predicate Given<T(==)>(choice: Option<T>, was: T, now: T) {
    match choice
    case Some(value) => now == value
    case None => now == was
  }

  /** Of table and cache at most the row `id` and the entry `name` differ. */
  ghost predicate OnlyAt(before: State, after: State, id: nat, name: string) {
    && after.db.users == before.db.users && after.db.log == before.db.log
    && (forall k :: k != id ==> (k in after.db.channels <==> k in before.db.channels))
    && (forall k :: k != id && k in before.db.channels ==> after.db.channels[k] == before.db.channels[k])
    && (forall n :: n != name ==> (n in after.cache <==> n in before.cache))
    && (forall n :: n != name && n in before.cache ==> after.cache[n] == before.cache[n])
  }

  /** The cache tells of the row. */
  predicate CachedAs(s: State, id: nat) {
    id in s.db.channels
    && var row := s.db.channels[id];
       row.name in s.cache && s.cache[row.name] == Cached(id, row.displayName, row.enabled, row.retain)
  }

  /** The row `id` and its cache entry hold the fields given, and keep the others. */
  ghost predicate Updated(before: State, after: State, id: nat, displayName: Option<string>, enabled: Option<bool>,
                          retain: Option<bool>) {
    && id in before.db.channels && CachedAs(after, id)
    && var was, now := before.db.channels[id], after.db.channels[id];
       && now.name == was.name && now.total == was.total && now.lastMessageAt == was.lastMessageAt
       && Given(displayName, was.displayName, now.displayName)
       && Given(enabled, was.enabled, now.enabled) && Given(retain, was.retain, now.retain)
       && OnlyAt(before, after, id, was.name)
  }

  /** An update answers with success exactly if the channel is there and the database does not fail, and has
      then applied what was given, and nothing else; in any other case it has changed nothing. */
  lemma UpdateApplies(s: State, id: nat, displayName: Option<string>, enabled: Option<bool>, retain: Option<bool>, l: Luck)
    ensures var (r, s') := UpdateStep(s, id, displayName, enabled, retain, l);
            && (r.Done? <==> l.read && id in s.db.channels && l.write)
            && (r.NotFound? <==> l.read && id !in s.db.channels)
            && (r == Done(id) || r == NotFound || r == RepoError) && (!r.Done? ==> s' == s)
            && (r.Done? ==> Updated(s, s', id, displayName, enabled, retain))
  {
  }

  /** A new row under a new identifier, found by its name and cached. */
  ghost predicate Created(before: State, after: State, id: nat, row: ChannelRow) {
    && id !in before.db.channels && CachedAs(after, id) && after.db.channels[id] == row
    && FindChannel(before.db, row.name).None? && FindChannel(after.db, row.name) == Some(id)
    && OnlyAt(before, after, id, row.name)
  }

  /** A create is answered by the first thing in its way: a name with nothing in it, the database, or a
      channel of that name. With nothing in its way it adds and caches the channel as it was asked for, the
      display name being the name if none is given. */
  lemma CreateAdds(s: State, name: string, displayName: string, enabled: bool, retain: bool, l: Luck)
    requires Sound(s.db)
    ensures var (r, s') := CreateStep(s, name, displayName, enabled, retain, l);
            var n := NormalizeChannelName(name);
            && (r.InvalidName? <==> n == "")
            && (r.Exists? <==> n != "" && l.read && FindChannel(s.db, n).Some?)
            && (r.Done? <==> n != "" && l.read && FindChannel(s.db, n).None? && l.write && l.reread)
            && !r.NotFound? && (r.InvalidName? || r.Exists? ==> s' == s)
            && (r.Done? ==> Created(s, s', r.id, ChannelRow(n, if displayName == "" then n else displayName,
                                                            enabled, retain, 0, None)))
  {
  }

  /** A delete answers with success exactly if the channel is there and the database does not fail; then it is
      neither in the table nor in the cache, with its messages, and everything else is. */
  lemma DeleteRemoves(s: State, id: nat, retainHistory: bool, l: Luck)
    requires Sound(s.db)
    ensures var (r, s') := DeleteStep(s, id, retainHistory, l);
            && (r.Done? <==> l.read && id in s.db.channels && l.write)
            && (r.NotFound? <==> l.read && id !in s.db.channels)
            && (r == Done(id) || r == NotFound || r == RepoError)
            && (!r.Done? ==> s'.db == s.db && s'.cache == s.cache)
            && (r.Done? ==>
                  var name := s.db.channels[id].name;
                  && id !in s'.db.channels && name !in s'.cache && FindChannel(s'.db, name).None?
                  && OnlyAt(s, s', id, name)
                  && (forall m :: m in s'.db.messages <==> m in s.db.messages && s.db.messages[m].channelId != id)
                  && (forall m :: m in s'.db.messages ==> s'.db.messages[m] == s.db.messages[m]))
  {
  }

  // ---- The join set agrees with the table ----

  function EnabledNames(channels: map<nat, ChannelRow>): set<string> {
    set id | id in channels && channels[id].enabled :: "#" + channels[id].name
  }

  ghost predicate JoinedTrue(s: State) {
    s.link.wanted == EnabledNames(s.db.channels)
  }

  /** The server has joined what the client wants, while they are connected. */
  ghost predicate ServerTrue(link: Link) {
    if link.connected then link.server == link.wanted else link.server == {}
  }

  /** Exactly when an operation leaves the join set right: each change to the enabled channels goes with
      a successful message to the server, and no such message goes with a failed change. */
  predicate Keeps(s: State, op: Op, l: Luck) {
    var heard := s.link.connected && l.send;
    match op
    case Create(name, _, enabled, _) => Inserts(s, name, l) && enabled ==> l.reread && heard
    case Update(id, _, enabled, _) =>
      id in s.db.channels && l.read && l.write && Chosen(enabled, s.db.channels[id].enabled) != s.db.channels[id].enabled ==> heard
    case Delete(id, _) => id in s.db.channels && l.read && s.db.channels[id].enabled ==> (l.write <==> heard)
    case Ingested(_) => true
    case Lost => true
    case Regained => true
  }

  lemma HashInjects(a: string, b: string)
    requires "#" + a == "#" + b
    ensures a == b
  {
    assert ("#" + a)[1..] == a && ("#" + b)[1..] == b;
  }

  /** The name of a channel is among the enabled ones exactly if the channel is enabled. */
  lemma EnabledByName(channels: map<nat, ChannelRow>, id: nat)
    requires NamesDiffer(channels) && id in channels
    ensures "#" + channels[id].name in EnabledNames(channels) <==> channels[id].enabled
  {
    var h := "#" + channels[id].name;
    if h in EnabledNames(channels) {
      var k :| k in channels && channels[k].enabled && "#" + channels[k].name == h;
      HashInjects(channels[k].name, channels[id].name);
    }
  }

  lemma EnabledOfOther(channels: map<nat, ChannelRow>, name: string)
    requires forall id :: id in channels ==> channels[id].name != name
    ensures "#" + name !in EnabledNames(channels)
  {
    if "#" + name in EnabledNames(channels) {
      var k :| k in channels && channels[k].enabled && "#" + channels[k].name == "#" + name;
      HashInjects(channels[k].name, name);
    }
  }

  /** Setting a row changes the enabled names at its own name only. */
  lemma EnabledAfterSet(channels: map<nat, ChannelRow>, id: nat, row: ChannelRow)
    requires NamesDiffer(channels[id := row]) && (id in channels ==> channels[id].name == row.name)
    ensures EnabledNames(channels[id := row])
            == EnabledNames(channels) - {"#" + row.name} + if row.enabled then {"#" + row.name} else {}
  {
    var after, h := channels[id := row], "#" + row.name;
    EnabledByName(after, id);
    forall x | x != h ensures x in EnabledNames(after) <==> x in EnabledNames(channels) {
      if x in EnabledNames(after) {
        var k :| k in after && after[k].enabled && "#" + after[k].name == x;
        assert k in channels && channels[k] == after[k];
      }
      if x in EnabledNames(channels) {
        var k :| k in channels && channels[k].enabled && "#" + channels[k].name == x;
        assert k in after && channels[k] == after[k];
      }
    }
  }

  lemma EnabledAfterDrop(channels: map<nat, ChannelRow>, id: nat)
    requires NamesDiffer(channels) && id in channels
    ensures EnabledNames(channels - {id}) == EnabledNames(channels) - {"#" + channels[id].name}
  {
    var after, h := channels - {id}, "#" + channels[id].name;
    EnabledOfOther(after, channels[id].name);
    forall x | x != h ensures x in EnabledNames(after) <==> x in EnabledNames(channels) {
      if x in EnabledNames(channels) {
        var k :| k in channels && channels[k].enabled && "#" + channels[k].name == x;
        assert k in after && channels[k] == after[k];
      }
      if x in EnabledNames(after) {
        var k :| k in after && after[k].enabled && "#" + after[k].name == x;
        assert k in channels && channels[k] == after[k];
      }
    }
  }

  lemma PutJoinsIff(channels: map<nat, ChannelRow>, id: nat, row: ChannelRow, link: Link, send: bool)
    requires NamesDiffer(channels[id := row]) && Plain(row.name) && link.wanted == EnabledNames(channels)
    requires id in channels ==> channels[id].name == row.name
    ensures var was := id in channels && channels[id].enabled;
            Followed(link, row.name, was, row.enabled, send).wanted == EnabledNames(channels[id := row])
            <==> (was != row.enabled ==> link.connected && send)
  {
    EnabledAfterSet(channels, id, row);
    if id in channels {
      SubmapDiffers(channels, id, row);
      EnabledByName(channels, id);
    } else {
      NewNameIsOff(channels, id, row);
    }
  }

  lemma SubmapDiffers(channels: map<nat, ChannelRow>, id: nat, row: ChannelRow)
    requires NamesDiffer(channels[id := row]) && id in channels && channels[id].name == row.name
    ensures NamesDiffer(channels)
  {
    forall a, b | a in channels && b in channels && a != b ensures channels[a].name != channels[b].name {
      assert channels[id := row][a].name != channels[id := row][b].name;
    }
  }

  lemma NewNameIsOff(channels: map<nat, ChannelRow>, id: nat, row: ChannelRow)
    requires NamesDiffer(channels[id := row]) && id !in channels
    ensures "#" + row.name !in EnabledNames(channels)
  {
    forall k | k in channels ensures channels[k].name != row.name {
      assert channels[id := row][k].name != channels[id := row][id].name;
    }
    EnabledOfOther(channels, row.name);
  }

  lemma DropJoinsIff(channels: map<nat, ChannelRow>, id: nat, link: Link, send: bool, gone: bool)
    requires NamesDiffer(channels) && id in channels && Plain(channels[id].name) && link.wanted == EnabledNames(channels)
    ensures Followed(link, channels[id].name, channels[id].enabled, false, send).wanted
            == EnabledNames(if gone then channels - {id} else channels)
            <==> (channels[id].enabled ==> (gone <==> link.connected && send))
  {
    EnabledByName(channels, id);
    EnabledAfterDrop(channels, id);
  }

  lemma CreateJoinsIff(s: State, op: Op, l: Luck)
    requires Sound(s.db) && JoinedTrue(s) && op.Create?
    ensures JoinedTrue(Step(s, op, l)) <==> Keeps(s, op, l)
  {
    if Inserts(s, op.name, l) {
      NormalizedIsPlain(op.name);
      PutJoinsIff(s.db.channels, s.db.nextChannel, NewRow(op), s.link, l.reread && l.send);
    }
  }

  lemma UpdateJoinsIff(s: State, op: Op, l: Luck)
    requires Sound(s.db) && JoinedTrue(s) && op.Update?
    ensures JoinedTrue(Step(s, op, l)) <==> Keeps(s, op, l)
  {
    if op.id in s.db.channels && l.read && l.write {
      var row := Step(s, op, l).db.channels[op.id];
      SoundNamesDiffer(s.db);
      PutJoinsIff(s.db.channels, op.id, row, s.link, l.send);
    }
  }

  lemma DeleteJoinsIff(s: State, op: Op, l: Luck)
    requires Sound(s.db) && JoinedTrue(s) && op.Delete?
    ensures JoinedTrue(Step(s, op, l)) <==> Keeps(s, op, l)
  {
    if op.id in s.db.channels && l.read {
      SoundNamesDiffer(s.db);
      DropJoinsIff(s.db.channels, op.id, s.link, l.send, l.write);
    }
  }

  /** An operation leaves the join set equal to the enabled channels if and only if its change of the
      enabled channels, and its message to the server, both happen or both do not. */
  lemma JoinSetStaysTrueIff(s: State, op: Op, l: Luck)
    requires Sound(s.db) && JoinedTrue(s)
    ensures JoinedTrue(Step(s, op, l)) <==> Keeps(s, op, l)
  {
    match op
    case Create(_, _, _, _) => CreateJoinsIff(s, op, l);
    case Update(_, _, _, _) => UpdateJoinsIff(s, op, l);
    case Delete(_, _) => DeleteJoinsIff(s, op, l);
    case Ingested(rows) =>
      IngestKeepsSound(s.db, rows);
    case Lost =>
    case Regained =>
  }

  lemma StepKeepsServer(s: State, op: Op, l: Luck)
    requires ServerTrue(s.link)
    ensures ServerTrue(Step(s, op, l).link)
    ensures !op.Lost? && s.link.connected ==> Step(s, op, l).link.connected
  {
  }

  // ---- Whole runs ----

  datatype Call = Call(op: Op, luck: Luck)

  function Run(s: State, calls: seq<Call>): State
    decreases |calls|
  {
    if calls == [] then s else Run(Step(s, calls[0].op, calls[0].luck), calls[1..])
  }

  ghost predicate Agrees(s: State) {
    Sound(s.db) && CacheTrue(s) && CacheFull(s) && JoinedTrue(s) && ServerTrue(s.link)
  }

  /** Nothing fails, and the connection is not lost. */
  predicate Calm(calls: seq<Call>) {
    forall c :: c in calls ==> c.luck == Luck(true, true, true, true) && !c.op.Lost?
  }

  lemma {:induction false} CalmRunKeepsAgreement(s: State, calls: seq<Call>)
    requires Agrees(s) && s.link.connected && Calm(calls)
    ensures Agrees(Run(s, calls)) && Run(s, calls).link.connected
    decreases |calls|
  {
    if calls != [] {
      var c := calls[0];
      StepKeepsSound(s, c.op, c.luck);
      StepKeepsCache(s, c.op, c.luck);
      JoinSetStaysTrueIff(s, c.op, c.luck);
      StepKeepsServer(s, c.op, c.luck);
      CalmRunKeepsAgreement(Step(s, c.op, c.luck), calls[1..]);
    }
  }

  function Listed(channels: map<nat, ChannelRow>, order: seq<nat>): map<nat, ChannelRow> {
    map id | id in channels && id in order :: channels[id]
  }

  /** The table as the server hears of it: a channel whose JOIN cannot be sent is as good as switched off. */
  function Heard(channels: map<nat, ChannelRow>, failing: set<nat>): map<nat, ChannelRow> {
    map id | id in channels :: channels[id].(enabled := channels[id].enabled && id !in failing)
  }

  lemma {:induction false} LoadAllLoads(s: State, order: seq<nat>, failing: set<nat>)
    requires Sound(s.db) && (forall id :: id in order ==> id in s.db.channels)
    requires s.cache == map[] && s.link.connected && s.link.wanted == {} == s.link.server
    ensures var r, listed := LoadAll(s, order, failing), Listed(s.db.channels, order);
            && Tells(r.cache, listed) && Covers(r.cache, listed)
            && r.link.wanted == EnabledNames(Listed(Heard(s.db.channels, failing), order)) && ServerTrue(r.link)
    decreases |order|
  {
    if order == [] {
      assert EnabledNames(Listed(Heard(s.db.channels, failing), order)) == {};
    } else {
      var n := |order| - 1;
      assert order[n] in order;
      LoadAllLoads(s, order[..n], failing);
      SoundNamesDiffer(s.db);
      var before, after := LoadAll(s, order[..n], failing), LoadAll(s, order, failing);
      LoadNextCache(s.db.channels, order, before.cache);
      LoadNextLink(Heard(s.db.channels, failing), order, before.link, after.link);
    }
  }

  lemma LoadNextCache(channels: map<nat, ChannelRow>, order: seq<nat>, cache: map<string, Cached>)
    requires NamesDiffer(channels) && order != [] && order[|order| - 1] in channels
    requires Tells(cache, Listed(channels, order[..|order| - 1])) && Covers(cache, Listed(channels, order[..|order| - 1]))
    ensures var id := order[|order| - 1];
            var after := cache[channels[id].name := CachedOf(id, channels[id])];
            Tells(after, Listed(channels, order)) && Covers(after, Listed(channels, order))
  {
    var id := order[|order| - 1];
    ListedNext(channels, order);
    PutKeepsCache(cache, Listed(channels, order[..|order| - 1]), id, channels[id]);
  }

  lemma LoadNextLink(heard: map<nat, ChannelRow>, order: seq<nat>, before: Link, after: Link)
    requires NamesDiffer(heard) && order != [] && order[|order| - 1] in heard && Plain(heard[order[|order| - 1]].name)
    requires var row := heard[order[|order| - 1]]; after == if row.enabled then Joining(before, row.name, true) else before
    requires before.connected && before.wanted == EnabledNames(Listed(heard, order[..|order| - 1])) && ServerTrue(before)
    ensures after.wanted == EnabledNames(Listed(heard, order)) && ServerTrue(after)
  {
    var id := order[|order| - 1];
    var row, listed := heard[id], Listed(heard, order[..|order| - 1]);
    ListedNext(heard, order);
    EnabledAfterSet(listed, id, row);
    if !row.enabled {
      OffWhenListed(listed, id, row);
    }
  }

  lemma ListedNext(channels: map<nat, ChannelRow>, order: seq<nat>)
    requires order != [] && order[|order| - 1] in channels
    ensures var n := |order| - 1;
            Listed(channels, order) == Listed(channels, order[..n])[order[n] := channels[order[n]]]
    ensures NamesDiffer(channels) ==> NamesDiffer(Listed(channels, order))
  {
    var n := |order| - 1;
    assert order == order[..n] + [order[n]];
  }

  /** A listed channel that is off is not among the enabled names, so removing its name changes nothing. */
  lemma OffWhenListed(before: map<nat, ChannelRow>, id: nat, row: ChannelRow)
    requires NamesDiffer(before[id := row]) && (id in before ==> before[id] == row) && !row.enabled
    ensures "#" + row.name !in EnabledNames(before)
  {
    if id in before {
      assert before[id := row] == before;
      EnabledByName(before, id);
    } else {
      forall k | k in before ensures before[k].name != row.name {
        assert before[id := row][k].name != before[id := row][id].name;
      }
      EnabledOfOther(before, row.name);
    }
  }

  lemma ListedIsAll(channels: map<nat, ChannelRow>, order: seq<nat>)
    requires forall id :: id in channels ==> id in order
    ensures Listed(channels, order) == channels
  {
  }

  lemma HeardIsEnabledIff(channels: map<nat, ChannelRow>, failing: set<nat>)
    requires NamesDiffer(channels)
    ensures EnabledNames(Heard(channels, failing)) == EnabledNames(channels)
            <==> forall id :: id in channels && channels[id].enabled ==> id !in failing
  {
    var heard := Heard(channels, failing);
    if id :| id in channels && channels[id].enabled && id in failing {
      EnabledByName(channels, id);
      EnabledByName(heard, id);
    } else {
      assert heard == channels;
    }
  }

  /** `Initialize` on a live, clean connection caches the whole table, and leaves exactly those enabled
      channels out of the join set whose JOIN could not be sent: it agrees with the table if and only if no
      JOIN of an enabled channel failed. */
  lemma InitializeAgreesIff(s: State, order: seq<nat>, failing: set<nat>)
    requires Sound(s.db) && Enumerates(order, s.db.channels)
    requires s.cache == map[] && s.link.connected && s.link.wanted == {} == s.link.server
    ensures var r := LoadAll(s, order, failing);
            && r.db == s.db && r.link.connected && CacheTrue(r) && CacheFull(r) && ServerTrue(r.link)
            && r.link.server == EnabledNames(Heard(s.db.channels, failing))
            && (Agrees(r) <==> forall id :: id in s.db.channels && s.db.channels[id].enabled ==> id !in failing)
  {
    var channels := s.db.channels;
    var heard := Heard(channels, failing);
    LoadAllLoads(s, order, failing);
    ListedIsAll(channels, order);
    ListedIsAll(heard, order);
    SoundNamesDiffer(s.db);
    HeardIsEnabledIff(channels, failing);
  }

  /** In particular it does when nothing fails. */
  lemma InitializeAgrees(s: State, order: seq<nat>)
    requires Sound(s.db) && Enumerates(order, s.db.channels)
    requires s.cache == map[] && s.link.connected && s.link.wanted == {} == s.link.server
    ensures Agrees(LoadAll(s, order, {})) && LoadAll(s, order, {}).link.connected
  {
    InitializeAgreesIff(s, order, {});
  }

  /** After `Initialize`, over every run in which nothing fails and the connection holds, lookups by name
      answer what the table would, and the server has joined exactly the enabled channels. */
  lemma ServiceAgrees(s: State, order: seq<nat>, calls: seq<Call>, name: string)
    requires Sound(s.db) && Enumerates(order, s.db.channels)
    requires s.cache == map[] && s.link.connected && s.link.wanted == {} == s.link.server && Calm(calls)
    ensures var r := Run(LoadAll(s, order, {}), calls);
            && GetByNameOf(r, name, true) == Direct(r.db, NormalizeChannelName(name))
            && r.link.server == EnabledNames(r.db.channels)
            && r.cache.Keys == set id | id in r.db.channels :: r.db.channels[id].name
  {
    InitializeAgrees(s, order);
    CalmRunKeepsAgreement(LoadAll(s, order, {}), calls);
    var r := Run(LoadAll(s, order, {}), calls);
    GetByNameIsDirect(r, name, true);
  }

  // ---- Where agreement breaks ----

  /** On an empty table and a live connection, creating the enabled channel `a` whose new row cannot be read
      again ends in an error, with the channel in the table, out of the cache and not joined. */
  lemma FailedRereadHidesTheChannel()
    ensures var s := State(EMPTY, Link({}, true, {}, 1), map[]);
            var (r, s') := CreateStep(s, "a", "", true, true, Luck(true, true, false, true));
            && Agrees(s) && r == RepoError && FindChannel(s'.db, "a") == Some(1) && s'.db.channels[1].enabled
            && s'.cache == map[] && s'.link.server == {}
            && !CacheFull(s') && !JoinedTrue(s')
  {
    var s := State(EMPTY, Link({}, true, {}, 1), map[]);
    var op, l := Create("a", "", true, true), Luck(true, true, false, true);
    assert EnabledNames(s.db.channels) == {};
    LowerIsFixed("a");
    CleanIsFixed("a");
    StepKeepsCache(s, op, l);
    JoinSetStaysTrueIff(s, op, l);
  }

  /** A delete that fails in the database has already left the channel on the server: the channel stays
      enabled in table and cache, and is not joined. */
  lemma FailedDeleteLeavesTheChannel(s: State, id: nat, retainHistory: bool)
    requires s.link.connected && JoinedTrue(s) && ServerTrue(s.link) && NamesDiffer(s.db.channels)
    requires id in s.db.channels && s.db.channels[id].enabled && Plain(s.db.channels[id].name)
    ensures var r := Step(s, Delete(id, retainHistory), Luck(true, false, true, true));
            && r.db == s.db && r.cache == s.cache
            && r.link.server == EnabledNames(r.db.channels) - {"#" + s.db.channels[id].name}
            && r.link.server != EnabledNames(r.db.channels)
  {
    EnabledByName(s.db.channels, id);
  }

  /** A channel created enabled while the connection is down is not joined when the connection is back. */
  lemma CreatedWhileDownStaysOut(s: State, name: string, displayName: string, retain: bool)
    requires Agrees(s) && !s.link.connected
    requires Inserts(s, name, Luck(true, true, true, true))
    ensures var luck := Luck(true, true, true, true);
            var r := Step(Step(s, Create(name, displayName, true, retain), luck), Regained, luck);
            && FindChannel(r.db, NormalizeChannelName(name)).Some?
            && r.link.connected && "#" + NormalizeChannelName(name) !in r.link.server
  {
    var n := NormalizeChannelName(name);
    EnabledOfOther(s.db.channels, n);
  }

  // ---- The service, updated in place ----

  class ChannelService {
    const repo: Database
    const irc: Client
    var channels: map<string, Cached>

    ghost function View(): State
      reads this, repo, irc
    {
      State(repo.View(), irc.View(), channels)
    }

    constructor (repo: Database, irc: Client)
      ensures this.repo == repo && this.irc == irc && channels == map[]
    {
      this.repo, this.irc, channels := repo, irc, map[];
    }

    /** Loads the channels the query listed, in its order, and joins the enabled ones. */
    method Initialize(order: seq<nat>, read: bool, failing: set<nat>) returns (ok: bool)
      requires forall id :: id in order ==> id in repo.channels
      modifies this, irc
      ensures ok == read
      ensures View() == if ok then LoadAll(old(View()), order, failing) else old(View())
    {
      if !read {
        return false;
      }
      ghost var start := View();
      for i := 0 to |order|
        invariant View() == LoadAll(start, order[..i], failing)
        invariant repo.View() == start.db
      {
        var id := order[i];
        assert id in order && order[..i + 1][..i] == order[..i];
        var row := repo.channels[id];
        channels := channels[row.name := CachedOf(id, row)];
        if row.enabled && irc.connected {
          var sent := irc.Join("#" + row.name, id !in failing);
        }
      }
      assert order[..|order|] == order;
      ok := true;
    }

    method Create(name: string, displayName: string, enabled: bool, retain: bool, luck: Luck) returns (r: Outcome)
      modifies this, repo, irc
      ensures (r, View()) == CreateStep(old(View()), name, displayName, enabled, retain, luck)
    {
      var n := NormalizeChannelName(name);
      if n == "" {
        return InvalidName;
      }
      if !luck.read {
        return RepoError;
      }
      if ToLower(n) in repo.channelIds {
        return Exists;
      }
      var shown := if displayName == "" then n else displayName;
      if !luck.write {
        return RepoError;
      }
      var id := repo.CreateChannel(n, shown, enabled, retain, luck.reread);
      if id.None? {
        return RepoError;
      }
      channels := channels[n := Cached(id.value, shown, enabled, retain)];
      if enabled && irc.connected {
        var sent := irc.Join("#" + n, luck.send);
      }
      r := Done(id.value);
    }

    method Update(id: nat, displayName: Option<string>, enabled: Option<bool>, retain: Option<bool>, luck: Luck)
      returns (r: Outcome)
      modifies this, repo, irc
      ensures (r, View()) == UpdateStep(old(View()), id, displayName, enabled, retain, luck)
      ensures r.Done? ==> Updated(old(View()), View(), id, displayName, enabled, retain)
    {
      if !luck.read {
        return RepoError;
      }
      if id !in repo.channels {
        return NotFound;
      }
      var ch := repo.channels[id];
      var wasEnabled := ch.enabled;
      if displayName.Some? {
        ch := ch.(displayName := displayName.value);
      }
      if enabled.Some? {
        ch := ch.(enabled := enabled.value);
      }
      if retain.Some? {
        ch := ch.(retain := retain.value);
      }
      if !luck.write {
        return RepoError;
      }
      repo.UpdateChannel(id, ch.displayName, ch.enabled, ch.retain);
      channels := channels[ch.name := CachedOf(id, ch)];
      Follow(ch.name, wasEnabled, ch.enabled, luck.send);
      UpdateApplies(old(View()), id, displayName, enabled, retain, luck);
      r := Done(id);
    }

    /** The end of `Update`: join or part as the channel was switched on or off. */
    method Follow(name: string, wasEnabled: bool, enabled: bool, send: bool)
      modifies irc
      ensures irc.View() == Followed(old(irc.View()), name, wasEnabled, enabled, send)
    {
      if irc.connected {
        if !wasEnabled && enabled {
          var sent := irc.Join("#" + name, send);
        } else if wasEnabled && !enabled {
          var sent := irc.Part("#" + name, send);
        }
      }
    }

    method Delete(id: nat, retainHistory: bool, luck: Luck) returns (r: Outcome)
      requires KeysInv(repo.View())
      modifies this, repo, irc
      ensures (r, View()) == DeleteStep(old(View()), id, retainHistory, luck)
    {
      if !luck.read {
        return RepoError;
      }
      if id !in repo.channels {
        return NotFound;
      }
      var ch := repo.channels[id];
      if ch.enabled && irc.connected {
        var sent := irc.Part("#" + ch.name, luck.send);
      }
      if !luck.write {
        return RepoError;
      }
      repo.DeleteChannel(id, retainHistory);
      channels := channels - {ch.name};
      r := Done(id);
    }

    method GetByName(name: string, read: bool) returns (r: Answer)
      ensures r == GetByNameOf(View(), name, read)
    {
      var n := NormalizeChannelName(name);
      if n in channels {
        return Channel(channels[n]);
      }
      if !read {
        return Failure;
      }
      if ToLower(n) !in repo.channelIds {
        return Absent;
      }
      var id := repo.channelIds[ToLower(n)];
      r := if id in repo.channels then Channel(CachedOf(id, repo.channels[id])) else Absent;
    }
  }
}
