/** The message processor of internal/ingestion/processor.go: name caches with a time to live over tables
    whose channels can be deleted, and the batch store. */
module Processor {
  import opened ChannelNames
  import opened GoStrings
  import opened IngestTypes
  import opened Schema

  const DEFAULT_TTL := 300_000_000_000

  function NormalizeUsername(name: string): string {
    TrimSpace(ToLower(name))
  }

  /** A user name is taken without the white space around it, in lower case. */
  lemma UsernamesAreCleaned(a: string, s: string, b: string)
    requires Blank(a) && Blank(b) && s != "" && Trimmed(s)
    ensures NormalizeUsername(a + s + b) == ToLower(s) && NormalizeUsername(a) == ""
  {
    BlankIsCaseless(a);
    BlankIsCaseless(ToLower(a));
    LowerThenTrim(a, s, b);
  }

  // ---- Lookups ----

  datatype Entry = Entry(value: nat, createdAt: int)

  type Cache = map<string, Entry>

  predicate Fresh(cache: Cache, name: string, now: int, ttl: int) {
    name in cache && now - cache[name].createdAt < ttl
  }

  datatype Lookup = Found(id: nat) | Missing | Failed

  /** The caches and the database they stand before. */
  datatype Memo = Memo(channels: Cache, users: Cache, db: Db)

  /** `getChannelID`; `fault` says whether the query fails, should it be made. */
  function LookupChannel(m: Memo, name: string, now: int, ttl: int, fault: bool): (Lookup, Memo) {
    if Fresh(m.channels, name, now, ttl) then (Found(m.channels[name].value), m)
    else if fault then (Failed, m)
    else
      match FindChannel(m.db, name)
      case None => (Missing, m)
      case Some(id) => (Found(id), m.(channels := m.channels[name := Entry(id, now)]))
  }

  /** `GetOrCreate` for a user, on the tables. */
  function GetOrCreate(db: Db, username: string, displayName: string, now: int): (r: (nat, Db))
    ensures FindUser(r.1, username) == Some(r.0)
  {
    match FindUser(db, username)
    case Some(id) =>
      (id, if displayName != "" && id in db.users && db.users[id].displayName != displayName
           then SetUser(db, id, displayName) else db)
    case None => (db.nextUser, AddUser(db, username, displayName, now).value)
  }

  /** Finding or creating leaves the user under its name, with the display name given unless that is empty, and
      every other user as it was; a user that is there keeps its identifier and its counts. */
  lemma UserIsFoundOrMade(db: Db, username: string, displayName: string, now: int)
    requires KeysInv(db) && IndexInv(db)
    ensures var (id, after) := GetOrCreate(db, username, displayName, now);
            var there := ToLower(username) in db.userIds;
            && (there ==> db.userIds[ToLower(username)] == id && id in db.users) && (!there ==> id !in db.users)
            && id in after.users && after.userIds == db.userIds[ToLower(username) := id]
            && after.users[id] == (if there then db.users[id].(displayName := after.users[id].displayName)
                                   else UserRow(username, displayName, 0, now))
            && after.users[id].displayName
               == (if there && displayName == "" then db.users[id].displayName else displayName)
            && after == db.(users := db.users[id := after.users[id]], userIds := after.userIds, nextUser := after.nextUser)
  {
  }

  /** `getOrCreateUserID`. */
  function LookupUser(m: Memo, name: string, displayName: string, now: int, ttl: int, fault: bool): (Lookup, Memo) {
    if Fresh(m.users, name, now, ttl) then (Found(m.users[name].value), m)
    else if fault then (Failed, m)
    else
      var (id, db) := GetOrCreate(m.db, name, displayName, now);
      (Found(id), m.(users := m.users[name := Entry(id, now)], db := db))
  }

  /** A lookup is answered by an entry younger than the time to live, which it leaves alone, and otherwise by
      the tables; what it finds there is cached, with the time of the lookup, and nothing else is. */
  lemma LookupsAreCached(m: Memo, name: string, displayName: string, now: int, ttl: int, fault: bool)
    ensures var (r, m') := LookupChannel(m, name, now, ttl, fault);
            var young := name in m.channels && now - m.channels[name].createdAt < ttl;
            && (young ==> r == Found(m.channels[name].value))
            && (!young && !fault ==> r == if ToLower(name) in m.db.channelIds then Found(m.db.channelIds[ToLower(name)]) else Missing)
            && (!young && fault ==> r == Failed)
            && m' == m.(channels := if !young && r.Found? then m.channels[name := Entry(r.id, now)] else m.channels)
    ensures var (r, m') := LookupUser(m, name, displayName, now, ttl, fault);
            var young := name in m.users && now - m.users[name].createdAt < ttl;
            && (young ==> r == Found(m.users[name].value)) && (!young && fault ==> r == Failed)
            && (!young && !fault ==> r.Found? && FindUser(m'.db, name) == Some(r.id))
            && (young || fault ==> m' == m)
            && m'.channels == m.channels && m'.users == if young || fault then m.users else m.users[name := Entry(r.id, now)]
  {
  }

  function Evicted(cache: Cache, now: int, ttl: int): Cache {
    map name | name in cache && now - cache[name].createdAt < ttl :: cache[name]
  }

  // ---- Resolving a batch ----

  /** What is met while one message is resolved: the clock readings, the database faults, and the changes
      other goroutines commit before its channel lookup and between its two lookups. */
  datatype Env = Env(before: seq<Change>, channelNow: int, channelFault: bool,
                     between: seq<Change>, userNow: int, userFault: bool)

  function Meanwhile(m: Memo, changes: seq<Change>): Memo {
    m.(db := ApplyAll(m.db, changes))
  }

  /** A message to be inserted, with what the callbacks are told beside it. */
  datatype Kept = Kept(row: MessageRow, channelName: string, username: string, displayName: string)

  /** A message with its names normalized. */
  datatype Item = Item(channelName: string, username: string, msg: Message)

  function ItemOf(msg: Message): Item {
    Item(NormalizeChannelName(msg.channelName), NormalizeUsername(msg.username), msg)
  }

  function ItemsOf(msgs: seq<Message>): (r: seq<Item>)
    ensures |r| == |msgs|
  {
    seq(|msgs|, i requires 0 <= i < |msgs| => ItemOf(msgs[i]))
  }

  function ResolveOne(m: Memo, item: Item, env: Env, ttl: int): (Option<Kept>, Memo) {
    var m := Meanwhile(m, env.before);
    if item.channelName == "" then (None, m)
    else
      var (channel, m) := LookupChannel(m, item.channelName, env.channelNow, ttl, env.channelFault);
      if !channel.Found? || channel.id == 0 || item.username == "" then (None, m)
      else
        var msg := item.msg;
        var (user, m) := LookupUser(Meanwhile(m, env.between), item.username, msg.displayName, env.userNow, ttl, env.userFault);
        if !user.Found? then (None, m)
        else (Some(Kept(MessageRow(channel.id, user.id, msg.text, msg.receivedAt, msg.tags),
                        item.channelName, item.username, msg.displayName)), m)
  }

  /** The outcomes for the messages of a batch, one after the other. */
  function ResolveAll(m: Memo, items: seq<Item>, envs: seq<Env>, ttl: int): (r: (seq<Option<Kept>>, Memo))
    requires |envs| == |items|
    ensures |r.0| == |items|
  {
    if items == [] then ([], m)
    else
      var n := |items| - 1;
      var (outcomes, m1) := ResolveAll(m, items[..n], envs[..n], ttl);
      var (outcome, m2) := ResolveOne(m1, items[n], envs[n], ttl);
      (outcomes + [outcome], m2)
  }

  function KeptOf(outcomes: seq<Option<Kept>>): seq<Kept> {
    if outcomes == [] then []
    else
      var last := outcomes[|outcomes| - 1];
      KeptOf(outcomes[..|outcomes| - 1]) + if last.Some? then [last.value] else []
  }

  function RowsOf(kept: seq<Kept>): (r: seq<MessageRow>)
    ensures |r| == |kept| && forall k :: 0 <= k < |kept| ==> r[k] == kept[k].row
  {
    seq(|kept|, k requires 0 <= k < |kept| => kept[k].row)
  }

  function Announced(kept: seq<Kept>, first: nat): (r: seq<StoredMessage>)
    ensures |r| == |kept|
  {
    seq(|kept|, k requires 0 <= k < |kept| => StoredMessage(
      first + k, kept[k].row.channelId, kept[k].channelName, kept[k].row.userId, kept[k].username,
      kept[k].displayName, kept[k].row.text, kept[k].row.sentAt))
  }

  /** What storing a batch leads to: whether it succeeds, the caches and tables, and what is announced. */
  datatype StoreResult = StoreResult(ok: bool, memo: Memo, announced: seq<StoredMessage>)

  /** `StoreBatch`. `last` is what other goroutines commit between the last lookup and the transaction,
      `fault` the failing statement of the transaction, the commit being the last. */
  function StoreItems(m: Memo, items: seq<Item>, envs: seq<Env>, last: seq<Change>, fault: Option<nat>, ttl: int): StoreResult
    requires |envs| == |items|
  {
    var (outcomes, m1) := ResolveAll(m, items, envs, ttl);
    var kept, end := KeptOf(outcomes), Meanwhile(m1, last);
    var inserted := InsertAll(end.db, RowsOf(kept));
    if kept == [] then StoreResult(true, m1, [])
    else if inserted.None? || (fault.Some? && fault.value <= |kept|) then StoreResult(false, end, [])
    else StoreResult(true, end.(db := inserted.value), Announced(kept, end.db.nextMessage))
  }

  // ---- The processor ----

  class Processor {
    const db: Database
    const cacheTTL: int
    const hasCallback: bool
    var channelCache: Cache
    var userCache: Cache
    /** The messages the callback has been called with, in order. */
    var announced: seq<StoredMessage>

    ghost function View(): Memo
      reads this, db
    {
      Memo(channelCache, userCache, db.View())
    }

    constructor (database: Database, ttl: int, callback: bool)
      ensures db == database && hasCallback == callback && cacheTTL == if ttl > 0 then ttl else 300_000_000_000
      ensures channelCache == map[] && userCache == map[] && announced == []
    {
      db := database;
      cacheTTL := if ttl <= 0 then DEFAULT_TTL else ttl;
      hasCallback := callback;
      channelCache, userCache, announced := map[], map[], [];
    }

    method GetChannelID(name: string, now: int, fault: bool) returns (r: Lookup)
      modifies this`channelCache
      ensures (r, View()) == LookupChannel(old(View()), name, now, cacheTTL, fault)
    {
      if name in channelCache && now - channelCache[name].createdAt < cacheTTL {
        return Found(channelCache[name].value);
      }
      if fault {
        return Failed;
      }
      if ToLower(name) !in db.channelIds {
        return Missing;
      }
      var id := db.channelIds[ToLower(name)];
      channelCache := channelCache[name := Entry(id, now)];
      r := Found(id);
    }

    method GetOrCreateUserID(name: string, displayName: string, now: int, fault: bool) returns (r: Lookup)
      modifies this`userCache, db
      ensures (r, View()) == LookupUser(old(View()), name, displayName, now, cacheTTL, fault)
    {
      if name in userCache && now - userCache[name].createdAt < cacheTTL {
        return Found(userCache[name].value);
      }
      if fault {
        return Failed;
      }
      var id: nat;
      if ToLower(name) in db.userIds {
        id := db.userIds[ToLower(name)];
        if displayName != "" && id in db.users && displayName != db.users[id].displayName {
          db.UpdateUser(id, displayName);
        }
      } else {
        var created := db.CreateUser(name, displayName, now);
        id := created.value;
      }
      userCache := userCache[name := Entry(id, now)];
      r := Found(id);
    }

    method InvalidateChannelCache(name: string)
      modifies this`channelCache
      ensures channelCache == old(channelCache) - {NormalizeChannelName(name)}
    {
      channelCache := channelCache - {NormalizeChannelName(name)};
    }

    method ClearCaches()
      modifies this`channelCache, this`userCache
      ensures channelCache == map[] && userCache == map[]
    {
      channelCache, userCache := map[], map[];
    }

    method EvictExpiredEntries(now: int)
      modifies this`channelCache, this`userCache
      ensures channelCache == Evicted(old(channelCache), now, cacheTTL)
      ensures userCache == Evicted(old(userCache), now, cacheTTL)
    {
      channelCache := EvictFrom(channelCache, now, cacheTTL);
      userCache := EvictFrom(userCache, now, cacheTTL);
    }

    method Resolve(msg: Message, env: Env) returns (r: Option<Kept>)
      modifies this`channelCache, this`userCache, db
      ensures (r, View()) == ResolveOne(old(View()), ItemOf(msg), env, cacheTTL)
    {
      db.Meanwhile(env.before);
      var channelName := NormalizeChannelName(msg.channelName);
      if channelName == "" {
        return None;
      }
      var channel := GetChannelID(channelName, env.channelNow, env.channelFault);
      if !channel.Found? || channel.id == 0 {
        return None;
      }
      var username := NormalizeUsername(msg.username);
      if username == "" {
        return None;
      }
      db.Meanwhile(env.between);
      var user := GetOrCreateUserID(username, msg.displayName, env.userNow, env.userFault);
      if !user.Found? {
        return None;
      }
      r := Some(Kept(MessageRow(channel.id, user.id, msg.text, msg.receivedAt, msg.tags),
                     channelName, username, msg.displayName));
    }

    /** The filter loop of `StoreBatch`, filling the two parallel slices. */
    method CollectRows(messages: seq<Message>, envs: seq<Env>)
      returns (rows: seq<MessageRow>, meta: seq<Meta>)
      requires |envs| == |messages|
      modifies this`channelCache, this`userCache, db
      ensures ResolveAll(old(View()), ItemsOf(messages), envs, cacheTTL).1 == View()
      ensures var kept := KeptOf(ResolveAll(old(View()), ItemsOf(messages), envs, cacheTTL).0);
              rows == RowsOf(kept) && meta == MetaOf(kept)
    {
      rows, meta := [], [];
      ghost var start := View();
      ghost var outcomes: seq<Option<Kept>> := [];
      for i := 0 to |messages|
        invariant ResolveAll(start, ItemsOf(messages)[..i], envs[..i], cacheTTL) == (outcomes, View())
        invariant rows == RowsOf(KeptOf(outcomes)) && meta == MetaOf(KeptOf(outcomes))
      {
        ghost var m := View();
        var r := Resolve(messages[i], envs[i]);
        ResolveStep(start, ItemsOf(messages), envs, i, cacheTTL, outcomes, m);
        AddKept(outcomes, r);
        if r.Some? {
          rows := rows + [r.value.row];
          meta := meta + [Meta(r.value.channelName, r.value.username, r.value.displayName)];
        }
        outcomes := outcomes + [r];
      }
      assert ItemsOf(messages)[..|messages|] == ItemsOf(messages) && envs[..|envs|] == envs;
    }

    /** Stores a batch: resolves its messages one by one, inserts the kept ones in one transaction, and
        announces them only after the commit. */
    method StoreBatch(messages: seq<Message>, envs: seq<Env>, last: seq<Change>, fault: Option<nat>) returns (ok: bool)
      requires |envs| == |messages|
      modifies this, db
      ensures var r := StoreItems(old(View()), ItemsOf(messages), envs, last, fault, cacheTTL);
              && ok == r.ok && View() == r.memo
              && announced == old(announced) + if hasCallback then r.announced else []
    {
      var rows, meta := CollectRows(messages, envs);
      ghost var kept := KeptOf(ResolveAll(old(View()), ItemsOf(messages), envs, cacheTTL).0);
      if |rows| == 0 {
        return true;
      }
      db.Meanwhile(last);
      ghost var first := db.nextMessage;
      var ids := db.CreateBatch(rows, fault);
      if ids.None? {
        return false;
      }
      if hasCallback {
        var stored := StoredMessages(rows, meta, ids.value, kept, first);
        announced := announced + stored;
      }
      ok := true;
    }
  }

  /** What `StoreBatch` keeps of a message for the callbacks. */
  datatype Meta = Meta(channelName: string, username: string, displayName: string)

  function MetaOf(kept: seq<Kept>): (r: seq<Meta>)
    ensures |r| == |kept|
  {
    seq(|kept|, k requires 0 <= k < |kept| => Meta(kept[k].channelName, kept[k].username, kept[k].displayName))
  }

  /** Puts the parallel slices together again, with the identifiers the insert gave. */
  method StoredMessages(rows: seq<MessageRow>, meta: seq<Meta>, ids: seq<nat>, ghost kept: seq<Kept>, ghost first: nat)
    returns (stored: seq<StoredMessage>)
    requires rows == RowsOf(kept) && meta == MetaOf(kept)
    requires |ids| == |rows| && forall k :: 0 <= k < |ids| ==> ids[k] == first + k
    ensures stored == Announced(kept, first)
  {
    stored := [];
    for k := 0 to |rows|
      invariant stored == Announced(kept, first)[..k]
    {
      stored := stored + [StoredMessage(ids[k], rows[k].channelId, meta[k].channelName, rows[k].userId,
                                        meta[k].username, meta[k].displayName, rows[k].text, rows[k].sentAt)];
    }
  }

  /** The eviction loop over one cache: exactly the entries younger than the time to live stay, as they are. */
  method EvictFrom(cache: Cache, now: int, ttl: int) returns (r: Cache)
    ensures r == Evicted(cache, now, ttl)
    ensures forall n :: n in r <==> n in cache && now - cache[n].createdAt < ttl
    ensures forall n :: n in r ==> r[n] == cache[n]
  {
    r := cache;
    var todo := cache.Keys;
    while todo != {}
      invariant todo <= cache.Keys
      invariant r == map name | name in cache && (name in todo || now - cache[name].createdAt < ttl) :: cache[name]
      decreases |todo|
    {
      var name :| name in todo;
      if now - r[name].createdAt >= ttl {
        r := r - {name};
      }
      todo := todo - {name};
    }
  }

  lemma ResolveStep(start: Memo, items: seq<Item>, envs: seq<Env>, i: nat, ttl: int,
                    outcomes: seq<Option<Kept>>, m: Memo)
    requires i < |items| == |envs| && ResolveAll(start, items[..i], envs[..i], ttl) == (outcomes, m)
    ensures var (r, m') := ResolveOne(m, items[i], envs[i], ttl);
            ResolveAll(start, items[..i + 1], envs[..i + 1], ttl) == (outcomes + [r], m')
  {
    assert items[..i + 1][..i] == items[..i] && envs[..i + 1][..i] == envs[..i];
  }

  lemma KeptOfAppend(outcomes: seq<Option<Kept>>, last: Option<Kept>)
    ensures KeptOf(outcomes + [last]) == KeptOf(outcomes) + if last.Some? then [last.value] else []
  {
    assert (outcomes + [last])[..|outcomes|] == outcomes;
  }

  lemma AddKept(outcomes: seq<Option<Kept>>, last: Option<Kept>)
    ensures var kept, more := KeptOf(outcomes), KeptOf(outcomes + [last]);
            if last.None? then more == kept
            else
              && RowsOf(more) == RowsOf(kept) + [last.value.row]
              && MetaOf(more) == MetaOf(kept) + [Meta(last.value.channelName, last.value.username, last.value.displayName)]
  {
    KeptOfAppend(outcomes, last);
  }
}
