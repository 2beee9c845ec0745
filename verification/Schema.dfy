/** The tables, foreign keys and triggers of internal/repository/migrations/001_init.sql, on SQLite. */
module Schema {
  import opened GoStrings

  datatype ChannelRow = ChannelRow(
    name: string, displayName: string, enabled: bool, retain: bool, total: nat, lastMessageAt: Option<int>)

  datatype UserRow = UserRow(username: string, displayName: string, total: nat, lastSeenAt: int)

  datatype MessageRow = MessageRow(channelId: nat, userId: nat, text: string, sentAt: int, tags: map<string, string>)

  /** The contents of the database. `channelIds` and `userIds` are the unique, case-insensitive indexes on
      the names, the `next` fields the AUTOINCREMENT counters, `fts` the full-text index. `log` records
      every message row ever committed, in order; it is no table. */
  datatype Db = Db(
    channels: map<nat, ChannelRow>, channelIds: map<string, nat>,
    users: map<nat, UserRow>, userIds: map<string, nat>,
    messages: map<nat, MessageRow>, fts: map<nat, string>,
    nextChannel: nat, nextUser: nat, nextMessage: nat,
    log: seq<MessageRow>)

  const EMPTY := Db(map[], map[], map[], map[], map[], map[], 1, 1, 1, [])

  // ---- Statements ----

  function FindChannel(db: Db, name: string): Option<nat> {
    if ToLower(name) in db.channelIds then Some(db.channelIds[ToLower(name)]) else None
  }

  function FindUser(db: Db, username: string): Option<nat> {
    if ToLower(username) in db.userIds then Some(db.userIds[ToLower(username)]) else None
  }

  /** INSERT INTO channels; fails on a name that is taken. */
  function AddChannel(db: Db, name: string, displayName: string, enabled: bool, retain: bool): Option<Db> {
    if ToLower(name) in db.channelIds then None
    else Some(db.(
      channels := db.channels[db.nextChannel := ChannelRow(name, displayName, enabled, retain, 0, None)],
      channelIds := db.channelIds[ToLower(name) := db.nextChannel],
      nextChannel := db.nextChannel + 1))
  }

  /** UPDATE channels WHERE id. */
  function SetChannel(db: Db, id: nat, displayName: string, enabled: bool, retain: bool): Db {
    if id !in db.channels then db
    else db.(channels := db.channels[
      id := db.channels[id].(displayName := displayName, enabled := enabled, retain := retain)])
  }

  function AddUser(db: Db, username: string, displayName: string, now: int): Option<Db> {
    if ToLower(username) in db.userIds then None
    else Some(db.(
      users := db.users[db.nextUser := UserRow(username, displayName, 0, now)],
      userIds := db.userIds[ToLower(username) := db.nextUser],
      nextUser := db.nextUser + 1))
  }

  function SetUser(db: Db, id: nat, displayName: string): Db {
    if id !in db.users then db
    else db.(users := db.users[id := db.users[id].(displayName := displayName)])
  }

  function MessagesOf(messages: map<nat, MessageRow>, channel: nat): set<nat> {
    set id | id in messages && messages[id].channelId == channel
  }

  /** DELETE FROM channels WHERE id; the messages go with it, and each leaves the index. */
  function DropChannel(db: Db, id: nat): Db {
    var gone := MessagesOf(db.messages, id);
    if id !in db.channels then db
    else db.(
      channels := db.channels - {id}, channelIds := db.channelIds - {ToLower(db.channels[id].name)},
      messages := db.messages - gone, fts := db.fts - gone)
  }

  predicate ForeignKeys(db: Db, row: MessageRow) {
    row.channelId in db.channels && row.userId in db.users
  }

  /** INSERT INTO messages, with the triggers it fires; fails when a foreign key does. */
  function InsertMessage(db: Db, row: MessageRow): Option<Db> {
    if !ForeignKeys(db, row) then None
    else
      var c, u := db.channels[row.channelId], db.users[row.userId];
      Some(db.(
        messages := db.messages[db.nextMessage := row],
        fts := db.fts[db.nextMessage := row.text],
        channels := db.channels[row.channelId := c.(total := c.total + 1, lastMessageAt := Some(row.sentAt))],
        users := db.users[row.userId := u.(total := u.total + 1, lastSeenAt := row.sentAt)],
        nextMessage := db.nextMessage + 1,
        log := db.log + [row]))
  }

  /** One transaction inserting several rows: all of them or none. */
  function InsertAll(db: Db, rows: seq<MessageRow>): Option<Db> {
    if rows == [] then Some(db)
    else
      match InsertAll(db, rows[..|rows| - 1])
      case None => None
      case Some(d) => InsertMessage(d, rows[|rows| - 1])
  }

  /** `d` is `db` with the rows of a batch added, in their order, under consecutive new identifiers. */
  ghost predicate Extends(db: Db, rows: seq<MessageRow>, d: Db) {
    && d.nextMessage == db.nextMessage + |rows| && d.log == db.log + rows
    && (forall id :: id in d.messages <==> id in db.messages || db.nextMessage <= id < d.nextMessage)
    && (forall id :: id in db.messages ==> d.messages[id] == db.messages[id])
    && (forall k :: 0 <= k < |rows| ==> d.messages[db.nextMessage + k] == rows[k])
    && d.channels.Keys == db.channels.Keys && d.channelIds == db.channelIds
    && d.users.Keys == db.users.Keys && d.userIds == db.userIds
  }

  lemma InsertExtends(db: Db, rows: seq<MessageRow>, d: Db, row: MessageRow)
    requires (forall id :: id in db.messages ==> id < db.nextMessage) && Extends(db, rows, d)
    ensures InsertMessage(d, row).Some? <==> ForeignKeys(db, row)
    ensures InsertMessage(d, row).Some? ==> Extends(db, rows + [row], InsertMessage(d, row).value)
  {
    if InsertMessage(d, row).Some? {
      var e := InsertMessage(d, row).value;
      assert e.channels.Keys == d.channels.Keys + {row.channelId};
      assert e.users.Keys == d.users.Keys + {row.userId};
    }
  }

  /** A batch is inserted whole, or fails exactly on a row with a dangling key. */
  lemma {:induction false} InsertAllIsExact(db: Db, rows: seq<MessageRow>)
    requires forall id :: id in db.messages ==> id < db.nextMessage
    ensures InsertAll(db, rows).Some? <==> forall k :: 0 <= k < |rows| ==> ForeignKeys(db, rows[k])
    ensures InsertAll(db, rows).Some? ==> Extends(db, rows, InsertAll(db, rows).value)
  {
    if rows != [] {
      var n := |rows| - 1;
      InsertAllIsExact(db, rows[..n]);
      if InsertAll(db, rows[..n]).Some? {
        InsertExtends(db, rows[..n], InsertAll(db, rows[..n]).value, rows[n]);
        assert rows[..n] + [rows[n]] == rows;
      }
    }
  }

  // ---- Derived data ----

  function CountFor(log: seq<MessageRow>, user: nat): nat {
    if log == [] then 0
    else CountFor(log[..|log| - 1], user) + if log[|log| - 1].userId == user then 1 else 0
  }

  ghost predicate KeysInv(db: Db) {
    && (forall id :: id in db.channels ==> 1 <= id < db.nextChannel)
    && (forall id :: id in db.users ==> 1 <= id < db.nextUser)
    && (forall id :: id in db.messages ==> 1 <= id < db.nextMessage)
    && 1 <= db.nextChannel && 1 <= db.nextUser && 1 <= db.nextMessage
    && (forall id :: id in db.messages ==> ForeignKeys(db, db.messages[id]))
  }

  /** The indexes hold exactly the names in the tables. */
  ghost predicate IndexInv(db: Db) {
    && (forall id :: id in db.channels ==>
          ToLower(db.channels[id].name) in db.channelIds && db.channelIds[ToLower(db.channels[id].name)] == id)
    && (forall n :: n in db.channelIds ==>
          db.channelIds[n] in db.channels && ToLower(db.channels[db.channelIds[n]].name) == n)
    && (forall id :: id in db.users ==>
          ToLower(db.users[id].username) in db.userIds && db.userIds[ToLower(db.users[id].username)] == id)
    && (forall n :: n in db.userIds ==>
          db.userIds[n] in db.users && ToLower(db.users[db.userIds[n]].username) == n)
  }

  ghost predicate ChannelCounts(db: Db) {
    forall id :: id in db.channels ==> db.channels[id].total == |MessagesOf(db.messages, id)|
  }

  ghost predicate UserCounts(db: Db) {
    && (forall id :: id in db.users ==> db.users[id].total == CountFor(db.log, id))
    && (forall u :: u >= db.nextUser ==> CountFor(db.log, u) == 0)
  }

  ghost predicate FtsInv(db: Db) {
    db.fts == map id | id in db.messages :: db.messages[id].text
  }

  ghost predicate Inv(db: Db) {
    KeysInv(db) && IndexInv(db) && ChannelCounts(db) && UserCounts(db) && FtsInv(db)
  }

  lemma InsertKeepsKeys(db: Db, row: MessageRow)
    requires KeysInv(db) && ForeignKeys(db, row)
    ensures KeysInv(InsertMessage(db, row).value)
  {
  }

  lemma InsertKeepsIndex(db: Db, row: MessageRow)
    requires IndexInv(db) && ForeignKeys(db, row)
    ensures IndexInv(InsertMessage(db, row).value)
  {
  }

  lemma InsertKeepsChannelCounts(db: Db, row: MessageRow)
    requires KeysInv(db) && ChannelCounts(db) && ForeignKeys(db, row)
    ensures ChannelCounts(InsertMessage(db, row).value)
  {
    forall id | id in db.channels
      ensures |MessagesOf(db.messages[db.nextMessage := row], id)|
           == |MessagesOf(db.messages, id)| + if id == row.channelId then 1 else 0
    {
      CountAfterInsert(db.messages, db.nextMessage, row, id);
    }
  }

  lemma CountAfterInsert(messages: map<nat, MessageRow>, id: nat, row: MessageRow, channel: nat)
    requires id !in messages
    ensures |MessagesOf(messages[id := row], channel)|
         == |MessagesOf(messages, channel)| + if channel == row.channelId then 1 else 0
  {
    var before, after := MessagesOf(messages, channel), MessagesOf(messages[id := row], channel);
    assert after == if channel == row.channelId then before + {id} else before;
  }

  lemma InsertKeepsUserCounts(db: Db, row: MessageRow)
    requires KeysInv(db) && UserCounts(db) && ForeignKeys(db, row)
    ensures UserCounts(InsertMessage(db, row).value)
  {
    forall u ensures CountFor(db.log + [row], u) == CountFor(db.log, u) + if row.userId == u then 1 else 0 {
      CountForAppend(db.log, row, u);
    }
  }

  lemma CountForAppend(log: seq<MessageRow>, row: MessageRow, user: nat)
    ensures CountFor(log + [row], user) == CountFor(log, user) + if row.userId == user then 1 else 0
  {
    assert (log + [row])[..|log|] == log;
  }

  lemma InsertKeepsFts(db: Db, row: MessageRow)
    requires FtsInv(db) && ForeignKeys(db, row)
    ensures FtsInv(InsertMessage(db, row).value)
  {
  }

  lemma InsertKeepsInv(db: Db, row: MessageRow)
    requires Inv(db) && ForeignKeys(db, row)
    ensures Inv(InsertMessage(db, row).value)
  {
    InsertKeepsKeys(db, row);
    InsertKeepsIndex(db, row);
    InsertKeepsChannelCounts(db, row);
    InsertKeepsUserCounts(db, row);
    InsertKeepsFts(db, row);
  }

  lemma {:induction false} InsertAllKeepsInv(db: Db, rows: seq<MessageRow>)
    requires Inv(db) && InsertAll(db, rows).Some?
    ensures Inv(InsertAll(db, rows).value)
  {
    if rows != [] {
      InsertAllKeepsInv(db, rows[..|rows| - 1]);
      InsertKeepsInv(InsertAll(db, rows[..|rows| - 1]).value, rows[|rows| - 1]);
    }
  }

  // ---- Every reachable database ----

  datatype Change =
    | NewChannel(name: string, displayName: string, enabled: bool, retain: bool)
    | EditChannel(id: nat, displayName: string, enabled: bool, retain: bool)
    | DeleteChannel(id: nat)
    | NewUser(username: string, displayName: string, now: int)
    | EditUser(id: nat, displayName: string)
    | InsertBatch(rows: seq<MessageRow>)

  /** A committed transaction; a failing one leaves the database as it was. */
  function Apply(db: Db, c: Change): Db {
    match c
    case NewChannel(name, displayName, enabled, retain) =>
      var r := AddChannel(db, name, displayName, enabled, retain); if r.Some? then r.value else db
    case EditChannel(id, displayName, enabled, retain) => SetChannel(db, id, displayName, enabled, retain)
    case DeleteChannel(id) => DropChannel(db, id)
    case NewUser(username, displayName, now) =>
      var r := AddUser(db, username, displayName, now); if r.Some? then r.value else db
    case EditUser(id, displayName) => SetUser(db, id, displayName)
    case InsertBatch(rows) => var r := InsertAll(db, rows); if r.Some? then r.value else db
  }

  function ApplyAll(db: Db, changes: seq<Change>): Db
    decreases |changes|
  {
    if changes == [] then db else ApplyAll(Apply(db, changes[0]), changes[1..])
  }

  lemma ApplyKeepsKeys(db: Db, c: Change)
    requires KeysInv(db) && !c.InsertBatch?
    ensures KeysInv(Apply(db, c))
  {
  }

  lemma ApplyKeepsIndex(db: Db, c: Change)
    requires KeysInv(db) && IndexInv(db) && !c.InsertBatch?
    ensures IndexInv(Apply(db, c))
  {
  }

  lemma ApplyKeepsChannelCounts(db: Db, c: Change)
    requires KeysInv(db) && ChannelCounts(db) && !c.InsertBatch?
    ensures ChannelCounts(Apply(db, c))
  {
    if c.DeleteChannel? {
      DropKeepsChannelCounts(db, c.id);
    } else {
      assert Apply(db, c).messages == db.messages;
      assert MessagesOf(db.messages, db.nextChannel) == {};
    }
  }

  lemma DropKeepsChannelCounts(db: Db, id: nat)
    requires ChannelCounts(db)
    ensures ChannelCounts(DropChannel(db, id))
  {
    var d := DropChannel(db, id);
    forall c | c in d.channels ensures MessagesOf(d.messages, c) == MessagesOf(db.messages, c) {
    }
  }

  lemma ApplyKeepsUserCounts(db: Db, c: Change)
    requires UserCounts(db) && !c.InsertBatch?
    ensures UserCounts(Apply(db, c))
  {
  }

  lemma ApplyKeepsFts(db: Db, c: Change)
    requires FtsInv(db) && !c.InsertBatch?
    ensures FtsInv(Apply(db, c))
  {
  }

  lemma ApplyKeepsInv(db: Db, c: Change)
    requires Inv(db)
    ensures Inv(Apply(db, c))
  {
    if c.InsertBatch? {
      if InsertAll(db, c.rows).Some? {
        InsertAllKeepsInv(db, c.rows);
      }
    } else {
      ApplyKeepsKeys(db, c);
      ApplyKeepsIndex(db, c);
      ApplyKeepsChannelCounts(db, c);
      ApplyKeepsUserCounts(db, c);
      ApplyKeepsFts(db, c);
    }
  }

  lemma {:induction false} ApplyAllKeepsInv(db: Db, changes: seq<Change>)
    requires Inv(db)
    ensures Inv(ApplyAll(db, changes))
    decreases |changes|
  {
    if changes != [] {
      ApplyKeepsInv(db, changes[0]);
      ApplyAllKeepsInv(Apply(db, changes[0]), changes[1..]);
    }
  }

  // ---- Times ----

  /** The time of the last message ever committed in a channel. */
  function LastIn(log: seq<MessageRow>, channel: nat): Option<int> {
    if log == [] then None
    else
      var last := log[|log| - 1];
      if last.channelId == channel then Some(last.sentAt) else LastIn(log[..|log| - 1], channel)
  }

  /** The time of the last message ever committed for a user. */
  function LastBy(log: seq<MessageRow>, user: nat): Option<int> {
    if log == [] then None
    else
      var last := log[|log| - 1];
      if last.userId == user then Some(last.sentAt) else LastBy(log[..|log| - 1], user)
  }

  ghost predicate Times(db: Db) {
    && (forall id :: id in db.channels ==> db.channels[id].lastMessageAt == LastIn(db.log, id))
    && (forall c :: c >= db.nextChannel ==> LastIn(db.log, c) == None)
    && (forall id :: id in db.users && LastBy(db.log, id).Some? ==> db.users[id].lastSeenAt == LastBy(db.log, id).value)
    && (forall u :: u >= db.nextUser ==> LastBy(db.log, u) == None)
  }

  lemma LastAfterAppend(log: seq<MessageRow>, row: MessageRow, id: nat)
    ensures LastIn(log + [row], id) == if row.channelId == id then Some(row.sentAt) else LastIn(log, id)
    ensures LastBy(log + [row], id) == if row.userId == id then Some(row.sentAt) else LastBy(log, id)
  {
    assert (log + [row])[..|log|] == log;
  }

  lemma InsertKeepsTimes(db: Db, row: MessageRow)
    requires KeysInv(db) && Times(db) && ForeignKeys(db, row)
    ensures Times(InsertMessage(db, row).value)
  {
    forall id: nat
      ensures LastIn(db.log + [row], id) == if row.channelId == id then Some(row.sentAt) else LastIn(db.log, id)
      ensures LastBy(db.log + [row], id) == if row.userId == id then Some(row.sentAt) else LastBy(db.log, id)
    {
      LastAfterAppend(db.log, row, id);
    }
  }

  lemma {:induction false} InsertAllKeepsTimes(db: Db, rows: seq<MessageRow>)
    requires Inv(db) && Times(db) && InsertAll(db, rows).Some?
    ensures Times(InsertAll(db, rows).value)
  {
    if rows != [] {
      InsertAllKeepsInv(db, rows[..|rows| - 1]);
      InsertAllKeepsTimes(db, rows[..|rows| - 1]);
      InsertKeepsTimes(InsertAll(db, rows[..|rows| - 1]).value, rows[|rows| - 1]);
    }
  }

  lemma {:induction false} ApplyAllKeepsTimes(db: Db, changes: seq<Change>)
    requires Inv(db) && Times(db)
    ensures Times(ApplyAll(db, changes))
    decreases |changes|
  {
    if changes != [] {
      ApplyKeepsInv(db, changes[0]);
      ApplyKeepsTimes(db, changes[0]);
      ApplyAllKeepsTimes(Apply(db, changes[0]), changes[1..]);
    }
  }

  lemma ApplyKeepsTimes(db: Db, c: Change)
    requires Inv(db) && Times(db)
    ensures Times(Apply(db, c))
  {
    if c.InsertBatch? {
      if InsertAll(db, c.rows).Some? {
        InsertAllKeepsTimes(db, c.rows);
      }
    } else {
      OtherKeepsTimes(db, c);
    }
  }

  lemma OtherKeepsTimes(db: Db, c: Change)
    requires Times(db) && !c.InsertBatch?
    ensures Times(Apply(db, c))
  {
    assert Apply(db, c).log == db.log;
  }

  /** In every reachable database each channel counts its message rows, each user the messages ever
      committed for it, both tell the time of the last of these, and the full-text index maps exactly the live
      messages to their texts. */
  lemma DerivedDataAgrees(changes: seq<Change>)
    ensures var db := ApplyAll(EMPTY, changes);
            && (forall id :: id in db.channels ==> db.channels[id].lastMessageAt == LastIn(db.log, id))
            && (forall id :: id in db.users && LastBy(db.log, id).Some? ==>
                  db.users[id].lastSeenAt == LastBy(db.log, id).value)
            && (forall id :: id in db.channels ==> db.channels[id].total == |MessagesOf(db.messages, id)|)
            && (forall id :: id in db.users ==> db.users[id].total == CountFor(db.log, id))
            && db.fts == map id | id in db.messages :: db.messages[id].text
  {
    ApplyAllKeepsInv(EMPTY, changes);
    ApplyAllKeepsTimes(EMPTY, changes);
  }

  // ---- The tables, updated in place ----

  class Database {
    var channels: map<nat, ChannelRow>
    var channelIds: map<string, nat>
    var users: map<nat, UserRow>
    var userIds: map<string, nat>
    var messages: map<nat, MessageRow>
    var fts: map<nat, string>
    var nextChannel: nat
    var nextUser: nat
    var nextMessage: nat
    ghost var log: seq<MessageRow>

    ghost function View(): Db
      reads this
    {
      Db(channels, channelIds, users, userIds, messages, fts, nextChannel, nextUser, nextMessage, log)
    }

    constructor ()
      ensures View() == EMPTY
    {
      channels, channelIds, users, userIds, messages, fts := map[], map[], map[], map[], map[], map[];
      nextChannel, nextUser, nextMessage, log := 1, 1, 1, [];
    }

    /** The insert, and after it a read of the new row for its time stamps; `reread` says whether that read
        succeeds. If it does not, the caller gets an error although the row is there. */
    method CreateChannel(name: string, displayName: string, enabled: bool, retain: bool, reread: bool)
      returns (r: Option<nat>)
      modifies this
      ensures var d := AddChannel(old(View()), name, displayName, enabled, retain);
              if d.None? then r.None? && View() == old(View())
              else r == (if reread then Some(old(nextChannel)) else None) && View() == d.value
    {
      if ToLower(name) in channelIds {
        return None;
      }
      var id := nextChannel;
      channels := channels[id := ChannelRow(name, displayName, enabled, retain, 0, None)];
      channelIds := channelIds[ToLower(name) := id];
      nextChannel := id + 1;
      if !reread {
        return None;
      }
      r := Some(id);
    }

    method UpdateChannel(id: nat, displayName: string, enabled: bool, retain: bool)
      modifies this
      ensures View() == SetChannel(old(View()), id, displayName, enabled, retain)
    {
      if id in channels {
        channels := channels[id := channels[id].(displayName := displayName, enabled := enabled, retain := retain)];
      }
    }

    method CreateUser(username: string, displayName: string, now: int) returns (r: Option<nat>)
      modifies this
      ensures var d := AddUser(old(View()), username, displayName, now);
              if d.None? then r.None? && View() == old(View()) else r == Some(old(nextUser)) && View() == d.value
    {
      if ToLower(username) in userIds {
        return None;
      }
      var id := nextUser;
      users := users[id := UserRow(username, displayName, 0, now)];
      userIds := userIds[ToLower(username) := id];
      nextUser := id + 1;
      r := Some(id);
    }

    method UpdateUser(id: nat, displayName: string)
      modifies this
      ensures View() == SetUser(old(View()), id, displayName)
    {
      if id in users {
        users := users[id := users[id].(displayName := displayName)];
      }
    }

    /** Inserts a row and runs the three insert triggers. */
    method Insert(row: MessageRow) returns (r: Option<nat>)
      modifies this
      ensures var d := InsertMessage(old(View()), row);
              if d.None? then r.None? && View() == old(View()) else r == Some(old(nextMessage)) && View() == d.value
    {
      if row.channelId !in channels || row.userId !in users {
        return None;
      }
      var id := nextMessage;
      messages := messages[id := row];
      nextMessage := id + 1;
      log := log + [row];
      // messages_ai
      fts := fts[id := row.text];
      // update_channel_stats
      var c := channels[row.channelId];
      channels := channels[row.channelId := c.(total := c.total + 1, lastMessageAt := Some(row.sentAt))];
      // update_user_stats
      var u := users[row.userId];
      users := users[row.userId := u.(total := u.total + 1, lastSeenAt := row.sentAt)];
      r := Some(id);
    }

    /** The inserts of a transaction, up to the first that fails; the one numbered `fault` does. */
    method InsertRows(rows: seq<MessageRow>, fault: Option<nat>) returns (ids: Option<seq<nat>>)
      modifies this
      ensures ids.Some? <==> InsertAll(old(View()), rows).Some? && (fault.Some? ==> fault.value >= |rows|)
      ensures ids.Some? ==> View() == InsertAll(old(View()), rows).value
      ensures ids.Some? ==> |ids.value| == |rows| && forall k :: 0 <= k < |rows| ==> ids.value[k] == old(nextMessage) + k
    {
      ghost var before, first := View(), nextMessage;
      var given: seq<nat> := [];
      for k := 0 to |rows|
        invariant InsertAll(before, rows[..k]) == Some(View())
        invariant |given| == k && nextMessage == first + k
        invariant forall i :: 0 <= i < k ==> given[i] == first + i
        invariant fault.Some? ==> fault.value >= k
      {
        assert rows[..k + 1][..k] == rows[..k];
        if fault == Some(k) {
          return None;
        }
        var id := Insert(rows[k]);
        if id.None? {
          FailurePropagates(before, rows, k);
          return None;
        }
        given := given + [id.value];
      }
      assert rows[..|rows|] == rows;
      ids := Some(given);
    }

    /** `CreateBatch`: one transaction. The statement numbered `fault` fails, the commit counting as one
        more statement; a failure rolls everything back. The identifiers are those given to the rows. */
    method CreateBatch(rows: seq<MessageRow>, fault: Option<nat>) returns (ids: Option<seq<nat>>)
      modifies this
      ensures ids.Some? <==> InsertAll(old(View()), rows).Some? && (fault.Some? ==> fault.value > |rows|)
      ensures View() == if ids.Some? then InsertAll(old(View()), rows).value else old(View())
      ensures ids.Some? ==> |ids.value| == |rows| && forall k :: 0 <= k < |rows| ==> ids.value[k] == old(nextMessage) + k
    {
      var c, cx, u, ux, m, f := channels, channelIds, users, userIds, messages, fts;
      var nc, nu, nm := nextChannel, nextUser, nextMessage;
      ghost var l := log;
      ids := InsertRows(rows, fault);
      if ids.None? || fault == Some(|rows|) {
        channels, channelIds, users, userIds, messages, fts := c, cx, u, ux, m, f;
        nextChannel, nextUser, nextMessage, log := nc, nu, nm, l;
        ids := None;
      }
    }

    /** Deletes the messages of a channel one by one; each fires the delete trigger. */
    method DeleteMessagesOf(channel: nat)
      modifies this`messages, this`fts
      ensures messages == old(messages) - MessagesOf(old(messages), channel)
      ensures fts == old(fts) - MessagesOf(old(messages), channel)
    {
      ghost var all := MessagesOf(messages, channel);
      var todo := MessagesOf(messages, channel);
      while todo != {}
        invariant todo <= all
        invariant messages == old(messages) - (all - todo) && fts == old(fts) - (all - todo)
        decreases |todo|
      {
        var id :| id in todo;
        assert all - (todo - {id}) == (all - todo) + {id};
        messages := messages - {id};
        // messages_ad
        fts := fts - {id};
        todo := todo - {id};
      }
    }

    /** Deleting a channel; whether its messages are deleted first or by the cascade makes no difference. */
    method DeleteChannel(id: nat, retainHistory: bool)
      requires retainHistory || KeysInv(View())
      modifies this
      ensures View() == DropChannel(old(View()), id)
    {
      if !retainHistory {
        DeleteMessagesOf(id);
        assert MessagesOf(messages, id) == {};
      }
      if id in channels {
        DeleteMessagesOf(id);
        channelIds := channelIds - {ToLower(channels[id].name)};
        channels := channels - {id};
      }
    }

    /** What other goroutines commit while a caller is between two statements of its own. */
    method Meanwhile(changes: seq<Change>)
      modifies this
      ensures View() == ApplyAll(old(View()), changes)
    {
      ghost var start := View();
      for k := 0 to |changes|
        invariant ApplyAll(View(), changes[k..]) == ApplyAll(start, changes)
      {
        assert changes[k..][1..] == changes[k + 1..];
        Commit(changes[k]);
      }
    }

    /** One transaction of another goroutine. */
    method Commit(c: Change)
      modifies this
      ensures View() == Apply(old(View()), c)
    {
      match c
      case NewChannel(name, displayName, enabled, retain) =>
        var id := CreateChannel(name, displayName, enabled, retain, true);
      case EditChannel(id, displayName, enabled, retain) => UpdateChannel(id, displayName, enabled, retain);
      case DeleteChannel(id) => DeleteChannel(id, true);
      case NewUser(username, displayName, now) => var id := CreateUser(username, displayName, now);
      case EditUser(id, displayName) => UpdateUser(id, displayName);
      case InsertBatch(rows) => var ids := CreateBatch(rows, None);
    }
  }

  lemma {:induction false} FailurePropagates(db: Db, rows: seq<MessageRow>, k: nat)
    requires k < |rows| && InsertAll(db, rows[..k + 1]).None?
    ensures InsertAll(db, rows).None?
    decreases |rows| - k
  {
    if k + 1 < |rows| {
      assert rows[..k + 2][..k + 1] == rows[..k + 1];
      FailurePropagates(db, rows, k + 1);
    } else {
      assert rows[..k + 1] == rows;
    }
  }
}
