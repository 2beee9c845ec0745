/** The way of a message from the pipeline to the browsers: the batches of a pipeline run, stored one after
    the other by the processor, make up the log that the live updates broadcast. */
module Archive {
  import opened BatchStore
  import opened ChannelNames
  import opened GoStrings
  import opened IngestTypes
  import opened Processor
  import opened Schema
  import C = CacheSoundness
  import D = LiveDelivery
  import L = LiveSse
  import P = Pipeline

  /** One call of `StoreBatch` with the table changes during it, and the lookups, evictions and table changes
      since the call before. */
  datatype Turn = Turn(before: seq<C.Timed>, batch: seq<Message>, envs: seq<Env>, last: seq<Change>, fault: Option<nat>)

  predicate Proper(turns: seq<Turn>) {
    forall t :: t in turns ==> |t.envs| == |t.batch|
  }

  /** The caches and tables after some calls, and everything announced by them. */
  datatype Served = Served(memo: Memo, announced: seq<StoredMessage>)

  function Start(m: Memo, t: Turn, ttl: int): Memo {
    C.After(m, t.before, ttl)
  }

  function ServeOne(m: Memo, t: Turn, ttl: int): StoreResult
    requires |t.envs| == |t.batch|
  {
    StoreItems(Start(m, t, ttl), ItemsOf(t.batch), t.envs, t.last, t.fault, ttl)
  }

  function Serve(m: Memo, turns: seq<Turn>, ttl: int): Served
    requires Proper(turns)
    decreases |turns|
  {
    if turns == [] then Served(m, [])
    else
      var s, last := Serve(m, turns[..|turns| - 1], ttl), turns[|turns| - 1];
      var r := ServeOne(s.memo, last, ttl);
      Served(r.memo, s.announced + r.announced)
  }

  // ---- The caches stay sound ----

  /** A call leaves the caches it ends with, and the tables before or after the transaction. */
  lemma StoreEnds(m: Memo, items: seq<Item>, envs: seq<Env>, last: seq<Change>, fault: Option<nat>, ttl: int)
    requires |envs| == |items|
    ensures var (outcomes, m1) := ResolveAll(m, items, envs, ttl);
            var memo, end := StoreItems(m, items, envs, last, fault, ttl).memo, Meanwhile(m1, last);
            memo == m1 || memo == end || memo == end.(db := Apply(end.db, InsertBatch(RowsOf(KeptOf(outcomes)))))
  {
  }

  lemma StoreKeepsSound(m: Memo, items: seq<Item>, envs: seq<Env>, last: seq<Change>, fault: Option<nat>, ttl: int)
    requires |envs| == |items| && C.Sound(m)
    ensures C.Sound(StoreItems(m, items, envs, last, fault, ttl).memo)
  {
    ResolveAllKeepsSound(m, items, envs, ttl);
    var (outcomes, m1) := ResolveAll(m, items, envs, ttl);
    C.MeanwhileKeepsSound(m1, last);
    C.WriteKeepsSound(Meanwhile(m1, last), InsertBatch(RowsOf(KeptOf(outcomes))));
    StoreEnds(m, items, envs, last, fault, ttl);
  }

  lemma ServeOneKeepsSound(m: Memo, t: Turn, ttl: int)
    requires |t.envs| == |t.batch| && C.Sound(m)
    ensures C.Sound(Start(m, t, ttl)) && C.Sound(ServeOne(m, t, ttl).memo)
  {
    C.CachesStaySound(m, t.before, ttl);
    StoreKeepsSound(Start(m, t, ttl), ItemsOf(t.batch), t.envs, t.last, t.fault, ttl);
  }

  lemma {:induction false} ServeKeepsSound(m: Memo, turns: seq<Turn>, ttl: int)
    requires Proper(turns) && C.Sound(m)
    ensures C.Sound(Serve(m, turns, ttl).memo)
    decreases |turns|
  {
    if turns != [] {
      ServeKeepsSound(m, turns[..|turns| - 1], ttl);
      ServeOneKeepsSound(Serve(m, turns[..|turns| - 1], ttl).memo, turns[|turns| - 1], ttl);
    }
  }

  // ---- What is announced ----

  /** The announcements a stored call owes: its wanted messages whose lookups do not fail. */
  function Owed(m: Memo, t: Turn, ttl: int): seq<StoredMessage>
    requires |t.envs| == |t.batch|
  {
    var start, items := Start(m, t, ttl), ItemsOf(t.batch);
    var end := End(start, items, t.envs, t.last, ttl);
    Announced(Selected(Tables(start, items, t.envs, ttl), end, items, Failures(start, items, t.envs, ttl)), end.nextMessage)
  }

  lemma ServeOneIsOwed(m: Memo, t: Turn, ttl: int)
    requires |t.envs| == |t.batch| && C.Sound(m)
    ensures var r := ServeOne(m, t, ttl); r.announced == if r.ok then Owed(m, t, ttl) else []
  {
    var start, items := Start(m, t, ttl), ItemsOf(t.batch);
    C.CachesStaySound(m, t.before, ttl);
    StoreBatchIsFilterMap(start, items, t.envs, t.last, ttl);
  }

  function AllOwed(m: Memo, turns: seq<Turn>, ttl: int): seq<StoredMessage>
    requires Proper(turns)
    decreases |turns|
  {
    if turns == [] then []
    else
      var s, last := Serve(m, turns[..|turns| - 1], ttl), turns[|turns| - 1];
      AllOwed(m, turns[..|turns| - 1], ttl) + if ServeOne(s.memo, last, ttl).ok then Owed(s.memo, last, ttl) else []
  }

  /** Over any number of batches, with failures, and lookups, evictions and table changes between them and
      during each, the messages announced are, in order, the wanted messages of the stored batches whose
      lookups did not fail. */
  lemma {:induction false} AnnouncedIsOwed(m: Memo, turns: seq<Turn>, ttl: int)
    requires Proper(turns) && C.Sound(m)
    ensures Serve(m, turns, ttl).announced == AllOwed(m, turns, ttl)
    decreases |turns|
  {
    if turns != [] {
      var before := turns[..|turns| - 1];
      AnnouncedIsOwed(m, before, ttl);
      ServeKeepsSound(m, before, ttl);
      ServeOneIsOwed(Serve(m, before, ttl).memo, turns[|turns| - 1], ttl);
    }
  }

  // ---- Identifiers grow ----

  /** What later tables leave of the names and the rows: identifiers are given in increasing order and never
      again, and a row is not changed while it is there. */
  ghost predicate Later(before: Db, after: Db) {
    C.NamesKept(before, after) && RowsKept(before, after)
  }

  ghost predicate RowsKept(before: Db, after: Db) {
    && before.nextMessage <= after.nextMessage
    && forall id :: id in after.messages && id < before.nextMessage ==>
         id in before.messages && after.messages[id] == before.messages[id]
  }

  lemma LaterStill(a: Db, b: Db, c: Db)
    requires Inv(a) && Later(a, b) && Later(b, c)
    ensures Later(a, c)
  {
    C.NamesKeptOnwards(a, b, c);
  }

  lemma ApplyIsLater(db: Db, c: Change)
    requires Inv(db)
    ensures Later(db, Apply(db, c))
  {
    C.ApplyKeepsNames(db, c);
    ApplyKeepsRows(db, c);
  }

  lemma ApplyKeepsRows(db: Db, c: Change)
    requires KeysInv(db)
    ensures RowsKept(db, Apply(db, c))
  {
    if c.InsertBatch? {
      InsertAllIsExact(db, c.rows);
    }
  }

  lemma {:induction false} MeanwhileIsLater(m: Memo, changes: seq<Change>)
    requires C.Sound(m)
    ensures C.Sound(Meanwhile(m, changes)) && Later(m.db, Meanwhile(m, changes).db)
    decreases |changes|
  {
    if changes != [] {
      var m1 := m.(db := Apply(m.db, changes[0]));
      ApplyIsLater(m.db, changes[0]);
      C.WriteKeepsSound(m, changes[0]);
      MeanwhileIsLater(m1, changes[1..]);
      assert Meanwhile(m, changes) == Meanwhile(m1, changes[1..]);
      LaterStill(m.db, m1.db, Meanwhile(m, changes).db);
    }
  }

  lemma LookupUserIsLater(m: Memo, name: string, displayName: string, now: int, ttl: int, fault: bool)
    requires C.Sound(m)
    ensures var m' := LookupUser(m, name, displayName, now, ttl, fault).1; C.Sound(m') && Later(m.db, m'.db)
  {
    C.LookupUserKeepsSound(m, name, displayName, now, ttl, fault);
    LookupUserKeepsRows(m, name, displayName, now, ttl, fault);
  }

  lemma LookupUserKeepsRows(m: Memo, name: string, displayName: string, now: int, ttl: int, fault: bool)
    ensures RowsKept(m.db, LookupUser(m, name, displayName, now, ttl, fault).1.db)
  {
  }

  lemma OtherOpsKeepTables(m: Memo, t: C.Timed, ttl: int)
    requires !t.op.FindUserId? && !t.op.Write?
    ensures C.Do(m, t, ttl).1.db == m.db
  {
  }

  lemma DoIsLater(m: Memo, t: C.Timed, ttl: int)
    requires C.Sound(m)
    ensures var m' := C.Do(m, t, ttl).1; C.Sound(m') && Later(m.db, m'.db)
  {
    C.DoKeepsSound(m, t, ttl);
    if t.op.FindUserId? {
      LookupUserIsLater(m, t.op.name, t.op.displayName, t.now, ttl, t.op.fault);
    } else if t.op.Write? {
      ApplyIsLater(m.db, t.op.change);
    } else {
      OtherOpsKeepTables(m, t, ttl);
    }
  }

  lemma {:induction false} StartIsLater(m: Memo, ops: seq<C.Timed>, ttl: int)
    requires C.Sound(m)
    ensures var m' := C.After(m, ops, ttl); C.Sound(m') && Later(m.db, m'.db)
    decreases |ops|
  {
    if ops != [] {
      var m1 := C.Do(m, ops[0], ttl).1;
      DoIsLater(m, ops[0], ttl);
      StartIsLater(m1, ops[1..], ttl);
      LaterStill(m.db, m1.db, C.After(m1, ops[1..], ttl).db);
    }
  }

  lemma ResolveUserIsLater(start: Memo, item: Item, env: Env, ttl: int)
    requires C.Sound(start)
    ensures var m1 := LookupChannel(start, item.channelName, env.channelNow, ttl, env.channelFault).1;
            var m2 := LookupUser(Meanwhile(m1, env.between), item.username, item.msg.displayName, env.userNow, ttl,
                                 env.userFault).1;
            C.Sound(m1) && m1.db == start.db && C.Sound(m2) && Later(start.db, m2.db)
  {
    LookupChannelExact(start, item, env, ttl);
    var m1 := LookupChannel(start, item.channelName, env.channelNow, ttl, env.channelFault).1;
    var m2 := Meanwhile(m1, env.between);
    MeanwhileIsLater(m1, env.between);
    LookupUserIsLater(m2, item.username, item.msg.displayName, env.userNow, ttl, env.userFault);
    var m3 := LookupUser(m2, item.username, item.msg.displayName, env.userNow, ttl, env.userFault).1;
    LaterStill(start.db, m2.db, m3.db);
  }

  /** A message leaves what it found, with its channel cached, or what its user lookup leaves. */
  lemma ResolveEnds(m: Memo, item: Item, env: Env, ttl: int)
    ensures var start, m' := Meanwhile(m, env.before), ResolveOne(m, item, env, ttl).1;
            var m1 := LookupChannel(start, item.channelName, env.channelNow, ttl, env.channelFault).1;
            m' == start || m' == m1
            || m' == LookupUser(Meanwhile(m1, env.between), item.username, item.msg.displayName, env.userNow, ttl, env.userFault).1
  {
  }

  lemma ResolveOneIsLater(m: Memo, item: Item, env: Env, ttl: int)
    requires C.Sound(m)
    ensures var m' := ResolveOne(m, item, env, ttl).1; C.Sound(m') && Later(m.db, m'.db)
  {
    var start, m' := Meanwhile(m, env.before), ResolveOne(m, item, env, ttl).1;
    MeanwhileIsLater(m, env.before);
    ResolveUserIsLater(start, item, env, ttl);
    ResolveEnds(m, item, env, ttl);
    assert C.Sound(m') && (m'.db == start.db || Later(start.db, m'.db));
    if m'.db != start.db {
      LaterStill(m.db, start.db, m'.db);
    }
  }

  lemma {:induction false} ResolveAllIsLater(m: Memo, items: seq<Item>, envs: seq<Env>, ttl: int)
    requires |envs| == |items| && C.Sound(m)
    ensures var m' := ResolveAll(m, items, envs, ttl).1; C.Sound(m') && Later(m.db, m'.db)
    decreases |items|
  {
    if items != [] {
      var n := |items| - 1;
      ResolveAllIsLater(m, items[..n], envs[..n], ttl);
      var m1 := ResolveAll(m, items[..n], envs[..n], ttl).1;
      ResolveOneIsLater(m1, items[n], envs[n], ttl);
      LaterStill(m.db, m1.db, ResolveOne(m1, items[n], envs[n], ttl).1.db);
    }
  }

  lemma EndIsLater(m: Memo, items: seq<Item>, envs: seq<Env>, last: seq<Change>, ttl: int)
    requires |envs| == |items| && C.Sound(m)
    ensures var end := End(m, items, envs, last, ttl); Inv(end) && Later(m.db, end)
  {
    var m1 := ResolveAll(m, items, envs, ttl).1;
    ResolveAllIsLater(m, items, envs, ttl);
    MeanwhileIsLater(m1, last);
    LaterStill(m.db, m1.db, Meanwhile(m1, last).db);
  }

  lemma StoreIsLater(m: Memo, items: seq<Item>, envs: seq<Env>, last: seq<Change>, fault: Option<nat>, ttl: int)
    requires |envs| == |items| && C.Sound(m)
    ensures Later(m.db, StoreItems(m, items, envs, last, fault, ttl).memo.db)
  {
    var (outcomes, m1) := ResolveAll(m, items, envs, ttl);
    var end, c := End(m, items, envs, last, ttl), InsertBatch(RowsOf(KeptOf(outcomes)));
    StoreEnds(m, items, envs, last, fault, ttl);
    ResolveAllIsLater(m, items, envs, ttl);
    EndIsLater(m, items, envs, last, ttl);
    ApplyIsLater(end, c);
    LaterStill(m.db, end, Apply(end, c));
  }

  lemma ServeOneIsLater(m: Memo, t: Turn, ttl: int)
    requires |t.envs| == |t.batch| && C.Sound(m)
    ensures Later(m.db, ServeOne(m, t, ttl).memo.db)
  {
    StartIsLater(m, t.before, ttl);
    StoreIsLater(Start(m, t, ttl), ItemsOf(t.batch), t.envs, t.last, t.fault, ttl);
    LaterStill(m.db, Start(m, t, ttl).db, ServeOne(m, t, ttl).memo.db);
  }

  /** The announcements of one call carry new identifiers, in increasing order, and tell of the rows stored
      under them. */
  lemma ServeOneTells(m: Memo, t: Turn, ttl: int)
    requires |t.envs| == |t.batch| && C.Sound(m)
    ensures var r := ServeOne(m, t, ttl);
            && L.SortedLog(r.announced)
            && forall a :: a in r.announced ==> TellsOf(r.memo.db, a) && m.db.nextMessage <= a.id < r.memo.db.nextMessage
  {
    var start, items, r := Start(m, t, ttl), ItemsOf(t.batch), ServeOne(m, t, ttl);
    StartIsLater(m, t.before, ttl);
    EndIsLater(start, items, t.envs, t.last, ttl);
    AnnouncementsTellOfRows(start, items, t.envs, t.last, t.fault, ttl);
    forall a | a in r.announced ensures m.db.nextMessage <= a.id < r.memo.db.nextMessage {
      var k :| 0 <= k < |r.announced| && r.announced[k] == a;
    }
  }

  // ---- Announcements and the tables ----

  /** The announcement tells of its row for as long as this is there, and of its channel and its user. */
  ghost predicate Filed(db: Db, a: StoredMessage) {
    && a.id < db.nextMessage && a.channelId < db.nextChannel
    && FindUser(db, a.username) == Some(a.userId)
    && (a.channelId in db.channels ==> FindChannel(db, a.channelName) == Some(a.channelId))
    && (a.id in db.messages ==>
          && db.messages[a.id].channelId == a.channelId && db.messages[a.id].userId == a.userId
          && db.messages[a.id].text == a.text && db.messages[a.id].sentAt == a.sentAt)
  }

  ghost predicate AllFiled(db: Db, announced: seq<StoredMessage>) {
    forall a :: a in announced ==> Filed(db, a)
  }

  lemma FiledStays(before: Db, after: Db, a: StoredMessage)
    requires Later(before, after) && Filed(before, a)
    ensures Filed(after, a)
  {
  }

  lemma ToldIsFiled(db: Db, a: StoredMessage)
    requires Inv(db) && TellsOf(db, a)
    ensures Filed(db, a)
  {
  }

  lemma AllFiledStay(before: Db, after: Db, earlier: seq<StoredMessage>, latest: seq<StoredMessage>)
    requires Inv(after) && Later(before, after)
    requires AllFiled(before, earlier) && forall a :: a in latest ==> TellsOf(after, a)
    ensures AllFiled(after, earlier + latest)
  {
    forall a | a in earlier + latest ensures Filed(after, a) {
      if a in earlier {
        FiledStays(before, after, a);
      } else {
        ToldIsFiled(after, a);
      }
    }
  }

  lemma ServeOneFiles(m: Memo, t: Turn, earlier: seq<StoredMessage>, ttl: int)
    requires |t.envs| == |t.batch| && C.Sound(m) && AllFiled(m.db, earlier)
    ensures AllFiled(ServeOne(m, t, ttl).memo.db, earlier + ServeOne(m, t, ttl).announced)
  {
    ServeOneKeepsSound(m, t, ttl);
    ServeOneIsLater(m, t, ttl);
    ServeOneTells(m, t, ttl);
    AllFiledStay(m.db, ServeOne(m, t, ttl).memo.db, earlier, ServeOne(m, t, ttl).announced);
  }

  /** Whatever happens to the tables, every announcement made tells of the row stored under its identifier for
      as long as that is there, and carries the identifiers its channel and its user were stored under. */
  lemma {:induction false} AnnouncementsStayFiled(m: Memo, turns: seq<Turn>, ttl: int)
    requires Proper(turns) && C.Sound(m)
    ensures AllFiled(Serve(m, turns, ttl).memo.db, Serve(m, turns, ttl).announced)
    decreases |turns|
  {
    if turns != [] {
      var before := turns[..|turns| - 1];
      AnnouncementsStayFiled(m, before, ttl);
      ServeKeepsSound(m, before, ttl);
      ServeOneFiles(Serve(m, before, ttl).memo, turns[|turns| - 1], Serve(m, before, ttl).announced, ttl);
    }
  }

  lemma {:induction false} AnnouncedIsSorted(m: Memo, turns: seq<Turn>, ttl: int)
    requires Proper(turns) && C.Sound(m)
    ensures var s := Serve(m, turns, ttl);
            L.SortedLog(s.announced) && forall a :: a in s.announced ==> a.id < s.memo.db.nextMessage
    decreases |turns|
  {
    if turns != [] {
      var before, last := turns[..|turns| - 1], turns[|turns| - 1];
      AnnouncedIsSorted(m, before, ttl);
      ServeKeepsSound(m, before, ttl);
      var s := Serve(m, before, ttl);
      ServeOneTells(s.memo, last, ttl);
      ServeOneIsLater(s.memo, last, ttl);
    }
  }

  // ---- The log of the live updates ----

  /** The commits of the live updates that go with the calls. */
  function Commits(m: Memo, turns: seq<Turn>, ttl: int): seq<L.Step>
    requires Proper(turns)
    decreases |turns|
  {
    if turns == [] then []
    else
      var s := Serve(m, turns[..|turns| - 1], ttl);
      Commits(m, turns[..|turns| - 1], ttl) + [L.Commit(ServeOne(s.memo, turns[|turns| - 1], ttl).announced)]
  }

  /** What the processor announces is a log the live updates can take: each call is an enabled commit, and
      together they make the announcements the log. */
  lemma {:induction false} AnnouncementsAreALiveLog(m: Memo, turns: seq<Turn>, ttl: int)
    requires Proper(turns) && C.Sound(m)
    ensures L.Valid(L.Init(), Commits(m, turns, ttl))
    ensures L.Run(L.Init(), Commits(m, turns, ttl)) == L.Init().(log := Serve(m, turns, ttl).announced)
    decreases |turns|
  {
    if turns != [] {
      var before, last := turns[..|turns| - 1], turns[|turns| - 1];
      AnnouncementsAreALiveLog(m, before, ttl);
      AnnouncedIsSorted(m, turns, ttl);
      L.RunAppend(L.Init(), Commits(m, before, ttl), L.Commit(ServeOne(Serve(m, before, ttl).memo, last, ttl).announced));
    }
  }

  // ---- From the pipeline to the announcements ----

  /** `a` is `b` with some elements left out. */
  predicate Subsequence<T(==)>(a: seq<T>, b: seq<T>) {
    if b == [] then a == []
    else Subsequence(a, b[..|b| - 1]) || (a != [] && a[|a| - 1] == b[|b| - 1] && Subsequence(a[..|a| - 1], b[..|b| - 1]))
  }

  lemma {:induction false} NothingIsSubsequence<T>(b: seq<T>)
    ensures Subsequence([], b)
    decreases |b|
  {
    if b != [] {
      NothingIsSubsequence(b[..|b| - 1]);
    }
  }

  lemma {:induction false} SubsequencesJoin<T>(a: seq<T>, b: seq<T>, c: seq<T>, d: seq<T>)
    requires Subsequence(a, b) && Subsequence(c, d)
    ensures Subsequence(a + c, b + d)
    decreases |d|
  {
    if d == [] {
      assert a + c == a && b + d == b;
    } else {
      assert (b + d)[..|b + d| - 1] == b + d[..|d| - 1];
      if Subsequence(c, d[..|d| - 1]) {
        SubsequencesJoin(a, b, c, d[..|d| - 1]);
      } else {
        SubsequencesJoin(a, b, c[..|c| - 1], d[..|d| - 1]);
        assert (a + c)[..|a + c| - 1] == a + c[..|c| - 1];
      }
    }
  }

  lemma SubsequenceOfMore<T>(a: seq<T>, b: seq<T>, d: seq<T>)
    requires Subsequence(a, b)
    ensures Subsequence(a, b + d)
  {
    NothingIsSubsequence(d);
    SubsequencesJoin(a, b, [], d);
    assert a + [] == a;
  }

  lemma {:induction false} SubsequenceElements<T>(a: seq<T>, b: seq<T>)
    requires Subsequence(a, b)
    ensures forall x :: x in a ==> x in b
    decreases |b|
  {
    if b != [] {
      var b' := b[..|b| - 1];
      if Subsequence(a, b') {
        SubsequenceElements(a, b');
      } else {
        SubsequenceElements(a[..|a| - 1], b');
        assert a == a[..|a| - 1] + [b[|b| - 1]];
      }
    }
  }

  function MessagesOf(items: seq<Item>): (r: seq<Message>)
    ensures |r| == |items|
  {
    seq(|items|, i requires 0 <= i < |items| => items[i].msg)
  }

  lemma {:induction false} SubsequenceOfMessages(a: seq<Item>, b: seq<Item>)
    requires Subsequence(a, b)
    ensures Subsequence(MessagesOf(a), MessagesOf(b))
    decreases |b|
  {
    if b != [] {
      var b' := b[..|b| - 1];
      assert MessagesOf(b)[..|b| - 1] == MessagesOf(b');
      if Subsequence(a, b') {
        SubsequenceOfMessages(a, b');
      } else {
        SubsequenceOfMessages(a[..|a| - 1], b');
        assert MessagesOf(a)[..|a| - 1] == MessagesOf(a[..|a| - 1]);
      }
    }
  }

  /** The items the filter keeps. */
  function Chosen(tables: seq<Db>, items: seq<Item>, failed: seq<bool>): seq<Item>
    requires |failed| == |items| == |tables|
  {
    if items == [] then []
    else
      var n := |items| - 1;
      Chosen(tables[..n], items[..n], failed[..n]) + if Wanted(tables[n], items[n]) && !failed[n] then [items[n]] else []
  }

  lemma {:induction false} ChosenIsSubsequence(tables: seq<Db>, items: seq<Item>, failed: seq<bool>)
    requires |failed| == |items| == |tables|
    ensures Subsequence(Chosen(tables, items, failed), items)
  {
    if items != [] {
      var n := |items| - 1;
      ChosenIsSubsequence(tables[..n], items[..n], failed[..n]);
      var before := Chosen(tables[..n], items[..n], failed[..n]);
      if Wanted(tables[n], items[n]) && !failed[n] {
        assert (before + [items[n]])[..|before|] == before;
      } else {
        assert before + [] == before;
      }
    }
  }

  /** The announcement tells of the message. */
  predicate Describes(a: StoredMessage, m: Message) {
    && a.text == m.text && a.sentAt == m.receivedAt && a.displayName == m.displayName
    && a.channelName == NormalizeChannelName(m.channelName) && a.username == NormalizeUsername(m.username)
  }

  ghost predicate DescribesAll(announced: seq<StoredMessage>, behind: seq<Message>) {
    |announced| == |behind| && forall k :: 0 <= k < |announced| ==> Describes(announced[k], behind[k])
  }

  predicate KeptTells(k: Kept, item: Item) {
    && k.row.text == item.msg.text && k.row.sentAt == item.msg.receivedAt && k.displayName == item.msg.displayName
    && k.channelName == item.channelName && k.username == item.username
  }

  lemma KeptForTells(db: Db, end: Db, item: Item)
    requires Wanted(db, item)
    ensures KeptTells(KeptFor(db, end, item), item)
  {
  }

  lemma {:induction false} SelectedTellsOfChosen(tables: seq<Db>, end: Db, items: seq<Item>, failed: seq<bool>)
    requires |failed| == |items| == |tables|
    ensures var kept, chosen := Selected(tables, end, items, failed), Chosen(tables, items, failed);
            |kept| == |chosen| && forall k :: 0 <= k < |kept| ==> KeptTells(kept[k], chosen[k])
    decreases |items|
  {
    if items != [] {
      var n := |items| - 1;
      SelectedTellsOfChosen(tables[..n], end, items[..n], failed[..n]);
      if Wanted(tables[n], items[n]) && !failed[n] {
        KeptForTells(tables[n], end, items[n]);
      }
    }
  }

  /** The messages behind the announcements of a stored call. */
  function Behind(m: Memo, t: Turn, ttl: int): seq<Message>
    requires |t.envs| == |t.batch|
  {
    var start, items := Start(m, t, ttl), ItemsOf(t.batch);
    MessagesOf(Chosen(Tables(start, items, t.envs, ttl), items, Failures(start, items, t.envs, ttl)))
  }

  lemma ChosenComeFromBatch(tables: seq<Db>, batch: seq<Message>, failed: seq<bool>)
    requires |failed| == |batch| == |tables|
    ensures var chosen := Chosen(tables, ItemsOf(batch), failed);
            && Subsequence(MessagesOf(chosen), batch)
            && forall k :: 0 <= k < |chosen| ==> chosen[k] == ItemOf(chosen[k].msg)
  {
    var items := ItemsOf(batch);
    var chosen := Chosen(tables, items, failed);
    ChosenIsSubsequence(tables, items, failed);
    SubsequenceOfMessages(chosen, items);
    assert MessagesOf(items) == batch;
    SubsequenceElements(chosen, items);
    assert forall k :: 0 <= k < |chosen| ==> chosen[k] in items;
  }

  lemma OwedDescribesBehind(m: Memo, t: Turn, ttl: int)
    requires |t.envs| == |t.batch|
    ensures DescribesAll(Owed(m, t, ttl), Behind(m, t, ttl)) && Subsequence(Behind(m, t, ttl), t.batch)
  {
    var start, items := Start(m, t, ttl), ItemsOf(t.batch);
    var tables, failed := Tables(start, items, t.envs, ttl), Failures(start, items, t.envs, ttl);
    var end := End(start, items, t.envs, t.last, ttl);
    ChosenComeFromBatch(tables, t.batch, failed);
    SelectedTellsOfChosen(tables, end, items, failed);
    var kept, chosen, first := Selected(tables, end, items, failed), Chosen(tables, items, failed), end.nextMessage;
    forall k | 0 <= k < |kept| ensures Describes(Announced(kept, first)[k], MessagesOf(chosen)[k]) {
      assert Announced(kept, first)[k] == Announced([kept[k]], first + k)[0];
    }
  }

  function AllBehind(m: Memo, turns: seq<Turn>, ttl: int): seq<Message>
    requires Proper(turns)
    decreases |turns|
  {
    if turns == [] then []
    else
      var s, last := Serve(m, turns[..|turns| - 1], ttl), turns[|turns| - 1];
      AllBehind(m, turns[..|turns| - 1], ttl) + if ServeOne(s.memo, last, ttl).ok then Behind(s.memo, last, ttl) else []
  }

  /** The messages of the batches that were stored. */
  function StoredOf(attempts: seq<P.Attempt>): seq<Message> {
    if attempts == [] then []
    else
      var last := attempts[|attempts| - 1];
      StoredOf(attempts[..|attempts| - 1]) + if last.outcome.Stored? then last.batch else []
  }

  /** The calls as the pipeline sees them: the batches and the processor's answers. */
  function AttemptsOf(m: Memo, turns: seq<Turn>, ttl: int): seq<P.Attempt>
    requires Proper(turns)
    decreases |turns|
  {
    if turns == [] then []
    else
      var s, last := Serve(m, turns[..|turns| - 1], ttl), turns[|turns| - 1];
      AttemptsOf(m, turns[..|turns| - 1], ttl)
      + [P.Attempt(last.batch, if ServeOne(s.memo, last, ttl).ok then P.Stored else P.Lost)]
  }

  lemma {:induction false} OwedComesFromStored(m: Memo, turns: seq<Turn>, ttl: int)
    requires Proper(turns)
    ensures DescribesAll(AllOwed(m, turns, ttl), AllBehind(m, turns, ttl))
    ensures Subsequence(AllBehind(m, turns, ttl), StoredOf(AttemptsOf(m, turns, ttl)))
    decreases |turns|
  {
    if turns != [] {
      var n := |turns| - 1;
      var s, last := Serve(m, turns[..n], ttl), turns[n];
      OwedComesFromStored(m, turns[..n], ttl);
      OwedDescribesBehind(s.memo, last, ttl);
      var attempts := AttemptsOf(m, turns[..n], ttl);
      var before, stored := AllBehind(m, turns[..n], ttl), StoredOf(attempts);
      assert AttemptsOf(m, turns, ttl)[..|attempts|] == attempts;
      if ServeOne(s.memo, last, ttl).ok {
        SubsequencesJoin(before, stored, Behind(s.memo, last, ttl), last.batch);
      } else {
        SubsequencesJoin(before, stored, [], []);
      }
    }
  }

  lemma {:induction false} StoredComesFromDelivered(attempts: seq<P.Attempt>)
    ensures Subsequence(StoredOf(attempts), P.Delivered(attempts))
    decreases |attempts|
  {
    if attempts != [] {
      var n := |attempts| - 1;
      StoredComesFromDelivered(attempts[..n]);
      if attempts[n].outcome.Stored? {
        SubsequenceOfItself(attempts[n].batch);
        SubsequencesJoin(StoredOf(attempts[..n]), P.Delivered(attempts[..n]), attempts[n].batch, attempts[n].batch);
      } else {
        SubsequenceOfMore(StoredOf(attempts[..n]), P.Delivered(attempts[..n]), attempts[n].batch);
        assert StoredOf(attempts[..n]) + [] == StoredOf(attempts[..n]);
      }
    }
  }

  lemma {:induction false} SubsequenceOfItself<T>(a: seq<T>)
    ensures Subsequence(a, a)
    decreases |a|
  {
    if a != [] {
      SubsequenceOfItself(a[..|a| - 1]);
    }
  }

  lemma {:induction false} SubsequenceIsTransitive<T>(a: seq<T>, b: seq<T>, c: seq<T>)
    requires Subsequence(a, b) && Subsequence(b, c)
    ensures Subsequence(a, c)
    decreases |c|
  {
    if c != [] {
      var c' := c[..|c| - 1];
      if Subsequence(b, c') {
        SubsequenceIsTransitive(a, b, c');
      } else if Subsequence(a, b[..|b| - 1]) {
        SubsequenceIsTransitive(a, b[..|b| - 1], c');
      } else {
        SubsequenceIsTransitive(a[..|a| - 1], b[..|b| - 1], c');
      }
    }
  }

  /** The call the processor has finished is this attempt, whose outcome the pipeline may not know yet. */
  predicate SameCall(attempt: P.Attempt, call: P.Attempt) {
    attempt.batch == call.batch && (attempt.outcome.Pending? || attempt.outcome == call.outcome)
  }

  /** The calls the processor has finished, beside the attempts of the pipeline: all of them, or all but the
      last, which is still in the processor's hands. */
  ghost predicate InStep(attempts: seq<P.Attempt>, calls: seq<P.Attempt>) {
    && |calls| <= |attempts| <= |calls| + 1
    && (forall k :: 0 <= k < |calls| ==> SameCall(attempts[k], calls[k]))
    && (|attempts| > |calls| ==> attempts[|calls|].outcome.Pending?)
  }

  lemma {:induction false} SameBatches(attempts: seq<P.Attempt>, calls: seq<P.Attempt>)
    requires |calls| == |attempts| && forall k :: 0 <= k < |calls| ==> SameCall(attempts[k], calls[k])
    ensures P.Delivered(calls) == P.Delivered(attempts)
    decreases |calls|
  {
    if calls != [] {
      var n := |calls| - 1;
      assert SameCall(attempts[n], calls[n]);
      SameBatches(attempts[..n], calls[..n]);
    }
  }

  lemma CallsComeFromAttempts(attempts: seq<P.Attempt>, calls: seq<P.Attempt>)
    requires InStep(attempts, calls)
    ensures P.Delivered(calls) <= P.Delivered(attempts)
  {
    SameBatches(attempts[..|calls|], calls);
    if |attempts| == |calls| {
      assert attempts[..|calls|] == attempts;
    }
  }

  /** A run of the pipeline leads to `s`. */
  ghost predicate PipelineReaches(cfg: P.Config, s: P.State) {
    exists events :: P.Valid(P.Init(cfg), events) && P.Run(P.Init(cfg), events) == s
  }

  /** A run of the live updates leads to `w`. */
  ghost predicate LiveReaches(w: L.World) {
    exists steps :: L.Valid(L.Init(), steps) && L.Run(L.Init(), steps) == w
  }

  /** From end to end: over every run of the pipeline, with any outcome of each batch and any changes of the
      tables in between, the events announced to the browsers tell, in order, of messages the pipeline
      accepted, each of a batch that was stored, and none twice; and each tells of the row stored for it. */
  lemma EveryEventIsAnAcceptedMessage(cfg: P.Config, s: P.State, m: Memo, turns: seq<Turn>, ttl: int)
    requires PipelineReaches(cfg, s) && Proper(turns) && C.Sound(m)
    requires InStep(s.attempts, AttemptsOf(m, turns, ttl))
    ensures var behind := AllBehind(m, turns, ttl);
            && DescribesAll(Serve(m, turns, ttl).announced, behind)
            && Subsequence(behind, StoredOf(AttemptsOf(m, turns, ttl))) && Subsequence(behind, s.accepted)
    ensures AllFiled(Serve(m, turns, ttl).memo.db, Serve(m, turns, ttl).announced)
  {
    AnnouncementsStayFiled(m, turns, ttl);
    var behind, calls := AllBehind(m, turns, ttl), AttemptsOf(m, turns, ttl);
    AnnouncedIsOwed(m, turns, ttl);
    OwedComesFromStored(m, turns, ttl);
    StoredComesFromDelivered(calls);
    SubsequenceIsTransitive(behind, StoredOf(calls), P.Delivered(calls));
    CallsComeFromAttempts(s.attempts, calls);
    AcceptedStartsWith(cfg, s, P.Delivered(calls));
    SubsequenceOfMore(behind, P.Delivered(calls), s.accepted[|P.Delivered(calls)|..]);
  }

  /** The pipeline has accepted what it has handed over, first. */
  lemma AcceptedStartsWith(cfg: P.Config, s: P.State, first: seq<Message>)
    requires PipelineReaches(cfg, s) && first <= P.Delivered(s.attempts)
    ensures first <= s.accepted && s.accepted == first + s.accepted[|first|..]
  {
    var events :| P.Valid(P.Init(cfg), events) && P.Run(P.Init(cfg), events) == s;
    P.ConservationAndOrder(cfg, events);
  }

  // ---- From the announcements to a client ----

  /** The subscription asks for the message. */
  predicate AsksFor(sub: L.Subscription, msg: Message) {
    match sub.view
    case Messages => true
    case Channels => sub.channel == NormalizeChannelName(msg.channelName)
    case UserProfile => sub.user == NormalizeUsername(msg.username)
    case Users => false
  }

  /** From an IRC message to a browser: of the accepted messages that were stored, number `k` is broadcast to a
      client exactly once, as an event that tells of it, if the client registered before its turn came and
      asks for it, and never otherwise. The live updates run beside the processor, and their log is what it
      has announced so far. */
  lemma StoredMessageIsBroadcastOnce(cfg: P.Config, s: P.State, m: Memo, turns: seq<Turn>, ttl: int,
                                     w: L.World, id: string, k: nat)
    requires PipelineReaches(cfg, s) && Proper(turns) && C.Sound(m)
    requires InStep(s.attempts, AttemptsOf(m, turns, ttl))
    requires LiveReaches(w) && w.log == Serve(m, turns, ttl).announced
    requires id in w.clients && k < |AllBehind(m, turns, ttl)|
    ensures var c, msg := w.clients[id], AllBehind(m, turns, ttl)[k];
            && k < |w.log| && Describes(w.log[k], msg) && msg in s.accepted
            && multiset(L.By(true, c.offers))[L.NewMessage(w.log[k])]
               == if c.since <= k < w.sent && AsksFor(c.sub, msg) then 1 else 0
  {
    EveryEventIsAnAcceptedMessage(cfg, s, m, turns, ttl);
    SubsequenceElements(AllBehind(m, turns, ttl), s.accepted);
    assert Describes(w.log[k], AllBehind(m, turns, ttl)[k]);
    var steps :| L.Valid(L.Init(), steps) && L.Run(L.Init(), steps) == w;
    D.BroadcastsAreExact(steps, id, k);
  }
}
