/** What `StoreBatch` stores: a filter followed by a map over the batch, in one transaction, while other
    goroutines change the tables. */
module BatchStore {
  import opened GoStrings
  import opened IngestTypes
  import opened Schema
  import opened Processor
  import C = CacheSoundness

  /** A message for a known channel from a named user. */
  predicate Wanted(db: Db, item: Item) {
    item.channelName != "" && FindChannel(db, item.channelName).Some?
    && item.username != ""
  }

  /** A lookup made for the message fails: it is not answered by a cache and the database reports an error. */
  predicate LookupError(m: Memo, item: Item, env: Env, ttl: int) {
    (env.channelFault && !Fresh(m.channels, item.channelName, env.channelNow, ttl)) || UserError(m, item, env, ttl)
  }

  predicate UserError(m: Memo, item: Item, env: Env, ttl: int) {
    env.userFault && !Fresh(m.users, item.username, env.userNow, ttl)
  }

  /** The caches and tables as the message numbered `i` finds them. */
  function MemoAt(m: Memo, items: seq<Item>, envs: seq<Env>, ttl: int, i: nat): Memo
    requires i < |items| == |envs|
  {
    Meanwhile(ResolveAll(m, items[..i], envs[..i], ttl).1, envs[i].before)
  }

  /** The tables as the transaction finds them. */
  function End(m: Memo, items: seq<Item>, envs: seq<Env>, last: seq<Change>, ttl: int): Db
    requires |envs| == |items|
  {
    Meanwhile(ResolveAll(m, items, envs, ttl).1, last).db
  }

  /** The row and the announcement of a message for a channel, with the user the table holds. */
  function RowFor(channelId: nat, end: Db, item: Item): Kept {
    var user := FindUser(end, item.username);
    Kept(MessageRow(channelId, if user.Some? then user.value else 0, item.msg.text, item.msg.receivedAt, item.msg.tags),
         item.channelName, item.username, item.msg.displayName)
  }

  /** The row and the announcement of a wanted message, by the tables alone. */
  function KeptFor(db: Db, end: Db, item: Item): Kept
    requires Wanted(db, item)
  {
    RowFor(FindChannel(db, item.channelName).value, end, item)
  }

  // ---- One message ----

  /** What the channel lookup answers to a message that finds `m`. */
  function ChannelAnswer(m: Memo, item: Item, env: Env, ttl: int): Lookup {
    LookupChannel(m, item.channelName, env.channelNow, ttl, env.channelFault).0
  }

  /** A message that finds `m` is carried to the transaction. */
  predicate Carried(m: Memo, item: Item, env: Env, ttl: int) {
    && item.channelName != "" && item.username != ""
    && ChannelAnswer(m, item, env, ttl).Found? && !UserError(m, item, env, ttl)
  }

  /** The outcome of a message that finds `m`. */
  ghost predicate OutcomeExact(m: Memo, end: Db, item: Item, env: Env, ttl: int, r: Option<Kept>) {
    && (r.Some? <==> Carried(m, item, env, ttl))
    && (r.Some? ==> FindUser(end, item.username).Some? && r.value == RowFor(ChannelAnswer(m, item, env, ttl).id, end, item))
  }

  lemma OutcomeStaysExact(m: Memo, before: Db, after: Db, item: Item, env: Env, ttl: int, r: Option<Kept>)
    requires OutcomeExact(m, before, item, env, ttl, r) && C.NamesKept(before, after)
    ensures OutcomeExact(m, after, item, env, ttl, r)
  {
  }

  lemma LookupUserExact(m: Memo, name: string, displayName: string, now: int, ttl: int, fault: bool)
    requires C.Sound(m)
    ensures var (r, m') := LookupUser(m, name, displayName, now, ttl, fault);
            && C.Sound(m') && C.NamesKept(m.db, m'.db) && m'.channels == m.channels
            && (r.Found? <==> !(fault && !Fresh(m.users, name, now, ttl)))
            && (r.Found? ==> FindUser(m'.db, name) == Some(r.id))
  {
    C.LookupUserKeepsSound(m, name, displayName, now, ttl, fault);
  }

  /** A channel that is found was given its identifier before, and if it still lives it is the channel of
      that name. */
  ghost predicate AnswerSound(m: Memo, item: Item, env: Env, ttl: int) {
    var r := ChannelAnswer(m, item, env, ttl);
    && (r.Failed? <==> env.channelFault && !Fresh(m.channels, item.channelName, env.channelNow, ttl))
    && (r.Missing? ==> FindChannel(m.db, item.channelName).None?)
    && (r.Found? ==>
          && 1 <= r.id < m.db.nextChannel
          && (r.id in m.db.channels ==> FindChannel(m.db, item.channelName) == Some(r.id)))
  }

  lemma LookupChannelExact(m: Memo, item: Item, env: Env, ttl: int)
    requires C.Sound(m)
    ensures AnswerSound(m, item, env, ttl)
    ensures var m' := LookupChannel(m, item.channelName, env.channelNow, ttl, env.channelFault).1;
            C.Sound(m') && m'.db == m.db && m'.users == m.users
  {
  }

  lemma ResolveOneExact(m: Memo, item: Item, env: Env, ttl: int)
    requires C.Sound(m)
    ensures var start := Meanwhile(m, env.before);
            var (r, m') := ResolveOne(m, item, env, ttl);
            && C.Sound(start) && C.NamesKept(m.db, start.db)
            && C.Sound(m') && C.NamesKept(start.db, m'.db)
            && OutcomeExact(start, m'.db, item, env, ttl, r)
  {
    var start := Meanwhile(m, env.before);
    C.MeanwhileKeepsSound(m, env.before);
    LookupChannelExact(start, item, env, ttl);
    if item.channelName == "" {
    } else if !ChannelAnswer(start, item, env, ttl).Found? || item.username == "" {
    } else {
      ResolveUserExact(start, item, env, ttl);
    }
  }

  /** The second half of resolving a message, once its channel is found. */
  lemma ResolveUserExact(start: Memo, item: Item, env: Env, ttl: int)
    requires C.Sound(start)
    ensures var m1 := LookupChannel(start, item.channelName, env.channelNow, ttl, env.channelFault).1;
            var (user, m') := LookupUser(Meanwhile(m1, env.between), item.username, item.msg.displayName, env.userNow, ttl,
                                         env.userFault);
            && C.Sound(m') && C.NamesKept(start.db, m'.db)
            && (user.Found? <==> !UserError(start, item, env, ttl))
            && (user.Found? ==> FindUser(m'.db, item.username) == Some(user.id))
  {
    LookupChannelExact(start, item, env, ttl);
    var m1 := LookupChannel(start, item.channelName, env.channelNow, ttl, env.channelFault).1;
    var m2 := Meanwhile(m1, env.between);
    C.MeanwhileKeepsSound(m1, env.between);
    LookupUserExact(m2, item.username, item.msg.displayName, env.userNow, ttl, env.userFault);
    var m' := LookupUser(m2, item.username, item.msg.displayName, env.userNow, ttl, env.userFault).1;
    C.NamesKeptOnwards(start.db, m2.db, m'.db);
  }

  // ---- All messages ----

  lemma MemoAtOfPrefix(m: Memo, items: seq<Item>, envs: seq<Env>, ttl: int, i: nat, n: nat)
    requires i < n <= |items| == |envs|
    ensures MemoAt(m, items, envs, ttl, i) == MemoAt(m, items[..n], envs[..n], ttl, i)
  {
    assert items[..n][..i] == items[..i] && envs[..n][..i] == envs[..i];
  }

  /** What message `i` finds, what it comes to, and how its tables lead to later ones. */
  ghost predicate ExactAt(m: Memo, end: Db, items: seq<Item>, envs: seq<Env>, ttl: int, i: nat, r: Option<Kept>)
    requires i < |items| == |envs|
  {
    var mi := MemoAt(m, items, envs, ttl, i);
    && C.Sound(mi) && C.NamesKept(mi.db, end)
    && OutcomeExact(mi, end, items[i], envs[i], ttl, r)
  }

  lemma ExactAtLater(m: Memo, before: Db, after: Db, items: seq<Item>, envs: seq<Env>, ttl: int, i: nat, r: Option<Kept>)
    requires i < |items| == |envs| && ExactAt(m, before, items, envs, ttl, i, r) && C.NamesKept(before, after)
    ensures ExactAt(m, after, items, envs, ttl, i, r)
  {
    var mi := MemoAt(m, items, envs, ttl, i);
    C.NamesKeptOnwards(mi.db, before, after);
    OutcomeStaysExact(mi, before, after, items[i], envs[i], ttl, r);
  }

  lemma NextIsExact(m: Memo, items: seq<Item>, envs: seq<Env>, ttl: int, n: nat)
    requires n < |items| == |envs| && C.Sound(ResolveAll(m, items[..n], envs[..n], ttl).1)
    ensures var m1 := ResolveAll(m, items[..n], envs[..n], ttl).1;
            var (r, m2) := ResolveOne(m1, items[n], envs[n], ttl);
            C.Sound(m2) && C.NamesKept(m1.db, m2.db) && ExactAt(m, m2.db, items, envs, ttl, n, r)
  {
    var m1 := ResolveAll(m, items[..n], envs[..n], ttl).1;
    var start := Meanwhile(m1, envs[n].before);
    ResolveOneExact(m1, items[n], envs[n], ttl);
    C.NamesKeptOnwards(m1.db, start.db, ResolveOne(m1, items[n], envs[n], ttl).1.db);
  }

  /** After the first `n` messages the caches are sound, and each of these came to what it had to. */
  ghost predicate Exact(m: Memo, items: seq<Item>, envs: seq<Env>, ttl: int, n: nat, outcomes: seq<Option<Kept>>, m1: Memo)
    requires n <= |items| == |envs| && |outcomes| == n
  {
    && C.Sound(m1) && C.NamesKept(m.db, m1.db)
    && forall i :: 0 <= i < n ==> ExactAt(m, m1.db, items, envs, ttl, i, outcomes[i])
  }

  lemma ExactWithNext(m: Memo, items: seq<Item>, envs: seq<Env>, ttl: int, n: nat, outcomes: seq<Option<Kept>>, m1: Memo,
                      r: Option<Kept>, m2: Memo)
    requires n < |items| == |envs| && |outcomes| == n && Inv(m.db) && Exact(m, items, envs, ttl, n, outcomes, m1)
    requires C.Sound(m2) && C.NamesKept(m1.db, m2.db) && ExactAt(m, m2.db, items, envs, ttl, n, r)
    ensures Exact(m, items, envs, ttl, n + 1, outcomes + [r], m2)
  {
    C.NamesKeptOnwards(m.db, m1.db, m2.db);
    var all := outcomes + [r];
    forall i | 0 <= i < n + 1 ensures ExactAt(m, m2.db, items, envs, ttl, i, all[i]) {
      if i < n {
        ExactAtLater(m, m1.db, m2.db, items, envs, ttl, i, outcomes[i]);
      }
    }
  }

  lemma {:induction false} FirstAreExact(m: Memo, items: seq<Item>, envs: seq<Env>, ttl: int, n: nat)
    requires n <= |items| == |envs| && C.Sound(m)
    ensures var (outcomes, m1) := ResolveAll(m, items[..n], envs[..n], ttl);
            Exact(m, items, envs, ttl, n, outcomes, m1)
    decreases n
  {
    if n > 0 {
      FirstAreExact(m, items, envs, ttl, n - 1);
      var (outcomes, m1) := ResolveAll(m, items[..n - 1], envs[..n - 1], ttl);
      var (r, m2) := ResolveOne(m1, items[n - 1], envs[n - 1], ttl);
      NextIsExact(m, items, envs, ttl, n - 1);
      ExactWithNext(m, items, envs, ttl, n - 1, outcomes, m1, r, m2);
      ResolveStep(m, items, envs, n - 1, ttl, outcomes, m1);
    }
  }

  lemma ResolveAllExact(m: Memo, items: seq<Item>, envs: seq<Env>, ttl: int)
    requires |envs| == |items| && C.Sound(m)
    ensures var (outcomes, m1) := ResolveAll(m, items, envs, ttl);
            Exact(m, items, envs, ttl, |items|, outcomes, m1)
  {
    assert items[..|items|] == items && envs[..|items|] == envs;
    FirstAreExact(m, items, envs, ttl, |items|);
  }

  lemma ResolveAllKeepsSound(m: Memo, items: seq<Item>, envs: seq<Env>, ttl: int)
    requires |envs| == |items| && C.Sound(m)
    ensures C.Sound(ResolveAll(m, items, envs, ttl).1)
  {
    ResolveAllExact(m, items, envs, ttl);
  }

  /** The same, seen from the tables the transaction finds. */
  lemma EndIsExact(m: Memo, items: seq<Item>, envs: seq<Env>, last: seq<Change>, ttl: int)
    requires |envs| == |items| && C.Sound(m)
    ensures var (end, outcomes) := (End(m, items, envs, last, ttl), ResolveAll(m, items, envs, ttl).0);
            && Inv(end) && C.NamesKept(m.db, end)
            && forall i :: 0 <= i < |items| ==> ExactAt(m, end, items, envs, ttl, i, outcomes[i])
  {
    var (outcomes, m1) := ResolveAll(m, items, envs, ttl);
    var end := End(m, items, envs, last, ttl);
    ResolveAllExact(m, items, envs, ttl);
    C.MeanwhileKeepsSound(m1, last);
    C.NamesKeptOnwards(m.db, m1.db, end);
    forall i | 0 <= i < |items| ensures ExactAt(m, end, items, envs, ttl, i, outcomes[i]) {
      ExactAtLater(m, m1.db, end, items, envs, ttl, i, outcomes[i]);
    }
  }

  /** The kept messages are those of the outcomes. */
  lemma {:induction false} KeptHolds(outcomes: seq<Option<Kept>>, k: Kept)
    ensures k in KeptOf(outcomes) <==> exists i :: 0 <= i < |outcomes| && outcomes[i] == Some(k)
    decreases |outcomes|
  {
    if outcomes != [] {
      var n := |outcomes| - 1;
      KeptHolds(outcomes[..n], k);
      if k in KeptOf(outcomes[..n]) {
        var i :| 0 <= i < n && outcomes[..n][i] == Some(k);
        assert outcomes[i] == Some(k);
      }
      if i :| 0 <= i < |outcomes| && outcomes[i] == Some(k) {
        if i < n { assert outcomes[..n][i] == Some(k); }
      }
    }
  }

  // ---- Which batches fail ----

  /** Message `i` is carried to the transaction for a channel that is no more when the transaction runs. */
  predicate Sinks(m: Memo, items: seq<Item>, envs: seq<Env>, last: seq<Change>, ttl: int, i: nat)
    requires i < |items| == |envs|
  {
    var mi := MemoAt(m, items, envs, ttl, i);
    Carried(mi, items[i], envs[i], ttl)
    && ChannelAnswer(mi, items[i], envs[i], ttl).id !in End(m, items, envs, last, ttl).channels
  }

  /** The insert of the batch fails, the store itself not failing. */
  predicate Fails(m: Memo, items: seq<Item>, envs: seq<Env>, last: seq<Change>, ttl: int)
    requires |envs| == |items|
  {
    InsertAll(End(m, items, envs, last, ttl), RowsOf(KeptOf(ResolveAll(m, items, envs, ttl).0))).None?
  }

  lemma KnownUserIsLive(db: Db, name: string)
    requires Inv(db) && FindUser(db, name).Some?
    ensures FindUser(db, name).value in db.users
  {
  }

  /** The foreign keys of an outcome: its user always lives. */
  lemma OutcomeKeys(m: Memo, items: seq<Item>, envs: seq<Env>, last: seq<Change>, ttl: int, i: nat, r: Option<Kept>)
    requires i < |items| == |envs|
    requires var end := End(m, items, envs, last, ttl); Inv(end) && ExactAt(m, end, items, envs, ttl, i, r)
    ensures r.Some? ==> (!ForeignKeys(End(m, items, envs, last, ttl), r.value.row) <==> Sinks(m, items, envs, last, ttl, i))
    ensures r.None? ==> !Sinks(m, items, envs, last, ttl, i)
  {
    if r.Some? {
      KnownUserIsLive(End(m, items, envs, last, ttl), items[i].username);
    }
  }

  /** The kept rows are inserted exactly if every outcome's keys hold. */
  lemma InsertedIffKeysHold(outcomes: seq<Option<Kept>>, end: Db)
    requires Inv(end)
    ensures InsertAll(end, RowsOf(KeptOf(outcomes))).Some?
            <==> forall i :: 0 <= i < |outcomes| && outcomes[i].Some? ==> ForeignKeys(end, outcomes[i].value.row)
  {
    var kept := KeptOf(outcomes);
    InsertAllIsExact(end, RowsOf(kept));
    forall k | 0 <= k < |kept| ensures exists i :: 0 <= i < |outcomes| && outcomes[i] == Some(kept[k]) {
      KeptHolds(outcomes, kept[k]);
    }
    forall i | 0 <= i < |outcomes| && outcomes[i].Some?
      ensures exists k :: 0 <= k < |kept| && RowsOf(kept)[k] == outcomes[i].value.row
    {
      KeptHolds(outcomes, outcomes[i].value);
      var k :| 0 <= k < |kept| && kept[k] == outcomes[i].value;
      assert RowsOf(kept)[k] == outcomes[i].value.row;
    }
  }

  /** A batch fails exactly if one of its messages is carried for a channel that is gone at the end. */
  lemma BatchFailsIffGone(m: Memo, items: seq<Item>, envs: seq<Env>, last: seq<Change>, ttl: int)
    requires |envs| == |items| && C.Sound(m)
    ensures Fails(m, items, envs, last, ttl) <==> exists i :: 0 <= i < |items| && Sinks(m, items, envs, last, ttl, i)
  {
    var outcomes, end := ResolveAll(m, items, envs, ttl).0, End(m, items, envs, last, ttl);
    EndIsExact(m, items, envs, last, ttl);
    InsertedIffKeysHold(outcomes, end);
    forall i | 0 <= i < |items|
      ensures (outcomes[i].Some? ==> ForeignKeys(end, outcomes[i].value.row)) <==> !Sinks(m, items, envs, last, ttl, i)
    {
      OutcomeKeys(m, items, envs, last, ttl, i, outcomes[i]);
    }
  }

  // ---- How a channel can be gone ----

  /** The clock does not go back between two channel lookups of a batch. */
  predicate ReadingsMonotone(envs: seq<Env>) {
    forall i, j :: 0 <= i < j < |envs| ==> envs[i].channelNow <= envs[j].channelNow
  }

  /** Message `i` names a channel that was deleted and is still cached as the batch begins, by an entry that
      is fresh when the message is reached; and nothing else stops the message. */
  predicate StaleAtStart(m: Memo, items: seq<Item>, envs: seq<Env>, ttl: int, i: nat)
    requires i < |items| == |envs|
  {
    var name := items[i].channelName;
    && name != "" && items[i].username != ""
    && Fresh(m.channels, name, envs[i].channelNow, ttl) && m.channels[name].value !in m.db.channels
    && !UserError(MemoAt(m, items, envs, ttl, i), items[i], envs[i], ttl)
  }

  /** The channel was live as the batch began or when some message up to number `i` was reached. */
  predicate WasLive(m: Memo, items: seq<Item>, envs: seq<Env>, ttl: int, i: nat, id: nat)
    requires i < |items| == |envs|
  {
    id in m.db.channels || exists j :: 0 <= j <= i && id in MemoAt(m, items, envs, ttl, j).db.channels
  }

  /** Message `i` is carried for a channel that was deleted while the batch was on its way. */
  predicate DeletedMeanwhile(m: Memo, items: seq<Item>, envs: seq<Env>, last: seq<Change>, ttl: int, i: nat)
    requires i < |items| == |envs|
  {
    Sinks(m, items, envs, last, ttl, i)
    && WasLive(m, items, envs, ttl, i, ChannelAnswer(MemoAt(m, items, envs, ttl, i), items[i], envs[i], ttl).id)
  }

  /** A cache entry is one of the first ones, or its channel was found by one of the messages. */
  ghost predicate Origin(m: Memo, items: seq<Item>, envs: seq<Env>, ttl: int, name: string, e: Entry)
    requires |envs| == |items|
  {
    || (name in m.channels && m.channels[name] == e)
    || exists j :: 0 <= j < |items| && FindChannel(MemoAt(m, items, envs, ttl, j).db, name) == Some(e.value)
  }

  lemma OriginStays(m: Memo, items: seq<Item>, envs: seq<Env>, ttl: int, n: nat, name: string, e: Entry)
    requires n <= |items| == |envs| && Origin(m, items[..n], envs[..n], ttl, name, e)
    ensures Origin(m, items, envs, ttl, name, e)
  {
    if !(name in m.channels && m.channels[name] == e) {
      var j :| 0 <= j < n && FindChannel(MemoAt(m, items[..n], envs[..n], ttl, j).db, name) == Some(e.value);
      MemoAtOfPrefix(m, items, envs, ttl, j, n);
    }
  }

  lemma EntryOfOne(m: Memo, item: Item, env: Env, ttl: int, name: string)
    ensures var start, after := Meanwhile(m, env.before), ResolveOne(m, item, env, ttl).1.channels;
            name in after ==> (name in m.channels && m.channels[name] == after[name])
                              || FindChannel(start.db, name) == Some(after[name].value)
  {
  }

  lemma {:induction false} EntriesHaveOrigins(m: Memo, items: seq<Item>, envs: seq<Env>, ttl: int, name: string)
    requires |envs| == |items|
    ensures var cache := ResolveAll(m, items, envs, ttl).1.channels;
            name in cache ==> Origin(m, items, envs, ttl, name, cache[name])
    decreases |items|
  {
    if items != [] {
      var n := |items| - 1;
      EntriesHaveOrigins(m, items[..n], envs[..n], ttl, name);
      var m1 := ResolveAll(m, items[..n], envs[..n], ttl).1;
      EntryOfOne(m1, items[n], envs[n], ttl, name);
      if name in m1.channels {
        OriginStays(m, items, envs, ttl, n, name, m1.channels[name]);
      }
      assert MemoAt(m, items, envs, ttl, n) == Meanwhile(m1, envs[n].before);
    }
  }

  /** What a message is answered was fresh in the first cache, or live when it was looked up. */
  lemma AnswerOrigin(m: Memo, items: seq<Item>, envs: seq<Env>, ttl: int, i: nat)
    requires i < |items| == |envs| && C.Sound(MemoAt(m, items, envs, ttl, i))
    requires ChannelAnswer(MemoAt(m, items, envs, ttl, i), items[i], envs[i], ttl).Found?
    ensures var name, id := items[i].channelName, ChannelAnswer(MemoAt(m, items, envs, ttl, i), items[i], envs[i], ttl).id;
            || (Fresh(m.channels, name, envs[i].channelNow, ttl) && m.channels[name].value == id)
            || exists j :: 0 <= j <= i && FindChannel(MemoAt(m, items, envs, ttl, j).db, name) == Some(id)
  {
    var mi, name := MemoAt(m, items, envs, ttl, i), items[i].channelName;
    if Fresh(mi.channels, name, envs[i].channelNow, ttl) {
      EntriesHaveOrigins(m, items[..i], envs[..i], ttl, name);
      if !(name in m.channels && m.channels[name] == mi.channels[name]) {
        var j :| 0 <= j < i && FindChannel(MemoAt(m, items[..i], envs[..i], ttl, j).db, name) == Some(mi.channels[name].value);
        MemoAtOfPrefix(m, items, envs, ttl, j, i);
      }
    } else {
      assert FindChannel(mi.db, name).Some?;
    }
  }

  lemma FreshStaysOnce(m: Memo, item: Item, env: Env, ttl: int, name: string, now: int)
    requires Fresh(m.channels, name, now, ttl) && env.channelNow <= now
    ensures var m' := ResolveOne(m, item, env, ttl).1;
            name in m'.channels && m'.channels[name] == m.channels[name]
  {
  }

  /** An entry that is fresh at the end of a stretch of messages is not replaced by any of them. */
  lemma {:induction false} FreshStays(m: Memo, items: seq<Item>, envs: seq<Env>, ttl: int, name: string, now: int)
    requires |envs| == |items| && Fresh(m.channels, name, now, ttl)
    requires forall i :: 0 <= i < |envs| ==> envs[i].channelNow <= now
    ensures var m' := ResolveAll(m, items, envs, ttl).1;
            name in m'.channels && m'.channels[name] == m.channels[name]
    decreases |items|
  {
    if items != [] {
      var n := |items| - 1;
      FreshStays(m, items[..n], envs[..n], ttl, name, now);
      FreshStaysOnce(ResolveAll(m, items[..n], envs[..n], ttl).1, items[n], envs[n], ttl, name, now);
    }
  }

  /** A message whose entry was stale as the batch began is carried for that entry's channel, which no
      later table holds. */
  lemma StaleSinks(m: Memo, items: seq<Item>, envs: seq<Env>, last: seq<Change>, ttl: int, i: nat)
    requires |envs| == |items| && C.Sound(m) && i < |items| && ReadingsMonotone(envs) && StaleAtStart(m, items, envs, ttl, i)
    ensures Sinks(m, items, envs, last, ttl, i)
  {
    EndIsExact(m, items, envs, last, ttl);
    FreshStays(m, items[..i], envs[..i], ttl, items[i].channelName, envs[i].channelNow);
  }

  /** A message sinks the batch in one of two ways. */
  lemma SinksInTwoWays(m: Memo, items: seq<Item>, envs: seq<Env>, last: seq<Change>, ttl: int, i: nat)
    requires |envs| == |items| && C.Sound(m) && i < |items| && Sinks(m, items, envs, last, ttl, i)
    ensures StaleAtStart(m, items, envs, ttl, i) || DeletedMeanwhile(m, items, envs, last, ttl, i)
  {
    EndIsExact(m, items, envs, last, ttl);
    var outcomes, end := ResolveAll(m, items, envs, ttl).0, End(m, items, envs, last, ttl);
    assert ExactAt(m, end, items, envs, ttl, i, outcomes[i]);
    AnswerOrigin(m, items, envs, ttl, i);
    var name, id := items[i].channelName, ChannelAnswer(MemoAt(m, items, envs, ttl, i), items[i], envs[i], ttl).id;
    if j :| 0 <= j <= i && FindChannel(MemoAt(m, items, envs, ttl, j).db, name) == Some(id) {
      assert ExactAt(m, end, items, envs, ttl, j, outcomes[j]);
      FoundIsLive(MemoAt(m, items, envs, ttl, j).db, name);
    }
  }

  lemma FoundIsLive(db: Db, name: string)
    requires Inv(db) && FindChannel(db, name).Some?
    ensures FindChannel(db, name).value in db.channels
  {
  }

  /** A batch fails, unless the store itself does, if and only if one of its messages is carried for a channel
      that was deleted before the batch began and is answered by an entry then cached and still fresh, or
      for one that is deleted while the batch is on its way, between the lookup that found it and the
      transaction. The messages for all other channels are lost with it. */
  lemma BatchFailsIffStaleOrDeleted(m: Memo, items: seq<Item>, envs: seq<Env>, last: seq<Change>, ttl: int)
    requires |envs| == |items| && C.Sound(m) && ReadingsMonotone(envs)
    ensures Fails(m, items, envs, last, ttl)
            <==> exists i :: 0 <= i < |items|
                   && (StaleAtStart(m, items, envs, ttl, i) || DeletedMeanwhile(m, items, envs, last, ttl, i))
  {
    BatchFailsIffGone(m, items, envs, last, ttl);
    if i :| 0 <= i < |items| && Sinks(m, items, envs, last, ttl, i) {
      SinksInTwoWays(m, items, envs, last, ttl, i);
    }
    if i :| 0 <= i < |items| && (StaleAtStart(m, items, envs, ttl, i) || DeletedMeanwhile(m, items, envs, last, ttl, i)) {
      if StaleAtStart(m, items, envs, ttl, i) {
        StaleSinks(m, items, envs, last, ttl, i);
      }
    }
  }

  // ---- No deletion meanwhile ----

  predicate NoDeletion(changes: seq<Change>) {
    forall c :: c in changes ==> !c.DeleteChannel?
  }

  /** Nobody deletes a channel between the first lookup of the batch and the transaction. */
  predicate Undisturbed(envs: seq<Env>, last: seq<Change>) {
    NoDeletion(last) && forall e :: e in envs ==> NoDeletion(e.before) && NoDeletion(e.between)
  }

  ghost predicate ChannelsStay(before: Db, after: Db) {
    before.channels.Keys <= after.channels.Keys
  }

  lemma ChangeKeepsChannels(db: Db, c: Change)
    requires !c.DeleteChannel?
    ensures ChannelsStay(db, Apply(db, c))
  {
    if c.InsertBatch? && InsertAll(db, c.rows).Some? {
      C.InsertAllKeepsNames(db, c.rows);
    }
  }

  lemma {:induction false} ChangesKeepChannels(db: Db, changes: seq<Change>)
    requires NoDeletion(changes)
    ensures ChannelsStay(db, ApplyAll(db, changes))
    decreases |changes|
  {
    if changes != [] {
      ChangeKeepsChannels(db, changes[0]);
      ChangesKeepChannels(Apply(db, changes[0]), changes[1..]);
    }
  }

  lemma LookupUserKeepsChannels(m: Memo, name: string, displayName: string, now: int, ttl: int, fault: bool)
    ensures LookupUser(m, name, displayName, now, ttl, fault).1.db.channels == m.db.channels
  {
  }

  lemma ResolveOneKeepsChannels(m: Memo, item: Item, env: Env, ttl: int)
    requires NoDeletion(env.before) && NoDeletion(env.between)
    ensures var start, m' := Meanwhile(m, env.before), ResolveOne(m, item, env, ttl).1;
            ChannelsStay(m.db, start.db) && ChannelsStay(start.db, m'.db)
  {
    var start := Meanwhile(m, env.before);
    ChangesKeepChannels(m.db, env.before);
    ChangesKeepChannels(start.db, env.between);
    var m1 := LookupChannel(start, item.channelName, env.channelNow, ttl, env.channelFault).1;
    LookupUserKeepsChannels(Meanwhile(m1, env.between), item.username, item.msg.displayName, env.userNow, ttl, env.userFault);
  }

  lemma {:induction false} ResolveAllKeepsChannels(m: Memo, items: seq<Item>, envs: seq<Env>, ttl: int)
    requires |envs| == |items| && forall e :: e in envs ==> NoDeletion(e.before) && NoDeletion(e.between)
    ensures var m' := ResolveAll(m, items, envs, ttl).1;
            && ChannelsStay(m.db, m'.db)
            && forall i :: 0 <= i < |items| ==> ChannelsStay(MemoAt(m, items, envs, ttl, i).db, m'.db)
    decreases |items|
  {
    if items != [] {
      var n := |items| - 1;
      ResolveAllKeepsChannels(m, items[..n], envs[..n], ttl);
      var m1, m2 := ResolveAll(m, items[..n], envs[..n], ttl).1, ResolveAll(m, items, envs, ttl).1;
      ResolveOneKeepsChannels(m1, items[n], envs[n], ttl);
      forall i | 0 <= i < |items| ensures ChannelsStay(MemoAt(m, items, envs, ttl, i).db, m2.db) {
        if i < n {
          MemoAtOfPrefix(m, items, envs, ttl, i, n);
          assert ChannelsStay(MemoAt(m, items[..n], envs[..n], ttl, i).db, m1.db);
        }
      }
    }
  }

  lemma NothingIsDeleted(m: Memo, items: seq<Item>, envs: seq<Env>, last: seq<Change>, ttl: int, i: nat)
    requires i < |items| == |envs| && Undisturbed(envs, last)
    ensures !DeletedMeanwhile(m, items, envs, last, ttl, i)
  {
    var m' := ResolveAll(m, items, envs, ttl).1;
    ResolveAllKeepsChannels(m, items, envs, ttl);
    ChangesKeepChannels(m'.db, last);
    forall j, id | 0 <= j <= i && id in MemoAt(m, items, envs, ttl, j).db.channels ensures id in m'.db.channels {
      assert ChannelsStay(MemoAt(m, items, envs, ttl, j).db, m'.db);
    }
  }

  /** If nobody deletes a channel while the batch is on its way, it fails exactly by an entry of a deleted
      channel that is cached as the batch begins and still fresh when its message is reached. */
  lemma BatchFailsIffStale(m: Memo, items: seq<Item>, envs: seq<Env>, last: seq<Change>, ttl: int)
    requires |envs| == |items| && C.Sound(m) && ReadingsMonotone(envs) && Undisturbed(envs, last)
    ensures Fails(m, items, envs, last, ttl) <==> exists i :: 0 <= i < |items| && StaleAtStart(m, items, envs, ttl, i)
  {
    BatchFailsIffStaleOrDeleted(m, items, envs, last, ttl);
    forall i | 0 <= i < |items| ensures !DeletedMeanwhile(m, items, envs, last, ttl, i) {
      NothingIsDeleted(m, items, envs, last, ttl, i);
    }
  }

  const NOTHING := Memo(map[], map[], EMPTY)

  const NEW_A := C.Write(NewChannel("a", "a", true, true))
  const NEW_B := C.Write(NewChannel("b", "b", true, true))
  const FIND_A := C.FindChannelId("a", false)
  const DROP_A := C.Write(DeleteChannel(1))

  /** Two channels are created, one is looked up and then deleted. */
  function DeletionRun(now: int): seq<C.Timed> {
    [C.Timed(NEW_A, now)] + ([C.Timed(NEW_B, now)]
    + ([C.Timed(FIND_A, now)] + ([C.Timed(DROP_A, now)] + [])))
  }

  function Done(m: Memo, op: C.Op, now: int): Memo {
    C.Do(m, C.Timed(op, now), DEFAULT_TTL).1
  }

  lemma OneMore(m: Memo, op: C.Op, now: int, ops: seq<C.Timed>)
    ensures C.After(m, [C.Timed(op, now)] + ops, DEFAULT_TTL)
            == C.After(Done(m, op, now), ops, DEFAULT_TTL)
  {
    assert ([C.Timed(op, now)] + ops)[1..] == ops;
  }

  lemma TwoChannels(now: int) returns (m: Memo)
    ensures m == Done(Done(NOTHING, NEW_A, now), NEW_B, now)
    ensures m.channels == map[] && m.db.channels.Keys == {1, 2} && m.db.messages == map[]
    ensures FindChannel(m.db, "a") == Some(1) && FindChannel(m.db, "b") == Some(2) && m.db.channels[1].name == "a"
  {
    assert ToLower("a") == "a" && ToLower("b") == "b";
    m := Done(Done(NOTHING, NEW_A, now), NEW_B, now);
  }

  lemma DeletionRunLeaves(now: int)
    ensures var m := C.After(NOTHING, DeletionRun(now), DEFAULT_TTL);
            && C.Sound(m) && m.channels == map["a" := Entry(1, now)]
            && 1 !in m.db.channels && FindChannel(m.db, "b") == Some(2)
  {
    C.CachesStaySound(NOTHING, DeletionRun(now), DEFAULT_TTL);
    var m := TwoChannels(now);
    var last := [C.Timed(DROP_A, now)] + [];
    var third := [C.Timed(FIND_A, now)] + last;
    OneMore(Done(m, FIND_A, now), DROP_A, now, []);
    OneMore(m, FIND_A, now, last);
    OneMore(Done(NOTHING, NEW_A, now), NEW_B, now, third);
    OneMore(NOTHING, NEW_A, now, [C.Timed(NEW_B, now)] + third);
  }

  /** A message for the channel "b", in one batch with a message for the channel "a", is wanted as the batch
      begins and its lookups do not fail, but no row is inserted. */
  ghost predicate SinksTheOther(m: Memo, msg: Message, now: int, last: seq<Change>) {
    var items := [Item("a", "u", msg), Item("b", "u", msg)];
    var envs := [Env([], now, false, [], now, false), Env([], now, false, [], now, false)];
    && Wanted(m.db, items[1]) && !Failures(m, items, envs, DEFAULT_TTL)[1]
    && Fails(m, items, envs, last, DEFAULT_TTL)
  }

  lemma FirstFinds(m: Memo, items: seq<Item>, envs: seq<Env>, ttl: int)
    requires items != [] && |envs| == |items| && envs[0].before == []
    ensures MemoAt(m, items, envs, ttl, 0) == m
  {
    assert items[..0] == [] && envs[..0] == [];
  }

  /** The channel "b" is live, and the cache holds the channel "a" freshly, which was deleted. */
  lemma StaleEntrySinksTheOther(m: Memo, msg: Message, now: int)
    requires C.Sound(m) && m.channels == map["a" := Entry(1, now)]
    requires 1 !in m.db.channels && FindChannel(m.db, "b") == Some(2)
    ensures SinksTheOther(m, msg, now, [])
  {
    var items := [Item("a", "u", msg), Item("b", "u", msg)];
    var envs := [Env([], now, false, [], now, false), Env([], now, false, [], now, false)];
    FirstFinds(m, items, envs, DEFAULT_TTL);
    StaleSinks(m, items, envs, [], DEFAULT_TTL, 0);
    BatchFailsIffGone(m, items, envs, [], DEFAULT_TTL);
  }

  /** A message for a deleted channel takes the message for a live channel with it. */
  lemma DeletedChannelSinksTheOther(msg: Message, now: int)
    ensures SinksTheOther(C.After(NOTHING, DeletionRun(now), DEFAULT_TTL), msg, now, [])
  {
    DeletionRunLeaves(now);
    StaleEntrySinksTheOther(C.After(NOTHING, DeletionRun(now), DEFAULT_TTL), msg, now);
  }

  /** A first message that nothing stops sinks the batch if its channel is deleted before the transaction. */
  lemma DeletionSinks(m: Memo, items: seq<Item>, envs: seq<Env>, ttl: int, id: nat)
    requires items != [] && |envs| == |items| && m.channels == map[]
    requires envs[0].before == [] && !envs[0].channelFault && !envs[0].userFault
    requires items[0].channelName != "" && items[0].username != "" && FindChannel(m.db, items[0].channelName) == Some(id)
    ensures Sinks(m, items, envs, [DeleteChannel(id)], ttl, 0)
  {
    FirstFinds(m, items, envs, ttl);
    var db, changes := ResolveAll(m, items, envs, ttl).1.db, [DeleteChannel(id)];
    assert changes[1..] == [];
    assert ApplyAll(db, changes) == DropChannel(db, id);
  }

  /** The channels "a" and "b" are live, and the caches are empty. */
  lemma DeletionSinksTheOther(m: Memo, msg: Message, now: int)
    requires C.Sound(m) && m.channels == map[] && FindChannel(m.db, "a") == Some(1) && FindChannel(m.db, "b") == Some(2)
    ensures SinksTheOther(m, msg, now, [DeleteChannel(1)])
  {
    var items := [Item("a", "u", msg), Item("b", "u", msg)];
    var envs := [Env([], now, false, [], now, false), Env([], now, false, [], now, false)];
    DeletionSinks(m, items, envs, DEFAULT_TTL, 1);
    BatchFailsIffGone(m, items, envs, [DeleteChannel(1)], DEFAULT_TTL);
  }

  /** Sound and empty caches do not help against a deletion between the lookups and the transaction: with two
      new channels that nobody has looked up before, deleting "a" there loses the message for "b". */
  lemma DeletionMeanwhileSinksTheOther(msg: Message, now: int)
    ensures var m := Done(Done(NOTHING, NEW_A, now), NEW_B, now);
            && C.Sound(m) && m.channels == map[]
            && SinksTheOther(m, msg, now, [DeleteChannel(1)])
  {
    var m := TwoChannels(now);
    C.DoKeepsSound(NOTHING, C.Timed(NEW_A, now), DEFAULT_TTL);
    C.DoKeepsSound(Done(NOTHING, NEW_A, now), C.Timed(NEW_B, now), DEFAULT_TTL);
    DeletionSinksTheOther(m, msg, now);
  }

  // ---- A filter and a map ----

  /** The tables as each message finds them. */
  function Tables(m: Memo, items: seq<Item>, envs: seq<Env>, ttl: int): (r: seq<Db>)
    requires |envs| == |items|
    ensures |r| == |items|
  {
    seq(|items|, i requires 0 <= i < |items| => MemoAt(m, items, envs, ttl, i).db)
  }

  function Failures(m: Memo, items: seq<Item>, envs: seq<Env>, ttl: int): (r: seq<bool>)
    requires |envs| == |items|
    ensures |r| == |items|
  {
    seq(|items|, i requires 0 <= i < |items| => LookupError(MemoAt(m, items, envs, ttl, i), items[i], envs[i], ttl))
  }

  /** The filter and the map: each message is wanted or not by the tables it finds itself. */
  function Selected(tables: seq<Db>, end: Db, items: seq<Item>, failed: seq<bool>): seq<Kept>
    requires |failed| == |items| == |tables|
  {
    if items == [] then []
    else
      var n := |items| - 1;
      Selected(tables[..n], end, items[..n], failed[..n])
      + if Wanted(tables[n], items[n]) && !failed[n] then [KeptFor(tables[n], end, items[n])] else []
  }

  /** The outcome the tables dictate. */
  predicate Dictated(db: Db, end: Db, item: Item, failed: bool, r: Option<Kept>) {
    r == if Wanted(db, item) && !failed then Some(KeptFor(db, end, item)) else None
  }

  lemma {:induction false} KeptIsSelected(outcomes: seq<Option<Kept>>, tables: seq<Db>, end: Db,
                                          items: seq<Item>, failed: seq<bool>)
    requires |failed| == |items| == |outcomes| == |tables|
    requires forall i :: 0 <= i < |items| ==> Dictated(tables[i], end, items[i], failed[i], outcomes[i])
    ensures KeptOf(outcomes) == Selected(tables, end, items, failed)
  {
    if items != [] {
      var n := |items| - 1;
      KeptIsSelected(outcomes[..n], tables[..n], end, items[..n], failed[..n]);
      assert Dictated(tables[n], end, items[n], failed[n], outcomes[n]);
    }
  }

  /** Where no message sinks the batch, every outcome is the one its tables dictate. */
  lemma OutcomeIsDictated(m: Memo, items: seq<Item>, envs: seq<Env>, last: seq<Change>, ttl: int, i: nat, r: Option<Kept>)
    requires i < |items| == |envs| && !Sinks(m, items, envs, last, ttl, i)
    requires ExactAt(m, End(m, items, envs, last, ttl), items, envs, ttl, i, r)
    ensures var mi, end := MemoAt(m, items, envs, ttl, i), End(m, items, envs, last, ttl);
            && Dictated(mi.db, end, items[i], LookupError(mi, items[i], envs[i], ttl), r)
            && (r.Some? ==> FindUser(end, items[i].username).Some?)
  {
    LookupChannelExact(MemoAt(m, items, envs, ttl, i), items[i], envs[i], ttl);
  }

  /** Whenever a batch is stored, it is stored as exactly the rows of the messages wanted by the tables they
      found and whose lookups did not fail, in order and whole, under consecutive new identifiers. The caches
      may hold what they like of deleted channels, as long as they are sound, and other goroutines may change
      the tables between any two statements. */
  lemma StoreBatchIsFilterMap(m: Memo, items: seq<Item>, envs: seq<Env>, last: seq<Change>, ttl: int)
    requires |envs| == |items| && C.Sound(m)
    ensures var kept, end := KeptOf(ResolveAll(m, items, envs, ttl).0), End(m, items, envs, last, ttl);
            var tables, failed := Tables(m, items, envs, ttl), Failures(m, items, envs, ttl);
            !Fails(m, items, envs, last, ttl) ==>
              && kept == Selected(tables, end, items, failed)
              && (forall i :: 0 <= i < |items| && Wanted(tables[i], items[i]) && !failed[i] ==>
                    FindUser(end, items[i].username).Some?)
              && Extends(end, RowsOf(kept), InsertAll(end, RowsOf(kept)).value)
  {
    var outcomes, end := ResolveAll(m, items, envs, ttl).0, End(m, items, envs, last, ttl);
    var tables, failed := Tables(m, items, envs, ttl), Failures(m, items, envs, ttl);
    EndIsExact(m, items, envs, last, ttl);
    BatchFailsIffGone(m, items, envs, last, ttl);
    InsertAllIsExact(end, RowsOf(KeptOf(outcomes)));
    if !Fails(m, items, envs, last, ttl) {
      forall i | 0 <= i < |items|
        ensures Dictated(tables[i], end, items[i], failed[i], outcomes[i])
        ensures outcomes[i].Some? ==> FindUser(end, items[i].username).Some?
      {
        OutcomeIsDictated(m, items, envs, last, ttl, i, outcomes[i]);
      }
      KeptIsSelected(outcomes, tables, end, items, failed);
    }
  }

  /** Cached channel identifiers are those of the table: no channel went since it was cached. */
  ghost predicate ChannelsTrue(m: Memo) {
    forall n :: n in m.channels ==> FindChannel(m.db, n) == Some(m.channels[n].value)
  }

  /** With no deleted channel in the cache, and none deleted meanwhile, every batch is stored so. */
  lemma TrueCachesStoreEveryBatch(m: Memo, items: seq<Item>, envs: seq<Env>, last: seq<Change>, ttl: int)
    requires |envs| == |items| && C.Sound(m) && ChannelsTrue(m) && Undisturbed(envs, last)
    ensures !Fails(m, items, envs, last, ttl)
    ensures KeptOf(ResolveAll(m, items, envs, ttl).0)
            == Selected(Tables(m, items, envs, ttl), End(m, items, envs, last, ttl), items, Failures(m, items, envs, ttl))
  {
    BatchFailsIffGone(m, items, envs, last, ttl);
    forall i | 0 <= i < |items| ensures !Sinks(m, items, envs, last, ttl, i) {
      NothingIsDeleted(m, items, envs, last, ttl, i);
      if Sinks(m, items, envs, last, ttl, i) {
        SinksInTwoWays(m, items, envs, last, ttl, i);
        FoundIsLive(m.db, items[i].channelName);
      }
    }
    StoreBatchIsFilterMap(m, items, envs, last, ttl);
  }

  /** And so it is after every run of lookups, evictions and changes of the tables. */
  lemma StoreBatchAfterAnyRun(m: Memo, ops: seq<C.Timed>, items: seq<Item>, envs: seq<Env>, last: seq<Change>, ttl: int)
    requires |envs| == |items| && C.Sound(m)
    ensures var start := C.After(m, ops, ttl);
            var kept, end := KeptOf(ResolveAll(start, items, envs, ttl).0), End(start, items, envs, last, ttl);
            !Fails(start, items, envs, last, ttl) ==>
              && kept == Selected(Tables(start, items, envs, ttl), end, items, Failures(start, items, envs, ttl))
              && Extends(end, RowsOf(kept), InsertAll(end, RowsOf(kept)).value)
  {
    C.CachesStaySound(m, ops, ttl);
    StoreBatchIsFilterMap(C.After(m, ops, ttl), items, envs, last, ttl);
  }

  // ---- What is announced is what is stored ----

  /** The kept message names the channel and the user that the table holds under its names. */
  ghost predicate NamesAgree(db: Db, k: Kept) {
    FindChannel(db, k.channelName) == Some(k.row.channelId) && FindUser(db, k.username) == Some(k.row.userId)
  }

  lemma OutcomeAgrees(m: Memo, items: seq<Item>, envs: seq<Env>, last: seq<Change>, ttl: int, i: nat, r: Option<Kept>)
    requires i < |items| == |envs| && !Sinks(m, items, envs, last, ttl, i)
    requires ExactAt(m, End(m, items, envs, last, ttl), items, envs, ttl, i, r)
    ensures r.Some? ==> NamesAgree(End(m, items, envs, last, ttl), r.value)
  {
    LookupChannelExact(MemoAt(m, items, envs, ttl, i), items[i], envs[i], ttl);
  }

  lemma KeptAgree(m: Memo, items: seq<Item>, envs: seq<Env>, last: seq<Change>, ttl: int, k: Kept)
    requires |envs| == |items| && C.Sound(m) && !Fails(m, items, envs, last, ttl)
    requires k in KeptOf(ResolveAll(m, items, envs, ttl).0)
    ensures NamesAgree(End(m, items, envs, last, ttl), k)
  {
    var outcomes := ResolveAll(m, items, envs, ttl).0;
    EndIsExact(m, items, envs, last, ttl);
    BatchFailsIffGone(m, items, envs, last, ttl);
    KeptHolds(outcomes, k);
    var i :| 0 <= i < |outcomes| && outcomes[i] == Some(k);
    OutcomeAgrees(m, items, envs, last, ttl, i, outcomes[i]);
  }

  /** The announcement tells of the row stored under its identifier, and names the channel and the user that
      the table holds under its names. */
  predicate TellsOf(db: Db, a: StoredMessage) {
    && a.id in db.messages
    && db.messages[a.id].channelId == a.channelId && db.messages[a.id].userId == a.userId
    && db.messages[a.id].text == a.text && db.messages[a.id].sentAt == a.sentAt
    && FindChannel(db, a.channelName) == Some(a.channelId) && FindUser(db, a.username) == Some(a.userId)
  }

  lemma AnnouncedTells(kept: seq<Kept>, end: Db, after: Db)
    requires Extends(end, RowsOf(kept), after) && forall k: Kept :: k in kept ==> NamesAgree(end, k)
    ensures forall a :: a in Announced(kept, end.nextMessage) ==> TellsOf(after, a)
  {
    var announced, rows := Announced(kept, end.nextMessage), RowsOf(kept);
    forall a | a in announced ensures TellsOf(after, a) {
      var j :| 0 <= j < |announced| && announced[j] == a;
      assert kept[j] in kept && after.messages[end.nextMessage + j] == rows[j];
    }
  }

  /** A store is answered with an error exactly if there was something to insert and the insert failed, of its
      own or by a fault up to the commit; then nothing is announced, and nothing of the batch is in the tables. */
  lemma FailureIsReported(m: Memo, items: seq<Item>, envs: seq<Env>, last: seq<Change>, fault: Option<nat>, ttl: int)
    requires |envs| == |items|
    ensures var r, kept := StoreItems(m, items, envs, last, fault, ttl), KeptOf(ResolveAll(m, items, envs, ttl).0);
            && (!r.ok <==> kept != [] && (Fails(m, items, envs, last, ttl) || (fault.Some? && fault.value <= |kept|)))
            && (!r.ok ==> r.announced == [] && r.memo.db == End(m, items, envs, last, ttl))
            && (r.ok ==> |r.announced| == |kept|)
  {
  }

  /** Whenever a batch is stored, every row it adds is announced once, in order, and every announcement tells
      of the row stored under its identifier, with the identifiers of its channel and of its user. */
  lemma AnnouncementsTellOfRows(m: Memo, items: seq<Item>, envs: seq<Env>, last: seq<Change>, fault: Option<nat>, ttl: int)
    requires |envs| == |items| && C.Sound(m)
    ensures var r := StoreItems(m, items, envs, last, fault, ttl);
            && (forall a :: a in r.announced ==> TellsOf(r.memo.db, a))
            && (forall k :: 0 <= k < |r.announced| ==>
                  r.announced[k].id == r.memo.db.nextMessage - |r.announced| + k)
            && (r.announced != [] ==>
                  r.memo.db.nextMessage == End(m, items, envs, last, ttl).nextMessage + |r.announced|)
  {
    var end, kept := End(m, items, envs, last, ttl), KeptOf(ResolveAll(m, items, envs, ttl).0);
    if !Fails(m, items, envs, last, ttl) {
      EndIsExact(m, items, envs, last, ttl);
      InsertAllIsExact(end, RowsOf(kept));
      forall k: Kept | k in kept ensures NamesAgree(end, k) {
        KeptAgree(m, items, envs, last, ttl, k);
      }
      AnnouncedTells(kept, end, InsertAll(end, RowsOf(kept)).value);
    }
  }
}
