/** `SessionsRepository` in the form of its source: pipelines that are queued and executed, loops
    that fill collections. Each operation does to the keyspace exactly what its process in
    `SessionSystem` does in the commands that took effect. */
module SessionsRepository {
  import opened Models
  import opened Redis
  import opened SessionStore
  import opened SessionSystem

  datatype RedisCommand =
    | CmdSet(key: Text, body: Text, ttl: nat)
    | CmdSAdd(key: Text, member: Text)
    | CmdSRem(key: Text, members: set<Text>)
    | CmdExpire(key: Text, ttl: nat)
    | CmdDel(keys: set<Text>)

  function Perform(db: Keyspace, now: nat, command: RedisCommand): Keyspace {
    match command
    case CmdSet(key, body, ttl) => Set(db, now, ttl, key, body)
    case CmdSAdd(key, member) => SAdd(db, key, member)
    case CmdSRem(key, members) => SRem(db, key, members)
    case CmdExpire(key, ttl) => Expire(db, now, ttl, key)
    case CmdDel(keys) => Del(db, keys)
  }

  function PerformAll(db: Keyspace, now: nat, commands: seq<RedisCommand>): Keyspace
    decreases |commands|
  {
    if commands == [] then db
    else Perform(PerformAll(db, now, commands[..|commands| - 1]), now, commands[|commands| - 1])
  }

  /** How far the server got with a pipeline, and whether the client was told that all went well. */
  datatype Pipeline = Pipeline(applied: nat, ok: bool) {
    predicate Honest(commands: nat) { ok ==> applied >= commands }
    function Reached(commands: nat): nat { if applied < commands then applied else commands }
    function Raw(): RawError { if ok then NoError else Foreign }
  }

  /** The outcomes of one TerminateSessions. */
  datatype TerminateFaults = TerminateFaults(mget: bool, srem: Outcome, exec: Pipeline)

  /** What a caller of the filter gets back: nothing once a command was reported as failed. */
  function Returned(split: Split, f: TerminateFaults): set<Text> {
    if !f.mget || (split.drop != {} && !f.srem.Done?) then {} else split.keep
  }

  /** The commands of the filter that take effect. */
  function FilterCommands(split: Split, f: TerminateFaults): nat {
    if !f.mget then 0 else if split.drop == {} || !f.srem.Applied() then 1 else 2
  }

  function TerminateCommands(split: Split, f: TerminateFaults): nat {
    FilterCommands(split, f) + (if Returned(split, f) == {} then 0 else f.exec.Reached(2))
  }

  /** Running the filter and then `more` commands of the deletion is running the process for that long. */
  lemma TerminationProcess(db: Keyspace, now: nat, ttl: nat, account: string, ids: seq<Text>, f: TerminateFaults)
    ensures var split := SplitKeys(AsWritten, db, ids);
      var filtered := if f.mget && split.drop != {} && f.srem.Applied()
                      then SRem(db, AccountKey(account), split.drop) else db;
      var keep := Returned(split, f);
      Alone(AsWritten, ttl, now, db, TermRead(ids, account), TerminateCommands(split, f)) ==
      (if keep == {} || f.exec.Reached(2) == 0 then filtered
       else if f.exec.Reached(2) == 1 then Del(filtered, keep)
       else SRem(Del(filtered, keep), AccountKey(account), keep))
  {
    var split := SplitKeys(AsWritten, db, ids);
    var n := TerminateCommands(split, f);
    if n > 1 && split.drop != {} {
      var filtered := SRem(db, AccountKey(account), split.drop);
      assert Alone(AsWritten, ttl, now, db, TermRead(ids, account), n)
          == Alone(AsWritten, ttl, now, db, TermDrop(split.drop, split.keep, account), n - 1);
      if n > 2 {
        assert Alone(AsWritten, ttl, now, db, TermDrop(split.drop, split.keep, account), n - 1)
            == Alone(AsWritten, ttl, now, filtered, TermDel(split.keep, account), n - 2);
      }
    }
  }

  lemma WriteProcess(db: Keyspace, now: nat, ttl: nat, session: Session, n: nat)
    requires n <= 3
    ensures var list, key := AccountKey(session.accountID), Plain(session.sessionID);
      var set1 := Set(db, now, ttl, key, Json(session));
      var set2 := SAdd(set1, list, key);
      Alone(AsWritten, ttl, now, db, Write(session, DoSet), n) ==
      (if n == 0 then db else if n == 1 then set1 else if n == 2 then set2 else Expire(set2, now, ttl, list))
  {
    var set1 := Set(db, now, ttl, Plain(session.sessionID), Json(session));
    if n > 0 {
      assert Alone(AsWritten, ttl, now, db, Write(session, DoSet), n)
          == Alone(AsWritten, ttl, now, set1, Write(session, DoAdd), n - 1);
    }
    if n > 1 {
      var set2 := SAdd(set1, AccountKey(session.accountID), Plain(session.sessionID));
      assert Alone(AsWritten, ttl, now, set1, Write(session, DoAdd), n - 1)
          == Alone(AsWritten, ttl, now, set2, Write(session, DoExpire), n - 2);
    }
  }

  lemma CleanupProcess(db: Keyspace, now: nat, account: string, n: nat)
    requires n <= 2 && SMembers(db, AccountKey(account)) != {}
    ensures var ids := SMembers(db, AccountKey(account));
      Alone(AsWritten, 0, now, db, AllRead(account), 1 + n) ==
      (if n == 0 then db else if n == 1 then Del(db, ids) else Del(Del(db, ids), {AccountKey(account)}))
  {
    var ids := SMembers(db, AccountKey(account));
    assert Alone(AsWritten, 0, now, db, AllRead(account), 1 + n)
        == Alone(AsWritten, 0, now, db, AllDel(ids, account), n);
    if n > 0 {
      assert Alone(AsWritten, 0, now, db, AllDel(ids, account), n)
          == Alone(AsWritten, 0, now, Del(db, ids), AllUnlist(account), n - 1);
    }
  }

  lemma PerformTwo(db: Keyspace, now: nat, a: RedisCommand, b: RedisCommand, n: nat)
    requires n <= 2
    ensures PerformAll(db, now, [a, b][..n]) ==
            if n == 0 then db else if n == 1 then Perform(db, now, a) else Perform(Perform(db, now, a), now, b)
  {
    if n == 1 { assert [a, b][..1] == [a] && [a][..0] == []; }
    if n == 2 {
      assert [a, b][..2] == [a, b] && [a, b][..1] == [a] && [a][..0] == [];
      assert PerformAll(db, now, [a]) == Perform(db, now, a);
    }
  }

  lemma PerformThree(db: Keyspace, now: nat, a: RedisCommand, b: RedisCommand, c: RedisCommand, n: nat)
    requires n <= 3
    ensures PerformAll(db, now, [a, b, c][..n]) ==
            if n < 3 then PerformAll(db, now, [a, b][..n]) else Perform(PerformAll(db, now, [a, b]), now, c)
  {
    if n < 3 { assert [a, b, c][..n] == [a, b][..n]; } else { assert [a, b, c][..3][..2] == [a, b]; }
  }

  /** The commands a SetSession queues. */
  function WriteQueue(session: Session, ttl: nat): seq<RedisCommand> {
    [ CmdSet(Plain(session.sessionID), Json(session), ttl),
      CmdSAdd(AccountKey(session.accountID), Plain(session.sessionID)),
      CmdExpire(AccountKey(session.accountID), ttl) ]
  }

  /** The pipeline of SetSession, cut anywhere, is the write process stopped there. */
  lemma WritePipeline(db: Keyspace, now: nat, ttl: nat, session: Session, n: nat)
    requires n <= 3
    ensures PerformAll(db, now, WriteQueue(session, ttl)[..n]) ==
            Alone(AsWritten, ttl, now, db, Write(session, DoSet), n)
    ensures n == 3 ==>
      PerformAll(db, now, WriteQueue(session, ttl)[..n]) == SessionStore.SetSession(db, now, ttl, session)
  {
    var q := WriteQueue(session, ttl);
    WriteProcess(db, now, ttl, session, n);
    PerformThree(db, now, q[0], q[1], q[2], n);
    PerformTwo(db, now, q[0], q[1], if n < 3 then n else 2);
    assert [q[0], q[1]][..2] == [q[0], q[1]];
  }

  lemma ToSetAppend(keys: seq<Text>, key: Text)
    ensures ToSet(keys + [key]) == ToSet(keys) + {key}
  {
  }

  /** A listing names the live sessions of the index. */
  lemma ListedMembers(db: Keyspace, account: string)
    requires WellFormed(db)
    ensures var sessions := ListOf(db, SMembers(db, AccountKey(account)));
      (forall sid :: sid in sessions <==> Member(db, account, sid) && Plain(sid) in db) &&
      (forall sid :: sid in sessions ==>
         sessions[sid].clientIP == SessionAt(db, sid).clientIP &&
         sessions[sid].machineID == SessionAt(db, sid).machineID &&
         sessions[sid].lastActivity == SessionAt(db, sid).lastActivity)
  {
    forall sid | Member(db, account, sid) && Plain(sid) in db
      ensures sid in ListOf(db, SMembers(db, AccountKey(account)))
    {
      assert Plain(sid) in SMembers(db, AccountKey(account)) && Plain(sid).Plain?;
    }
  }

  /** One turn of the decode loop. */
  lemma ListOneMore(db: Keyspace, ids: seq<Text>, i: nat)
    requires WellFormed(db) && i < |ids| && ids[i].Plain?
    ensures Lookup(db, ids[i]).Some? ==> Lookup(db, ids[i]).value.Json?
    ensures ListOf(db, ToSet(ids[..i + 1])) ==
      if Lookup(db, ids[i]).None? then ListOf(db, ToSet(ids[..i]))
      else ListOf(db, ToSet(ids[..i]))[Lookup(db, ids[i]).value.session.sessionID :=
                                         InfoOf(Lookup(db, ids[i]).value.session)]
  {
    assert ids[..i + 1] == ids[..i] + [ids[i]];
    ToSetAppend(ids[..i], ids[i]);
    if ids[i] in db { assert EntryShape(ids[i], db[ids[i]].content); }
  }

  /** A session that the caller shares with the goroutine that refreshes it. */
  class CachedSession {
    var session: Session

    constructor (session: Session)
      ensures this.session == session
    {
      this.session := session;
    }
  }

  class SessionsRepository {
    var rdb: Keyspace
    var now: nat

    constructor (now: nat)
      ensures rdb == map[] && this.now == now
    {
      rdb := map[];
      this.now := now;
    }

    /** `tx.Exec`: the queued commands in order, as far as the server got. */
    method ExecPipeline(queue: seq<RedisCommand>, exec: Pipeline) returns (raw: RawError)
      requires exec.Honest(|queue|)
      modifies `rdb
      ensures rdb == PerformAll(old(rdb), now, queue[..exec.Reached(|queue|)])
      ensures raw == exec.Raw()
    {
      var reached := exec.Reached(|queue|);
      for i := 0 to reached
        invariant rdb == PerformAll(old(rdb), now, queue[..i])
      {
        assert queue[..i + 1][..i] == queue[..i];
        rdb := Perform(rdb, now, queue[i]);
      }
      raw := exec.Raw();
    }

    method SetSession(session: Session, ttl: nat, exec: Pipeline, ctx: Context) returns (err: Option<ErrorCode>)
      requires exec.Honest(3)
      modifies `rdb
      ensures rdb == Alone(AsWritten, ttl, now, old(rdb), Write(session, DoSet), exec.Reached(3))
      ensures exec.ok ==> rdb == SessionStore.SetSession(old(rdb), now, ttl, session)
      ensures err == HandleError(ctx, exec.Raw())
    {
      var queue := [CmdSet(Plain(session.sessionID), Json(session), ttl)];
      var listKey := AccountKey(session.accountID);
      queue := queue + [CmdSAdd(listKey, Plain(session.sessionID))];
      queue := queue + [CmdExpire(listKey, ttl)];
      assert queue == WriteQueue(session, ttl);
      WritePipeline(rdb, now, ttl, session, exec.Reached(3));
      var raw := ExecPipeline(queue, exec);
      err := HandleError(ctx, raw);
    }

    /** The keys of a Go map, in any order. */
    method Keys(s: set<Text>) returns (keys: seq<Text>)
      ensures ToSet(keys) == s && |keys| == |s|
    {
      var left := s;
      keys := [];
      while left != {}
        invariant left <= s && ToSet(keys) == s - left && |keys| + |left| == |s|
        decreases |left|
      {
        var key :| key in left;
        left := left - {key};
        ToSetAppend(keys, key);
        keys := keys + [key];
      }
    }

    /** The first loop of removeNonexistantKeys: it collects the strings found, not their keys. */
    method CollectFound(keys: seq<Text>, res: seq<Option<Text>>) returns (found: set<Text>)
      requires |res| == |keys| && forall i :: 0 <= i < |keys| ==> res[i] == Lookup(rdb, keys[i])
      ensures found == Bodies(rdb, keys) && |found| <= |keys|
    {
      found := {};
      assert keys[..0] == [] && Bodies(rdb, []) == {};
      for i := 0 to |res|
        invariant found == Bodies(rdb, keys[..i]) && |found| <= i
      {
        OneMoreBody(rdb, keys[..i], keys[i]);
        assert keys[..i + 1] == keys[..i] + [keys[i]];
        if res[i].Some? {
          found := found + {res[i].value};
        }
      }
      assert keys[..|res|] == keys;
    }

    /** The second loop: `toRemove` starts with `toRemoveLen` empty strings and grows behind them. */
    method CollectMissing(keys: seq<Text>, found: set<Text>, toRemoveLen: nat) returns (toRemove: seq<Text>)
      requires toRemoveLen > 0
      ensures ToSet(toRemove) == ToRemove(keys, found)
    {
      toRemove := seq(toRemoveLen, _ => Plain(""));
      assert toRemove[0] == Plain("");
      for i := 0 to |keys|
        invariant ToSet(toRemove) == ToRemove(keys[..i], found)
      {
        assert keys[..i + 1] == keys[..i] + [keys[i]];
        ToSetAppend(keys[..i], keys[i]);
        ToSetAppend(toRemove, keys[i]);
        if keys[i] !in found {
          toRemove := toRemove + [keys[i]];
        }
      }
      assert keys[..|keys|] == keys;
    }

    method RemoveNonexistantKeys(account: string, keys: seq<Text>, f: TerminateFaults, ctx: Context)
      returns (existsKeys: seq<Text>, err: Option<ErrorCode>)
      modifies `rdb
      ensures var split := SplitKeys(AsWritten, old(rdb), keys);
        && ToSet(existsKeys) == (if keys == [] then {} else Returned(split, f))
        && rdb == (if keys != [] && f.mget && split.drop != {} && f.srem.Applied()
                   then SRem(old(rdb), AccountKey(account), split.drop) else old(rdb))
        && err == HandleError(ctx, if keys == [] then NoError
                                   else if !f.mget || (split.drop != {} && !f.srem.Done?) then Foreign
                                   else NoError)
    {
      if |keys| == 0 {
        return [], HandleError(ctx, NoError);
      }
      if !f.mget {
        return [], HandleError(ctx, Foreign);
      }
      var found := CollectFound(keys, MGet(rdb, keys));
      var toRemoveLen := |keys| - |found|;
      if toRemoveLen == 0 {
        return keys, HandleError(ctx, NoError);
      }
      var toRemove := CollectMissing(keys, found, toRemoveLen);
      if f.srem.Applied() {
        rdb := SRem(rdb, AccountKey(account), ToSet(toRemove));
      }
      if !f.srem.Done? {
        return [], HandleError(ctx, Foreign);
      }
      existsKeys := Keys(found);
      err := HandleError(ctx, NoError);
    }

    /** The error of the filter is dropped when it returned nothing. */
    method TerminateSessions(sessionsIds: seq<Text>, account: string, f: TerminateFaults, ctx: Context)
      returns (err: Option<ErrorCode>)
      requires f.exec.Honest(2)
      modifies `rdb
      ensures sessionsIds == [] ==> rdb == old(rdb) && err == HandleError(ctx, Domain(InvalidArgument))
      ensures sessionsIds == [] && ctx.Open? ==> err == Some(InvalidArgument)
      ensures sessionsIds != [] ==>
        var split := SplitKeys(AsWritten, old(rdb), sessionsIds);
        && rdb == Alone(AsWritten, 0, now, old(rdb), TermRead(sessionsIds, account), TerminateCommands(split, f))
        && err == HandleError(ctx, if Returned(split, f) == {} then NoError else f.exec.Raw())
      ensures sessionsIds != [] && f.mget && f.srem.Done? && f.exec.ok ==>
        rdb == Terminate(AsWritten, old(rdb), account, sessionsIds)
    {
      if |sessionsIds| == 0 {
        return HandleError(ctx, Domain(InvalidArgument));
      }
      TerminationProcess(rdb, now, 0, account, sessionsIds, f);
      var kept, _ := RemoveNonexistantKeys(account, sessionsIds, f, ctx);
      if |kept| == 0 {
        assert ToSet(kept) == {};
        return HandleError(ctx, NoError);
      }
      assert kept[0] in ToSet(kept);
      var queue := [CmdDel(ToSet(kept))];
      queue := queue + [CmdSRem(AccountKey(account), ToSet(kept))];
      PerformTwo(rdb, now, queue[0], queue[1], f.exec.Reached(2));
      assert queue == [queue[0], queue[1]];
      var raw := ExecPipeline(queue, f.exec);
      err := HandleError(ctx, raw);
    }

    method GetSessionsIds(account: string, smembers: bool, f: TerminateFaults, ctx: Context)
      returns (sessionsIds: seq<Text>, err: Option<ErrorCode>)
      modifies `rdb
      ensures smembers ==>
        exists keys ::
          && NoDuplicates(keys) && ToSet(keys) == SMembers(old(rdb), AccountKey(account))
          && var split := SplitKeys(AsWritten, old(rdb), keys);
             && ToSet(sessionsIds) == Returned(split, f)
             && rdb == (if f.mget && f.srem.Applied() then DropListed(old(rdb), account, split.drop) else old(rdb))
             && err == HandleError(ctx, if keys != [] && (!f.mget || (split.drop != {} && !f.srem.Done?)) then Foreign
                                        else NoError)
      ensures !smembers ==> rdb == old(rdb) && sessionsIds == [] && err == HandleError(ctx, Foreign)
    {
      if !smembers {
        return [], HandleError(ctx, Foreign);
      }
      var keys := Keys(SMembers(rdb, AccountKey(account)));
      LengthTestDistinct(keys);
      if |keys| == 0 {
        assert SplitKeys(AsWritten, rdb, keys) == Split({}, {}) by { assert Bodies(rdb, keys) == {}; }
        return [], HandleError(ctx, NoError);
      }
      sessionsIds, err := RemoveNonexistantKeys(account, keys, f, ctx);
    }

    /** `GetSession` when the client-supplied id is any text. */
    method GetSession(sessionID: Text, get: bool, ctx: Context) returns (session: Session, err: Option<ErrorCode>)
      ensures err.None? <==> ctx.Open? && get && sessionID in rdb && rdb[sessionID].content.Str? &&
                             rdb[sessionID].content.body.Json?
      ensures err.None? ==> session == rdb[sessionID].content.body.session
      ensures ctx.Open? && get && sessionID !in rdb ==> err == Some(NotFound)
      ensures ctx.Open? && err.Some? && !(get && sessionID !in rdb) ==> err == Some(Internal)
      ensures ctx.Ended? ==> err == Some(if ctx.deadline then DeadlineExceeded else Canceled)
    {
      session := Session("", "", "", "", 0);
      if !get {
        return session, HandleError(ctx, Foreign);
      }
      if sessionID !in rdb {
        return session, HandleError(ctx, RedisNil);
      }
      if rdb[sessionID].content.Ids? || !rdb[sessionID].content.body.Json? {
        return session, HandleError(ctx, Foreign);
      }
      session := rdb[sessionID].content.body.session;
      err := HandleError(ctx, NoError);
    }

    method UpdateLastActivityForSession(
      cachedSession: CachedSession, lastActivityTime: nat, ttl: nat, exec: Pipeline, ctx: Context)
      returns (err: Option<ErrorCode>)
      requires exec.Honest(3)
      modifies `rdb, cachedSession
      ensures cachedSession.session == old(cachedSession.session).(lastActivity := lastActivityTime)
      ensures rdb == Alone(AsWritten, ttl, now, old(rdb), Write(cachedSession.session, DoSet), exec.Reached(3))
      ensures err == HandleError(ctx, exec.Raw())
    {
      cachedSession.session := cachedSession.session.(lastActivity := lastActivityTime);
      err := SetSession(cachedSession.session, ttl, exec, ctx);
    }

    method GetSessionsForAccount(account: string, smembers: bool, mget: bool, ctx: Context)
      returns (sessions: map<string, SessionInfo>, err: Option<ErrorCode>)
      requires WellFormed(rdb)
      ensures err.None? <==> ctx.Open? && smembers && mget && Listing(rdb, account).Ok?
      ensures err.None? ==> sessions == Listing(rdb, account).value
      ensures ctx.Open? && err.Some? ==> err == Some(Internal)
      ensures SMembers(rdb, AccountKey(account)) == {} ==> err.Some?
      ensures err.None? ==>
        (forall sid :: sid in sessions <==> Member(rdb, account, sid) && Plain(sid) in rdb) &&
        (forall sid :: sid in sessions ==>
           sessions[sid].clientIP == SessionAt(rdb, sid).clientIP &&
           sessions[sid].machineID == SessionAt(rdb, sid).machineID &&
           sessions[sid].lastActivity == SessionAt(rdb, sid).lastActivity)
    {
      sessions := map[];
      if !smembers {
        return sessions, HandleError(ctx, Foreign);
      }
      var members := SMembers(rdb, AccountKey(account));
      var sessionsIds := Keys(members);
      // MGET without keys is an error
      if !mget || |sessionsIds| == 0 {
        return sessions, HandleError(ctx, Foreign);
      }
      var sessionsInfo := MGet(rdb, sessionsIds);
      assert AccountKey(account) in rdb && EntryShape(AccountKey(account), rdb[AccountKey(account)].content);
      assert forall i :: 0 <= i < |sessionsIds| ==> sessionsIds[i] in ToSet(sessionsIds);
      for i := 0 to |sessionsInfo|
        invariant sessions == ListOf(rdb, ToSet(sessionsIds[..i]))
      {
        assert sessionsIds[i] in members;
        ListOneMore(rdb, sessionsIds, i);
        if sessionsInfo[i].Some? {
          var session := sessionsInfo[i].value.session;
          sessions := sessions[session.sessionID := InfoOf(session)];
        }
      }
      assert sessionsIds[..|sessionsIds|] == sessionsIds;
      ListedMembers(rdb, account);
      err := HandleError(ctx, NoError);
    }

    /** A failed SMEMBERS returns no ids, which counts as success. */
    method TerminateAllSessions(account: string, smembers: bool, exec: Pipeline, ctx: Context)
      returns (err: Option<ErrorCode>)
      requires exec.Honest(2)
      modifies `rdb
      ensures rdb == (if !smembers then old(rdb)
                      else Alone(AsWritten, 0, now, old(rdb), AllRead(account), 1 + exec.Reached(2)))
      ensures smembers && exec.ok ==> rdb == TerminateAll(old(rdb), account)
      ensures var nothing := !smembers || SMembers(old(rdb), AccountKey(account)) == {};
        err == HandleError(ctx, if nothing then NoError else exec.Raw())
    {
      var listKey := AccountKey(account);
      var sessionsIds: seq<Text> := [];
      if smembers {
        sessionsIds := Keys(SMembers(rdb, listKey));
      }
      if |sessionsIds| == 0 {
        assert smembers ==> SMembers(rdb, listKey) == {};
        return HandleError(ctx, NoError);
      }
      var queue := [CmdDel(ToSet(sessionsIds))];
      queue := queue + [CmdDel({listKey})];
      CleanupProcess(rdb, now, account, exec.Reached(2));
      PerformTwo(rdb, now, queue[0], queue[1], exec.Reached(2));
      assert queue == [queue[0], queue[1]];
      var raw := ExecPipeline(queue, exec);
      err := HandleError(ctx, raw);
    }
  }

  /** A list as long as the set of its elements repeats none. */
  lemma {:induction false} LengthTestDistinct(keys: seq<Text>)
    ensures |ToSet(keys)| <= |keys|
    ensures |ToSet(keys)| == |keys| ==> NoDuplicates(keys)
  {
    if keys != [] {
      var init, last := keys[..|keys| - 1], keys[|keys| - 1];
      LengthTestDistinct(init);
      assert keys == init + [last];
      assert ToSet(keys) == ToSet(init) + {last};
      if last in init { assert ToSet(keys) == ToSet(init); }
      if |ToSet(keys)| == |keys| {
        forall i, j | 0 <= i < j < |keys| ensures keys[i] != keys[j] {
          assert keys[i] == init[i];
          if j < |init| { assert keys[j] == init[j]; }
        }
      }
    } else {
      assert ToSet(keys) == {};
    }
  }
}
