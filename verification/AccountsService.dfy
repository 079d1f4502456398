/** `accountsService` in the form of its source, one request at a time. What a method does to the
    accounts is what its request in `AccountSystem` does when it runs alone (`Lifecycle.Finish`);
    what it does to the sessions is what its process in `SessionSystem` does.
    Each choice is the outcome of one external call, in the order of the calls. */
module AccountsService {
  import opened Models
  import opened Jwt
  import opened AccountSystem
  import opened Lifecycle
  import opened AccountRepositories
  import Redis
  import Store = SessionStore
  import Sessions = SessionSystem
  import Repo = SessionsRepository

  /** A method answers, refuses with an error, or dies on a nil transaction. */
  datatype Reply<+T> = Answered(value: T) | Refused(code: ErrorCode) | Panicked

  /** What a method leaves running. */
  datatype Goroutine = Refresh(session: Session, at: nat) | CleanUp(account: string)

  /** The outcomes of one attempt of the clean-up. */
  datatype CleanupFaults = CleanupFaults(smembers: bool, exec: Repo.Pipeline)

  class AccountsService {
    const cfg: Config
    const sessionTTL: nat
    const numRetries: nat
    const accounts: AccountsRepository
    const registration: RegistrationRepository
    const sessions: Repo.SessionsRepository
    var now: nat
    var issued: set<Token>
    var detached: seq<Goroutine>
    ghost var trace: seq<Event>

    /** One clock for all; the configuration forces at least one attempt. */
    ghost predicate Valid()
      reads this, registration, sessions
    {
      registration.now == now && sessions.now == now && numRetries >= 1
    }

    /** The account half of the state, at rest. */
    ghost function View(): State
      reads this, accounts, registration
    {
      State(cfg, now, accounts.table, accounts.usedIds, registration.regs, issued, trace, map[])
    }

    constructor (cfg: Config, sessionTTL: nat, numRetries: nat, now: nat)
      ensures Valid() && Init(View()) && sessions.rdb == map[] && detached == []
      ensures this.cfg == cfg && this.sessionTTL == sessionTTL
      ensures this.numRetries == if numRetries <= 0 then 1 else numRetries
      ensures fresh(accounts) && fresh(registration) && fresh(sessions)
    {
      this.cfg := cfg;
      this.sessionTTL := sessionTTL;
      this.numRetries := if numRetries <= 0 then 1 else numRetries;
      this.now := now;
      this.accounts := new AccountsRepository();
      this.registration := new RegistrationRepository(now);
      this.sessions := new Repo.SessionsRepository(now);
      this.issued := {};
      this.detached := [];
      this.trace := [];
    }

    // ---------------------------------------------------------------- registration

    method CreateAccount(
      email: string, username: string, password: string, check: Outcome, hashable: bool,
      cs: seq<Choice>, ctx: Context)
      returns (reply: Reply<()>)
      requires Valid() && |cs| == 2
      modifies this`trace, registration`regs
      ensures Valid()
      ensures if !check.Done? || Active(accounts.table, email) then View() == old(View())
              else View() == Finish(old(View()), Registering(email, username, password),
                     if hashable then cs else cs[..1])
      ensures reply.Answered? <==> check.Done? && !Active(accounts.table, email) &&
                                   cs[0].outcome.Done? && email !in old(registration.regs) && hashable && ctx.Open?
      ensures check.Done? && Active(accounts.table, email) ==> reply == Refused(Conflict)
      ensures check.Done? && cs[0].outcome.Done? && email in old(registration.regs) ==> reply == Refused(Conflict)
      ensures reply.Answered? ==> (email in registration.regs <==> cs[1].outcome.Applied())
      ensures reply.Answered? && cs[1].outcome.Applied() ==>
        var entry := registration.regs[email];
        entry.username == username && entry.expiry == now + cfg.pendingTTL &&
        forall p :: Matches(entry.hash, p) <==> p == password
    {
      var exist, err := accounts.IsAccountWithEmailExist(email, check, Open);
      if err.Some? {
        return Refused(err.value);
      }
      if exist {
        return Refused(Conflict);
      }
      var inCache;
      inCache, err := registration.IsAccountExist(email, cs[0].outcome, Open);
      if err.Some? {
        return Refused(err.value);
      }
      if inCache {
        return Refused(Conflict);
      }
      if !hashable {
        assert cs[..1][1..] == [];
        return Refused(Internal);
      }
      var hash := Bcrypt(password, cs[1].salt);
      err := registration.SetAccount(email, Entry(username, hash, 0), cfg.pendingTTL, cs[1].outcome, ctx);
      if cs[1].outcome.Applied() {
        trace := trace + [Entered(email, hash)];
      }
      assert cs[1..][0] == cs[1];
      return if err.Some? then Refused(err.value) else Answered(());
    }

    method RequestAccountVerificationToken(email: string, check: Outcome, cs: seq<Choice>) returns (reply: Reply<()>)
      requires Valid() && |cs| == 2
      modifies this`trace, this`issued
      ensures Valid()
      ensures if !check.Done? || Active(accounts.table, email) then View() == old(View())
              else View() == Finish(old(View()), AskingVerification(email), cs)
      ensures reply.Answered? <==> check.Done? && !Active(accounts.table, email) &&
                                   cs[0].outcome.Done? && email in registration.regs && cs[1].outcome.Done?
      ensures check.Done? && Active(accounts.table, email) ==> reply == Refused(InvalidArgument)
      ensures reply.Answered? ==>
        exists t :: t in issued && Opens(t, cfg.verifySecret, email, Truncate(now + cfg.pendingTTL))
    {
      var exist, err := accounts.IsAccountWithEmailExist(email, check, Open);
      if err.Some? {
        return Refused(err.value);
      }
      if exist {
        return Refused(InvalidArgument);
      }
      var inCache;
      inCache, err := registration.IsAccountExist(email, cs[0].outcome, Open);
      if err.Some? {
        return Refused(err.value);
      }
      if !inCache {
        return Refused(NotFound);
      }
      var token := GenerateToken(email, cfg.verifySecret, cfg.pendingTTL, now);
      assert Opens(token, cfg.verifySecret, email, Truncate(now + cfg.pendingTTL));
      assert cs[1..][0] == cs[1];
      if cs[1].outcome.Applied() {
        issued := issued + {token};
        trace := trace + [AskedVerification(email, now, registration.regs[email].expiry)];
      }
      return if cs[1].outcome.Done? then Answered(()) else Refused(Internal);
    }

    /** Calls: entry read, INSERT, COMMIT, AccountCreated, entry removed. `rollback` tells whether the
        rollback after a failed INSERT works; if it does, the nil transaction is used. */
    method VerifyAccount(token: Token, cs: seq<Choice>, rollback: bool) returns (reply: Reply<()>)
      requires Valid() && |cs| == 5 && cs[1].id !in accounts.usedIds
      modifies this`trace, accounts, registration`regs
      ensures Valid()
      ensures var email := ParseToken(token, cfg.verifySecret, now);
        if email.None? then View() == old(View()) && reply == Refused(InvalidArgument)
        else
          && View() == Finish(old(View()), Verifying(email.value, now), cs)
          && (reply.Answered? <==>
                old(email.value in registration.regs && !Active(accounts.table, email.value)) &&
                cs[0].outcome.Done? && cs[1].outcome.Done? && cs[2].outcome.Done? && cs[3].outcome.Done?)
          && (reply.Panicked? <==>
                rollback && cs[0].outcome.Done? && old(email.value in registration.regs) &&
                (!cs[1].outcome.Done? || old(Active(accounts.table, email.value))))
          && (reply.Answered? ==>
                Accepts(accounts.table, email.value, old(registration.regs)[email.value].hash.password, cs[1].id) &&
                trace == old(trace) + [Committed(cs[1].id, email.value, old(registration.regs)[email.value].hash, now)]
                                    + [Created(cs[1].id, email.value)])
    {
      ghost var start := View();
      var email := ParseToken(token, cfg.verifySecret, now);
      if email.None? {
        return Refused(InvalidArgument);
      }
      reply := CreateActiveAccount(email.value, cs, rollback);
      VerificationEffect(start, email.value, now, cs);
    }

    /** The unexported createAccount. */
    method CreateActiveAccount(email: string, cs: seq<Choice>, rollback: bool) returns (reply: Reply<()>)
      requires Valid() && |cs| == 5 && cs[1].id !in accounts.usedIds
      modifies this`trace, accounts, registration`regs
      ensures Valid()
      ensures View() == Finish(old(View()), Verifying(email, now), cs)
      ensures reply.Answered? <==>
                old(email in registration.regs && !Active(accounts.table, email)) &&
                cs[0].outcome.Done? && cs[1].outcome.Done? && cs[2].outcome.Done? && cs[3].outcome.Done?
      ensures reply.Panicked? <==>
                rollback && cs[0].outcome.Done? && old(email in registration.regs) &&
                (!cs[1].outcome.Done? || old(Active(accounts.table, email)))
    {
      ghost var start, rest := View(), cs[1..];
      var account, err := registration.GetAccount(email, cs[0].outcome, Open);
      if err.Some? {
        return Refused(err.value);
      }
      var entry := account.value;
      assert Finish(start, Verifying(email, now), cs) == Finish(start, Inserting(email, entry, now), rest);
      var tx, id;
      tx, id, err := accounts.CreateAccount(email, entry.hash, true, cs[1], rollback, Open);
      assert rest[0] == cs[1];
      if err.Some? {
        return Refused(err.value);
      }
      if tx == null {
        return Panicked;
      }
      ghost var inserted := View();
      assert Finish(start, Inserting(email, entry, now), rest)
          == Finish(inserted, Inserted(id, email, entry, now), rest[1..]);
      assert rest[1..][0] == cs[2];
      var failed := tx.Commit(cs[2].outcome);
      if cs[2].outcome.Applied() {
        trace := trace + [Committed(id, email, entry.hash, now)];
      }
      if failed {
        return Refused(Internal);
      }
      ghost var tail := rest[1..][1..];
      assert tail[0] == cs[3] && tail[1] == cs[4];
      reply := Announce(id, email, tail, cs[3].outcome, cs[4].outcome);
    }

    /** The tail of createAccount: a failed removal of the entry is only logged. */
    method Announce(id: string, email: string, ghost tail: seq<Choice>, send: Outcome, del: Outcome)
      returns (reply: Reply<()>)
      requires Valid() && |tail| == 2 && tail[0].outcome == send && tail[1].outcome == del
      modifies this`trace, registration`regs
      ensures Valid()
      ensures View() == Finish(old(View()), Announcing(id, email), tail)
      ensures reply == if send.Done? then Answered(()) else Refused(Internal)
    {
      if send.Applied() {
        trace := trace + [Created(id, email)];
      }
      if !send.Done? {
        return Refused(Internal);
      }
      var _ := registration.DeleteAccount(email, del, Open);
      return Answered(());
    }

    // ---------------------------------------------------------------- passwords

    method RequestChangePasswordToken(email: string, check: Outcome, send: Choice) returns (reply: Reply<()>)
      requires Valid()
      modifies this`trace, this`issued
      ensures Valid()
      ensures if !check.Done? || !Active(accounts.table, email) then View() == old(View())
              else View() == Finish(Log(old(View()), FoundActive(email)), IssuingChange(email), [send])
      ensures reply.Answered? <==> check.Done? && Active(accounts.table, email) && send.outcome.Done?
      ensures check.Done? && !Active(accounts.table, email) ==> reply == Refused(NotFound)
      ensures reply.Answered? ==>
        exists t :: t in issued && Opens(t, cfg.changeSecret, email, Truncate(now + cfg.changeTTL))
    {
      var exist, err := accounts.IsAccountWithEmailExist(email, check, Open);
      if err.Some? {
        return Refused(err.value);
      }
      if !exist {
        return Refused(NotFound);
      }
      trace := trace + [FoundActive(email)];
      var token := GenerateToken(email, cfg.changeSecret, cfg.changeTTL, now);
      assert Opens(token, cfg.changeSecret, email, Truncate(now + cfg.changeTTL));
      if send.outcome.Applied() {
        issued := issued + {token};
        trace := trace + [AskedChange(email, now)];
      }
      return if send.outcome.Done? then Answered(()) else Refused(Internal);
    }

    /** Calls: existence check, UPDATE. */
    method ChangePassword(token: Token, newPassword: string, hashable: bool, cs: seq<Choice>) returns (reply: Reply<()>)
      requires Valid() && |cs| == 2
      modifies this`trace, accounts`table
      ensures Valid()
      ensures var email := ParseToken(token, cfg.changeSecret, now);
        if email.None? then View() == old(View()) && reply == Refused(InvalidArgument)
        else
          && View() == Finish(old(View()), Changing(email.value, newPassword, now), if hashable then cs else cs[..1])
          && (reply.Answered? <==> cs[0].outcome.Done? && old(Active(accounts.table, email.value)) &&
                                   hashable && cs[1].outcome.Done?)
          && (cs[0].outcome.Done? && !old(Active(accounts.table, email.value)) ==> reply == Refused(NotFound))
          && (reply.Answered? ==>
                (exists id :: Accepts(accounts.table, email.value, newPassword, id)) &&
                forall p, id :: Accepts(accounts.table, email.value, p, id) ==> p == newPassword)
    {
      var parsed := ParseToken(token, cfg.changeSecret, now);
      if parsed.None? {
        return Refused(InvalidArgument);
      }
      var email := parsed.value;
      var exist, err := accounts.IsAccountWithEmailExist(email, cs[0].outcome, Open);
      if err.Some? {
        return Refused(err.value);
      }
      if !exist {
        return Refused(NotFound);
      }
      if !hashable {
        assert cs[..1][1..] == [];
        return Refused(Internal);
      }
      assert cs[1..][0] == cs[1];
      var hash := Bcrypt(newPassword, cs[1].salt);
      ghost var start := View();
      err := accounts.ChangePassword(email, hash, cs[1].outcome, Open);
      PasswordEffect(start, email, newPassword, now, cs);
      if cs[1].outcome.Done? { ActiveAccepts(start.table, accounts.table, email, newPassword); }
      if cs[1].outcome.Applied() {
        trace := trace + [Changed(email, hash, now)];
      }
      return if err.Some? then Refused(err.value) else Answered(());
    }

    // ---------------------------------------------------------------- sessions

    /** `sid` is the uuid the call draws. */
    method SignIn(
      email: string, password: string, machine: string, ip: string, sid: string, get: Outcome, exec: Repo.Pipeline)
      returns (reply: Reply<string>)
      requires Valid() && exec.Honest(3)
      modifies sessions`rdb
      ensures Valid() && View() == old(View())
      ensures reply.Answered? ==> exec.ok && reply.value == sid
      ensures (exists id :: Accepts(accounts.table, email, password, id) && get.Done? &&
                 sessions.rdb == Sessions.Alone(Store.AsWritten, sessionTTL, now, old(sessions.rdb),
                   Sessions.Write(Session(sid, id, machine, ip, now), Sessions.DoSet), exec.Reached(3)) &&
                 (reply.Answered? <==> exec.ok)) ||
              (sessions.rdb == old(sessions.rdb) && reply.Refused?)
      ensures get.Done? && !Active(accounts.table, email) ==> reply == Refused(NotFound)
      ensures OneRowPerEmail(View()) && get.Done? && Active(accounts.table, email) ==>
        var accepted := exists id :: Accepts(accounts.table, email, password, id);
        (reply.Answered? <==> accepted && exec.ok) && (!accepted ==> reply == Refused(InvalidArgument))
    {
      var id, account, err := accounts.GetAccountByEmail(email, get, Open);
      if err.Some? {
        return Refused(err.value);
      }
      if !Matches(account.value.hash, password) {
        return Refused(InvalidArgument);
      }
      assert Accepts(accounts.table, email, password, id);
      err := sessions.SetSession(Session(sid, id, machine, ip, now), sessionTTL, exec, Open);
      return if err.Some? then Refused(err.value) else Answered(sid);
    }

    method CheckSession(machine: string, sessionID: Redis.Text, get: bool) returns (r: Result<Session>)
      ensures r == if get then Store.CheckSession(sessions.rdb, sessionID, machine) else Err(Internal)
      ensures get && sessionID !in sessions.rdb ==> r == Err(Unauthenticated)
      ensures forall session ::
        get && Redis.Lookup(sessions.rdb, sessionID) == Some(Redis.Json(session)) ==>
          r == if session.machineID == machine then Ok(session) else Err(Unauthenticated)
    {
      var session, err := sessions.GetSession(sessionID, get, Open);
      if err == Some(NotFound) {
        return Err(Unauthenticated);
      }
      if err.Some? {
        return Err(err.value);
      }
      if machine != session.machineID {
        return Err(Unauthenticated);
      }
      return Ok(session);
    }

    method CheckAndUpdateSession(machine: string, sessionID: Redis.Text, get: bool) returns (r: Result<Session>)
      modifies this`detached
      ensures r == if get then Store.CheckSession(sessions.rdb, sessionID, machine) else Err(Internal)
      ensures detached == old(detached) + if r.Ok? then [Refresh(r.value, now)] else []
    {
      r := CheckSession(machine, sessionID, get);
      if r.Ok? {
        detached := detached + [Refresh(r.value, now)];
      }
    }

    method GetAccountID(sessionID: Redis.Text, machine: string, get: bool) returns (r: Result<string>)
      modifies this`detached
      ensures var checked := if get then Store.CheckSession(sessions.rdb, sessionID, machine) else Err(Internal);
        && r == (if checked.Ok? then Ok(checked.value.accountID) else Err(checked.code))
        && detached == old(detached) + if checked.Ok? then [Refresh(checked.value, now)] else []
    {
      var cached := CheckAndUpdateSession(machine, sessionID, get);
      return if cached.Ok? then Ok(cached.value.accountID) else Err(cached.code);
    }

    method Logout(sessionID: Redis.Text, machine: string, get: bool, f: Repo.TerminateFaults)
      returns (err: Option<ErrorCode>)
      requires f.exec.Honest(2)
      modifies sessions`rdb
      ensures var checked := if get then Store.CheckSession(old(sessions.rdb), sessionID, machine) else Err(Internal);
        if checked.Err? then sessions.rdb == old(sessions.rdb) && err == Some(checked.code)
        else
          var split := Store.SplitKeys(Store.AsWritten, old(sessions.rdb), [sessionID]);
          sessions.rdb == Sessions.Alone(Store.AsWritten, 0, sessions.now, old(sessions.rdb),
            Sessions.TermRead([sessionID], checked.value.accountID), Repo.TerminateCommands(split, f)) &&
          err == HandleError(Open, if Repo.Returned(split, f) == {} then NoError else f.exec.Raw())
    {
      var session := CheckSession(machine, sessionID, get);
      if session.Err? {
        return Some(session.code);
      }
      err := sessions.TerminateSessions([sessionID], session.value.accountID, f, Open);
    }

    method GetAllSessions(sessionID: Redis.Text, machine: string, get: bool, smembers: bool, mget: bool)
      returns (r: Result<map<string, SessionInfo>>)
      requires Store.WellFormed(sessions.rdb)
      modifies this`detached
      ensures var checked := if get then Store.CheckSession(sessions.rdb, sessionID, machine) else Err(Internal);
        && r == (if checked.Err? then Err(checked.code)
                 else if smembers && mget then Store.Listing(sessions.rdb, checked.value.accountID)
                 else Err(Internal))
        && detached == old(detached) + if checked.Ok? then [Refresh(checked.value, now)] else []
    {
      var cache := CheckAndUpdateSession(machine, sessionID, get);
      if cache.Err? {
        return Err(cache.code);
      }
      var infos, err := sessions.GetSessionsForAccount(cache.value.accountID, smembers, mget, Open);
      return if err.Some? then Err(err.value) else Ok(infos);
    }

    /** One refresh is launched by the check; a second one unless the list names the caller's own session. */
    method TerminateSessions(
      sessionID: Redis.Text, machine: string, sessionsToTerminateIds: seq<Redis.Text>,
      get: bool, f: Repo.TerminateFaults)
      returns (err: Option<ErrorCode>)
      requires f.exec.Honest(2)
      modifies this`detached, sessions`rdb
      ensures var ids := sessionsToTerminateIds;
        var checked := if get then Store.CheckSession(old(sessions.rdb), sessionID, machine) else Err(Internal);
        if checked.Err? then
          sessions.rdb == old(sessions.rdb) && detached == old(detached) && err == Some(checked.code)
        else
          && detached == old(detached) + (if sessionID in ids then [Refresh(checked.value, now)]
                                          else [Refresh(checked.value, now), Refresh(checked.value, now)])
          && |detached| == |old(detached)| + Sessions.Launches(sessionID, Sessions.TerminateList(ids))
          && (ids == [] ==> sessions.rdb == old(sessions.rdb) && err == Some(InvalidArgument))
          && (ids != [] ==>
                var split := Store.SplitKeys(Store.AsWritten, old(sessions.rdb), ids);
                sessions.rdb == Sessions.Alone(Store.AsWritten, 0, sessions.now, old(sessions.rdb),
                  Sessions.TermRead(ids, checked.value.accountID), Repo.TerminateCommands(split, f)) &&
                err == HandleError(Open, if Repo.Returned(split, f) == {} then NoError else f.exec.Raw()))
    {
      var session := CheckAndUpdateSession(machine, sessionID, get);
      if session.Err? {
        return Some(session.code);
      }
      var logout := false;
      for i := 0 to |sessionsToTerminateIds|
        invariant !logout && sessionID !in sessionsToTerminateIds[..i]
        invariant detached == old(detached) + [Refresh(session.value, now)] && sessions.rdb == old(sessions.rdb)
      {
        if sessionID == sessionsToTerminateIds[i] {
          logout := true;
          break;
        }
      }
      if !logout {
        detached := detached + [Refresh(session.value, now)];
      }
      err := sessions.TerminateSessions(sessionsToTerminateIds, session.value.accountID, f, Open);
    }

    /** A detached refresh runs: the whole snapshot is written again, with the time of its launch. */
    method RunRefresh(i: nat, exec: Repo.Pipeline)
      requires Valid() && exec.Honest(3) && i < |detached| && detached[i].Refresh?
      modifies this`detached, sessions`rdb
      ensures Valid() && detached == old(detached[..i] + detached[i + 1..])
      ensures var refresh := old(detached[i]);
        sessions.rdb == Sessions.Alone(Store.AsWritten, sessionTTL, now, old(sessions.rdb),
          Sessions.Write(refresh.session.(lastActivity := refresh.at), Sessions.DoSet), exec.Reached(3))
    {
      var refresh := detached[i];
      detached := detached[..i] + detached[i + 1..];
      var snapshot := new Repo.CachedSession(refresh.session);
      var _ := sessions.UpdateLastActivityForSession(snapshot, refresh.at, sessionTTL, exec, Open);
    }

    // ---------------------------------------------------------------- deletion

    /** Calls: email read, DELETE, AccountDeleted, COMMIT. A failed DELETE whose rollback works leaves a
        nil transaction, which is noticed only at the commit, after the event; if the rollback fails
        too, the method stops there. */
    method DeleteAccount(sessionID: Redis.Text, machine: string, get: bool, cs: seq<Choice>, rollback: bool)
      returns (reply: Reply<()>)
      requires Valid() && |cs| == 4
      modifies this`trace, this`detached, accounts`table
      ensures Valid()
      ensures var checked := if get then Store.CheckSession(sessions.rdb, sessionID, machine) else Err(Internal);
        if checked.Err? then
          View() == old(View()) && reply == Refused(checked.code) && detached == old(detached)
        else
          var id := checked.value.accountID;
          && View() == Finish(old(View()), Deleting(id), if cs[1].outcome.Done? || rollback then cs else cs[..1])
          && (reply.Answered? <==> id in old(accounts.table) && cs[0].outcome.Done? && cs[1].outcome.Done? &&
                                    cs[2].outcome.Done? && cs[3].outcome.Done?)
          && (reply.Panicked? <==> id in old(accounts.table) && cs[0].outcome.Done? && !cs[1].outcome.Done? &&
                                   rollback && cs[2].outcome.Done?)
          && detached == old(detached) + if reply.Answered? then [CleanUp(id)] else []
    {
      var session := CheckSession(machine, sessionID, get);
      if session.Err? {
        return Refused(session.code);
      }
      var id := session.value.accountID;
      ghost var start, rest := View(), cs[1..];
      assert cs[..1][1..] == [];
      var email, err := accounts.GetAccountEmail(id, cs[0].outcome, Open);
      if err.Some? {
        return Refused(err.value);
      }
      assert Finish(start, Deleting(id), cs) == Finish(start, Removing(id, email), rest);
      var tx;
      tx, err := accounts.DeleteAccount(id, true, cs[1].outcome, rollback, Open);
      if err.Some? {
        return Refused(err.value);
      }
      assert rest[0] == cs[1];
      ghost var held := if tx == null then NoTx else Holding(true);
      assert Finish(start, Removing(id, email), rest) == Finish(start, Reporting(id, email, held), rest[1..]);
      ghost var tail := rest[1..];
      assert tail[0] == cs[2] && tail[1] == cs[3];
      reply := ReportAndCommit(id, email, tx, tail, cs[2].outcome, cs[3].outcome);
    }

    /** The second half of DeleteAccount: the event, then the commit, then the goroutine. */
    method ReportAndCommit(
      id: string, email: string, tx: Transaction?, ghost tail: seq<Choice>, send: Outcome, commit: Outcome)
      returns (reply: Reply<()>)
      requires Valid() && |tail| == 2 && tail[0].outcome == send && tail[1].outcome == commit
      requires tx != null ==> tx.open && tx.repo == accounts && tx.change == DeleteRow(id, true)
      modifies this`trace, this`detached, accounts`table, tx
      ensures Valid()
      ensures View() == Finish(old(View()), Reporting(id, email, if tx == null then NoTx else Holding(true)), tail)
      ensures reply.Answered? <==> tx != null && send.Done? && commit.Done?
      ensures reply.Panicked? <==> tx == null && send.Done?
      ensures detached == old(detached) + if reply.Answered? then [CleanUp(id)] else []
    {
      if send.Applied() {
        trace := trace + [Deleted(id, email)];
      }
      if !send.Done? {
        return Refused(Internal);
      }
      assert tail[1..][0] == tail[1];
      if tx == null {
        return Panicked;
      }
      var failed := tx.Commit(commit);
      if commit.Applied() {
        trace := trace + [Removed(id, email)];
      }
      if failed {
        return Refused(Internal);
      }
      detached := detached + [CleanUp(id)];
      return Answered(());
    }

    /** One attempt, seen from the store the clean-up started with. */
    method AttemptCleanUp(ghost before: Redis.Keyspace, account: string, ghost deleted: bool, f: CleanupFaults)
      returns (terr: Option<ErrorCode>)
      requires f.exec.Honest(2) && Indexed(before, account)
      requires Progress(before, sessions.rdb, account, deleted)
      modifies sessions`rdb
      ensures Progress(before, sessions.rdb, account, deleted || DelApplies(f))
      ensures terr.Some? <==>
        f.smembers && !f.exec.ok && Redis.SMembers(old(sessions.rdb), Redis.AccountKey(account)) != {}
      ensures terr != Some(NotFound)
    {
      AttemptProgress(before, sessions.rdb, account, sessions.now, deleted, f);
      terr := sessions.TerminateAllSessions(account, f.smembers, f.exec, Open);
    }

    /** The goroutine of DeleteAccount: at least one attempt, at most numRetries, each one after a failure.
        At the end exactly the account's sessions are gone if and only if there were none or some attempt read
        the index and its DEL of the sessions applied. If the first SMEMBERS fails, the loop stops there. */
    method CleanUpSessions(account: string, fs: seq<CleanupFaults>) returns (attempts: nat)
      requires Valid() && |fs| == numRetries && forall i :: 0 <= i < |fs| ==> fs[i].exec.Honest(2)
      requires Indexed(sessions.rdb, account)
      modifies sessions`rdb
      ensures 1 <= attempts <= numRetries
      ensures forall k :: 0 <= k < attempts - 1 ==> fs[k].smembers && !fs[k].exec.ok
      ensures attempts < numRetries ==>
        !fs[attempts - 1].smembers || fs[attempts - 1].exec.ok || CleanedUp(old(sessions.rdb), sessions.rdb, account)
      ensures CleanedUp(old(sessions.rdb), sessions.rdb, account) <==>
        NoSessions(old(sessions.rdb), account) || exists k :: 0 <= k < attempts && DelApplies(fs[k])
      ensures !fs[0].smembers ==> attempts == 1 && sessions.rdb == old(sessions.rdb)
    {
      ghost var before, deleted := sessions.rdb, false;
      attempts := 0;
      for i := 0 to numRetries
        invariant attempts == i && Progress(before, sessions.rdb, account, deleted)
        invariant forall k :: 0 <= k < i ==> fs[k].smembers && !fs[k].exec.ok
        invariant deleted <==> exists k :: 0 <= k < i && DelApplies(fs[k])
      {
        ghost var db, was := sessions.rdb, deleted;
        var terr := AttemptCleanUp(before, account, deleted, fs[i]);
        attempts := attempts + 1;
        deleted := deleted || DelApplies(fs[i]);
        if terr.None? || terr == Some(NotFound) {
          ProgressIff(before, sessions.rdb, account, deleted);
          EmptyIndex(before, db, account, was);
          return;
        }
      }
      ProgressIff(before, sessions.rdb, account, deleted);
    }
  }

  /** If the rows of an active email all match one password, that is the one that signs in. */
  lemma ActiveAccepts(before: map<string, Row>, after: map<string, Row>, email: string, password: string)
    requires Active(before, email) && after.Keys == before.Keys
    requires forall id :: id in before && before[id].email == email ==>
      after[id].email == email && forall p :: Matches(after[id].hash, p) <==> p == password
    requires forall id :: id in before && before[id].email != email ==> after[id] == before[id]
    ensures exists id :: Accepts(after, email, password, id)
    ensures forall p, id :: Accepts(after, email, p, id) ==> p == password
  {
    var id :| id in before && before[id].email == email;
    assert Accepts(after, email, password, id);
  }

  /** Exactly the account's sessions are gone; the others are as they were. */
  ghost predicate CleanedUp(before: Redis.Keyspace, after: Redis.Keyspace, account: string)
    requires Store.WellFormed(before)
  {
    forall sid ::
      (Redis.Plain(sid) in after <==>
        Redis.Plain(sid) in before && Store.SessionAt(before, sid).accountID != account) &&
      (Redis.Plain(sid) in after ==> after[Redis.Plain(sid)] == before[Redis.Plain(sid)])
  }

  ghost predicate NoSessions(db: Redis.Keyspace, account: string)
    requires Store.WellFormed(db)
  {
    forall sid :: Redis.Plain(sid) in db ==> Store.SessionAt(db, sid).accountID != account
  }

  /** The index of the account is right about it; nothing is asked of other accounts. */
  ghost predicate Indexed(db: Redis.Keyspace, account: string) {
    Store.WellFormed(db) && Store.IndexSound(db) && Store.AccountCovered(db, account)
  }

  /** The attempt reads the index, and the DEL of what it read applies. */
  predicate DelApplies(f: CleanupFaults) {
    f.smembers && f.exec.applied >= 1
  }

  /** Before any DEL the store is as it was; after one, the sessions are gone and at most the list with them. */
  ghost predicate Progress(before: Redis.Keyspace, db: Redis.Keyspace, account: string, deleted: bool)
    requires Store.WellFormed(before)
  {
    if !deleted then db == before
    else db == Redis.Del(before, Redis.SMembers(before, Redis.AccountKey(account))) ||
         db == Store.TerminateAll(before, account)
  }

  /** The index names exactly the sessions of the account, and possibly ids that are not live. */
  lemma IndexNamesSessions(db: Redis.Keyspace, account: string)
    requires Indexed(db, account)
    ensures var ids := Redis.SMembers(db, Redis.AccountKey(account));
      (forall sid :: Redis.Plain(sid) in db ==>
         (Redis.Plain(sid) in ids <==> Store.SessionAt(db, sid).accountID == account)) &&
      forall id :: id in ids ==> id.Plain?
  {
    var list := Redis.AccountKey(account);
    assert list in db ==> Store.EntryShape(list, db[list].content);
    forall sid | Redis.Plain(sid) in db
      ensures Redis.Plain(sid) in Redis.SMembers(db, list) <==> Store.SessionAt(db, sid).accountID == account
    {
      assert Store.SessionAt(db, sid).accountID == account ==> Store.Covers(db, sid);
      assert Redis.Plain(sid) in Redis.SMembers(db, list) <==> Store.Member(db, account, sid);
    }
  }

  /** One attempt, however far it gets and whatever the ones before it did. */
  lemma AttemptProgress(
    before: Redis.Keyspace, db: Redis.Keyspace, account: string, now: nat, deleted: bool, f: CleanupFaults)
    requires Indexed(before, account) && Progress(before, db, account, deleted) && f.exec.Honest(2)
    ensures var after := if !f.smembers then db
                         else Sessions.Alone(Store.AsWritten, 0, now, db,
                           Sessions.AllRead(account), 1 + f.exec.Reached(2));
      Progress(before, after, account, deleted || DelApplies(f))
  {
    var list := Redis.AccountKey(account);
    var ids := Redis.SMembers(before, list);
    IndexNamesSessions(before, account);
    assert list !in ids;
    if f.smembers && Redis.SMembers(db, list) != {} {
      assert Redis.SMembers(db, list) == ids;
      Repo.CleanupProcess(db, now, account, f.exec.Reached(2));
      assert Redis.Del(Redis.Del(before, ids), ids) == Redis.Del(before, ids);
    }
    if ids == {} { assert Redis.Del(before, ids) == before; }
  }

  /** Whether the sessions are gone. */
  lemma ProgressIff(before: Redis.Keyspace, db: Redis.Keyspace, account: string, deleted: bool)
    requires Indexed(before, account) && Progress(before, db, account, deleted)
    ensures CleanedUp(before, db, account) <==> NoSessions(before, account) || deleted
  {
    IndexNamesSessions(before, account);
  }

  /** An attempt that finds the index empty has nothing left to do. */
  lemma EmptyIndex(before: Redis.Keyspace, db: Redis.Keyspace, account: string, deleted: bool)
    requires Indexed(before, account) && Progress(before, db, account, deleted)
    ensures Redis.SMembers(db, Redis.AccountKey(account)) == {} ==> NoSessions(before, account) || deleted
  {
    IndexNamesSessions(before, account);
  }

  /** A service whose clean-up gives up at once: the first SMEMBERS fails, the session stays. */
  method CleanUpGivesUp(cfg: Config, ttl: nat, session: Session, rest: seq<CleanupFaults>)
    returns (service: AccountsService, attempts: nat)
    requires session.sessionID != "" && forall i :: 0 <= i < |rest| ==> rest[i].exec.Honest(2)
    ensures service.Valid() && service.numRetries == |rest| + 1 && attempts == 1
    ensures Store.CheckSession(service.sessions.rdb, Redis.Plain(session.sessionID), session.machineID) == Ok(session)
  {
    service := new AccountsService(cfg, ttl, |rest| + 1, 0);
    var _ := service.sessions.SetSession(session, ttl, Repo.Pipeline(3, true), Open);
    SignedInIsIndexed(0, ttl, session);
    var f := CleanupFaults(false, Repo.Pipeline(0, false));
    attempts := service.CleanUpSessions(session.accountID, [f] + rest);
  }

  lemma SignedInIsIndexed(now: nat, ttl: nat, session: Session)
    requires session.sessionID != ""
    ensures Indexed(Store.SetSession(map[], now, ttl, session), session.accountID)
    ensures Store.CheckSession(Store.SetSession(map[], now, ttl, session),
                               Redis.Plain(session.sessionID), session.machineID) == Ok(session)
  {
  }
}
