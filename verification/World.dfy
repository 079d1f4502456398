/** The two halves together: SignIn turns an accepted password into a minted session, DeleteAccount
    turns a checked session into a deletion, and a committed deletion starts the clean-up goroutine. */
module World {
  import opened Models
  import opened Redis
  import opened SessionStore
  import S = SessionSystem
  import A = AccountSystem
  import SI = SessionSafety
  import AI = AccountInvariant

  datatype World = World(a: A.State, s: S.State)

  predicate Init(w: World) {
    A.Init(w.a) && S.Init(w.s) && w.a.now == w.s.now
  }

  datatype Action =
    | Tick(d: nat)
    /** A step of the session half that needs nothing from the accounts. */
    | InSessions(sact: S.Action)
    /** A step of the account half that needs nothing from the sessions. */
    | InAccounts(aact: A.Action)
    /** SignIn: the password was accepted, the session id is minted. */
    | MintSession(caller: nat, pid: nat, session: Session)
    /** DeleteAccount: the session was accepted, the deletion starts. */
    | BeginDelete(caller: nat, pid: nat)
    /** DeleteAccount: Commit answers without an error and the goroutine starts. */
    | CommitDelete(caller: nat, choice: A.Choice, pid: nat)
    /** The goroutine tries again after a failed attempt. */
    | RetryCleanup(pid: nat)

  predicate CleaningUp(p: S.Process) {
    p.AllRead? || p.AllDel? || p.AllUnlist?
  }

  predicate Enabled(w: World, act: Action) {
    match act
    case Tick(_) => true
    case InSessions(sact) =>
      S.Enabled(w.s, sact) && !sact.Tick? && !sact.Mint? && !sact.Cleanup? &&
      !(sact.Proceed? && w.s.procs[sact.pid].purpose.DeleteAccount?)
    case InAccounts(aact) => A.Enabled(w.a, aact) && !aact.Tick? && !aact.Delete?
    case MintSession(caller, pid, session) =>
      caller in w.a.procs && w.a.procs[caller] == A.SignedIn(session.accountID) &&
      S.Enabled(w.s, S.Mint(pid, session))
    case BeginDelete(caller, pid) =>
      S.Enabled(w.s, S.Proceed(caller)) && w.s.procs[caller].purpose.DeleteAccount? && pid !in w.a.procs
    case CommitDelete(caller, choice, pid) =>
      A.Enabled(w.a, A.Call(caller, choice)) && w.a.procs[caller].Finishing? && w.a.procs[caller].tx.Holding? &&
      choice.outcome.Done? && pid !in w.s.procs
    case RetryCleanup(pid) => pid in w.s.procs && CleaningUp(w.s.procs[pid])
  }

  function AccountStep(w: World, act: Action): Option<A.Action>
    requires Enabled(w, act)
  {
    match act
    case Tick(d) => Some(A.Tick(d))
    case InSessions(_) => None
    case InAccounts(aact) => Some(aact)
    case MintSession(caller, _, _) => Some(A.Abort(caller))
    case BeginDelete(caller, pid) => Some(A.Delete(pid, w.s.procs[caller].session.accountID))
    case CommitDelete(caller, choice, _) => Some(A.Call(caller, choice))
    case RetryCleanup(_) => None
  }

  function SessionStep(w: World, act: Action): Option<S.Action>
    requires Enabled(w, act) && !act.RetryCleanup?
  {
    match act
    case Tick(d) => Some(S.Tick(d))
    case InSessions(sact) => Some(sact)
    case InAccounts(_) => None
    case MintSession(_, pid, session) => Some(S.Mint(pid, session))
    case BeginDelete(caller, _) => Some(S.Proceed(caller))
    case CommitDelete(caller, _, pid) => Some(S.Cleanup(pid, w.a.procs[caller].id))
  }

  function Apply(w: World, act: Action): World
    requires Enabled(w, act)
  {
    World(var step := AccountStep(w, act);
          if step.None? then w.a else A.Apply(w.a, step.value),
          if act.RetryCleanup? then
            S.Apply(S.Apply(w.s, S.Abort(act.pid)), S.Cleanup(act.pid, w.s.procs[act.pid].account))
          else
            var step := SessionStep(w, act);
            if step.None? then w.s else S.Apply(w.s, step.value))
  }

  predicate Valid(w: World, acts: seq<Action>)
    decreases |acts|
  {
    acts == [] || (Enabled(w, acts[0]) && Valid(Apply(w, acts[0]), acts[1..]))
  }

  function Run(w: World, acts: seq<Action>): World
    requires Valid(w, acts)
    decreases |acts|
  {
    if acts == [] then w else Run(Apply(w, acts[0]), acts[1..])
  }

  // ---------------------------------------------------------------- projections

  /** A step of the whole is a run of the session half, without a SignIn unless it is one. */
  lemma StepProjects(w: World, act: Action) returns (ss: seq<S.Action>)
    requires Enabled(w, act)
    ensures S.Valid(w.s, ss) && S.Run(w.s, ss) == Apply(w, act).s
    ensures forall i :: 0 <= i < |ss| && ss[i].Mint? ==> act.MintSession? && ss[i].session == act.session
  {
    if act.RetryCleanup? {
      var retry := S.Cleanup(act.pid, w.s.procs[act.pid].account);
      S.Extend(w.s, [], S.Abort(act.pid));
      S.Extend(w.s, [] + [S.Abort(act.pid)], retry);
      ss := [] + [S.Abort(act.pid)] + [retry];
    } else if SessionStep(w, act).None? {
      ss := [];
    } else {
      S.Extend(w.s, [], SessionStep(w, act).value);
      ss := [] + [SessionStep(w, act).value];
    }
  }

  /** Every run of the whole is a run of each half, so what holds of the halves holds of the whole. */
  lemma {:induction false} RunProjects(w: World, acts: seq<Action>) returns (ss: seq<S.Action>, aa: seq<A.Action>)
    requires Valid(w, acts)
    ensures S.Valid(w.s, ss) && S.Run(w.s, ss) == Run(w, acts).s
    ensures A.Valid(w.a, aa) && A.Run(w.a, aa) == Run(w, acts).a
    decreases |acts|
  {
    if acts == [] {
      ss, aa := [], [];
    } else {
      var first := StepProjects(w, acts[0]);
      ss, aa := RunProjects(Apply(w, acts[0]), acts[1..]);
      S.Concat(w.s, first, ss);
      ss := first + ss;
      if AccountStep(w, acts[0]).Some? {
        var rest := aa;
        aa := [AccountStep(w, acts[0]).value] + rest;
        assert aa[1..] == rest;
      }
    }
  }

  // ---------------------------------------------------------------- the invariant

  /** Every session was minted for an account that had been committed, and every clean-up is one of an
      account that was deleted. */
  ghost predicate Rooted(w: World) {
    (forall sid :: sid in w.s.minted ==> A.WasCommitted(w.a.trace, w.s.minted[sid].account)) &&
    (forall pid :: pid in w.s.procs && CleaningUp(w.s.procs[pid]) ==> A.WasRemoved(w.a.trace, w.s.procs[pid].account))
  }

  ghost predicate Inv(w: World) {
    AI.Inv(w.a) && S.Inv(w.s) && w.a.now == w.s.now && Rooted(w)
  }

  lemma AccountStepsGrow(w: World, act: Action, id: string)
    requires Enabled(w, act)
    ensures A.WasCommitted(w.a.trace, id) ==> A.WasCommitted(Apply(w, act).a.trace, id)
    ensures A.WasRemoved(w.a.trace, id) ==> A.WasRemoved(Apply(w, act).a.trace, id)
  {
    var step := AccountStep(w, act);
    if step.Some? {
      AI.StepGrown(w.a, step.value);
      AI.HistoryStays(w.a, Apply(w, act).a, "", 0, id);
    }
  }

  /** Only SignIn adds to the minted ids. */
  lemma MintedBySignIn(w: World, act: Action)
    requires Enabled(w, act)
    ensures Apply(w, act).s.minted ==
            if act.MintSession? then w.s.minted[act.session.sessionID := S.IdentityOf(act.session)] else w.s.minted
  {
  }

  lemma OneClock(w: World, act: Action)
    requires Enabled(w, act) && w.a.now == w.s.now
    ensures Apply(w, act).a.now == Apply(w, act).s.now
  {
    if act.CommitDelete? || act.InAccounts? {
      var step := AccountStep(w, act).value;
      if step.Call? { AI.ExecGrown(w.a, w.a.procs[step.pid], step.choice); }
    }
  }

  lemma SessionsStayRooted(w: World, act: Action, sid: string)
    requires Inv(w) && Enabled(w, act) && sid in Apply(w, act).s.minted
    ensures A.WasCommitted(Apply(w, act).a.trace, Apply(w, act).s.minted[sid].account)
  {
    MintedBySignIn(w, act);
    if act.MintSession? && sid == act.session.sessionID {
      assert AI.RequestOk(w.a, w.a.procs[act.caller]);
    }
    AccountStepsGrow(w, act, Apply(w, act).s.minted[sid].account);
  }

  /** A commit of a deletion that reports success leaves the account deleted, by this request or by another. */
  lemma CommitDeletes(a: A.State, caller: nat, c: A.Choice)
    requires AI.Inv(a) && A.Enabled(a, A.Call(caller, c)) && c.outcome.Done?
    requires a.procs[caller].Finishing? && a.procs[caller].tx.Holding?
    ensures A.WasRemoved(A.Apply(a, A.Call(caller, c)).trace, a.procs[caller].id)
  {
    var p, b := a.procs[caller], A.Apply(a, A.Call(caller, c));
    assert AI.RequestOk(a, p);
    if p.tx == A.Holding(true) {
      assert b.trace == a.trace + [A.Removed(p.id, p.email)];
      assert A.Removed(p.id, p.email) in b.trace;
    } else {
      assert p.tx == A.Holding(false) && b.trace == a.trace;
    }
  }

  /** The clean-ups of a step are those there were, with the accounts they had, and the one it starts. */
  lemma Cleaners(s: S.State, act: S.Action, pid: nat)
    requires S.Enabled(s, act) && pid in S.Apply(s, act).procs && CleaningUp(S.Apply(s, act).procs[pid])
    ensures var account := S.Apply(s, act).procs[pid].account;
      (act.Cleanup? && act.account == account) ||
      (pid in s.procs && CleaningUp(s.procs[pid]) && s.procs[pid].account == account)
  {
  }

  lemma CleanersAreRooted(w: World, act: Action, pid: nat)
    requires Inv(w) && Enabled(w, act) && pid in Apply(w, act).s.procs && CleaningUp(Apply(w, act).s.procs[pid])
    ensures A.WasRemoved(Apply(w, act).a.trace, Apply(w, act).s.procs[pid].account)
  {
    AccountStepsGrow(w, act, Apply(w, act).s.procs[pid].account);
    match act {
      case RetryCleanup(retry) =>
        var aborted := S.Apply(w.s, S.Abort(retry));
        Cleaners(aborted, S.Cleanup(retry, w.s.procs[retry].account), pid);
        if pid in aborted.procs && CleaningUp(aborted.procs[pid]) { Cleaners(w.s, S.Abort(retry), pid); }
      case CommitDelete(caller, choice, _) =>
        CommitDeletes(w.a, caller, choice);
        Cleaners(w.s, SessionStep(w, act).value, pid);
      case InAccounts(_) =>
      case Tick(d) => Cleaners(w.s, S.Tick(d), pid);
      case InSessions(sact) => Cleaners(w.s, sact, pid);
      case MintSession(_, minter, session) => Cleaners(w.s, S.Mint(minter, session), pid);
      case BeginDelete(caller, _) => Cleaners(w.s, S.Proceed(caller), pid);
    }
  }

  lemma StepRooted(w: World, act: Action)
    requires Inv(w) && Enabled(w, act)
    ensures Rooted(Apply(w, act))
  {
    forall sid | sid in Apply(w, act).s.minted
      ensures A.WasCommitted(Apply(w, act).a.trace, Apply(w, act).s.minted[sid].account)
    {
      SessionsStayRooted(w, act, sid);
    }
    forall pid | pid in Apply(w, act).s.procs && CleaningUp(Apply(w, act).s.procs[pid])
      ensures A.WasRemoved(Apply(w, act).a.trace, Apply(w, act).s.procs[pid].account)
    {
      CleanersAreRooted(w, act, pid);
    }
  }

  lemma StepInv(w: World, act: Action)
    requires Inv(w) && Enabled(w, act)
    ensures Inv(Apply(w, act))
  {
    if AccountStep(w, act).Some? { AI.StepInv(w.a, AccountStep(w, act).value); }
    var ss := StepProjects(w, act);
    S.RunInv(w.s, ss);
    OneClock(w, act);
    StepRooted(w, act);
  }

  lemma {:induction false} RunInv(w: World, acts: seq<Action>)
    requires Inv(w) && Valid(w, acts)
    ensures Inv(Run(w, acts))
    decreases |acts|
  {
    if acts != [] {
      StepInv(w, acts[0]);
      RunInv(Apply(w, acts[0]), acts[1..]);
    }
  }

  lemma InitInv(w: World)
    requires Init(w)
    ensures Inv(w)
  {
    AI.InitInv(w.a);
  }

  /** A state that some run of the whole service reaches. */
  ghost predicate Reachable(w: World) {
    exists start, acts :: Valid(start, acts) && Init(start) && Run(start, acts) == w
  }

  lemma ReachableInv(w: World)
    requires Reachable(w)
    ensures Inv(w)
  {
    var start, acts :| Valid(start, acts) && Init(start) && Run(start, acts) == w;
    InitInv(start);
    RunInv(start, acts);
  }

  /** In every reachable state, each session was minted for an account that had been committed. */
  lemma SessionsAreRooted(w: World, sid: string)
    requires Reachable(w) && sid in w.s.minted
    ensures A.WasCommitted(w.a.trace, w.s.minted[sid].account)
  {
    ReachableInv(w);
  }

  // ---------------------------------------------------------------- deleted accounts

  /** The id has been used, is in no row and in no open INSERT. */
  ghost predicate Dead(a: A.State, id: string) {
    id in a.usedIds && id !in a.table &&
    forall pid :: pid in a.procs && a.procs[pid].Inserted? ==> a.procs[pid].id != id
  }

  /** A deleted account leaves a dead id. */
  lemma RemovedIsDead(a: A.State, id: string)
    requires AI.Inv(a) && A.WasRemoved(a.trace, id)
    ensures Dead(a, id)
  {
    forall pid | pid in a.procs && a.procs[pid].Inserted? ensures a.procs[pid].id != id {
      assert AI.RequestOk(a, a.procs[pid]);
    }
  }

  lemma ExecDead(a: A.State, p: A.Request, c: A.Choice, id: string)
    requires id in a.usedIds && id !in a.table && (p.Inserted? ==> p.id != id)
    requires p.Inserting? ==> c.id !in a.usedIds
    ensures var (b, next) := A.Exec(a, p, c);
      id in b.usedIds && id !in b.table && (next.Some? && next.value.Inserted? ==> next.value.id != id)
  {
  }

  lemma StepDead(a: A.State, act: A.Action, id: string)
    requires A.Enabled(a, act) && Dead(a, id)
    ensures Dead(A.Apply(a, act), id)
  {
    if act.Call? {
      AI.ExecGrown(a, a.procs[act.pid], act.choice);
      ExecDead(a, a.procs[act.pid], act.choice, id);
    }
  }

  lemma {:induction false} DeadForever(a: A.State, acts: seq<A.Action>, id: string)
    requires A.Valid(a, acts) && Dead(a, id)
    ensures Dead(A.Run(a, acts), id)
    decreases |acts|
  {
    if acts != [] {
      StepDead(a, acts[0], id);
      DeadForever(A.Apply(a, acts[0]), acts[1..], id);
    }
  }

  /** In every reachable state, a session that validates resolves to an account that exists if and only
      if the account it was minted for has not been deleted. */
  lemma ResolvesIff(w: World, key: Text, machine: string)
    requires Reachable(w) && CheckSession(w.s.db, key, machine).Ok?
    ensures var id := CheckSession(w.s.db, key, machine).value.accountID;
      id in w.a.table <==> !A.WasRemoved(w.a.trace, id)
  {
    ReachableInv(w);
    assert S.EntryOk(w.s, key, w.s.db[key]);
  }

  /** No revival: once the account of a session has been deleted, in every continuation, through any
      number of registrations of the same email, the session resolves to no account there is. */
  lemma NoRevival(w: World, acts: seq<Action>, sid: string, machine: string)
    requires Reachable(w) && Valid(w, acts) && sid in w.s.minted
    requires A.WasRemoved(w.a.trace, w.s.minted[sid].account)
    requires CheckSession(Run(w, acts).s.db, Plain(sid), machine).Ok?
    ensures var session := CheckSession(Run(w, acts).s.db, Plain(sid), machine).value;
      session.accountID == w.s.minted[sid].account && session.accountID !in Run(w, acts).a.table
  {
    ReachableInv(w);
    RemovedIsDead(w.a, w.s.minted[sid].account);
    var ss, aa := RunProjects(w, acts);
    S.RunInv(w.s, ss);
    var t := Run(w, acts).s;
    assert S.EntryOk(t, Plain(sid), t.db[Plain(sid)]);
    DeadForever(w.a, aa, w.s.minted[sid].account);
  }

  // ---------------------------------------------------------------- clean-up after deletion

  /** No request has read the row of this account and is about to mint a session for it. */
  predicate NoSignInPending(a: A.State, id: string) {
    forall pid :: pid in a.procs ==> a.procs[pid] != A.SignedIn(id)
  }

  ghost predicate Closed(a: A.State, id: string) {
    Dead(a, id) && NoSignInPending(a, id)
  }

  lemma StepClosed(a: A.State, act: A.Action, id: string)
    requires A.Enabled(a, act) && Closed(a, id)
    ensures Closed(A.Apply(a, act), id)
  {
    StepDead(a, act, id);
    if act.Call? { ExecNoSignIn(a, a.procs[act.pid], act.choice); AI.ExecGrown(a, a.procs[act.pid], act.choice); }
  }

  lemma ExecNoSignIn(a: A.State, p: A.Request, c: A.Choice)
    ensures A.Exec(a, p, c).1.None? || !A.Exec(a, p, c).1.value.SignedIn?
  {
  }

  /** While the account is closed, the session half of the run contains no SignIn for it. */
  lemma {:induction false} ClosedRunProjects(w: World, acts: seq<Action>, id: string) returns (ss: seq<S.Action>)
    requires Valid(w, acts) && Closed(w.a, id)
    ensures S.Valid(w.s, ss) && S.Run(w.s, ss) == Run(w, acts).s && SI.NoSignIn(ss, id)
    ensures Closed(Run(w, acts).a, id)
    decreases |acts|
  {
    if acts == [] {
      ss := [];
    } else {
      var act := acts[0];
      if AccountStep(w, act).Some? { StepClosed(w.a, AccountStep(w, act).value, id); }
      var first := StepProjects(w, act);
      ss := ClosedRunProjects(Apply(w, act), acts[1..], id);
      S.Concat(w.s, first, ss);
      ss := first + ss;
    }
  }

  /** In every reachable state, the account that a clean-up works for has been deleted. */
  lemma CleanupsAreForDeleted(w: World, pid: nat)
    requires Reachable(w) && pid in w.s.procs && CleaningUp(w.s.procs[pid])
    ensures A.WasRemoved(w.a.trace, w.s.procs[pid].account) && Dead(w.a, w.s.procs[pid].account)
  {
    ReachableInv(w);
    RemovedIsDead(w.a, w.s.procs[pid].account);
  }

  /** No SignIn holds the row of the deleted account, the clean-up reads an index that covers the
      account, and no write is in flight when it reads and when it deletes: then no session of the
      account is live and none ever becomes live, whatever runs in between and afterwards. */
  lemma CleanupAfterDeletion(w: World, pid: nat, id: string, between: seq<Action>, after: seq<Action>)
    requires Reachable(w) && NoSignInPending(w.a, id)
    requires pid in w.s.procs && w.s.procs[pid] == S.AllRead(id)
    requires SI.Indexed(w.s, id) && !SI.WriteInFlightFor(w.s, id)
    requires var read := Apply(w, InSessions(S.Command(pid)));
      pid in read.s.procs && Valid(read, between) &&
      var v := Run(read, between);
      pid in v.s.procs && v.s.procs[pid] == read.s.procs[pid] && v.s.procs[pid].AllDel? &&
      !SI.WriteInFlightFor(v.s, id) &&
      Valid(Apply(v, InSessions(S.Command(pid))), after)
    ensures var v := Run(Apply(w, InSessions(S.Command(pid))), between);
      var end := Run(Apply(v, InSessions(S.Command(pid))), after).s;
      (forall sid :: !SI.LiveFor(end, sid, id)) &&
      (forall key, machine :: CheckSession(end.db, key, machine).Ok? ==>
         CheckSession(end.db, key, machine).value.accountID != id)
  {
    ReachableInv(w);
    CleanupsAreForDeleted(w, pid);
    var step := InSessions(S.Command(pid));
    var read := Apply(w, step);
    var ss1 := ClosedRunProjects(read, between, id);
    var v := Run(read, between);
    var ss2 := ClosedRunProjects(Apply(v, step), after, id);
    SI.CleanupIsFinal(w.s, pid, id, ss1, ss2);
    var end := Run(Apply(v, step), after).s;
    S.StepInv(w.s, S.Command(pid));
    S.RunInv(read.s, ss1);
    S.StepInv(v.s, S.Command(pid));
    S.RunInv(Apply(v, step).s, ss2);
    SI.AccountGoneForever(end, [], id);
  }
}
