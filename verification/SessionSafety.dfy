/** What every run of the session system keeps, under every interleaving of commands,
    every abort and both versions of removeNonexistantKeys. */
module SessionSafety {
  import opened Models
  import opened Redis
  import opened SessionStore
  import opened SessionSystem

  // ---------------------------------------------------------------- identity

  ghost predicate MintsOnly(acts: seq<Action>, i: nat, sid: string) {
    i < |acts| && acts[i].Mint? && acts[i].session.sessionID == sid &&
    forall j :: 0 <= j < |acts| && acts[j].Mint? && acts[j].session.sessionID == sid ==> j == i
  }

  lemma {:induction false} IdsAreMintedOnce(s: State, acts: seq<Action>, sid: string)
    requires Valid(s, acts) && sid in s.minted
    ensures sid in Run(s, acts).minted && Run(s, acts).minted[sid] == s.minted[sid]
    ensures forall j :: 0 <= j < |acts| && acts[j].Mint? ==> acts[j].session.sessionID != sid
    decreases |acts|
  {
    if acts != [] {
      StepLater(s, acts[0]);
      IdsAreMintedOnce(Apply(s, acts[0]), acts[1..], sid);
      forall j | 0 <= j < |acts| && acts[j].Mint? ensures acts[j].session.sessionID != sid {
        if j > 0 { assert acts[1..][j - 1] == acts[j]; }
      }
    }
  }

  /** An id known at the end and not at the start comes from exactly one SignIn of the run. */
  lemma {:induction false} MintingSignIn(s: State, acts: seq<Action>, sid: string) returns (i: nat)
    requires Valid(s, acts) && sid !in s.minted && sid in Run(s, acts).minted
    ensures MintsOnly(acts, i, sid)
    ensures Run(s, acts).minted[sid] == IdentityOf(acts[i].session)
    decreases |acts|
  {
    var t := Apply(s, acts[0]);
    if sid in t.minted {
      IdsAreMintedOnce(t, acts[1..], sid);
      assert forall j :: 0 < j < |acts| ==> acts[j] == acts[1..][j - 1];
      i := 0;
    } else {
      var k := MintingSignIn(t, acts[1..], sid);
      i := k + 1;
      assert acts[i] == acts[1..][k];
      forall j | 0 <= j < |acts| && acts[j].Mint? && acts[j].session.sessionID == sid ensures j == i {
        if j > 0 { assert acts[1..][j - 1] == acts[j]; }
      }
    }
  }

  /** A SignIn writes the time it is served as the first activity. */
  lemma FirstActivity(s: State, pid: nat, session: Session)
    requires Enabled(s, Mint(pid, session))
    ensures session.lastActivity == s.now && session.sessionID !in s.minted
    ensures var t := Apply(s, Mint(pid, session));
      t.procs == s.procs[pid := Write(session, DoSet)] && t.minted[session.sessionID] == IdentityOf(session)
  {
  }

  /** Whenever checkSession accepts, the session is the one that exactly one SignIn of the run
      minted: same id as presented, and account, machine and address as fixed by that SignIn. */
  lemma IdentityStable(s: State, acts: seq<Action>, key: Text, machine: string) returns (i: nat)
    requires Init(s) && Valid(s, acts)
    requires CheckSession(Run(s, acts).db, key, machine).Ok?
    ensures var session := CheckSession(Run(s, acts).db, key, machine).value;
      && key == Plain(session.sessionID) && session.machineID == machine
      && MintsOnly(acts, i, session.sessionID)
      && IdentityOf(session) == IdentityOf(acts[i].session)
  {
    RunInv(s, acts);
    var t := Run(s, acts);
    assert EntryOk(t, key, t.db[key]);
    i := MintingSignIn(s, acts, CheckSession(t.db, key, machine).value.sessionID);
  }

  // ---------------------------------------------------------------- activity and expiry

  lemma {:induction false} WritesMoveForward(s: State, acts: seq<Action>, sid: string)
    requires Inv(s) && Valid(s, acts) && sid in s.lastSet
    ensures sid in Run(s, acts).lastSet && s.lastSet[sid] <= Run(s, acts).lastSet[sid]
    decreases |acts|
  {
    if acts != [] {
      StepInv(s, acts[0]);
      WritesMoveForward(Apply(s, acts[0]), acts[1..], sid);
    }
  }

  /** Every live session: LastActivity + TTL <= expiry == (time of its last SET) + TTL <= now + TTL. */
  lemma ExpiryBounds(s: State, acts: seq<Action>, sid: string)
    requires Init(s) && Valid(s, acts) && Plain(sid) in Run(s, acts).db
    ensures var t := Run(s, acts);
      && WellFormed(t.db) && sid in t.lastSet
      && t.db[Plain(sid)].life.Until?
      && SessionAt(t.db, sid).lastActivity + t.ttl <= t.db[Plain(sid)].life.t
      && t.db[Plain(sid)].life.t == t.lastSet[sid] + t.ttl <= t.now + t.ttl
  {
    RunInv(s, acts);
    InvWellFormed(Run(s, acts));
    assert EntryOk(Run(s, acts), Plain(sid), Run(s, acts).db[Plain(sid)]);
  }

  /** Refreshes may finish in any order, yet the expiry of a session never moves back. */
  lemma ExpiryNeverMovesBack(s: State, acts: seq<Action>, sid: string)
    requires Reachable(s) && Valid(s, acts)
    requires Plain(sid) in s.db && Plain(sid) in Run(s, acts).db
    ensures s.db[Plain(sid)].life.Until? && Run(s, acts).db[Plain(sid)].life.Until?
    ensures s.db[Plain(sid)].life.t <= Run(s, acts).db[Plain(sid)].life.t
  {
    ReachableInv(s);
    RunInv(s, acts);
    assert EntryOk(s, Plain(sid), s.db[Plain(sid)]);
    assert EntryOk(Run(s, acts), Plain(sid), Run(s, acts).db[Plain(sid)]);
    WritesMoveForward(s, acts, sid);
  }

  // ---------------------------------------------------------------- termination is permanent

  /** The process may still SET the session: a write not yet done, or a refresh not yet launched. */
  predicate CanWrite(p: Process, sid: string) {
    (p.Write? && p.stage.DoSet? && p.session.sessionID == sid) ||
    (p.Checked? && p.launches > 0 && p.session.sessionID == sid)
  }

  predicate WriteInFlight(s: State, sid: string) {
    exists pid :: pid in s.procs && CanWrite(s.procs[pid], sid)
  }

  ghost predicate Gone(s: State, sid: string) {
    sid in s.minted && Plain(sid) !in s.db && !WriteInFlight(s, sid)
  }

  lemma StepGone(s: State, act: Action, sid: string)
    requires Inv(s) && Enabled(s, act) && Gone(s, sid)
    ensures Gone(Apply(s, act), sid)
  {
    var t := Apply(s, act);
    if act.Command? { assert !CanWrite(s.procs[act.pid], sid); }
    if act.Check? { assert EntryOk(s, act.key, s.db[act.key]); }
    forall pid | pid in t.procs ensures !CanWrite(t.procs[pid], sid) {
      if pid in s.procs { assert !CanWrite(s.procs[pid], sid); }
      if act.Launch? { assert !CanWrite(s.procs[act.pid], sid); }
    }
  }

  lemma {:induction false} GoneForever(s: State, acts: seq<Action>, sid: string, machine: string)
    requires Inv(s) && Valid(s, acts) && Gone(s, sid)
    ensures Gone(Run(s, acts), sid)
    ensures CheckSession(Run(s, acts).db, Plain(sid), machine) == Err(Unauthenticated)
    decreases |acts|
  {
    if acts != [] {
      StepGone(s, acts[0], sid);
      StepInv(s, acts[0]);
      GoneForever(Apply(s, acts[0]), acts[1..], sid, machine);
    }
  }

  /** A pid that no process has. */
  lemma FreshPid(procs: map<nat, Process>) returns (pid: nat)
    ensures pid !in procs
  {
    pid := FreshNat(procs.Keys);
  }

  lemma {:induction false} FreshNat(pids: set<nat>) returns (pid: nat)
    ensures forall q :: q in pids ==> q < pid
    decreases |pids|
  {
    if pids == {} {
      pid := 0;
    } else {
      var last :| last in pids;
      var bound := FreshNat(pids - {last});
      pid := if bound <= last then last + 1 else bound;
      forall q | q in pids ensures q < pid {
        assert q == last || q in pids - {last};
      }
    }
  }

  predicate OnlyWrites(acts: seq<Action>) {
    forall i :: 0 <= i < |acts| ==> acts[i].Command? || acts[i].Launch?
  }

  /** A SET that has not happened yet can happen now, and the session validates after it. */
  lemma WriteRevives(s: State, pid: nat) returns (acts: seq<Action>)
    requires pid in s.procs && s.procs[pid].Write? && s.procs[pid].stage.DoSet?
    ensures var session := s.procs[pid].session;
      Valid(s, acts) && OnlyWrites(acts) &&
      CheckSession(Run(s, acts).db, Plain(session.sessionID), session.machineID) ==
        Ok(session)
  {
    Extend(s, [], Command(pid));
    acts := [] + [Command(pid)];
  }

  /** A request that has a refresh to launch can launch it, and the refresh can run. */
  lemma LaunchRevives(s: State, pid: nat) returns (acts: seq<Action>)
    requires pid in s.procs && s.procs[pid].Checked? && s.procs[pid].launches > 0
    ensures var session := s.procs[pid].session;
      Valid(s, acts) && OnlyWrites(acts) &&
      CheckSession(Run(s, acts).db, Plain(session.sessionID), session.machineID) ==
        Ok(session.(lastActivity := s.now))
  {
    var child := FreshPid(s.procs);
    var launched := Apply(s, Launch(pid, child));
    assert child != pid;
    var rest := WriteRevives(launched, child);
    acts := [Launch(pid, child)] + rest;
    assert acts[1..] == rest;
  }

  lemma FlightRevives(s: State, pid: nat) returns (acts: seq<Action>)
    requires pid in s.procs && (s.procs[pid].Write? || s.procs[pid].Checked?)
    requires CanWrite(s.procs[pid], s.procs[pid].session.sessionID)
    ensures var session := s.procs[pid].session;
      Valid(s, acts) && OnlyWrites(acts) &&
      var checked := CheckSession(Run(s, acts).db, Plain(session.sessionID), session.machineID);
      checked.Ok? && checked.value.accountID == session.accountID
  {
    if s.procs[pid].Write? { acts := WriteRevives(s, pid); } else { acts := LaunchRevives(s, pid); }
  }

  /** No continuation of the state has the session validate. */
  ghost predicate NeverValidates(s: State, sid: string) {
    forall acts, machine :: Valid(s, acts) ==> CheckSession(Run(s, acts).db, Plain(sid), machine).Err?
  }

  /** A minted session is gone for good if and only if it is not live and no write of it is in flight. */
  lemma GoneIff(s: State, sid: string)
    requires Reachable(s) && sid in s.minted
    ensures NeverValidates(s, sid) <==> Plain(sid) !in s.db && !WriteInFlight(s, sid)
  {
    ReachableInv(s);
    if Plain(sid) in s.db {
      assert EntryOk(s, Plain(sid), s.db[Plain(sid)]);
      var session := s.db[Plain(sid)].content.body.session;
      assert Valid(s, []) && CheckSession(Run(s, []).db, Plain(sid), session.machineID).Ok?;
    } else if WriteInFlight(s, sid) {
      var pid :| pid in s.procs && CanWrite(s.procs[pid], sid);
      var acts := FlightRevives(s, pid);
      assert Valid(s, acts) && CheckSession(Run(s, acts).db, Plain(sid), s.procs[pid].session.machineID).Ok?;
    } else {
      forall acts, machine | Valid(s, acts) ensures CheckSession(Run(s, acts).db, Plain(sid), machine).Err? {
        GoneForever(s, acts, sid, machine);
      }
    }
  }

  lemma ReachableStep(s: State, act: Action)
    requires Reachable(s) && Enabled(s, act)
    ensures Reachable(Apply(s, act))
  {
    var start, acts :| Valid(start, acts) && Init(start) && Run(start, acts) == s;
    Extend(start, acts, act);
    assert Valid(start, acts + [act]) && Run(start, acts + [act]) == Apply(s, act);
  }

  /** The DEL of a termination that names the session is final if and only if no write of the session
      is in flight when it runs. */
  lemma DeleteIsFinalIff(s: State, pid: nat, sid: string)
    requires Reachable(s) && pid in s.procs && s.procs[pid].TermDel? && Plain(sid) in s.procs[pid].keep
    requires sid in s.minted
    ensures NeverValidates(Apply(s, Command(pid)), sid) <==> !WriteInFlight(s, sid)
  {
    var t := Apply(s, Command(pid));
    ReachableStep(s, Command(pid));
    GoneIff(t, sid);
    if WriteInFlight(s, sid) {
      var q :| q in s.procs && CanWrite(s.procs[q], sid);
      assert t.procs[q] == s.procs[q];
    }
    if WriteInFlight(t, sid) {
      var q :| q in t.procs && CanWrite(t.procs[q], sid);
      assert t.procs[q] == s.procs[q];
    }
  }

  /** No state along the run has a write of the session in flight, and the process is not aborted. */
  predicate Undisturbed(s: State, acts: seq<Action>, sid: string, pid: nat)
    requires Valid(s, acts)
    decreases |acts|
  {
    !WriteInFlight(s, sid) &&
    (acts == [] || (acts[0] != Abort(pid) && Undisturbed(Apply(s, acts[0]), acts[1..], sid, pid)))
  }

  /** The request asks for the end of the session: a Logout of it, or a list that names it. */
  predicate AsksToEnd(session: Session, purpose: Purpose, sid: string) {
    (purpose.Logout? && session.sessionID == sid) || (purpose.TerminateList? && Plain(sid) in purpose.ids)
  }

  /** Where a termination that names the session can be while the session is still live. */
  ghost predicate Terminating(s: State, sid: string, pid: nat) {
    pid in s.procs &&
    match s.procs[pid]
    case Checked(session, purpose, _) => AsksToEnd(session, purpose, sid)
    case TermRead(ids, _) => Plain(sid) in ids
    case TermDrop(_, keep, _) => Plain(sid) in keep
    case TermDel(keep, _) => Plain(sid) in keep
    case _ => false
  }

  /** If the termination `pid` reads while the session is live, the code as written has a uniform list; as
      meant, any list will do. */
  ghost predicate ReadsUniform(s: State, act: Action, sid: string, pid: nat) {
    act == Command(pid) && Plain(sid) in s.db && pid in s.procs && s.procs[pid].TermRead? && s.version.AsWritten? ==>
      Uniform(s.db, s.procs[pid].listed)
  }

  ghost predicate UniformReads(s: State, acts: seq<Action>, sid: string, pid: nat)
    requires Valid(s, acts)
    decreases |acts|
  {
    acts == [] || (ReadsUniform(s, acts[0], sid, pid) && UniformReads(Apply(s, acts[0]), acts[1..], sid, pid))
  }

  /** A live session that the list names is kept for deletion. */
  lemma NamedIsKept(s: State, ids: seq<Text>, sid: string)
    requires Inv(s) && Plain(sid) in s.db && Plain(sid) in ids
    requires s.version.AsWritten? ==> Uniform(s.db, ids)
    ensures Plain(sid) in SplitKeys(s.version, s.db, ids).keep
  {
    InvWellFormed(s);
    assert EntryShape(Plain(sid), s.db[Plain(sid)].content);
    assert Lookup(s.db, Plain(sid)).Some?;
    FilterAsWritten(s.db, ids);
  }

  /** A list of one id is uniform whatever the store is. */
  lemma OneIdIsUniform(db: Keyspace, id: Text)
    ensures Uniform(db, [id])
  {
    assert forall key :: key in [id] <==> key == id;
  }

  lemma LogoutSplit(s: State, sid: string)
    requires Inv(s)
    ensures Plain(sid) in s.db ==>
              SplitKeys(s.version, s.db, [Plain(sid)]) == Split({}, {Plain(sid)})
  {
    if Plain(sid) in s.db {
      assert EntryOk(s, Plain(sid), s.db[Plain(sid)]);
      var body := s.db[Plain(sid)].content.body;
      assert Plain(sid) in [Plain(sid)];
      assert Bodies(s.db, [Plain(sid)]) == {body};
      assert ToSet([Plain(sid)]) == {Plain(sid)};
      assert Present(s.db, [Plain(sid)]) == {Plain(sid)};
    }
  }

  /** A command that is not a SET of the session leaves its record alone or deletes it. */
  lemma RecordStays(s: State, pid: nat, sid: string)
    requires Enabled(s, Command(pid)) && !CanWrite(s.procs[pid], sid)
    ensures Plain(sid) in Apply(s, Command(pid)).db ==> Plain(sid) in s.db
    ensures s.procs[pid].TermDel? && Plain(sid) in s.procs[pid].keep ==> Plain(sid) !in Apply(s, Command(pid)).db
  {
  }

  /** What the request does next ends the session that it was asked to end. */
  lemma ProceedTerminates(s: State, pid: nat, sid: string)
    requires Enabled(s, Proceed(pid)) && Terminating(s, sid, pid)
    ensures Terminating(Apply(s, Proceed(pid)), sid, pid)
  {
    var p := s.procs[pid];
    if p.purpose.Logout? { assert [Plain(sid)][0] == Plain(sid); }
  }

  lemma CommandTerminates(s: State, caller: nat, sid: string, pid: nat)
    requires Inv(s) && Enabled(s, Command(caller)) && !CanWrite(s.procs[caller], sid)
    requires ReadsUniform(s, Command(caller), sid, pid) && (Plain(sid) in s.db ==> Terminating(s, sid, pid))
    ensures Plain(sid) in Apply(s, Command(caller)).db ==> Terminating(Apply(s, Command(caller)), sid, pid)
  {
    RecordStays(s, caller, sid);
    if caller == pid && s.procs[pid].TermRead? && Plain(sid) in s.db { NamedIsKept(s, s.procs[pid].listed, sid); }
  }

  lemma TerminationStep(s: State, act: Action, sid: string, pid: nat)
    requires Inv(s) && Enabled(s, act) && act != Abort(pid) && !WriteInFlight(s, sid) && ReadsUniform(s, act, sid, pid)
    requires Plain(sid) in s.db ==> Terminating(s, sid, pid)
    ensures Plain(sid) in Apply(s, act).db ==> Terminating(Apply(s, act), sid, pid)
  {
    match act {
      case Command(caller) =>
        assert !CanWrite(s.procs[caller], sid);
        CommandTerminates(s, caller, sid, pid);
      case Proceed(caller) =>
        if caller == pid && Plain(sid) in s.db { ProceedTerminates(s, pid, sid); }
      case _ =>
    }
  }

  lemma {:induction false} TerminationEnds(s: State, acts: seq<Action>, sid: string, pid: nat)
    requires Inv(s) && Valid(s, acts) && sid in s.minted && UniformReads(s, acts, sid, pid)
    requires Plain(sid) in s.db ==> Terminating(s, sid, pid)
    requires Undisturbed(s, acts, sid, pid) && pid !in Run(s, acts).procs
    ensures Gone(Run(s, acts), sid)
    decreases |acts|
  {
    if acts != [] {
      TerminationStep(s, acts[0], sid, pid);
      StepInv(s, acts[0]);
      TerminationEnds(Apply(s, acts[0]), acts[1..], sid, pid);
    }
  }

  /** A request, from its session check on and whatever interleaves, that asks for the end of a session: if no
      refresh of that session is in flight while it runs, then once it has finished the session never
      validates again, in any continuation. As written, its list must be uniform when it is read. */
  lemma TerminationIsFinal(
    s: State, pid: nat, key: Text, presented: string, purpose: Purpose, sid: string,
    acts: seq<Action>, more: seq<Action>, machine: string)
    requires Reachable(s) && Enabled(s, Check(pid, key, presented, purpose)) && sid in s.minted
    requires AsksToEnd(CheckSession(s.db, key, presented).value, purpose, sid)
    requires var t := Apply(s, Check(pid, key, presented, purpose));
      Valid(t, acts) && Undisturbed(t, acts, sid, pid) && UniformReads(t, acts, sid, pid) &&
      pid !in Run(t, acts).procs && Valid(Run(t, acts), more)
    ensures var t := Apply(s, Check(pid, key, presented, purpose));
      CheckSession(Run(Run(t, acts), more).db, Plain(sid), machine) == Err(Unauthenticated)
  {
    var t := Apply(s, Check(pid, key, presented, purpose));
    ReachableInv(s);
    StepInv(s, Check(pid, key, presented, purpose));
    TerminationEnds(t, acts, sid, pid);
    RunInv(t, acts);
    GoneForever(Run(t, acts), more, sid, machine);
  }

  /** The same for a Logout, which reads one id only. */
  ghost predicate LoggingOut(s: State, sid: string, pid: nat) {
    Terminating(s, sid, pid) &&
    (s.procs[pid].Checked? ==> s.procs[pid].purpose.Logout?) &&
    (s.procs[pid].TermRead? ==> s.procs[pid].listed == [Plain(sid)])
  }

  lemma LogoutStep(s: State, act: Action, sid: string, pid: nat)
    requires Inv(s) && Enabled(s, act) && act != Abort(pid) && !WriteInFlight(s, sid)
    requires Plain(sid) in s.db ==> LoggingOut(s, sid, pid)
    ensures Plain(sid) in Apply(s, act).db ==> LoggingOut(Apply(s, act), sid, pid)
  {
    OneIdIsUniform(s.db, Plain(sid));
    TerminationStep(s, act, sid, pid);
    match act {
      case Command(caller) =>
        assert !CanWrite(s.procs[caller], sid);
        RecordStays(s, caller, sid);
      case _ =>
    }
  }

  lemma {:induction false} LogoutEnds(s: State, acts: seq<Action>, sid: string, pid: nat)
    requires Inv(s) && Valid(s, acts) && sid in s.minted
    requires Plain(sid) in s.db ==> LoggingOut(s, sid, pid)
    requires Undisturbed(s, acts, sid, pid) && pid !in Run(s, acts).procs
    ensures Gone(Run(s, acts), sid)
    decreases |acts|
  {
    if acts != [] {
      LogoutStep(s, acts[0], sid, pid);
      StepInv(s, acts[0]);
      LogoutEnds(Apply(s, acts[0]), acts[1..], sid, pid);
    }
  }

  /** Logout, from its session check on and whatever interleaves: if no refresh of the session is in flight
      while it runs, then once it has finished the session never validates again, in any continuation. */
  lemma LogoutIsFinal(
    s: State, pid: nat, sid: string, presented: string, acts: seq<Action>, more: seq<Action>, machine: string)
    requires Reachable(s) && Enabled(s, Check(pid, Plain(sid), presented, Logout))
    requires var t := Apply(s, Check(pid, Plain(sid), presented, Logout));
      Valid(t, acts) && Undisturbed(t, acts, sid, pid) && pid !in Run(t, acts).procs && Valid(Run(t, acts), more)
    ensures var t := Apply(s, Check(pid, Plain(sid), presented, Logout));
      CheckSession(Run(Run(t, acts), more).db, Plain(sid), machine) == Err(Unauthenticated)
  {
    var t := Apply(s, Check(pid, Plain(sid), presented, Logout));
    ReachableInv(s);
    assert EntryOk(s, Plain(sid), s.db[Plain(sid)]);
    StepInv(s, Check(pid, Plain(sid), presented, Logout));
    LogoutEnds(t, acts, sid, pid);
    RunInv(t, acts);
    GoneForever(Run(t, acts), more, sid, machine);
  }

  // ---------------------------------------------------------------- clean-up of an account

  predicate CanWriteFor(p: Process, account: string) {
    (p.Write? && p.stage.DoSet? && p.session.accountID == account) ||
    (p.Checked? && p.launches > 0 && p.session.accountID == account)
  }

  predicate WriteInFlightFor(s: State, account: string) {
    exists pid :: pid in s.procs && CanWriteFor(s.procs[pid], account)
  }

  predicate NoSignIn(acts: seq<Action>, account: string) {
    forall i :: 0 <= i < |acts| && acts[i].Mint? ==> acts[i].session.accountID != account
  }

  ghost predicate LiveFor(s: State, sid: string, account: string) {
    Plain(sid) in s.db && sid in s.minted && s.minted[sid].account == account
  }

  /** Every live session of the account is a member of its index. */
  ghost predicate Indexed(s: State, account: string) {
    forall sid :: LiveFor(s, sid, account) ==> Member(s.db, account, sid)
  }

  ghost predicate AccountGone(s: State, account: string) {
    (forall sid :: !LiveFor(s, sid, account)) && !WriteInFlightFor(s, account)
  }

  /** Whatever is live, or can be written, for the account is among the ids read. */
  ghost predicate Closing(s: State, account: string, ids: set<Text>) {
    (forall sid :: LiveFor(s, sid, account) ==> Plain(sid) in ids) &&
    (forall pid :: pid in s.procs && CanWriteFor(s.procs[pid], account) ==>
       Plain(s.procs[pid].session.sessionID) in ids)
  }

  /** A session that becomes live for an account was a write in flight for it. */
  lemma BecomesLive(s: State, act: Action, sid: string, account: string)
    requires Inv(s) && Enabled(s, act) && LiveFor(Apply(s, act), sid, account) && !LiveFor(s, sid, account)
    ensures act.Command? && CanWriteFor(s.procs[act.pid], account) && s.procs[act.pid].session.sessionID == sid
  {
    assert Plain(sid) in s.db ==> EntryOk(s, Plain(sid), s.db[Plain(sid)]);
    assert act.Command?;
    assert ProcessOk(s, s.procs[act.pid]);
  }

  /** A process that can write for an account could do so before, or comes from a live session or
      from a process that could. */
  lemma BecomesWriter(s: State, act: Action, pid: nat, account: string)
    requires Inv(s) && Enabled(s, act) && (act.Mint? ==> act.session.accountID != account)
    requires pid in Apply(s, act).procs && CanWriteFor(Apply(s, act).procs[pid], account)
    ensures var sid := Apply(s, act).procs[pid].session.sessionID;
      LiveFor(s, sid, account) ||
      exists q :: q in s.procs && CanWriteFor(s.procs[q], account) && s.procs[q].session.sessionID == sid
  {
    if act.Check? && pid == act.pid {
      assert EntryOk(s, act.key, s.db[act.key]);
    } else if act.Launch? && pid == act.child {
      assert CanWriteFor(s.procs[act.pid], account);
    } else {
      assert pid in s.procs && CanWriteFor(s.procs[pid], account);
    }
  }

  lemma StepClosing(s: State, act: Action, account: string, ids: set<Text>)
    requires Inv(s) && Enabled(s, act) && Closing(s, account, ids)
    requires act.Mint? ==> act.session.accountID != account
    ensures Closing(Apply(s, act), account, ids)
  {
    forall sid | LiveFor(Apply(s, act), sid, account) ensures Plain(sid) in ids {
      if !LiveFor(s, sid, account) { BecomesLive(s, act, sid, account); }
    }
    forall pid | pid in Apply(s, act).procs && CanWriteFor(Apply(s, act).procs[pid], account)
      ensures Plain(Apply(s, act).procs[pid].session.sessionID) in ids
    {
      BecomesWriter(s, act, pid, account);
    }
  }

  lemma {:induction false} RunClosing(s: State, acts: seq<Action>, account: string, ids: set<Text>)
    requires Inv(s) && Valid(s, acts) && Closing(s, account, ids) && NoSignIn(acts, account)
    ensures Closing(Run(s, acts), account, ids) && Inv(Run(s, acts))
    decreases |acts|
  {
    if acts != [] {
      StepClosing(s, acts[0], account, ids);
      StepInv(s, acts[0]);
      assert forall i :: 0 <= i < |acts[1..]| ==> acts[1..][i] == acts[i + 1];
      RunClosing(Apply(s, acts[0]), acts[1..], account, ids);
    }
  }

  /** Without SignIns for the account, an account without live sessions and writes stays that way. */
  lemma AccountGoneForever(s: State, acts: seq<Action>, account: string)
    requires Inv(s) && Valid(s, acts) && AccountGone(s, account) && NoSignIn(acts, account)
    ensures AccountGone(Run(s, acts), account)
    ensures forall key, machine :: CheckSession(Run(s, acts).db, key, machine).Ok? ==>
              CheckSession(Run(s, acts).db, key, machine).value.accountID != account
  {
    assert Closing(s, account, {}) by {
      forall pid | pid in s.procs ensures !CanWriteFor(s.procs[pid], account) {}
    }
    RunClosing(s, acts, account, {});
    var t := Run(s, acts);
    forall key, machine | CheckSession(t.db, key, machine).Ok?
      ensures CheckSession(t.db, key, machine).value.accountID != account
    {
      assert EntryOk(t, key, t.db[key]);
      var sid := CheckSession(t.db, key, machine).value.sessionID;
      assert !LiveFor(t, sid, account);
    }
  }

  /** No continuation without a SignIn for the account has one of its sessions validate. */
  ghost predicate NeverValidatesFor(s: State, account: string) {
    forall acts, key, machine :: Valid(s, acts) && NoSignIn(acts, account) ==>
      var checked := CheckSession(Run(s, acts).db, key, machine);
      checked.Ok? ==> checked.value.accountID != account
  }

  /** An account is without sessions for good if and only if none is live and no write is in flight for it. */
  lemma AccountGoneIff(s: State, account: string)
    requires Reachable(s)
    ensures NeverValidatesFor(s, account) <==> AccountGone(s, account)
  {
    ReachableInv(s);
    if sid :| LiveFor(s, sid, account) {
      assert EntryOk(s, Plain(sid), s.db[Plain(sid)]);
      var session := s.db[Plain(sid)].content.body.session;
      assert Valid(s, []) && NoSignIn([], account) &&
        CheckSession(Run(s, []).db, Plain(sid), session.machineID) == Ok(session);
    } else if WriteInFlightFor(s, account) {
      var pid :| pid in s.procs && CanWriteFor(s.procs[pid], account);
      var acts := FlightRevives(s, pid);
      var session := s.procs[pid].session;
      assert CheckSession(Run(s, acts).db, Plain(session.sessionID), session.machineID).value.accountID == account;
    } else {
      forall acts | Valid(s, acts) && NoSignIn(acts, account)
        ensures forall key, machine :: CheckSession(Run(s, acts).db, key, machine).Ok? ==>
                  CheckSession(Run(s, acts).db, key, machine).value.accountID != account
      {
        AccountGoneForever(s, acts, account);
      }
    }
  }

  /** SMEMBERS of a clean-up: it ends at once only if nothing is live. */
  lemma CleanupReads(s: State, pid: nat, account: string)
    requires Inv(s) && pid in s.procs && s.procs[pid] == AllRead(account)
    requires Indexed(s, account) && !WriteInFlightFor(s, account)
    ensures var t := Apply(s, Command(pid));
      if pid !in t.procs then AccountGone(t, account)
      else t.procs[pid].AllDel? && t.procs[pid].account == account &&
           Closing(t, account, t.procs[pid].ids)
  {
    var t := Apply(s, Command(pid));
    forall q | q in t.procs ensures !CanWriteFor(t.procs[q], account) {
      if q != pid { assert !CanWriteFor(s.procs[q], account); }
    }
    forall sid | LiveFor(t, sid, account) ensures Plain(sid) in SMembers(s.db, AccountKey(account)) {
      assert LiveFor(s, sid, account);
      assert Member(s.db, account, sid);
    }
  }

  /** DEL of the ids read, at a moment without a write in flight for the account. */
  lemma CleanupDeletes(s: State, pid: nat, account: string)
    requires Inv(s) && pid in s.procs && s.procs[pid].AllDel? && s.procs[pid].account == account
    requires Closing(s, account, s.procs[pid].ids) && !WriteInFlightFor(s, account)
    ensures AccountGone(Apply(s, Command(pid)), account)
  {
    var t := Apply(s, Command(pid));
    forall q | q in t.procs ensures !CanWriteFor(t.procs[q], account) {
      if q != pid { assert !CanWriteFor(s.procs[q], account); }
    }
    forall sid ensures !LiveFor(t, sid, account) {
      if LiveFor(t, sid, account) { assert LiveFor(s, sid, account); }
    }
  }

  /** A clean-up that read a complete index and deletes while nothing is in flight for the account
      leaves no session of it, whatever runs between its commands and afterwards. */
  lemma CleanupIsFinal(s: State, pid: nat, account: string, between: seq<Action>, after: seq<Action>)
    requires Inv(s) && pid in s.procs && s.procs[pid] == AllRead(account)
    requires Indexed(s, account) && !WriteInFlightFor(s, account)
    requires pid in Apply(s, Command(pid)).procs
    requires Valid(Apply(s, Command(pid)), between) && NoSignIn(between, account)
    requires var t := Run(Apply(s, Command(pid)), between);
      && pid in t.procs && t.procs[pid] == Apply(s, Command(pid)).procs[pid]
      && !WriteInFlightFor(t, account)
      && Valid(Apply(t, Command(pid)), after)
    requires NoSignIn(after, account)
    ensures AccountGone(Run(Apply(Run(Apply(s, Command(pid)), between), Command(pid)), after), account)
  {
    var s1 := Apply(s, Command(pid));
    StepInv(s, Command(pid));
    CleanupReads(s, pid, account);
    RunClosing(s1, between, account, s1.procs[pid].ids);
    var t := Run(s1, between);
    CleanupDeletes(t, pid, account);
    StepInv(t, Command(pid));
    AccountGoneForever(Apply(t, Command(pid)), after, account);
  }

  // ---------------------------------------------------------------- listing

  /** Whatever happened between SMEMBERS and MGET, a listing names only live sessions of the
      account it was asked for, with their stored info. */
  lemma ListingSound(s: State, pid: nat, sid: string)
    requires Reachable(s) && pid in s.procs && s.procs[pid].ListGet?
    requires WellFormed(s.db) && sid in ListOf(s.db, s.procs[pid].ids)
    ensures LiveFor(s, sid, s.procs[pid].account)
    ensures SessionAt(s.db, sid).accountID == s.procs[pid].account
    ensures var info, session := ListOf(s.db, s.procs[pid].ids)[sid], SessionAt(s.db, sid);
      info.clientIP == session.clientIP == s.minted[sid].ip &&
      info.machineID == session.machineID == s.minted[sid].machine && info.lastActivity == session.lastActivity
  {
    ReachableInv(s);
    assert ProcessOk(s, s.procs[pid]);
    assert EntryOk(s, Plain(sid), s.db[Plain(sid)]);
  }
}
