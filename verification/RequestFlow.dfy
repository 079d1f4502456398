/** From the session check of a request to its end: which refreshes it starts, what it goes on to do,
    for which account, and what its answer can contain. */
module RequestFlow {
  import opened Models
  import opened Redis
  import opened SessionStore
  import opened SessionSystem
  import opened SessionSafety

  // ---------------------------------------------------------------- refreshes

  /** How often the run launches a refresh for the request. */
  function LaunchCount(acts: seq<Action>, pid: nat): nat {
    if acts == [] then 0
    else (if acts[0].Launch? && acts[0].pid == pid then 1 else 0) + LaunchCount(acts[1..], pid)
  }

  /** The request is neither given up nor does it go on. */
  predicate Waiting(acts: seq<Action>, pid: nat) {
    forall i :: 0 <= i < |acts| ==> acts[i] != Abort(pid) && acts[i] != Proceed(pid)
  }

  lemma WaitingStep(s: State, act: Action, pid: nat)
    requires Enabled(s, act) && pid in s.procs && s.procs[pid].Checked? && act != Abort(pid) && act != Proceed(pid)
    ensures var t := Apply(s, act); var launched := if act.Launch? && act.pid == pid then 1 else 0;
      pid in t.procs && launched <= s.procs[pid].launches &&
      t.procs[pid] == s.procs[pid].(launches := s.procs[pid].launches - launched)
  {
  }

  lemma {:induction false} WaitingRun(s: State, acts: seq<Action>, pid: nat)
    requires Valid(s, acts) && Waiting(acts, pid) && pid in s.procs && s.procs[pid].Checked?
    ensures var t, launched := Run(s, acts), LaunchCount(acts, pid);
      pid in t.procs && launched <= s.procs[pid].launches &&
      t.procs[pid] == s.procs[pid].(launches := s.procs[pid].launches - launched)
    decreases |acts|
  {
    if acts != [] {
      WaitingStep(s, acts[0], pid);
      assert forall i :: 0 <= i < |acts[1..]| ==> acts[1..][i] == acts[i + 1];
      WaitingRun(Apply(s, acts[0]), acts[1..], pid);
    }
  }

  /** A request goes on once it has launched its refreshes and not before: one for GetAccountID and
      GetAllSessions, none for Logout and DeleteAccount, and two for TerminateSessions unless its list
      names the session it presents. */
  lemma RefreshesOfRequest(s: State, pid: nat, key: Text, machine: string, purpose: Purpose, acts: seq<Action>)
    requires Enabled(s, Check(pid, key, machine, purpose))
    requires Valid(Apply(s, Check(pid, key, machine, purpose)), acts) && Waiting(acts, pid)
    ensures var t := Run(Apply(s, Check(pid, key, machine, purpose)), acts);
      Enabled(t, Proceed(pid)) <==>
        LaunchCount(acts, pid) ==
          match purpose
          case Identify => 1
          case ListAll => 1
          case TerminateList(ids) => if key in ids then 1 else 2
          case Logout => 0
          case DeleteAccount => 0
  {
    WaitingRun(Apply(s, Check(pid, key, machine, purpose)), acts, pid);
  }

  /** A launch leaves one process behind, which will write the checked record with the time of the launch. */
  lemma LaunchedRefresh(s: State, pid: nat, child: nat)
    requires Enabled(s, Launch(pid, child))
    ensures var t := Apply(s, Launch(pid, child)); var session := s.procs[pid].session;
      child in t.procs && t.procs[child].Write? && t.procs[child].stage.DoSet? &&
      IdentityOf(t.procs[child].session) == IdentityOf(session) &&
      t.procs[child].session.sessionID == session.sessionID && t.procs[child].session.lastActivity == s.now &&
      t.procs - {pid, child} == s.procs - {pid, child} && t.db == s.db
  {
  }

  // ---------------------------------------------------------------- what the request goes on to do

  /** The sessions that the request is asked to end. */
  function ToEnd(session: Session, purpose: Purpose): seq<Text> {
    match purpose
    case Logout => [Plain(session.sessionID)]
    case TerminateList(ids) => ids
    case _ => []
  }

  /** The process is the request, at some point between its check and its end. */
  predicate Serves(p: Process, session: Session, purpose: Purpose) {
    match p
    case Checked(checked, asked, _) => checked == session && asked == purpose
    case ListRead(account) => purpose.ListAll? && account == session.accountID
    case ListGet(_, account) => purpose.ListAll? && account == session.accountID
    case TermRead(ids, account) => ids == ToEnd(session, purpose) && ids != [] && account == session.accountID
    case TermDrop(_, _, account) => ToEnd(session, purpose) != [] && account == session.accountID
    case TermDel(_, account) => ToEnd(session, purpose) != [] && account == session.accountID
    case TermUnlist(_, account) => ToEnd(session, purpose) != [] && account == session.accountID
    case _ => false
  }

  lemma ServesStep(s: State, act: Action, pid: nat, session: Session, purpose: Purpose)
    requires Enabled(s, act) && pid in s.procs && Serves(s.procs[pid], session, purpose)
    ensures pid in Apply(s, act).procs ==> Serves(Apply(s, act).procs[pid], session, purpose)
    ensures act == Proceed(pid) ==>
              (pid in Apply(s, act).procs <==> purpose.ListAll? || ToEnd(session, purpose) != [])
  {
  }

  /** The request is there in every state of the run. */
  predicate Present(s: State, acts: seq<Action>, pid: nat)
    requires Valid(s, acts)
    decreases |acts|
  {
    pid in s.procs && (acts == [] || Present(Apply(s, acts[0]), acts[1..], pid))
  }

  lemma {:induction false} ServesRun(s: State, acts: seq<Action>, pid: nat, session: Session, purpose: Purpose)
    requires Valid(s, acts) && Present(s, acts, pid) && Serves(s.procs[pid], session, purpose)
    ensures pid in Run(s, acts).procs && Serves(Run(s, acts).procs[pid], session, purpose)
    decreases |acts|
  {
    if acts != [] {
      ServesStep(s, acts[0], pid, session, purpose);
      ServesRun(Apply(s, acts[0]), acts[1..], pid, session, purpose);
    }
  }

  /** From its check to its end, whatever interleaves, a request does what it was asked and for the account of
      the session it presented: it lists that account, or ends the sessions it names in the index of that
      account; and it does not end before it has gone on, unless there is nothing to go on to. */
  lemma RequestServes(s: State, pid: nat, key: Text, machine: string, purpose: Purpose, acts: seq<Action>)
    requires Enabled(s, Check(pid, key, machine, purpose))
    requires var t := Apply(s, Check(pid, key, machine, purpose)); Valid(t, acts) && Present(t, acts, pid)
    ensures var session := CheckSession(s.db, key, machine).value;
      var u := Run(Apply(s, Check(pid, key, machine, purpose)), acts);
      pid in u.procs && Serves(u.procs[pid], session, purpose) &&
      (Enabled(u, Proceed(pid)) ==>
         (pid in Apply(u, Proceed(pid)).procs <==> purpose.ListAll? || ToEnd(session, purpose) != []))
  {
    var session := CheckSession(s.db, key, machine).value;
    var t := Apply(s, Check(pid, key, machine, purpose));
    ServesRun(t, acts, pid, session, purpose);
    if Enabled(Run(t, acts), Proceed(pid)) { ServesStep(Run(t, acts), Proceed(pid), pid, session, purpose); }
  }

  lemma {:induction false} ReachableRun(s: State, acts: seq<Action>)
    requires Reachable(s) && Valid(s, acts)
    ensures Reachable(Run(s, acts))
    decreases |acts|
  {
    if acts != [] {
      ReachableStep(s, acts[0]);
      ReachableRun(Apply(s, acts[0]), acts[1..]);
    }
  }

  /** What GetAllSessions answers names only live sessions of the account whose session was presented, with the
      address and the machine of the SignIn that minted each of them, under every interleaving. */
  lemma CallerListing(s: State, pid: nat, key: Text, machine: string, acts: seq<Action>, sid: string)
    requires Reachable(s) && Enabled(s, Check(pid, key, machine, ListAll))
    requires var t := Apply(s, Check(pid, key, machine, ListAll));
      Valid(t, acts) && Present(t, acts, pid) &&
      pid in Run(t, acts).procs && Run(t, acts).procs[pid].ListGet? && WellFormed(Run(t, acts).db) &&
      sid in ListOf(Run(t, acts).db, Run(t, acts).procs[pid].ids)
    ensures var u := Run(Apply(s, Check(pid, key, machine, ListAll)), acts);
      var info := ListOf(u.db, u.procs[pid].ids)[sid];
      LiveFor(u, sid, CheckSession(s.db, key, machine).value.accountID) &&
      info.clientIP == u.minted[sid].ip && info.machineID == u.minted[sid].machine &&
      info.lastActivity == SessionAt(u.db, sid).lastActivity
  {
    var t := Apply(s, Check(pid, key, machine, ListAll));
    RequestServes(s, pid, key, machine, ListAll, acts);
    ReachableStep(s, Check(pid, key, machine, ListAll));
    ReachableRun(t, acts);
    ListingSound(Run(t, acts), pid, sid);
  }

  // ---------------------------------------------------------------- expiry

  /** No key outlives its time. */
  ghost predicate Timely(s: State) {
    forall key :: key in s.db && s.db[key].life.Until? ==> s.now < s.db[key].life.t
  }

  lemma TimelyStep(s: State, act: Action)
    requires Timely(s) && s.ttl > 0 && Enabled(s, act)
    ensures Timely(Apply(s, act))
  {
  }

  lemma {:induction false} TimelyRun(s: State, acts: seq<Action>)
    requires Timely(s) && s.ttl > 0 && Valid(s, acts)
    ensures Timely(Run(s, acts))
    decreases |acts|
  {
    if acts != [] {
      StepLater(s, acts[0]);
      TimelyStep(s, acts[0]);
      TimelyRun(Apply(s, acts[0]), acts[1..]);
    }
  }

  /** A session is live only before its expiry, and time takes it away exactly when that is reached. */
  lemma ExpiryIff(s: State, acts: seq<Action>, sid: string, d: nat)
    requires Init(s) && s.ttl > 0 && Valid(s, acts) && Plain(sid) in Run(s, acts).db
    ensures var t := Run(s, acts);
      t.db[Plain(sid)].life.Until? && t.now < t.db[Plain(sid)].life.t &&
      (Plain(sid) in Apply(t, Tick(d)).db <==> t.now + d < t.db[Plain(sid)].life.t)
  {
    TimelyRun(s, acts);
    ExpiryBounds(s, acts, sid);
  }
}
