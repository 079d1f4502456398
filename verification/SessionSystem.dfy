/** The session half of the service as a step system: requests and detached goroutines are
    processes, every Redis command is one step, and the commands of different processes
    interleave freely (`Pipeline()` is not a transaction). A fault is a process that
    stops before its next command. */
module SessionSystem {
  import opened Models
  import opened Redis
  import opened SessionStore

  /** What one SignIn fixed for the session id it minted. */
  datatype Identity = Identity(account: string, machine: string, ip: string)

  function IdentityOf(session: Session): Identity {
    Identity(session.accountID, session.machineID, session.clientIP)
  }

  /** Why a request checked its session. */
  datatype Purpose = Identify | ListAll | TerminateList(ids: seq<Text>) | Logout | DeleteAccount

  /** The commands of the SetSession pipeline. */
  datatype Stage = DoSet | DoAdd | DoExpire

  datatype Process =
    /** A SetSession: a SignIn, or a detached refresh working from a snapshot. */
    | Write(session: Session, stage: Stage)
    /** A request that passed checkSession and still has `launches` refreshes to start. */
    | Checked(session: Session, purpose: Purpose, launches: nat)
    /** TerminateSessions: MGET, SREM of the dropped ids, DEL and SREM of the kept ones. */
    | TermRead(listed: seq<Text>, account: string)
    | TermDrop(drop: set<Text>, keep: set<Text>, account: string)
    | TermDel(keep: set<Text>, account: string)
    | TermUnlist(keep: set<Text>, account: string)
    /** TerminateAllSessions: SMEMBERS, DEL of the ids, DEL of the list. */
    | AllRead(account: string)
    | AllDel(ids: set<Text>, account: string)
    | AllUnlist(account: string)
    /** GetSessionsForAccount: SMEMBERS, MGET. */
    | ListRead(account: string)
    | ListGet(ids: set<Text>, account: string)

  /** `lastSet` records when each id was last written; the service does not keep it. */
  datatype State = State(
    ttl: nat, version: Version, now: nat, db: Keyspace,
    minted: map<string, Identity>, lastSet: map<string, nat>, procs: map<nat, Process>)

  predicate Init(s: State) {
    s.db == map[] && s.minted == map[] && s.lastSet == map[] && s.procs == map[]
  }

  datatype Action =
    | Tick(d: nat)
    | Mint(pid: nat, session: Session)
    | Check(pid: nat, key: Text, machine: string, purpose: Purpose)
    | Launch(pid: nat, child: nat)
    | Proceed(pid: nat)
    | Command(pid: nat)
    | Cleanup(pid: nat, account: string)
    | Abort(pid: nat)

  // ---------------------------------------------------------------- steps

  /** How many refreshes the request starts: TerminateSessions starts a second one
      unless the list names the caller's own session. */
  function Launches(key: Text, purpose: Purpose): nat {
    match purpose
    case Identify => 1
    case ListAll => 1
    case TerminateList(ids) => if key in ids then 1 else 2
    case Logout => 0
    case DeleteAccount => 0
  }

  /** What a checked request does next. DeleteAccount goes on in the accounts database. */
  function Continuation(session: Session, purpose: Purpose): Option<Process> {
    match purpose
    case Identify => None
    case ListAll => Some(ListRead(session.accountID))
    case TerminateList(ids) => if ids == [] then None else Some(TermRead(ids, session.accountID))
    case Logout => Some(TermRead([Plain(session.sessionID)], session.accountID))
    case DeleteAccount => None
  }

  /** One Redis command of a process, and what is left of the process. */
  function Exec(version: Version, ttl: nat, now: nat, db: Keyspace, p: Process): (Keyspace, Option<Process>)
    requires !p.Checked?
  {
    match p
    case Write(session, DoSet) =>
      (Set(db, now, ttl, Plain(session.sessionID), Json(session)), Some(Write(session, DoAdd)))
    case Write(session, DoAdd) =>
      (SAdd(db, AccountKey(session.accountID), Plain(session.sessionID)), Some(Write(session, DoExpire)))
    case Write(session, DoExpire) =>
      (Expire(db, now, ttl, AccountKey(session.accountID)), None)
    case TermRead(ids, account) =>
      var split := SplitKeys(version, db, ids);
      (db, if split.drop != {} then Some(TermDrop(split.drop, split.keep, account))
           else if split.keep != {} then Some(TermDel(split.keep, account)) else None)
    case TermDrop(drop, keep, account) =>
      (SRem(db, AccountKey(account), drop), if keep != {} then Some(TermDel(keep, account)) else None)
    case TermDel(keep, account) => (Del(db, keep), Some(TermUnlist(keep, account)))
    case TermUnlist(keep, account) => (SRem(db, AccountKey(account), keep), None)
    case AllRead(account) =>
      var ids := SMembers(db, AccountKey(account));
      (db, if ids == {} then None else Some(AllDel(ids, account)))
    case AllDel(ids, account) => (Del(db, ids), Some(AllUnlist(account)))
    case AllUnlist(account) => (Del(db, {AccountKey(account)}), None)
    case ListRead(account) =>
      var ids := SMembers(db, AccountKey(account));
      (db, if ids == {} then None else Some(ListGet(ids, account)))
    case ListGet(ids, account) => (db, None)
  }

  /** A process run alone for `n` commands. */
  function Alone(version: Version, ttl: nat, now: nat, db: Keyspace, p: Process, n: nat): Keyspace
    requires !p.Checked?
    decreases n
  {
    if n == 0 then db
    else
      var (db', next) := Exec(version, ttl, now, db, p);
      if next.None? || next.value.Checked? then db'
      else Alone(version, ttl, now, db', next.value, n - 1)
  }

  predicate Enabled(s: State, act: Action) {
    match act
    case Tick(_) => true
    case Mint(pid, session) =>
      pid !in s.procs && session.sessionID != "" && session.sessionID !in s.minted &&
      session.lastActivity == s.now
    case Check(pid, key, machine, purpose) =>
      pid !in s.procs && CheckSession(s.db, key, machine).Ok?
    case Launch(pid, child) =>
      pid in s.procs && s.procs[pid].Checked? && s.procs[pid].launches > 0 && child !in s.procs
    case Proceed(pid) => pid in s.procs && s.procs[pid].Checked? && s.procs[pid].launches == 0
    case Command(pid) => pid in s.procs && !s.procs[pid].Checked?
    case Cleanup(pid, _) => pid !in s.procs
    case Abort(pid) => pid in s.procs
  }

  function Continue(s: State, pid: nat, next: Option<Process>): State {
    s.(procs := if next.None? then s.procs - {pid} else s.procs[pid := next.value])
  }

  function Apply(s: State, act: Action): State
    requires Enabled(s, act)
  {
    match act
    case Tick(d) => s.(now := s.now + d, db := Purge(s.db, s.now + d))
    case Mint(pid, session) =>
      s.(minted := s.minted[session.sessionID := IdentityOf(session)],
         procs := s.procs[pid := Write(session, DoSet)])
    case Check(pid, key, machine, purpose) =>
      var session := CheckSession(s.db, key, machine).value;
      s.(procs := s.procs[pid := Checked(session, purpose, Launches(key, purpose))])
    case Launch(pid, child) =>
      var p := s.procs[pid];
      s.(procs := s.procs[pid := p.(launches := p.launches - 1)]
                         [child := Write(p.session.(lastActivity := s.now), DoSet)])
    case Proceed(pid) =>
      Continue(s, pid, Continuation(s.procs[pid].session, s.procs[pid].purpose))
    case Command(pid) =>
      var p := s.procs[pid];
      var (db', next) := Exec(s.version, s.ttl, s.now, s.db, p);
      Continue(s.(db := db',
                  lastSet := if p.Write? && p.stage.DoSet? then s.lastSet[p.session.sessionID := s.now]
                             else s.lastSet),
               pid, next)
    case Cleanup(pid, account) => s.(procs := s.procs[pid := AllRead(account)])
    case Abort(pid) => s.(procs := s.procs - {pid})
  }

  predicate Valid(s: State, acts: seq<Action>)
    decreases |acts|
  {
    acts == [] || (Enabled(s, acts[0]) && Valid(Apply(s, acts[0]), acts[1..]))
  }

  function Run(s: State, acts: seq<Action>): State
    requires Valid(s, acts)
    decreases |acts|
  {
    if acts == [] then s else Run(Apply(s, acts[0]), acts[1..])
  }

  /** Appending one enabled action to a run. */
  lemma {:induction false} Extend(s: State, acts: seq<Action>, act: Action)
    requires Valid(s, acts) && Enabled(Run(s, acts), act)
    ensures Valid(s, acts + [act]) && Run(s, acts + [act]) == Apply(Run(s, acts), act)
    decreases |acts|
  {
    if acts == [] {
      assert acts + [act] == [act];
      assert Run(Apply(s, act), []) == Apply(s, act);
    } else {
      Extend(Apply(s, acts[0]), acts[1..], act);
      assert (acts + [act])[1..] == acts[1..] + [act];
    }
  }

  lemma {:induction false} Concat(s: State, first: seq<Action>, second: seq<Action>)
    requires Valid(s, first) && Valid(Run(s, first), second)
    ensures Valid(s, first + second) && Run(s, first + second) == Run(Run(s, first), second)
    decreases |second|
  {
    if second == [] {
      assert first + second == first;
    } else {
      Extend(s, first, second[0]);
      Concat(s, first + [second[0]], second[1..]);
      assert first + [second[0]] + second[1..] == first + second;
    }
  }

  // ---------------------------------------------------------------- the invariant

  ghost predicate Known(s: State, session: Session) {
    session.sessionID in s.minted && s.minted[session.sessionID] == IdentityOf(session) &&
    session.lastActivity <= s.now
  }

  ghost predicate EntryOk(s: State, key: Text, entry: Entry) {
    EntryShape(key, entry.content) &&
    match key
    case Plain(sid) =>
      var session := entry.content.body.session;
      Known(s, session) && sid in s.lastSet && session.lastActivity <= s.lastSet[sid] <= s.now &&
      entry.life == Until(s.lastSet[sid] + s.ttl)
    case AccountKey(account) =>
      forall id :: id in entry.content.members ==> id.s in s.minted && s.minted[id.s].account == account
    case Json(_) => false
  }

  ghost predicate ProcessOk(s: State, p: Process) {
    match p
    case Write(session, _) => Known(s, session) && session.sessionID != ""
    case Checked(session, _, _) => Known(s, session) && session.sessionID != ""
    case TermDrop(_, keep, _) => NoLists(keep)
    case TermDel(keep, _) => NoLists(keep)
    case AllDel(ids, account) => MintedFor(s, ids, account)
    case ListGet(ids, account) => MintedFor(s, ids, account)
    case _ => true
  }

  /** Terminations delete strings only, never the list of an account. */
  ghost predicate NoLists(keys: set<Text>) {
    forall key :: key in keys ==> !key.AccountKey?
  }

  ghost predicate MintedFor(s: State, ids: set<Text>, account: string) {
    forall id :: id in ids ==> id.Plain? && id.s in s.minted && s.minted[id.s].account == account
  }

  /** Stored records, index members and the snapshots held by every process agree with the
      identity minted for their id; lifetimes follow the last write. */
  ghost predicate Inv(s: State) {
    (forall key :: key in s.db ==> EntryOk(s, key, s.db[key])) &&
    (forall sid :: sid in s.lastSet ==> s.lastSet[sid] <= s.now) &&
    (forall pid :: pid in s.procs ==> ProcessOk(s, s.procs[pid]))
  }

  lemma InvWellFormed(s: State)
    requires Inv(s)
    ensures WellFormed(s.db) && IndexSound(s.db)
  {
    forall key | key in s.db ensures EntryShape(key, s.db[key].content) {
      assert EntryOk(s, key, s.db[key]);
    }
    forall account, sid | Member(s.db, account, sid) && Plain(sid) in s.db
      ensures SessionAt(s.db, sid).accountID == account
    {
      assert EntryOk(s, AccountKey(account), s.db[AccountKey(account)]);
      assert EntryOk(s, Plain(sid), s.db[Plain(sid)]);
    }
  }

  /** The parts of the state that facts about ids and snapshots speak of only grow. */
  ghost predicate Later(s: State, t: State) {
    t.ttl == s.ttl && t.version == s.version && s.now <= t.now &&
    forall sid :: sid in s.minted ==> sid in t.minted && t.minted[sid] == s.minted[sid]
  }

  lemma LaterProcesses(s: State, t: State, pids: set<nat>)
    requires Later(s, t) && Inv(s)
    requires forall pid :: pid in pids ==> pid in s.procs
    ensures forall pid :: pid in pids ==> ProcessOk(t, s.procs[pid])
  {
    forall pid | pid in pids ensures ProcessOk(t, s.procs[pid]) {
      assert ProcessOk(s, s.procs[pid]);
    }
  }

  lemma StepLater(s: State, act: Action)
    requires Enabled(s, act)
    ensures Later(s, Apply(s, act))
  {
  }

  lemma StepKeepsEntries(s: State, act: Action)
    requires Inv(s) && Enabled(s, act) && !act.Command?
    ensures forall key :: key in Apply(s, act).db ==> EntryOk(Apply(s, act), key, Apply(s, act).db[key])
  {
    var t := Apply(s, act);
    forall key | key in t.db ensures EntryOk(t, key, t.db[key]) {
      assert EntryOk(s, key, s.db[key]);
    }
  }

  /** SET changes one key: the session gets the time of this SET and a full TTL. */
  lemma SetKeepsEntry(s: State, pid: nat, key: Text)
    requires Inv(s) && Enabled(s, Command(pid)) && s.procs[pid].Write? && s.procs[pid].stage.DoSet?
    requires key in Apply(s, Command(pid)).db
    ensures EntryOk(Apply(s, Command(pid)), key, Apply(s, Command(pid)).db[key])
  {
    assert ProcessOk(s, s.procs[pid]);
    assert key in s.db ==> EntryOk(s, key, s.db[key]);
  }

  /** SADD and EXPIRE change one list: its members stay minted for its account. */
  lemma ListKeepsEntry(s: State, pid: nat, key: Text)
    requires Inv(s) && Enabled(s, Command(pid)) && s.procs[pid].Write? && !s.procs[pid].stage.DoSet?
    requires key in Apply(s, Command(pid)).db
    ensures EntryOk(Apply(s, Command(pid)), key, Apply(s, Command(pid)).db[key])
  {
    assert ProcessOk(s, s.procs[pid]);
    assert key in s.db ==> EntryOk(s, key, s.db[key]);
  }

  lemma CommandKeepsEntry(s: State, pid: nat, key: Text)
    requires Inv(s) && Enabled(s, Command(pid)) && !s.procs[pid].Write?
    requires key in Apply(s, Command(pid)).db
    ensures EntryOk(Apply(s, Command(pid)), key, Apply(s, Command(pid)).db[key])
  {
    assert ProcessOk(s, s.procs[pid]);
    assert key in s.db;
    assert EntryOk(s, key, s.db[key]);
  }

  lemma CommandKeepsEntries(s: State, pid: nat)
    requires Inv(s) && Enabled(s, Command(pid))
    ensures var t := Apply(s, Command(pid));
      forall key :: key in t.db ==> EntryOk(t, key, t.db[key])
  {
    forall key | key in Apply(s, Command(pid)).db
      ensures EntryOk(Apply(s, Command(pid)), key, Apply(s, Command(pid)).db[key])
    {
      if !s.procs[pid].Write? { CommandKeepsEntry(s, pid, key); }
      else if s.procs[pid].stage.DoSet? { SetKeepsEntry(s, pid, key); }
      else { ListKeepsEntry(s, pid, key); }
    }
  }

  lemma CommandKeepsProcesses(s: State, pid: nat)
    requires Inv(s) && Enabled(s, Command(pid))
    ensures var t := Apply(s, Command(pid));
      forall q :: q in t.procs ==> ProcessOk(t, t.procs[q])
  {
    var t := Apply(s, Command(pid));
    LaterProcesses(s, t, s.procs.Keys - {pid});
    var p := s.procs[pid];
    assert ProcessOk(s, p);
    if (p.AllRead? || p.ListRead?) && AccountKey(p.account) in s.db {
      assert EntryOk(s, AccountKey(p.account), s.db[AccountKey(p.account)]);
    }
    if p.TermRead? { KeptKeysAreStrings(s, p.listed); }
  }

  lemma KeptKeysAreStrings(s: State, keys: seq<Text>)
    requires Inv(s)
    ensures NoLists(SplitKeys(s.version, s.db, keys).keep)
  {
    InvWellFormed(s);
    FilterAsWritten(s.db, keys);
    var split := SplitKeys(s.version, s.db, keys);
    forall key | key in split.keep ensures !key.AccountKey? {
      if key in s.db { assert EntryOk(s, key, s.db[key]); }
    }
  }

  lemma StepKeepsProcesses(s: State, act: Action)
    requires Inv(s) && Enabled(s, act) && !act.Command?
    ensures forall q :: q in Apply(s, act).procs ==> ProcessOk(Apply(s, act), Apply(s, act).procs[q])
  {
    var t := Apply(s, act);
    LaterProcesses(s, t, s.procs.Keys);
    match act {
      case Check(pid, key, machine, purpose) => assert EntryOk(s, key, s.db[key]);
      case _ =>
    }
  }

  lemma StepInv(s: State, act: Action)
    requires Inv(s) && Enabled(s, act)
    ensures Inv(Apply(s, act)) && Later(s, Apply(s, act))
  {
    StepLater(s, act);
    if act.Command? {
      CommandKeepsEntries(s, act.pid);
      CommandKeepsProcesses(s, act.pid);
    } else {
      StepKeepsEntries(s, act);
      StepKeepsProcesses(s, act);
    }
  }

  lemma {:induction false} RunInv(s: State, acts: seq<Action>)
    requires Inv(s) && Valid(s, acts)
    ensures Inv(Run(s, acts)) && Later(s, Run(s, acts))
    decreases |acts|
  {
    if acts != [] {
      StepInv(s, acts[0]);
      RunInv(Apply(s, acts[0]), acts[1..]);
    }
  }

  /** A state that some run of the system reaches. */
  ghost predicate Reachable(s: State) {
    exists start, acts :: Valid(start, acts) && Init(start) && Run(start, acts) == s
  }

  lemma ReachableInv(s: State)
    requires Reachable(s)
    ensures Inv(s)
  {
    var start, acts :| Valid(start, acts) && Init(start) && Run(start, acts) == s;
    RunInv(start, acts);
  }
}
