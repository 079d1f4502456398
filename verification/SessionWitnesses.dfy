/** Runs that show where the guarantees of the session store end: for each kind of step that
    `IndexCoverage.Disciplined` restricts, a run that breaks the restriction and ends with a live session
    outside its index; and a refresh that runs after the delete of its session. */
module SessionWitnesses {
  import opened Models
  import opened Redis
  import opened SessionStore
  import opened SessionSystem
  import opened SessionSafety
  import opened AtomicRuns

  function Start(ttl: nat, version: Version): State {
    State(ttl, version, 0, map[], map[], map[], map[])
  }

  function Example(sid: string): Session {
    Session(sid, "alice", "laptop", "10.0.0.1", 0)
  }

  /** A session is live for the account and its index does not list it. */
  ghost predicate Unlisted(s: State, sid: string, account: string) {
    LiveFor(s, sid, account) && !Member(s.db, account, sid)
  }

  /** One whole SignIn of session `sid` by process `pid`. */
  lemma SignsIn(s: State, acts: seq<Action>, pid: nat, sid: string) returns (longer: seq<Action>)
    requires Valid(s, acts) && Run(s, acts).now == 0
    requires pid !in Run(s, acts).procs && sid != "" && sid !in Run(s, acts).minted
    ensures Valid(s, longer)
    ensures var before, after := Run(s, acts), Run(s, longer);
      after == before.(
        db := SetSession(before.db, 0, before.ttl, Example(sid)),
        minted := before.minted[sid := IdentityOf(Example(sid))],
        lastSet := before.lastSet[sid := 0])
  {
    Extend(s, acts, Mint(pid, Example(sid)));
    var a1 := acts + [Mint(pid, Example(sid))];
    Extend(s, a1, Command(pid));
    Extend(s, a1 + [Command(pid)], Command(pid));
    Extend(s, a1 + [Command(pid)] + [Command(pid)], Command(pid));
    longer := a1 + [Command(pid)] + [Command(pid)] + [Command(pid)];
    assert Run(s, longer).procs == Run(s, acts).procs;
  }

  /** A clean-up of "alice" has read the index and is about to delete session "a". */
  lemma CleanupStarts() returns (s: State, acts: seq<Action>)
    ensures s == Start(10, Intended) && Valid(s, acts)
    ensures Run(s, acts) == SignedIn(10, Intended).(procs := map[1 := AllDel({Plain("a")}, "alice")])
  {
    s, acts := Signed(Intended);
    assert SMembers(SignedIn(10, Intended).db, AccountKey("alice")) == {Plain("a")};
    var more := CleanupReadsNow(Run(s, acts));
    Concat(s, acts, more);
    acts := acts + more;
  }

  /** The rest of a clean-up takes the index away from a session that it did not read. */
  lemma RestOfCleanup(t: State, sid: string) returns (acts: seq<Action>)
    requires t.procs.Keys == {1} && t.procs[1].AllDel? && Plain(sid) !in t.procs[1].ids
    requires LiveFor(t, sid, t.procs[1].account)
    ensures Valid(t, acts) && Run(t, acts).procs == map[]
    ensures Unlisted(Run(t, acts), sid, t.procs[1].account)
  {
    acts := Prepend(Apply(t, Command(1)), Command(1), []);
    acts := Prepend(t, Command(1), acts);
  }

  /** TerminateAllSessions reads the index, a SignIn completes, the termination deletes the index. */
  lemma OverlapUnlists() returns (s: State, acts: seq<Action>)
    ensures Init(s) && Valid(s, acts) && Run(s, acts).procs == map[]
    ensures Unlisted(Run(s, acts), "b", "alice")
  {
    s, acts := CleanupStarts();
    acts := SignsIn(s, acts, 2, "b");
    var more := RestOfCleanup(Run(s, acts), "b");
    Concat(s, acts, more);
    acts := acts + more;
  }

  /** A second SignIn has done its SET, and not its SADD, when a clean-up reads the index. */
  lemma ReadsBeforeAdd() returns (s: State, acts: seq<Action>)
    ensures s == Start(10, Intended) && Valid(s, acts)
    ensures var t := Run(s, acts);
      t.procs == map[2 := Write(Example("b"), DoAdd), 1 := AllDel({Plain("a")}, "alice")] &&
      LiveFor(t, "b", "alice")
  {
    s, acts := Signed(Intended);
    Extend(s, acts, Mint(2, Example("b")));
    acts := acts + [Mint(2, Example("b"))];
    Extend(s, acts, Command(2));
    acts := acts + [Command(2)];
    var t := Run(s, acts);
    assert t.procs == map[2 := Write(Example("b"), DoAdd)];
    assert SMembers(t.db, AccountKey("alice")) == {Plain("a")};
    var more := CleanupReadsNow(t);
    Concat(s, acts, more);
    acts := acts + more;
  }

  lemma CleanupReadsNow(t: State) returns (acts: seq<Action>)
    requires 1 !in t.procs && SMembers(t.db, AccountKey("alice")) != {}
    ensures Valid(t, acts)
    ensures Run(t, acts) == t.(procs := t.procs[1 := AllDel(SMembers(t.db, AccountKey("alice")), "alice")])
  {
    var t1 := Apply(t, Cleanup(1, "alice"));
    acts := Prepend(t1, Command(1), []);
    acts := Prepend(t, Cleanup(1, "alice"), acts);
  }

  /** The rest of a pipeline whose session stays live. */
  lemma RestOfPipeline(t: State, pid: nat, account: string) returns (acts: seq<Action>)
    requires pid in t.procs && t.procs[pid].Write? && t.procs[pid].stage.DoAdd?
    requires LiveFor(t, t.procs[pid].session.sessionID, account)
    ensures Valid(t, acts) && Run(t, acts).procs == t.procs - {pid}
    ensures LiveFor(Run(t, acts), t.procs[pid].session.sessionID, account)
  {
    var t1 := Apply(t, Command(pid));
    acts := Prepend(t1, Command(pid), []);
    acts := Prepend(t, Command(pid), acts);
  }

  /** TerminateAllSessions reads the index between the SET and the SADD of a SignIn, and deletes it after. */
  lemma EarlyReadUnlists() returns (s: State, acts: seq<Action>)
    ensures Init(s) && Valid(s, acts) && Run(s, acts).procs == map[]
    ensures Unlisted(Run(s, acts), "b", "alice")
  {
    s, acts := ReadsBeforeAdd();
    var added := RestOfPipeline(Run(s, acts), 2, "alice");
    Concat(s, acts, added);
    acts := acts + added;
    var more := RestOfCleanup(Run(s, acts), "b");
    Concat(s, acts, more);
    acts := acts + more;
  }

  /** The session that one SignIn leaves, and the request that terminates a list naming it. */
  function SignedIn(ttl: nat, version: Version): State {
    Start(ttl, version).(
      db := SetSession(map[], 0, ttl, Example("a")),
      minted := map["a" := IdentityOf(Example("a"))], lastSet := map["a" := 0])
  }

  lemma Signed(version: Version) returns (s: State, acts: seq<Action>)
    ensures s == Start(10, version) && Valid(s, acts) && Run(s, acts) == SignedIn(10, version)
  {
    s := Start(10, version);
    acts := SignsIn(s, [], 0, "a");
  }

  lemma RequestsTermination(version: Version, ids: seq<Text>) returns (s: State, acts: seq<Action>)
    requires Plain("a") in ids
    ensures s == Start(10, version) && Valid(s, acts)
    ensures Check(1, Plain("a"), "laptop", TerminateList(ids)) in acts
    ensures Run(s, acts) == Requested(version, ids)
  {
    s, acts := Signed(version);
    Extend(s, acts, Check(1, Plain("a"), "laptop", TerminateList(ids)));
    acts := acts + [Check(1, Plain("a"), "laptop", TerminateList(ids))];
    assert Run(s, acts) == SignedIn(10, version).(
        procs := map[1 := Checked(Example("a"), TerminateList(ids), 1)]);
    var more := LaunchThenProceed(Run(s, acts));
    Concat(s, acts, more);
    acts := acts + more;
  }

  /** A checked request launches its refresh and goes on. */
  lemma LaunchThenProceed(t: State) returns (acts: seq<Action>)
    requires t.procs.Keys == {1} && t.procs[1].Checked? && t.procs[1].launches == 1 && t.now == 0
    requires t.procs[1].session.lastActivity == 0 && Continuation(t.procs[1].session, t.procs[1].purpose).Some?
    ensures var p := t.procs[1];
      Valid(t, acts) && Run(t, acts) == t.(procs :=
        map[1 := Continuation(p.session, p.purpose).value, 2 := Write(p.session, DoSet)])
  {
    var t1 := Apply(t, Launch(1, 2));
    acts := Prepend(t1, Proceed(1), []);
    acts := Prepend(t, Launch(1, 2), acts);
  }

  /** The state in which a request is about to terminate `ids` while its own refresh is pending. */
  function Requested(version: Version, ids: seq<Text>): State {
    SignedIn(10, version).(procs := map[1 := TermRead(ids, "alice"), 2 := Write(Example("a"), DoSet)])
  }

  /** The code as written, on a list with one live and one stale id: the live session stays and is unlisted. */
  lemma MixedListUnlists() returns (s: State, acts: seq<Action>)
    ensures Init(s) && s.version == AsWritten && Valid(s, acts)
    ensures 1 !in Run(s, acts).procs
    ensures Check(1, Plain("a"), "laptop", TerminateList([Plain("a"), Plain("gone")])) in acts
    ensures Unlisted(Run(s, acts), "a", "alice")
  {
    var ids := [Plain("a"), Plain("gone")];
    assert ids[0] == Plain("a");
    s, acts := RequestsTermination(AsWritten, ids);
    RunInv(s, acts);
    InvWellFormed(Run(s, acts));
    assert ids[1] == Plain("gone");
    assert Lookup(Run(s, acts).db, ids[0]).Some? && Lookup(Run(s, acts).db, ids[1]).None?;
    MixedListUnlistsLive(Run(s, acts).db, "alice", ids, "a");
    var more := TerminationAlone(Run(s, acts), 1);
    Concat(s, acts, more);
    acts := acts + more;
  }

  /** An index expires just before the EXPIRE that would have kept it. */
  lemma ExpireTooLate(t: State, pid: nat) returns (acts: seq<Action>)
    requires t.procs.Keys == {pid} && t.procs[pid].Write? && t.procs[pid].stage.DoExpire? && t.ttl > 1
    requires var session := t.procs[pid].session; var list := AccountKey(session.accountID);
      list in t.db && t.db[list].life == Until(t.now + 1) &&
      Plain(session.sessionID) in t.db && t.db[Plain(session.sessionID)].life == Until(t.now + t.ttl)
    ensures Valid(t, acts) && Run(t, acts).procs == map[]
    ensures var session := t.procs[pid].session; var db := Run(t, acts).db;
      Plain(session.sessionID) in db && !Member(db, session.accountID, session.sessionID)
  {
    var t1 := Apply(t, Tick(1));
    assert AccountKey(t.procs[pid].session.accountID) !in t1.db;
    acts := Prepend(t1, Command(pid), []);
    acts := Prepend(t, Tick(1), acts);
  }

  /** A refresh does its SET and SADD while the index of its account has one tick left, and its
      EXPIRE after that tick. */
  lemma LateExpire(t: State, pid: nat) returns (acts: seq<Action>)
    requires t.procs.Keys == {pid} && t.procs[pid].Write? && t.procs[pid].stage.DoSet? && t.ttl > 1
    requires var list := AccountKey(t.procs[pid].session.accountID);
      list in t.db && t.db[list].content.Ids? && t.db[list].life == Until(t.now + 1)
    ensures Valid(t, acts) && Run(t, acts).procs == map[]
    ensures var session := t.procs[pid].session; var db := Run(t, acts).db;
      Plain(session.sessionID) in db && !Member(db, session.accountID, session.sessionID)
  {
    var t1 := Apply(t, Command(pid));
    acts := ExpireTooLate(Apply(t1, Command(pid)), pid);
    acts := Prepend(t1, Command(pid), acts);
    acts := Prepend(t, Command(pid), acts);
  }

  /** The refresh that `checkAndUpdateSession` leaves behind, one tick before the index expires. */
  lemma RefreshWaits() returns (s: State, acts: seq<Action>)
    ensures s == Start(10, Intended) && Valid(s, acts)
    ensures var t := Run(s, acts);
      t.now == 9 && t.ttl == 10 && t.procs == map[2 := Write(Example("a"), DoSet)] &&
      t.db == SetSession(map[], 0, 10, Example("a")) && t.minted == map["a" := IdentityOf(Example("a"))]
  {
    s, acts := Signed(Intended);
    Extend(s, acts, Check(1, Plain("a"), "laptop", Identify));
    acts := acts + [Check(1, Plain("a"), "laptop", Identify)];
    assert Run(s, acts) == SignedIn(10, Intended).(procs := map[1 := Checked(Example("a"), Identify, 1)]);
    Extend(s, acts, Launch(1, 2));
    acts := acts + [Launch(1, 2)];
    Extend(s, acts, Proceed(1));
    acts := acts + [Proceed(1)];
    assert Run(s, acts) == SignedIn(10, Intended).(procs := map[2 := Write(Example("a"), DoSet)]);
    Extend(s, acts, Tick(9));
    assert Purge(SignedIn(10, Intended).db, 9) == SignedIn(10, Intended).db;
    acts := acts + [Tick(9)];
  }

  /** The index expires between the SADD and the EXPIRE of a refresh: EXPIRE finds no key. */
  lemma LateExpireUnlists() returns (s: State, acts: seq<Action>)
    ensures Init(s) && Valid(s, acts) && Run(s, acts).procs == map[]
    ensures Unlisted(Run(s, acts), "a", "alice")
  {
    s, acts := RefreshWaits();
    var more := LateExpire(Run(s, acts), 2);
    RunInv(s, acts);
    RunInv(Run(s, acts), more);
    Concat(s, acts, more);
    acts := acts + more;
  }

  /** The read of a termination whose only id is stale. */
  lemma ReadsStale(t: State, sid: string, account: string)
    requires 1 in t.procs && t.procs[1] == TermRead([Plain(sid)], account) && Plain(sid) !in t.db
    ensures var next := Apply(t, Command(1));
      1 in next.procs && next == t.(procs := t.procs[1 := next.procs[1]]) &&
      next.procs[1].TermDrop? && next.procs[1].account == account &&
      Plain(sid) in next.procs[1].drop && next.procs[1].keep == {}
  {
    var ids := [Plain(sid)];
    assert ids[0] == Plain(sid) && Plain(sid) in ToSet(ids);
    assert Bodies(t.db, ids) == {} && Present(t.db, ids) == {};
    var split := SplitKeys(t.version, t.db, ids);
    assert Plain(sid) in split.drop && split.keep == {};
  }

  /** The SREM of a termination takes a session out of the index that was written after the read. */
  lemma DropsLive(t: State, sid: string) returns (acts: seq<Action>)
    requires t.procs.Keys == {1} && t.procs[1].TermDrop? && Plain(sid) in t.procs[1].drop && t.procs[1].keep == {}
    requires Plain(sid) in t.db
    ensures Valid(t, acts) && Run(t, acts).procs == map[] && Run(t, acts).minted == t.minted
    ensures Plain(sid) in Run(t, acts).db && !Member(Run(t, acts).db, t.procs[1].account, sid)
  {
    acts := Prepend(t, Command(1), []);
  }

  /** TerminateSessions reads a stale id, a refresh writes the session again, the SREM unlists it. */
  lemma StaleIdReturns(version: Version) returns (s: State, acts: seq<Action>)
    ensures Init(s) && s.version == version && Valid(s, acts) && Run(s, acts).procs == map[]
    ensures Unlisted(Run(s, acts), "a", "alice")
  {
    var ids := [Plain("a")];
    assert ids[0] == Plain("a");
    s, acts := RequestsTermination(version, ids);
    Extend(s, acts, Tick(10));
    acts := acts + [Tick(10)];
    Extend(s, acts, Command(1));
    var t := Run(s, acts);
    assert Plain("a") !in t.db && t.procs == Requested(version, ids).procs;
    ReadsStale(t, "a", "alice");
    acts := acts + [Command(1)];
    var writes := WriteAlone(Run(s, acts), 2);
    Concat(s, acts, writes);
    acts := acts + writes;
    var drops := DropsLive(Run(s, acts), "a");
    Concat(s, acts, drops);
    acts := acts + drops;
  }

  /** A pipeline that stops after its SET leaves a live session nobody lists. */
  lemma AbortUnlists() returns (s: State, acts: seq<Action>)
    ensures Init(s) && Valid(s, acts) && Run(s, acts).procs == map[]
    ensures Unlisted(Run(s, acts), "a", "alice")
  {
    s := Start(10, Intended);
    acts := [];
    Extend(s, acts, Mint(0, Example("a")));
    acts := acts + [Mint(0, Example("a"))];
    Extend(s, acts, Command(0));
    acts := acts + [Command(0)];
    Extend(s, acts, Abort(0));
    acts := acts + [Abort(0)];
    assert Run(s, acts).procs == map[];
  }

  /** A delete of the session that is followed by the write of a snapshot. */
  lemma WriteAfterDelete(t: State) returns (deletes: seq<Action>, writes: seq<Action>)
    requires Inv(t) && 1 in t.procs && 2 in t.procs && t.procs.Keys == {1, 2}
    requires t.procs[2].Write? && t.procs[2].stage.DoSet?
    requires t.procs[1] == TermRead([Plain(t.procs[2].session.sessionID)], t.procs[2].session.accountID)
    ensures Valid(t, deletes) && Plain(t.procs[2].session.sessionID) !in Run(t, deletes).db
    ensures Valid(Run(t, deletes), writes) && Run(Run(t, deletes), writes).procs == map[]
    ensures CheckSession(Run(Run(t, deletes), writes).db,
                         Plain(t.procs[2].session.sessionID), t.procs[2].session.machineID).Ok?
  {
    var session := t.procs[2].session;
    deletes := TerminationAlone(t, 1);
    TerminatesOne(t, session.sessionID, session.accountID);
    writes := WriteAlone(Run(t, deletes), 2);
    WrittenSessionChecks(Run(t, deletes).db, t.now, t.ttl, session);
  }

  lemma TerminatesOne(t: State, sid: string, account: string)
    requires Inv(t)
    ensures Plain(sid) !in Terminate(t.version, t.db, account, [Plain(sid)])
  {
    LogoutSplit(t, sid);
  }

  lemma WrittenSessionChecks(db: Keyspace, now: nat, ttl: nat, session: Session)
    ensures CheckSession(SetSession(db, now, ttl, session), Plain(session.sessionID), session.machineID) == Ok(session)
  {
  }

  /** TerminateSessions naming the caller's own id: the refresh that checkAndUpdateSession started
      runs after the delete and brings the session back, and it validates again. */
  lemma RefreshRevives(version: Version) returns (s: State, deletes: seq<Action>, writes: seq<Action>)
    ensures Init(s) && s.version == version && Valid(s, deletes) && Valid(Run(s, deletes), writes)
    ensures Check(1, Plain("a"), "laptop", TerminateList([Plain("a")])) in deletes
    ensures "a" in Run(s, deletes).minted && Plain("a") !in Run(s, deletes).db
    ensures Run(Run(s, deletes), writes).procs == map[]
    ensures CheckSession(Run(Run(s, deletes), writes).db, Plain("a"), "laptop").Ok?
  {
    var ids := [Plain("a")];
    var acts;
    assert ids[0] == Plain("a");
    s, acts := RequestsTermination(version, ids);
    RunInv(s, acts);
    deletes, writes := WriteAfterDelete(Run(s, acts));
    Concat(s, acts, deletes);
    IdsAreMintedOnce(Run(s, acts), deletes, "a");
    deletes := acts + deletes;
  }
}
