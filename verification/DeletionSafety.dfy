/** Deletion from end to end: the index coverage of disciplined runs, carried over to the whole
    service, is what lets the clean-up find every session of a deleted account. */
module DeletionSafety {
  import opened SessionStore
  import opened World
  import R = Redis
  import M = Models
  import IC = IndexCoverage

  /** The session half of the step keeps the discipline of `IndexCoverage` towards the account. */
  ghost predicate Disciplined(w: World, act: Action, id: string)
    requires Enabled(w, act)
  {
    act.RetryCleanup? || SessionStep(w, act).None? || IC.Disciplined(w.s, SessionStep(w, act).value, id)
  }

  ghost predicate DisciplinedRun(w: World, acts: seq<Action>, id: string)
    requires Valid(w, acts)
    decreases |acts|
  {
    acts == [] || (Disciplined(w, acts[0], id) && DisciplinedRun(Apply(w, acts[0]), acts[1..], id))
  }

  lemma StepCovers(w: World, act: Action, id: string)
    requires Enabled(w, act) && Disciplined(w, act, id) && S.Inv(w.s) && IC.CoverInv(w.s, id)
    ensures S.Inv(Apply(w, act).s) && IC.CoverInv(Apply(w, act).s, id)
  {
    if act.RetryCleanup? {
      var aborted := S.Apply(w.s, S.Abort(act.pid));
      S.StepInv(w.s, S.Abort(act.pid));
      IC.StepCoverInv(w.s, S.Abort(act.pid), id);
      S.StepInv(aborted, S.Cleanup(act.pid, w.s.procs[act.pid].account));
      IC.StepCoverInv(aborted, S.Cleanup(act.pid, w.s.procs[act.pid].account), id);
    } else if SessionStep(w, act).Some? {
      S.StepInv(w.s, SessionStep(w, act).value);
      IC.StepCoverInv(w.s, SessionStep(w, act).value, id);
    }
  }

  lemma {:induction false} RunCovers(w: World, acts: seq<Action>, id: string)
    requires Valid(w, acts) && DisciplinedRun(w, acts, id) && S.Inv(w.s) && IC.CoverInv(w.s, id)
    ensures S.Inv(Run(w, acts).s) && IC.CoverInv(Run(w, acts).s, id)
    decreases |acts|
  {
    if acts != [] {
      StepCovers(w, acts[0], id);
      RunCovers(Apply(w, acts[0]), acts[1..], id);
    }
  }

  /** After every disciplined run of the service, an account without a SetSession in progress is indexed. */
  lemma AccountIsIndexed(start: World, acts: seq<Action>, id: string)
    requires Init(start) && Valid(start, acts) && DisciplinedRun(start, acts, id)
    requires IC.NoMidWrite(Run(start, acts).s, id)
    ensures SI.Indexed(Run(start, acts).s, id)
  {
    var s := Run(start, acts).s;
    RunCovers(start, acts, id);
    forall sid | SI.LiveFor(s, sid, id) ensures Member(s.db, id, sid) {
      IC.FullIndex(s, id, sid);
    }
  }

  // ---------------------------------------------------------------- the last command of a clean-up

  /** The next command of the clean-up deletes what it read, or finds an empty index with no pipeline in
      progress for the account. */
  predicate Deciding(s: S.State, pid: nat, id: string) {
    pid in s.procs &&
    match s.procs[pid]
    case AllDel(_, account) => account == id
    case AllRead(account) => account == id && R.SMembers(s.db, R.AccountKey(id)) == {} && IC.NoMidWrite(s, id)
    case _ => false
  }

  lemma DecidingCommand(s: S.State, pid: nat, id: string)
    requires S.Inv(s) && IC.CoverInv(s, id) && Deciding(s, pid, id)
    ensures var t := S.Apply(s, S.Command(pid));
      (forall sid :: !SI.LiveFor(t, sid, id)) && (SI.WriteInFlightFor(t, id) <==> SI.WriteInFlightFor(s, id))
  {
    var t := S.Apply(s, S.Command(pid));
    assert IC.TerminationOk(s, s.procs[pid], id);
    forall sid ensures !SI.LiveFor(t, sid, id) {
      if s.procs[pid].AllRead? && SI.LiveFor(s, sid, id) { IC.FullIndex(s, id, sid); }
    }
    if SI.WriteInFlightFor(s, id) {
      var q :| q in s.procs && SI.CanWriteFor(s.procs[q], id);
      assert t.procs[q] == s.procs[q];
    }
    if SI.WriteInFlightFor(t, id) {
      var q :| q in t.procs && SI.CanWriteFor(t.procs[q], id);
      assert q != pid && t.procs[q] == s.procs[q];
    }
  }

  // ---------------------------------------------------------------- what can bring a session back

  /** The whole service can take these steps of the session half at any time. */
  lemma {:induction false} Lift(w: World, ss: seq<S.Action>) returns (acts: seq<Action>)
    requires S.Valid(w.s, ss) && SI.OnlyWrites(ss)
    ensures Valid(w, acts) && Run(w, acts).s == S.Run(w.s, ss)
    decreases |ss|
  {
    acts := [];
    if ss != [] {
      assert ss[0].Command? || ss[0].Launch?;
      assert forall i :: 0 <= i < |ss[1..]| ==> ss[1..][i] == ss[i + 1];
      var rest := Lift(Apply(w, InSessions(ss[0])), ss[1..]);
      acts := [InSessions(ss[0])] + rest;
      assert acts[1..] == rest;
    }
  }

  /** Some run of the service has a session of the account validate. */
  ghost predicate CanReturn(w: World, id: string) {
    exists acts, key, machine :: Valid(w, acts) &&
      var checked := CheckSession(Run(w, acts).s.db, key, machine);
      checked.Ok? && checked.value.accountID == id
  }

  lemma FlightReturns(w: World, id: string)
    requires SI.WriteInFlightFor(w.s, id)
    ensures CanReturn(w, id)
  {
    var pid :| pid in w.s.procs && SI.CanWriteFor(w.s.procs[pid], id);
    var ss := SI.FlightRevives(w.s, pid);
    var acts := Lift(w, ss);
    var session := w.s.procs[pid].session;
    assert CheckSession(Run(w, acts).s.db, R.Plain(session.sessionID), session.machineID).value.accountID == id;
  }

  lemma {:induction false} FreshId(taken: set<string>) returns (sid: string)
    ensures sid != "" && forall other :: other in taken ==> |other| < |sid|
    decreases |taken|
  {
    if taken == {} {
      sid := "a";
    } else {
      var last :| last in taken;
      var rest := FreshId(taken - {last});
      sid := rest + last;
      forall other | other in taken ensures |other| < |sid| {
        assert other == last || other in taken - {last};
      }
    }
  }

  /** A SignIn that has read the row can still mint a session, after the row is gone. */
  lemma SignInReturns(w: World, id: string)
    requires !NoSignInPending(w.a, id)
    ensures CanReturn(w, id)
  {
    var caller :| caller in w.a.procs && w.a.procs[caller] == A.SignedIn(id);
    var sid := FreshId(w.s.minted.Keys);
    var pid := SI.FreshPid(w.s.procs);
    var mint := MintSession(caller, pid, M.Session(sid, id, "", "", w.s.now));
    var minted := Apply(w, mint);
    assert SI.CanWriteFor(minted.s.procs[pid], id);
    FlightReturns(minted, id);
    var acts, key, machine :| Valid(minted, acts) &&
      var checked := CheckSession(Run(minted, acts).s.db, key, machine);
      checked.Ok? && checked.value.accountID == id;
    var longer := [mint] + acts;
    assert longer[1..] == acts;
    assert Valid(w, longer) && Run(w, longer) == Run(minted, acts);
  }

  /** A deleted account without live sessions gets one back if and only if a write or a SignIn for it is
      under way. */
  lemma ReturnsIff(w: World, id: string)
    requires S.Inv(w.s) && Dead(w.a, id) && forall sid :: !SI.LiveFor(w.s, sid, id)
    ensures CanReturn(w, id) <==> SI.WriteInFlightFor(w.s, id) || !NoSignInPending(w.a, id)
  {
    if SI.WriteInFlightFor(w.s, id) {
      FlightReturns(w, id);
    } else if !NoSignInPending(w.a, id) {
      SignInReturns(w, id);
    } else {
      forall acts, key, machine | Valid(w, acts)
        ensures var checked := CheckSession(Run(w, acts).s.db, key, machine);
          checked.Ok? ==> checked.value.accountID != id
      {
        var ss := ClosedRunProjects(w, acts, id);
        SI.AccountGoneForever(w.s, ss, id);
      }
    }
  }

  /** Clean-up after deletion, from the start of the service: once a clean-up, after any history that was
      disciplined towards its account, has deleted what it read, the account is deleted and has no live
      session; and none of its sessions ever validates again, in any continuation, if and only if no write
      of such a session and no SignIn that read the row is still under way. */
  lemma DeletedAccountsVanish(start: World, before: seq<Action>, pid: nat, id: string)
    requires Init(start) && Valid(start, before) && DisciplinedRun(start, before, id)
    requires Deciding(Run(start, before).s, pid, id)
    ensures var w := Run(start, before);
      var v := Apply(w, InSessions(S.Command(pid)));
      && A.WasRemoved(v.a.trace, id) && id !in v.a.table
      && (forall sid :: !SI.LiveFor(v.s, sid, id))
      && (!CanReturn(v, id) <==> !SI.WriteInFlightFor(w.s, id) && NoSignInPending(w.a, id))
  {
    var w := Run(start, before);
    RunCovers(start, before, id);
    assert Reachable(w);
    CleanupsAreForDeleted(w, pid);
    DecidingCommand(w.s, pid, id);
    S.StepInv(w.s, S.Command(pid));
    ReturnsIff(Apply(w, InSessions(S.Command(pid))), id);
  }
}
