/** The index covers every live session of an account, in every run that keeps a discipline towards
    this account. Whatever is done to other accounts is free, and so is every interleaving that the
    discipline does not name; the discipline is exactly what the invariant needs (`StepCoverIff`). */
module IndexCoverage {
  import opened Redis
  import opened SessionStore
  import opened SessionSystem
  import opened SessionSafety

  /** A SetSession pipeline of the account that has done its SET and not yet its EXPIRE. */
  predicate MidWrite(p: Process, account: string) {
    p.Write? && !p.stage.DoSet? && p.session.accountID == account
  }

  predicate NoMidWrite(s: State, account: string) {
    forall pid :: pid in s.procs ==> !MidWrite(s.procs[pid], account)
  }

  predicate Writing(p: Process, sid: string, stage: Stage) {
    p.Write? && p.stage == stage && p.session.sessionID == sid
  }

  predicate Pending(s: State, sid: string, stage: Stage) {
    exists pid :: pid in s.procs && Writing(s.procs[pid], sid, stage)
  }

  // ---------------------------------------------------------------- the discipline

  /** A SET of the session between the read of a termination and its last command: what is still to
      be removed must not name it, and what is still to be deleted must. */
  predicate SetFits(p: Process, sid: string, account: string) {
    match p
    case TermDrop(drop, _, other) => other == account ==> Plain(sid) !in drop
    case TermUnlist(keep, other) => other == account ==> Plain(sid) !in keep
    case AllDel(ids, other) => other == account ==> Plain(sid) in ids
    case AllUnlist(other) => other != account
    case _ => true
  }

  /** As written, a list that is not uniform must not name a live session of the account. */
  ghost predicate ListFits(s: State, ids: seq<Text>, account: string) {
    s.version.AsWritten? ==>
      Uniform(s.db, ids) || forall sid :: LiveFor(s, sid, account) ==> Plain(sid) !in ids
  }

  /** A clean-up that goes on after its read has read every session whose SADD is still to come. */
  predicate ReadFits(s: State, account: string) {
    SMembers(s.db, AccountKey(account)) != {} ==>
      forall pid :: pid in s.procs && MidWrite(s.procs[pid], account) && s.procs[pid].stage.DoAdd? &&
                    Plain(s.procs[pid].session.sessionID) in s.db ==>
        Member(s.db, account, s.procs[pid].session.sessionID)
  }

  /** An index that expires before a pipeline's EXPIRE takes the pipeline's session with it, or another
      pipeline is going to list the session again. */
  predicate TickFits(s: State, p: Process, now: nat, account: string) {
    MidWrite(p, account) && p.stage.DoExpire? && AccountKey(account) in s.db &&
    Expired(s.db[AccountKey(account)].life, now) && Plain(p.session.sessionID) in s.db ==>
      Expired(s.db[Plain(p.session.sessionID)].life, now) || Pending(s, p.session.sessionID, DoAdd)
  }

  /** Some other process is writing the session. */
  predicate PendingElsewhere(s: State, pid: nat, sid: string, stage: Stage) {
    exists q :: q in s.procs && q != pid && Writing(s.procs[q], sid, stage)
  }

  /** What the pipeline has still to do is done already, or another pipeline of the session will do it. */
  predicate Dispensable(s: State, pid: nat, account: string)
    requires pid in s.procs && s.procs[pid].Write? && Plain(s.procs[pid].session.sessionID) in s.db
  {
    var sid := s.procs[pid].session.sessionID;
    PendingElsewhere(s, pid, sid, DoAdd) ||
    (Member(s.db, account, sid) &&
     (PendingElsewhere(s, pid, sid, DoExpire) ||
      Outlives(s.db[AccountKey(account)].life, s.db[Plain(sid)].life)))
  }

  /** What a step must respect for the index of one account. */
  ghost predicate Disciplined(s: State, act: Action, account: string)
    requires Enabled(s, act)
  {
    match act
    case Command(pid) =>
      (match s.procs[pid]
       case Write(session, DoSet) =>
         session.accountID == account ==>
           forall q :: q in s.procs ==> SetFits(s.procs[q], session.sessionID, account)
       case TermRead(ids, other) => other == account ==> ListFits(s, ids, account)
       case AllRead(other) => other == account ==> ReadFits(s, account)
       case _ => true)
    case Abort(pid) =>
      MidWrite(s.procs[pid], account) && Plain(s.procs[pid].session.sessionID) in s.db ==> Dispensable(s, pid, account)
    case Tick(d) => forall pid :: pid in s.procs ==> TickFits(s, s.procs[pid], s.now + d, account)
    case _ => true
  }

  ghost predicate DisciplinedRun(s: State, acts: seq<Action>, account: string)
    requires Valid(s, acts)
    decreases |acts|
  {
    acts == [] || (Disciplined(s, acts[0], account) && DisciplinedRun(Apply(s, acts[0]), acts[1..], account))
  }

  // ---------------------------------------------------------------- the invariant

  /** Listed unless its SADD is still to come, and outlived by the index unless its EXPIRE is. */
  predicate CoveredOrPending(s: State, sid: string, account: string)
    requires Plain(sid) in s.db
  {
    Pending(s, sid, DoAdd) ||
    (Member(s.db, account, sid) &&
     (Pending(s, sid, DoExpire) || Outlives(s.db[AccountKey(account)].life, s.db[Plain(sid)].life)))
  }

  /** What a termination still has to remove is not live, and what it still has to delete is all there is. */
  ghost predicate TerminationOk(s: State, p: Process, account: string) {
    match p
    case TermDrop(drop, _, other) => other == account ==> forall sid :: LiveFor(s, sid, account) ==> Plain(sid) !in drop
    case TermUnlist(keep, other) => other == account ==> forall sid :: LiveFor(s, sid, account) ==> Plain(sid) !in keep
    case AllDel(ids, other) => other == account ==> forall sid :: LiveFor(s, sid, account) ==> Plain(sid) in ids
    case AllUnlist(other) => other == account ==> forall sid :: !LiveFor(s, sid, account)
    case _ => true
  }

  ghost predicate CoverInv(s: State, account: string) {
    (forall sid :: LiveFor(s, sid, account) ==> CoveredOrPending(s, sid, account)) &&
    (forall pid :: pid in s.procs ==> TerminationOk(s, s.procs[pid], account))
  }

  /** A live session is stored under the account it was minted for and expires a TTL after its last SET. */
  lemma LiveAccount(s: State, sid: string)
    requires Inv(s) && Plain(sid) in s.db
    ensures WellFormed(s.db) && LiveFor(s, sid, SessionAt(s.db, sid).accountID)
    ensures sid in s.lastSet && s.lastSet[sid] <= s.now
    ensures s.db[Plain(sid)].life == Until(s.lastSet[sid] + s.ttl)
  {
    InvWellFormed(s);
    assert EntryOk(s, Plain(sid), s.db[Plain(sid)]);
  }

  /** A pipeline writes under the account its session was minted for. */
  lemma WriterAccount(s: State, pid: nat)
    requires Inv(s) && pid in s.procs && s.procs[pid].Write?
    ensures var session := s.procs[pid].session;
      session.sessionID in s.minted && s.minted[session.sessionID].account == session.accountID
  {
    assert ProcessOk(s, s.procs[pid]);
  }

  // ---------------------------------------------------------------- sessions stay covered

  /** A write in progress stays in progress unless it is the process that moves. */
  lemma PendingStays(s: State, act: Action, sid: string, stage: Stage)
    requires Inv(s) && Enabled(s, act) && Pending(s, sid, stage) && stage != DoSet
    requires act.Command? || act.Abort? ==> !Writing(s.procs[act.pid], sid, stage)
    ensures Pending(Apply(s, act), sid, stage)
  {
    var pid :| pid in s.procs && Writing(s.procs[pid], sid, stage);
    assert Apply(s, act).procs[pid] == s.procs[pid];
  }

  lemma QuietStepCovers(s: State, act: Action, sid: string, account: string)
    requires Inv(s) && CoverInv(s, account) && Enabled(s, act) && Disciplined(s, act, account)
    requires !act.Command? && !act.Abort?
    requires LiveFor(s, sid, account) && Plain(sid) in Apply(s, act).db
    ensures CoveredOrPending(Apply(s, act), sid, account)
  {
    var t := Apply(s, act);
    LiveAccount(s, sid);
    if Pending(s, sid, DoAdd) {
      PendingStays(s, act, sid, DoAdd);
    } else {
      if Pending(s, sid, DoExpire) {
        var pid :| pid in s.procs && Writing(s.procs[pid], sid, DoExpire);
        WriterAccount(s, pid);
        PendingStays(s, act, sid, DoExpire);
        if act.Tick? { assert TickFits(s, s.procs[pid], s.now + act.d, account); }
      }
      assert AccountKey(account) in t.db && t.db[AccountKey(account)] == s.db[AccountKey(account)];
    }
  }

  lemma AbortLeaves(s: State, pid: nat, sid: string, stage: Stage)
    requires pid in s.procs
    ensures Pending(Apply(s, Abort(pid)), sid, stage) <==> PendingElsewhere(s, pid, sid, stage)
    ensures !Writing(s.procs[pid], sid, stage) ==> (PendingElsewhere(s, pid, sid, stage) <==> Pending(s, sid, stage))
  {
    var t := Apply(s, Abort(pid));
    if Pending(t, sid, stage) {
      var q :| q in t.procs && Writing(t.procs[q], sid, stage);
      assert q in s.procs && q != pid && Writing(s.procs[q], sid, stage);
    }
    if PendingElsewhere(s, pid, sid, stage) {
      var q :| q in s.procs && q != pid && Writing(s.procs[q], sid, stage);
      assert t.procs[q] == s.procs[q];
    }
  }

  lemma AbortCovers(s: State, pid: nat, sid: string, account: string)
    requires Inv(s) && CoverInv(s, account) && pid in s.procs && LiveFor(s, sid, account)
    ensures CoveredOrPending(Apply(s, Abort(pid)), sid, account) <==>
            MidWrite(s.procs[pid], account) && s.procs[pid].session.sessionID == sid ==> Dispensable(s, pid, account)
  {
    AbortLeaves(s, pid, sid, DoAdd);
    AbortLeaves(s, pid, sid, DoExpire);
    assert CoveredOrPending(s, sid, account);
    if s.procs[pid].Write? { WriterAccount(s, pid); }
  }

  lemma SetCovers(s: State, pid: nat, sid: string, account: string)
    requires Inv(s) && CoverInv(s, account) && Enabled(s, Command(pid))
    requires s.procs[pid].Write? && s.procs[pid].stage.DoSet?
    requires LiveFor(Apply(s, Command(pid)), sid, account)
    ensures CoveredOrPending(Apply(s, Command(pid)), sid, account)
  {
    var t := Apply(s, Command(pid));
    if sid == s.procs[pid].session.sessionID {
      assert Writing(t.procs[pid], sid, DoAdd);
    } else {
      assert LiveFor(s, sid, account) && CoveredOrPending(s, sid, account);
      SetKeepsPending(s, pid, sid, DoAdd);
      SetKeepsPending(s, pid, sid, DoExpire);
    }
  }

  lemma SetKeepsPending(s: State, pid: nat, sid: string, stage: Stage)
    requires Enabled(s, Command(pid)) && s.procs[pid].Write? && s.procs[pid].stage.DoSet? && stage != DoSet
    ensures Pending(s, sid, stage) ==> Pending(Apply(s, Command(pid)), sid, stage)
  {
    if Pending(s, sid, stage) {
      var q :| q in s.procs && Writing(s.procs[q], sid, stage);
      assert Apply(s, Command(pid)).procs[q] == s.procs[q];
    }
  }

  lemma AddCovers(s: State, pid: nat, sid: string, account: string)
    requires Inv(s) && CoverInv(s, account) && Enabled(s, Command(pid))
    requires s.procs[pid].Write? && s.procs[pid].stage.DoAdd?
    requires LiveFor(s, sid, account)
    ensures CoveredOrPending(Apply(s, Command(pid)), sid, account)
  {
    var t := Apply(s, Command(pid));
    WriterAccount(s, pid);
    AddKeepsLifetime(s, pid, account);
    if sid == s.procs[pid].session.sessionID {
      assert Writing(t.procs[pid], sid, DoExpire);
    } else {
      if Pending(s, sid, DoAdd) { PendingStays(s, Command(pid), sid, DoAdd); }
      if Pending(s, sid, DoExpire) { PendingStays(s, Command(pid), sid, DoExpire); }
    }
  }

  /** SADD keeps the members and the lifetime of every index, and adds its own. */
  lemma AddKeepsLifetime(s: State, pid: nat, account: string)
    requires Inv(s) && Enabled(s, Command(pid)) && s.procs[pid].Write? && s.procs[pid].stage.DoAdd?
    ensures var t, list := Apply(s, Command(pid)), AccountKey(account);
      (list in s.db ==> list in t.db && t.db[list].life == s.db[list].life) &&
      (forall sid :: Member(s.db, account, sid) ==> Member(t.db, account, sid)) &&
      (forall sid :: Plain(sid) in s.db ==> Plain(sid) in t.db && t.db[Plain(sid)] == s.db[Plain(sid)]) &&
      Member(t.db, s.procs[pid].session.accountID, s.procs[pid].session.sessionID)
  {
    var own := AccountKey(s.procs[pid].session.accountID);
    assert own in s.db ==> EntryOk(s, own, s.db[own]);
  }

  lemma ExpireCovers(s: State, pid: nat, sid: string, account: string)
    requires Inv(s) && CoverInv(s, account) && Enabled(s, Command(pid))
    requires s.procs[pid].Write? && s.procs[pid].stage.DoExpire?
    requires LiveFor(s, sid, account)
    ensures CoveredOrPending(Apply(s, Command(pid)), sid, account)
  {
    var t := Apply(s, Command(pid));
    LiveAccount(s, sid);
    WriterAccount(s, pid);
    if Pending(s, sid, DoAdd) {
      PendingStays(s, Command(pid), sid, DoAdd);
    } else if account == s.procs[pid].session.accountID {
      // one EXPIRE of the list outlives every session written so far
      assert t.db[AccountKey(account)].life == Until(s.now + s.ttl);
    } else if Pending(s, sid, DoExpire) {
      PendingStays(s, Command(pid), sid, DoExpire);
    }
  }

  /** A termination or a listing leaves the index entry of a session that stays live alone. */
  lemma IndexEntryStays(s: State, pid: nat, sid: string, account: string)
    requires Inv(s) && Enabled(s, Command(pid)) && !s.procs[pid].Write? && TerminationOk(s, s.procs[pid], account)
    requires LiveFor(s, sid, account) && Member(s.db, account, sid)
    requires Plain(sid) in Apply(s, Command(pid)).db
    ensures var db := Apply(s, Command(pid)).db;
      db[Plain(sid)] == s.db[Plain(sid)] && Member(db, account, sid) &&
      db[AccountKey(account)].life == s.db[AccountKey(account)].life
  {
    var p := s.procs[pid];
    var list := AccountKey(account);
    assert EntryOk(s, list, s.db[list]) && ProcessOk(s, p);
    match p {
      case TermDrop(drop, _, other) => RemovalKeepsEntry(s, other, drop, sid, account);
      case TermUnlist(keep, other) => RemovalKeepsEntry(s, other, keep, sid, account);
      case _ =>
    }
  }

  lemma RemovalKeepsEntry(s: State, other: string, ids: set<Text>, sid: string, account: string)
    requires Inv(s) && Member(s.db, account, sid) && (other == account ==> Plain(sid) !in ids)
    ensures var db := SRem(s.db, AccountKey(other), ids);
      Member(db, account, sid) && db[AccountKey(account)].life == s.db[AccountKey(account)].life
  {
    var list := AccountKey(other);
    if list in s.db { assert EntryOk(s, list, s.db[list]); }
    SRemEffect(s.db, list, ids);
  }

  /** The commands of terminations and listings. */
  lemma OtherCommandCovers(s: State, pid: nat, sid: string, account: string)
    requires Inv(s) && CoverInv(s, account) && Enabled(s, Command(pid)) && Disciplined(s, Command(pid), account)
    requires !s.procs[pid].Write?
    requires LiveFor(s, sid, account) && Plain(sid) in Apply(s, Command(pid)).db
    ensures CoveredOrPending(Apply(s, Command(pid)), sid, account)
  {
    if Pending(s, sid, DoAdd) {
      PendingStays(s, Command(pid), sid, DoAdd);
    } else {
      if Pending(s, sid, DoExpire) { PendingStays(s, Command(pid), sid, DoExpire); }
      IndexEntryStays(s, pid, sid, account);
    }
  }

  lemma StepCovers(s: State, act: Action, sid: string, account: string)
    requires Inv(s) && CoverInv(s, account) && Enabled(s, act) && Disciplined(s, act, account)
    requires LiveFor(Apply(s, act), sid, account)
    ensures CoveredOrPending(Apply(s, act), sid, account)
  {
    if LiveFor(s, sid, account) {
      match act {
        case Command(pid) => CommandCovers(s, pid, sid, account);
        case Abort(pid) => AbortCovers(s, pid, sid, account);
        case _ => QuietStepCovers(s, act, sid, account);
      }
    } else {
      NewlyLive(s, act, sid, account);
      SetCovers(s, act.pid, sid, account);
    }
  }

  lemma CommandCovers(s: State, pid: nat, sid: string, account: string)
    requires Inv(s) && CoverInv(s, account) && Enabled(s, Command(pid)) && Disciplined(s, Command(pid), account)
    requires LiveFor(s, sid, account) && LiveFor(Apply(s, Command(pid)), sid, account)
    ensures CoveredOrPending(Apply(s, Command(pid)), sid, account)
  {
    var p := s.procs[pid];
    if !p.Write? {
      OtherCommandCovers(s, pid, sid, account);
    } else {
      match p.stage
      case DoSet => SetCovers(s, pid, sid, account);
      case DoAdd => AddCovers(s, pid, sid, account);
      case DoExpire => ExpireCovers(s, pid, sid, account);
    }
  }

  // ---------------------------------------------------------------- terminations stay harmless

  /** A session that becomes live for an account does so by its SET. */
  lemma NewlyLive(s: State, act: Action, sid: string, account: string)
    requires Inv(s) && Enabled(s, act)
    requires LiveFor(Apply(s, act), sid, account) && !LiveFor(s, sid, account)
    ensures act.Command? && Writing(s.procs[act.pid], sid, DoSet) && s.procs[act.pid].session.accountID == account
  {
    BecomesLive(s, act, sid, account);
  }

  lemma TerminationStays(s: State, act: Action, pid: nat, account: string)
    requires Inv(s) && CoverInv(s, account) && Enabled(s, act) && Disciplined(s, act, account)
    requires pid in s.procs && pid in Apply(s, act).procs && Apply(s, act).procs[pid] == s.procs[pid]
    ensures TerminationOk(Apply(s, act), s.procs[pid], account)
  {
    var p := s.procs[pid];
    assert TerminationOk(s, p, account);
    forall sid | LiveFor(Apply(s, act), sid, account) ensures LiveFor(s, sid, account) || SetFits(p, sid, account) {
      if !LiveFor(s, sid, account) {
        NewlyLive(s, act, sid, account);
        assert SetFits(s.procs[pid], s.procs[act.pid].session.sessionID, account);
      }
    }
  }

  /** What the filter drops on a list that fits is no live session of the account. */
  lemma DroppedAreStale(s: State, ids: seq<Text>, account: string)
    requires Inv(s)
    ensures ListFits(s, ids, account) <==>
            forall sid :: LiveFor(s, sid, account) ==> Plain(sid) !in SplitKeys(s.version, s.db, ids).drop
  {
    InvWellFormed(s);
    forall sid | LiveFor(s, sid, account)
      ensures Plain(sid) in SplitKeys(s.version, s.db, ids).drop <==>
              s.version.AsWritten? && !Uniform(s.db, ids) && Plain(sid) in ids
    {
      DroppedLive(s, ids, sid);
    }
  }

  lemma DroppedLive(s: State, ids: seq<Text>, sid: string)
    requires Inv(s) && WellFormed(s.db) && Plain(sid) in s.db
    ensures Plain(sid) in SplitKeys(s.version, s.db, ids).drop <==>
            s.version.AsWritten? && !Uniform(s.db, ids) && Plain(sid) in ids
  {
    assert EntryShape(Plain(sid), s.db[Plain(sid)].content);
    assert Lookup(s.db, Plain(sid)).Some?;
    FilterAsWritten(s.db, ids);
  }

  /** SMEMBERS reads every live session of the account exactly if the read fits. */
  lemma ReadIsComplete(s: State, account: string)
    requires Inv(s) && CoverInv(s, account) && SMembers(s.db, AccountKey(account)) != {}
    ensures ReadFits(s, account) <==> forall sid :: LiveFor(s, sid, account) ==> Member(s.db, account, sid)
  {
    if ReadFits(s, account) {
      forall sid | LiveFor(s, sid, account) ensures Member(s.db, account, sid) {
        assert CoveredOrPending(s, sid, account);
        if Pending(s, sid, DoAdd) {
          var pid :| pid in s.procs && Writing(s.procs[pid], sid, DoAdd);
          WriterAccount(s, pid);
          assert MidWrite(s.procs[pid], account);
        }
      }
    } else {
      var pid :| pid in s.procs && MidWrite(s.procs[pid], account) && Plain(s.procs[pid].session.sessionID) in s.db &&
                 !Member(s.db, account, s.procs[pid].session.sessionID);
      WriterAccount(s, pid);
      assert LiveFor(s, s.procs[pid].session.sessionID, account);
    }
  }

  /** A read changes no session and turns into the rest of its operation. */
  lemma ReadMoves(s: State, pid: nat, account: string)
    requires Enabled(s, Command(pid)) && (s.procs[pid].TermRead? || s.procs[pid].AllRead?)
    requires pid in Apply(s, Command(pid)).procs
    ensures var t, p := Apply(s, Command(pid)), s.procs[pid];
      (forall sid :: LiveFor(t, sid, account) <==> LiveFor(s, sid, account)) &&
      (p.AllRead? ==> t.procs[pid] == AllDel(SMembers(s.db, AccountKey(p.account)), p.account) &&
                      SMembers(s.db, AccountKey(p.account)) != {}) &&
      (p.TermRead? ==> var split := SplitKeys(s.version, s.db, p.listed);
         t.procs[pid] == if split.drop != {} then TermDrop(split.drop, split.keep, p.account)
                         else TermDel(split.keep, p.account))
  {
  }

  /** A read leaves its termination in order exactly if it is disciplined. */
  lemma ReadIff(s: State, pid: nat, account: string)
    requires Inv(s) && CoverInv(s, account) && Enabled(s, Command(pid))
    requires s.procs[pid].TermRead? || s.procs[pid].AllRead?
    ensures var t := Apply(s, Command(pid));
      Disciplined(s, Command(pid), account) <==> pid in t.procs ==> TerminationOk(t, t.procs[pid], account)
  {
    var t, p := Apply(s, Command(pid)), s.procs[pid];
    if p.account != account {
      if pid in t.procs { ReadMoves(s, pid, account); }
    } else if p.TermRead? {
      DroppedAreStale(s, p.listed, account);
      if pid in t.procs { ReadMoves(s, pid, account); }
    } else if pid in t.procs {
      ReadMoves(s, pid, account);
      ReadIsComplete(s, account);
    }
  }

  lemma MovedTermination(s: State, pid: nat, account: string)
    requires Inv(s) && CoverInv(s, account) && Enabled(s, Command(pid)) && Disciplined(s, Command(pid), account)
    requires pid in Apply(s, Command(pid)).procs
    ensures TerminationOk(Apply(s, Command(pid)), Apply(s, Command(pid)).procs[pid], account)
  {
    var p := s.procs[pid];
    assert TerminationOk(s, p, account);
    if p.TermRead? || p.AllRead? { ReadIff(s, pid, account); }
  }

  lemma TerminationCovers(s: State, act: Action, pid: nat, account: string)
    requires Inv(s) && CoverInv(s, account) && Enabled(s, act) && Disciplined(s, act, account)
    requires pid in Apply(s, act).procs
    ensures TerminationOk(Apply(s, act), Apply(s, act).procs[pid], account)
  {
    if pid in s.procs && Apply(s, act).procs[pid] == s.procs[pid] {
      TerminationStays(s, act, pid, account);
    } else if act.Command? {
      assert pid == act.pid;
      MovedTermination(s, pid, account);
    }
  }

  lemma StepCoverInv(s: State, act: Action, account: string)
    requires Inv(s) && CoverInv(s, account) && Enabled(s, act) && Disciplined(s, act, account)
    ensures CoverInv(Apply(s, act), account)
  {
    forall sid | LiveFor(Apply(s, act), sid, account) ensures CoveredOrPending(Apply(s, act), sid, account) {
      StepCovers(s, act, sid, account);
    }
    forall pid | pid in Apply(s, act).procs ensures TerminationOk(Apply(s, act), Apply(s, act).procs[pid], account) {
      TerminationCovers(s, act, pid, account);
    }
  }

  // ---------------------------------------------------------------- the discipline is needed

  lemma SetNeeds(s: State, pid: nat, q: nat, account: string)
    requires Inv(s) && Enabled(s, Command(pid)) && s.procs[pid].Write? && s.procs[pid].stage.DoSet?
    requires s.procs[pid].session.accountID == account && CoverInv(Apply(s, Command(pid)), account)
    requires q in s.procs
    ensures SetFits(s.procs[q], s.procs[pid].session.sessionID, account)
  {
    var t := Apply(s, Command(pid));
    WriterAccount(s, pid);
    assert LiveFor(t, s.procs[pid].session.sessionID, account);
    if q != pid { assert t.procs[q] == s.procs[q] && TerminationOk(t, t.procs[q], account); }
  }

  lemma TickNeeds(s: State, d: nat, pid: nat, account: string)
    requires Inv(s) && CoverInv(Apply(s, Tick(d)), account) && pid in s.procs
    ensures TickFits(s, s.procs[pid], s.now + d, account)
  {
    var t, p := Apply(s, Tick(d)), s.procs[pid];
    if MidWrite(p, account) && Plain(p.session.sessionID) in t.db {
      WriterAccount(s, pid);
      assert LiveFor(t, p.session.sessionID, account);
      assert CoveredOrPending(t, p.session.sessionID, account);
    }
  }

  /** Every step keeps the invariant if and only if it is disciplined. */
  lemma StepCoverIff(s: State, act: Action, account: string)
    requires Inv(s) && CoverInv(s, account) && Enabled(s, act)
    ensures CoverInv(Apply(s, act), account) <==> Disciplined(s, act, account)
  {
    if Disciplined(s, act, account) {
      StepCoverInv(s, act, account);
    } else if CoverInv(Apply(s, act), account) {
      match act {
        case Tick(d) => forall pid | pid in s.procs { TickNeeds(s, d, pid, account); }
        case Abort(pid) =>
          if MidWrite(s.procs[pid], account) {
            WriterAccount(s, pid);
            if LiveFor(s, s.procs[pid].session.sessionID, account) {
              AbortCovers(s, pid, s.procs[pid].session.sessionID, account);
            }
          }
        case Command(pid) =>
          if s.procs[pid].Write? {
            forall q | q in s.procs { SetNeeds(s, pid, q, account); }
          } else if s.procs[pid].TermRead? || s.procs[pid].AllRead? {
            ReadIff(s, pid, account);
          }
        case _ =>
      }
    }
  }

  // ---------------------------------------------------------------- runs

  lemma {:induction false} RunCoverInv(s: State, acts: seq<Action>, account: string)
    requires Inv(s) && CoverInv(s, account) && Valid(s, acts) && DisciplinedRun(s, acts, account)
    ensures Inv(Run(s, acts)) && CoverInv(Run(s, acts), account)
    decreases |acts|
  {
    if acts != [] {
      StepInv(s, acts[0]);
      StepCoverInv(s, acts[0], account);
      RunCoverInv(Apply(s, acts[0]), acts[1..], account);
    }
  }

  /** Without a pipeline between SET and EXPIRE for the account, its index lists all its live sessions. */
  lemma FullIndex(s: State, account: string, sid: string)
    requires Inv(s) && CoverInv(s, account) && NoMidWrite(s, account) && LiveFor(s, sid, account)
    ensures WellFormed(s.db) && SessionAt(s.db, sid).accountID == account && Covers(s.db, sid)
  {
    LiveAccount(s, sid);
    assert CoveredOrPending(s, sid, account);
    forall pid | pid in s.procs ensures !Writing(s.procs[pid], sid, DoAdd) && !Writing(s.procs[pid], sid, DoExpire) {
      if s.procs[pid].Write? { WriterAccount(s, pid); }
      assert !MidWrite(s.procs[pid], account);
    }
  }

  /** In every state of every run that is disciplined towards an account, each of its live sessions is in
      its live index, which expires no earlier, unless a pipeline of the account is in progress. */
  lemma IndexCovers(s: State, acts: seq<Action>, sid: string, account: string)
    requires Init(s) && Valid(s, acts) && DisciplinedRun(s, acts, account)
    requires LiveFor(Run(s, acts), sid, account) && NoMidWrite(Run(s, acts), account)
    ensures WellFormed(Run(s, acts).db) && Covers(Run(s, acts).db, sid)
    ensures SessionAt(Run(s, acts).db, sid).accountID == account
  {
    RunCoverInv(s, acts, account);
    FullIndex(Run(s, acts), account, sid);
  }

  /** With no pipeline of the account in progress, its listing is exactly its live sessions with their
      stored info, and the session of the caller is among them while it is live. */
  lemma ListingAtRest(s: State, acts: seq<Action>, account: string)
    requires Init(s) && Valid(s, acts) && DisciplinedRun(s, acts, account) && NoMidWrite(Run(s, acts), account)
    ensures var db := Run(s, acts).db;
      && WellFormed(db)
      && (forall key, machine ::
            CheckSession(db, key, machine).Ok? && CheckSession(db, key, machine).value.accountID == account ==>
              Listing(db, account).Ok? &&
              CheckSession(db, key, machine).value.sessionID in Listing(db, account).value)
      && (Listing(db, account).Ok? ==>
            var sessions := Listing(db, account).value;
            (forall sid :: sid in sessions <==> Plain(sid) in db && SessionAt(db, sid).accountID == account) &&
            (forall sid :: sid in sessions ==> sid in Run(s, acts).minted) &&
            (forall sid :: sid in sessions ==>
               sessions[sid].clientIP == SessionAt(db, sid).clientIP == Run(s, acts).minted[sid].ip &&
               sessions[sid].machineID == SessionAt(db, sid).machineID == Run(s, acts).minted[sid].machine &&
               sessions[sid].lastActivity == SessionAt(db, sid).lastActivity))
  {
    var t := Run(s, acts);
    RunCoverInv(s, acts, account);
    InvWellFormed(t);
    forall sid | Plain(sid) in t.db && SessionAt(t.db, sid).accountID == account ensures Covers(t.db, sid) {
      LiveAccount(t, sid);
      FullIndex(t, account, sid);
    }
    ListingExact(t.db, account);
    forall sid | Plain(sid) in t.db ensures sid in t.minted && t.minted[sid] == IdentityOf(SessionAt(t.db, sid)) {
      assert EntryOk(t, Plain(sid), t.db[Plain(sid)]);
    }
    forall key, machine | CheckSession(t.db, key, machine).Ok?
      ensures key == Plain(CheckSession(t.db, key, machine).value.sessionID)
    {
      assert EntryOk(t, key, t.db[key]);
    }
  }

  /** A listing that is interrupted between SMEMBERS and MGET names every session of the account that is
      live at both, and (`SessionSafety.ListingSound`) nothing that is not live at the second. */
  lemma InterruptedListing(s: State, acts: seq<Action>, pid: nat, account: string, between: seq<Action>, sid: string)
    requires Init(s) && Valid(s, acts) && DisciplinedRun(s, acts, account) && NoMidWrite(Run(s, acts), account)
    requires pid in Run(s, acts).procs && Run(s, acts).procs[pid] == ListRead(account)
    requires Valid(Apply(Run(s, acts), Command(pid)), between)
    requires LiveFor(Run(s, acts), sid, account)
    requires var t := Run(Apply(Run(s, acts), Command(pid)), between);
      WellFormed(t.db) && Plain(sid) in t.db &&
      (pid in Apply(Run(s, acts), Command(pid)).procs ==>
         pid in t.procs && t.procs[pid] == Apply(Run(s, acts), Command(pid)).procs[pid])
    ensures var t := Run(Apply(Run(s, acts), Command(pid)), between);
      pid in t.procs && t.procs[pid].ListGet? && sid in ListOf(t.db, t.procs[pid].ids)
  {
    IndexCovers(s, acts, sid, account);
    RunInv(s, acts);
    ReadNamesMembers(Run(s, acts), pid, account, between, sid);
  }

  /** A session that is indexed at SMEMBERS and live at MGET is listed. */
  lemma ReadNamesMembers(s: State, pid: nat, account: string, between: seq<Action>, sid: string)
    requires Inv(s) && pid in s.procs && s.procs[pid] == ListRead(account) && Member(s.db, account, sid)
    requires Valid(Apply(s, Command(pid)), between)
    requires var t := Run(Apply(s, Command(pid)), between);
      WellFormed(t.db) && Plain(sid) in t.db &&
      (pid in Apply(s, Command(pid)).procs ==>
         pid in t.procs && t.procs[pid] == Apply(s, Command(pid)).procs[pid])
    ensures var t := Run(Apply(s, Command(pid)), between);
      pid in t.procs && t.procs[pid].ListGet? && sid in ListOf(t.db, t.procs[pid].ids)
  {
    var t := Run(Apply(s, Command(pid)), between);
    assert Apply(s, Command(pid)).procs[pid] == ListGet(SMembers(s.db, AccountKey(account)), account);
    assert Plain(sid) in t.procs[pid].ids && Plain(sid).Plain?;
  }
}
