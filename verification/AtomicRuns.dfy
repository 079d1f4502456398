/** Whole operations: a process that runs its commands without interruption has exactly the
    effect given in `SessionStore`, and runs made of whole operations need no further
    discipline to keep the index covering. */
module AtomicRuns {
  import opened Redis
  import opened SessionStore
  import opened SessionSystem
  import opened IndexCoverage

  /** No process is in the middle of its commands. */
  predicate AtRest(p: Process) {
    (p.Write? ==> p.stage.DoSet?) && !p.TermDrop? && !p.TermDel? && !p.TermUnlist? && !p.AllDel? && !p.AllUnlist?
  }

  predicate Resting(s: State) {
    forall pid :: pid in s.procs ==> AtRest(s.procs[pid])
  }

  /** `t` is `s` after process `pid` finished and changed the keyspace to `db`. */
  ghost predicate Finished(s: State, t: State, pid: nat, db: Keyspace)
    requires pid in s.procs
  {
    t.db == db && t.procs == s.procs - {pid} && t.minted == s.minted &&
    t.now == s.now && t.ttl == s.ttl && t.version == s.version &&
    (!s.procs[pid].Write? ==> t.lastSet == s.lastSet)
  }

  /** One more action in front of a run. */
  lemma Prepend(s: State, act: Action, rest: seq<Action>) returns (acts: seq<Action>)
    requires Enabled(s, act) && Valid(Apply(s, act), rest)
    ensures Valid(s, acts) && Run(s, acts) == Run(Apply(s, act), rest)
    ensures forall account ::
      DisciplinedRun(s, acts, account) <==> Disciplined(s, act, account) && DisciplinedRun(Apply(s, act), rest, account)
  {
    acts := [act] + rest;
    assert acts[1..] == rest;
  }

  lemma WriteAlone(s: State, pid: nat) returns (acts: seq<Action>)
    requires pid in s.procs && s.procs[pid].Write? && s.procs[pid].stage.DoSet?
    ensures Valid(s, acts)
    ensures Run(s, acts).lastSet == s.lastSet[s.procs[pid].session.sessionID := s.now]
    ensures Finished(s, Run(s, acts), pid, SetSession(s.db, s.now, s.ttl, s.procs[pid].session))
    ensures Resting(s) ==> forall account :: DisciplinedRun(s, acts, account)
  {
    var s1 := Apply(s, Command(pid));
    var s2 := Apply(s1, Command(pid));
    acts := Prepend(s2, Command(pid), []);
    acts := Prepend(s1, Command(pid), acts);
    acts := Prepend(s, Command(pid), acts);
  }

  /** The part of TerminateSessions after its filter. */
  lemma DeleteAlone(s: State, pid: nat) returns (acts: seq<Action>)
    requires pid in s.procs && s.procs[pid].TermDel? && s.procs[pid].keep != {}
    ensures Valid(s, acts) && forall account :: DisciplinedRun(s, acts, account)
    ensures Finished(s, Run(s, acts), pid, DeleteKept(s.db, s.procs[pid].account, s.procs[pid].keep))
  {
    var s1 := Apply(s, Command(pid));
    acts := Prepend(s1, Command(pid), []);
    acts := Prepend(s, Command(pid), acts);
  }

  lemma DropAlone(s: State, pid: nat) returns (acts: seq<Action>)
    requires pid in s.procs && s.procs[pid].TermDrop? && s.procs[pid].drop != {}
    ensures Valid(s, acts) && forall account :: DisciplinedRun(s, acts, account)
    ensures var p := s.procs[pid];
      Finished(s, Run(s, acts), pid, DeleteKept(DropListed(s.db, p.account, p.drop), p.account, p.keep))
  {
    var s1 := Apply(s, Command(pid));
    acts := [];
    if s.procs[pid].keep != {} { acts := DeleteAlone(s1, pid); }
    acts := Prepend(s, Command(pid), acts);
  }

  lemma TerminationAlone(s: State, pid: nat) returns (acts: seq<Action>)
    requires pid in s.procs && s.procs[pid].TermRead?
    ensures Valid(s, acts)
    ensures var p := s.procs[pid];
      Finished(s, Run(s, acts), pid, Terminate(s.version, s.db, p.account, p.listed))
    ensures forall account ::
      (s.procs[pid].account == account ==> ListFits(s, s.procs[pid].listed, account)) ==>
        DisciplinedRun(s, acts, account)
  {
    var p := s.procs[pid];
    var split := SplitKeys(s.version, s.db, p.listed);
    var s1 := Apply(s, Command(pid));
    acts := [];
    if split.drop != {} {
      acts := DropAlone(s1, pid);
    } else if split.keep != {} {
      acts := DeleteAlone(s1, pid);
    }
    acts := Prepend(s, Command(pid), acts);
  }

  lemma CleanupAlone(s: State, pid: nat) returns (acts: seq<Action>)
    requires pid in s.procs && s.procs[pid].AllRead?
    ensures Valid(s, acts)
    ensures Finished(s, Run(s, acts), pid, TerminateAll(s.db, s.procs[pid].account))
    ensures Resting(s) ==> forall account :: DisciplinedRun(s, acts, account)
  {
    var p := s.procs[pid];
    var s1 := Apply(s, Command(pid));
    acts := [];
    if SMembers(s.db, AccountKey(p.account)) != {} {
      var s2 := Apply(s1, Command(pid));
      acts := Prepend(s2, Command(pid), acts);
      acts := Prepend(s1, Command(pid), acts);
    }
    acts := Prepend(s, Command(pid), acts);
  }

  lemma ListingAlone(s: State, pid: nat) returns (acts: seq<Action>)
    requires pid in s.procs && (s.procs[pid].ListRead? || s.procs[pid].ListGet?)
    ensures Valid(s, acts) && forall account :: DisciplinedRun(s, acts, account)
    ensures Finished(s, Run(s, acts), pid, s.db)
  {
    var s1 := Apply(s, Command(pid));
    acts := [];
    if pid in s1.procs { acts := Prepend(s1, Command(pid), acts); }
    acts := Prepend(s, Command(pid), acts);
  }

  // ---------------------------------------------------------------- runs of whole operations

  /** One move of an atomic run: a process starts, checks, launches or goes on, time passes, or
      a process runs all its commands at once. */
  datatype Move = Single(act: Action) | Operation(pid: nat)

  function Effect(s: State, p: Process): Keyspace {
    match p
    case Write(session, _) => SetSession(s.db, s.now, s.ttl, session)
    case TermRead(ids, account) => Terminate(s.version, s.db, account, ids)
    case AllRead(account) => TerminateAll(s.db, account)
    case _ => s.db
  }

  /** With the code as written, lists must be uniform or name no live session of the account. */
  ghost predicate CanMove(s: State, move: Move) {
    match move
    case Single(act) => Enabled(s, act) && !act.Command?
    case Operation(pid) =>
      pid in s.procs && !s.procs[pid].Checked? &&
      (s.procs[pid].TermRead? ==> ListFits(s, s.procs[pid].listed, s.procs[pid].account))
  }

  ghost function Moved(s: State, move: Move): State
    requires CanMove(s, move)
  {
    match move
    case Single(act) => Apply(s, act)
    case Operation(pid) =>
      var p := s.procs[pid];
      s.(db := Effect(s, p), procs := s.procs - {pid},
         lastSet := if p.Write? then s.lastSet[p.session.sessionID := s.now] else s.lastSet)
  }

  ghost predicate ValidMoves(s: State, moves: seq<Move>)
    decreases |moves|
  {
    moves == [] || (CanMove(s, moves[0]) && ValidMoves(Moved(s, moves[0]), moves[1..]))
  }

  ghost function AfterMoves(s: State, moves: seq<Move>): State
    requires ValidMoves(s, moves)
    decreases |moves|
  {
    if moves == [] then s else AfterMoves(Moved(s, moves[0]), moves[1..])
  }

  /** Each move is a disciplined run of the command-level system. */
  lemma MoveIsDisciplined(s: State, move: Move) returns (acts: seq<Action>)
    requires Resting(s) && CanMove(s, move)
    ensures Valid(s, acts) && Run(s, acts) == Moved(s, move)
    ensures forall account :: DisciplinedRun(s, acts, account)
    ensures Resting(Moved(s, move))
  {
    match move {
      case Single(act) =>
        acts := [act];
        assert acts[1..] == [];
        var t := Apply(s, act);
        forall pid | pid in t.procs ensures AtRest(t.procs[pid]) {
          if pid in s.procs { assert AtRest(s.procs[pid]); }
        }
      case Operation(pid) =>
        var p := s.procs[pid];
        assert AtRest(p);
        if p.Write? { acts := WriteAlone(s, pid); }
        else if p.TermRead? { acts := TerminationAlone(s, pid); }
        else if p.AllRead? { acts := CleanupAlone(s, pid); }
        else { acts := ListingAlone(s, pid); }
    }
  }

  lemma {:induction false} MovesCover(s: State, moves: seq<Move>, account: string)
    requires Inv(s) && CoverInv(s, account) && Resting(s) && ValidMoves(s, moves)
    ensures Inv(AfterMoves(s, moves)) && CoverInv(AfterMoves(s, moves), account) && Resting(AfterMoves(s, moves))
    decreases |moves|
  {
    if moves != [] {
      var acts := MoveIsDisciplined(s, moves[0]);
      RunCoverInv(s, acts, account);
      MovesCover(Moved(s, moves[0]), moves[1..], account);
    }
  }

  /** In every state of every run of whole operations the index is sound and covers every live session. */
  lemma AtomicCoverage(s: State, moves: seq<Move>)
    requires Init(s) && ValidMoves(s, moves)
    ensures var db := AfterMoves(s, moves).db; WellFormed(db) && IndexSound(db) && Covered(db)
  {
    MovesCover(s, moves, "");
    var t := AfterMoves(s, moves);
    InvWellFormed(t);
    forall sid | Plain(sid) in t.db ensures Covers(t.db, sid) {
      LiveAccount(t, sid);
      var account := SessionAt(t.db, sid).accountID;
      MovesCover(s, moves, account);
      forall pid | pid in t.procs ensures !MidWrite(t.procs[pid], account) { assert AtRest(t.procs[pid]); }
      FullIndex(t, account, sid);
    }
  }
}
