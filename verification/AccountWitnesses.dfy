/** Runs from the start that show where the guarantees about accounts end. */
module AccountWitnesses {
  import opened Models
  import opened Jwt
  import opened AccountSystem
  import opened AccountInvariant
  import opened AccountSafety
  import opened Lifecycle
  import opened SecretsWitness

  // ---------------------------------------------------------------- one request at a time

  /** An email is registered and its verification token is in the user's hands. */
  ghost predicate TokenInHand(a: State, cfg: Config, email: string, token: Token) {
    a.cfg == cfg && a.procs == map[] && a.table == map[] && a.usedIds == {} && email in a.regs &&
    token in a.issued && ParseToken(token, cfg.verifySecret, a.now) == Some(email)
  }

  lemma AsksForToken(cfg: Config, email: string) returns (a: State, moves: seq<Move>, token: Token)
    requires cfg.pendingTTL > 0
    ensures Init(a) && a.cfg == cfg && ValidMoves(a, moves) && TokenInHand(AfterMoves(a, moves), cfg, email, token)
  {
    a := Begin(cfg);
    var register := Serve(Register(0, email, "u", "old"), [Works("0"), Works("1")]);
    var ask := Serve(AskVerification(0, email), [Works("0"), Works("1")]);
    Registers(a, email);
    var a1 := Moved(a, register);
    AsksVerification(a1, email);
    token := GenerateToken(email, cfg.verifySecret, cfg.pendingTTL, a.now);
    moves := MoveFirst(a1, ask, []);
    moves := MoveFirst(a, register, moves);
  }

  lemma {:induction false} MoveLast(a: State, moves: seq<Move>, move: Move) returns (longer: seq<Move>)
    requires ValidMoves(a, moves) && CanMove(AfterMoves(a, moves), move)
    ensures ValidMoves(a, longer) && AfterMoves(a, longer) == Moved(AfterMoves(a, moves), move)
    decreases |moves|
  {
    if moves == [] {
      longer := MoveFirst(a, move, []);
    } else {
      var rest := MoveLast(Moved(a, moves[0]), moves[1..], move);
      longer := MoveFirst(a, moves[0], rest);
    }
  }

  /** Whatever the faults of a verification are, as long as its commit applies and the entry is not
      removed, the run ends with the email pending and active at once. */
  lemma OverlapOccurs(cfg: Config, email: string, cs: seq<Choice>) returns (a: State, moves: seq<Move>)
    requires cfg.pendingTTL > 0 && AllDifferent(cs) && CommitApplies(cs) && !EntryRemoved(cs)
    ensures Init(a) && a.cfg == cfg && ValidMoves(a, moves)
    ensures PhaseOf(AfterMoves(a, moves), email).Overlap?
  {
    var token;
    a, moves, token := AsksForToken(cfg, email);
    var b := AfterMoves(a, moves);
    var verify := Serve(Verify(0, token), cs);
    OverlapBeginsIff(b, verify, email);
    moves := MoveLast(a, moves, verify);
  }

  /** An account of the email is active and nothing else has happened to it. */
  ghost predicate OneAccount(a: State, email: string) {
    a.procs == map[] && a.usedIds == {"1"} && "1" in a.table && a.table["1"].email == email
  }

  lemma Activates(cfg: Config, email: string) returns (a: State, moves: seq<Move>)
    requires cfg.pendingTTL > 0
    ensures Init(a) && a.cfg == cfg && ValidMoves(a, moves) && OneAccount(AfterMoves(a, moves), email)
  {
    var token;
    a, moves, token := AsksForToken(cfg, email);
    VerifiesEmail(AfterMoves(a, moves), email, token);
    moves := MoveLast(a, moves, Serve(Verify(0, token), [Works("0"), Works("1"), Works("2"), Works("3"), Works("4")]));
  }

  /** A deletion of account "1" whose COMMIT fails. */
  function InVain(): Move {
    Serve(Delete(0, "1"), [Works("5"), Works("6"), Works("7"), Choice(Failed, "8", 0)])
  }

  lemma UncommittedDeletion(a: State, id: string, email: string, cs: seq<Choice>)
    requires |cs| == 4 && cs[0].outcome.Done? && cs[1].outcome.Done? && cs[2].outcome.Done? && cs[3].outcome.Failed?
    requires id in a.table && a.table[id].email == email
    ensures Finish(a, Deleting(id), cs) == Log(a, Deleted(id, email))
  {
    var p := Reporting(id, email, Holding(true));
    assert Finish(a, Deleting(id), cs) == Finish(a, Removing(id, email), cs[1..]);
    assert Finish(a, Removing(id, email), cs[1..]) == Finish(a, p, cs[1..][1..]);
    assert cs[1..][1..] == [cs[2], cs[3]];
    FinishTwo(a, p, cs[2], cs[3]);
  }

  lemma DeletesInVain(a: State, email: string)
    requires OneAccount(a, email)
    ensures CanMove(a, InVain()) && Moved(a, InVain()) == Log(a, Deleted("1", email))
  {
    var started := Apply(a, Delete(0, "1"));
    assert started.(procs := map[]) == a && started.procs[0] == Deleting("1");
    UncommittedDeletion(a, "1", email, InVain().cs);
  }

  /** A deletion whose commit fails has sent its event; so has the one that is tried after it. */
  lemma DeletedTwice(cfg: Config, email: string) returns (a: State, moves: seq<Move>, id: string)
    requires cfg.pendingTTL > 0
    ensures Init(a) && a.cfg == cfg && ValidMoves(a, moves)
    ensures var trace := AfterMoves(a, moves).trace;
      |trace| >= 2 && trace[|trace| - 2] == trace[|trace| - 1] == Deleted(id, email)
  {
    id := "1";
    a, moves := Activates(cfg, email);
    DeletesInVain(AfterMoves(a, moves), email);
    moves := MoveLast(a, moves, InVain());
    DeletesInVain(AfterMoves(a, moves), email);
    moves := MoveLast(a, moves, InVain());
  }

  // ---------------------------------------------------------------- concurrent requests

  /** No call fails and no request is given up. */
  predicate NoFault(acts: seq<Action>) {
    forall i :: 0 <= i < |acts| ==> !acts[i].Abort? && (acts[i].Call? ==> acts[i].choice.outcome.Done?)
  }

  /** One more action in front of a run without faults. */
  lemma ActFirst(a: State, act: Action, rest: seq<Action>) returns (acts: seq<Action>)
    requires Enabled(a, act) && Valid(Apply(a, act), rest) && NoFault(rest)
    requires !act.Abort? && (act.Call? ==> act.choice.outcome.Done?)
    ensures Valid(a, acts) && Run(a, acts) == Run(Apply(a, act), rest) && NoFault(acts)
  {
    acts := [act] + rest;
    assert acts[1..] == rest;
  }

  lemma ThenRun(a: State, first: seq<Action>, second: seq<Action>) returns (acts: seq<Action>)
    requires Valid(a, first) && Valid(Run(a, first), second) && NoFault(first) && NoFault(second)
    ensures Valid(a, acts) && Run(a, acts) == Run(Run(a, first), second) && NoFault(acts)
  {
    AccountSystem.Concat(a, first, second);
    acts := first + second;
  }

  /** A whole request beside others that hold nothing. */
  lemma RequestBeside(a: State, act: Action, p: Request, cs: seq<Choice>) returns (acts: seq<Action>)
    requires Enabled(a, act) && !act.Tick? && !act.Call? && !act.Abort? && act.pid !in a.procs && Unobstructed(a)
    requires Apply(a, act) == a.(procs := a.procs[act.pid := p]) && FreshIds(a, cs) && AllDifferent(cs)
    requires Completes(a, p, cs) && forall i :: 0 <= i < |cs| ==> cs[i].outcome.Done?
    ensures Valid(a, acts) && Run(a, acts) == Finish(a, p, cs) && NoFault(acts)
  {
    var calls := FinishIsRun(a, act.pid, p, cs);
    acts := ActFirst(a, act, calls);
  }

  /** Two registrations of one email have both seen it free, and the first has stored its entry. */
  lemma TwoRegister(cfg: Config, email: string) returns (a: State, acts: seq<Action>)
    ensures Init(a) && a.cfg == cfg && a.now == SECOND - 1 && Valid(a, acts) && NoFault(acts)
    ensures var b := Run(a, acts);
      b.cfg == cfg && b.now == a.now && b.procs == map[1 := Entering(email, "u", "late")] &&
      b.table == map[] && b.usedIds == {} && b.issued == {} && email in b.regs
  {
    a := Begin(cfg);
    var a1 := Apply(a, Register(0, email, "u", "old"));
    var a2 := Apply(a1, Register(1, email, "u", "late"));
    var a3 := Apply(a2, Call(0, Works("0")));
    var a4 := Apply(a3, Call(1, Works("1")));
    assert a4.procs == map[0 := Entering(email, "u", "old"), 1 := Entering(email, "u", "late")];
    acts := ActFirst(a4, Call(0, Works("0")), []);
    assert Apply(a4, Call(0, Works("0"))).procs == map[1 := Entering(email, "u", "late")];
    acts := ActFirst(a3, Call(1, Works("1")), acts);
    acts := ActFirst(a2, Call(0, Works("0")), acts);
    acts := ActFirst(a1, Register(1, email, "u", "late"), acts);
    acts := ActFirst(a, Register(0, email, "u", "old"), acts);
  }

  lemma CompletesTwo(a: State, p: Request, cs: seq<Choice>)
    requires |cs| == 2 && Exec(a, p, cs[0]).1.Some?
    requires Exec(Exec(a, p, cs[0]).0, Exec(a, p, cs[0]).1.value, cs[1]).1.None?
    ensures Completes(a, p, cs)
  {
    assert cs[1..][0] == cs[1];
  }

  /** While another registration waits, the email of the first has a verification token. */
  ghost predicate TokenBeside(a: State, email: string, token: Token) {
    a.procs == map[1 := Entering(email, "u", "late")] && a.table == map[] && a.usedIds == {} && email in a.regs &&
    token in a.issued && ParseToken(token, a.cfg.verifySecret, a.now) == Some(email)
  }

  lemma FirstIsAsked(a: State, email: string) returns (acts: seq<Action>, token: Token)
    requires a.procs == map[1 := Entering(email, "u", "late")] && a.now == SECOND - 1 && a.cfg.pendingTTL > 0
    requires a.table == map[] && a.usedIds == {} && a.issued == {} && email in a.regs
    ensures Valid(a, acts) && NoFault(acts) && TokenBeside(Run(a, acts), email, token)
  {
    var ask := [Works("0"), Works("1")];
    CompletesTwo(a, AskingVerification(email), ask);
    FinishTwo(a, AskingVerification(email), Works("0"), Works("1"));
    acts := RequestBeside(a, AskVerification(2, email), AskingVerification(email), ask);
    token := GenerateToken(email, a.cfg.verifySecret, a.cfg.pendingTTL, a.now);
  }

  /** The confirmation of the first registration, to the removal of its entry. */
  lemma FirstIsConfirmed(a: State, email: string, token: Token) returns (acts: seq<Action>)
    requires TokenBeside(a, email, token)
    ensures Valid(a, acts) && NoFault(acts)
    ensures Run(a, acts).procs == a.procs && Active(Run(a, acts).table, email)
  {
    var cs := [Works("0"), Works("1"), Works("2"), Works("3"), Works("4")];
    VerificationCompletes(a, email, a.now, cs);
    FinishKeepsPool(a, Verifying(email, a.now), cs);
    VerificationEffect(a, email, a.now, cs);
    acts := RequestBeside(a, Verify(3, token), Verifying(email, a.now), cs);
    assert Run(a, acts).table[cs[1].id] == Row(email, a.regs[email].hash);
  }

  lemma {:induction false} FinishKeepsPool(a: State, p: Request, cs: seq<Choice>)
    ensures Finish(a, p, cs).procs == a.procs
    decreases |cs|
  {
    if cs != [] {
      var (b, next) := Exec(a, p, cs[0]);
      ExecGrown(a, p, cs[0]);
      if next.Some? { FinishKeepsPool(b, next.value, cs[1..]); }
    }
  }

  lemma VerificationCompletes(a: State, email: string, parsed: nat, cs: seq<Choice>)
    requires PhaseOf(a, email).Pending? && |cs| == 5 && forall i :: 0 <= i < |cs| ==> cs[i].outcome.Done?
    ensures Completes(a, Verifying(email, parsed), cs)
  {
    var entry := a.regs[email];
    var a1 := Exec(a, Inserting(email, entry, parsed), cs[1]).0;
    var a2 := Exec(a1, Inserted(cs[1].id, email, entry, parsed), cs[2]).0;
    CompletesTwo(a2, Announcing(cs[1].id, email), cs[3..]);
    assert cs[1..][1..][1..] == cs[3..];
    assert Completes(a1, Inserted(cs[1].id, email, entry, parsed), cs[1..][1..]);
    assert Completes(a, Inserting(email, entry, parsed), cs[1..]);
  }

  /** Without a single fault: a registration that checked the email while it was free stores its entry after
      another registration of the email has been confirmed. No request is left to remove it. */
  lemma RegistrationRace(cfg: Config, email: string) returns (a: State, acts: seq<Action>)
    requires cfg.pendingTTL > 0
    ensures Reached(a, acts) && a.cfg == cfg && NoFault(acts)
    ensures Run(a, acts).procs == map[] && PhaseOf(Run(a, acts), email).Overlap?
  {
    a, acts := TwoRegister(cfg, email);
    var asked, token := FirstIsAsked(Run(a, acts), email);
    acts := ThenRun(a, acts, asked);
    var confirmed := FirstIsConfirmed(Run(a, acts), email, token);
    acts := ThenRun(a, acts, confirmed);
    var late := ActFirst(Run(a, acts), Call(1, Works("9")), []);
    acts := ThenRun(a, acts, late);
    assert Run(a, acts).procs == map[];
  }

  /** A verification has committed account "1" and has not sent its event yet. */
  ghost predicate Unannounced(a: State, email: string) {
    a.procs == map[0 := Announcing("1", email)] && "1" in a.table && a.table["1"].email == email && a.usedIds == {"1"}
  }

  lemma CommitsFirst(a: State, cfg: Config, email: string, token: Token) returns (acts: seq<Action>)
    requires TokenInHand(a, cfg, email, token)
    ensures Valid(a, acts) && NoFault(acts) && Unannounced(Run(a, acts), email)
  {
    var a1 := Apply(a, Verify(0, token));
    var a2 := Apply(a1, Call(0, Works("0")));
    var a3 := Apply(a2, Call(0, Works("1")));
    assert a3.procs[0] == Inserted("1", email, a.regs[email], a.now);
    acts := ActFirst(a3, Call(0, Works("2")), []);
    acts := ActFirst(a2, Call(0, Works("1")), acts);
    acts := ActFirst(a1, Call(0, Works("0")), acts);
    acts := ActFirst(a, Verify(0, token), acts);
  }

  lemma DeletionBeside(a: State, email: string) returns (acts: seq<Action>)
    requires Unannounced(a, email)
    ensures Valid(a, acts) && NoFault(acts) && Run(a, acts).procs == a.procs
    ensures Run(a, acts).trace == a.trace + [Deleted("1", email)] + [Removed("1", email)]
  {
    var cs := [Works("5"), Works("6"), Works("7"), Works("8")];
    var p := Reporting("1", email, Holding(true));
    assert cs[1..][1..] == [Works("7"), Works("8")];
    assert Finish(a, Deleting("1"), cs) == Finish(a, Removing("1", email), cs[1..]);
    assert Finish(a, Removing("1", email), cs[1..]) == Finish(a, p, cs[1..][1..]);
    FinishTwo(a, p, Works("7"), Works("8"));
    CompletesTwo(a, p, cs[1..][1..]);
    assert Completes(a, Removing("1", email), cs[1..]);
    acts := RequestBeside(a, Delete(1, "1"), Deleting("1"), cs);
  }

  /** An account is deleted, event and all, before the verification that created it
      sends its own event. */
  lemma CreatedAfterDeleted(cfg: Config, email: string) returns (a: State, acts: seq<Action>, id: string, i: nat)
    requires cfg.pendingTTL > 0
    ensures Reached(a, acts) && a.cfg == cfg
    ensures var trace := Run(a, acts).trace;
      i + 2 < |trace| && trace[i..] == [Deleted(id, email), Removed(id, email), Created(id, email)]
  {
    id := "1";
    var moves, token;
    a, moves, token := AsksForToken(cfg, email);
    acts := MovesAreRun(a, moves);
    var committed := CommitsFirst(Run(a, acts), cfg, email, token);
    AccountSystem.Concat(a, acts, committed);
    acts := acts + committed;
    i := |Run(a, acts).trace|;
    var deleted := DeletionBeside(Run(a, acts), email);
    AccountSystem.Concat(a, acts, deleted);
    acts := acts + deleted;
    var created := ActFirst(Run(a, acts), Call(0, Works("9")), []);
    AccountSystem.Concat(a, acts, created);
    acts := acts + created;
  }
}
