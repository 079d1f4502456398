/** The purposes of the two tokens are kept apart if and only if their secrets differ. */
module SecretsWitness {
  import opened Models
  import opened Jwt
  import opened AccountSystem
  import opened AccountSafety
  import opened Lifecycle

  function Works(id: string): Choice {
    Choice(Done, id, 0)
  }

  lemma FinishTwo(a: State, p: Request, c: Choice, d: Choice)
    requires Exec(a, p, c).1.Some?
    requires Exec(Exec(a, p, c).0, Exec(a, p, c).1.value, d).1.None?
    ensures Finish(a, p, [c, d]) == Exec(Exec(a, p, c).0, Exec(a, p, c).1.value, d).0
  {
    assert [c, d][1..] == [d];
  }

  /** A start just before a full second, so that the written expiry of any token is still to come. */
  function Begin(cfg: Config): State {
    State(cfg, SECOND - 1, map[], {}, map[], {}, [], map[])
  }

  lemma Registers(a: State, email: string)
    requires a == Begin(a.cfg)
    ensures var move := Serve(Register(0, email, "u", "old"), [Works("0"), Works("1")]);
      CanMove(a, move) &&
      Moved(a, move) == a.(regs := map[email := Entry("u", Bcrypt("old", 0), a.now + a.cfg.pendingTTL)],
                           trace := [Entered(email, Bcrypt("old", 0))])
  {
    FinishTwo(a, Registering(email, "u", "old"), Works("0"), Works("1"));
  }

  lemma AsksVerification(a: State, email: string)
    requires a.procs == map[] && a.table == map[] && a.usedIds == {} && email in a.regs && a.issued == {}
    ensures var move := Serve(AskVerification(0, email), [Works("0"), Works("1")]);
      CanMove(a, move) &&
      Moved(a, move) == a.(issued := {GenerateToken(email, a.cfg.verifySecret, a.cfg.pendingTTL, a.now)},
                           trace := a.trace + [AskedVerification(email, a.now, a.regs[email].expiry)])
  {
    FinishTwo(a, AskingVerification(email), Works("0"), Works("1"));
  }

  lemma VerifiesEmail(a: State, email: string, token: Token)
    requires a.procs == map[] && a.table == map[] && a.usedIds == {} && email in a.regs && token in a.issued
    requires ParseToken(token, a.cfg.verifySecret, a.now) == Some(email)
    ensures var move := Serve(Verify(0, token), [Works("0"), Works("1"), Works("2"), Works("3"), Works("4")]);
      var hash := a.regs[email].hash;
      CanMove(a, move) &&
      Moved(a, move) == a.(table := map["1" := Row(email, hash)], usedIds := {"1"}, regs := a.regs - {email},
                           trace := a.trace + [Committed("1", email, hash, a.now)] + [Created("1", email)])
  {
    var cs := [Works("0"), Works("1"), Works("2"), Works("3"), Works("4")];
    var entry := a.regs[email];
    assert cs[1..] == [Works("1"), Works("2"), Works("3"), Works("4")];
    assert cs[1..][1..] == [Works("2"), Works("3"), Works("4")];
    assert cs[1..][1..][1..] == [Works("3"), Works("4")];
    var a1 := Exec(a, Inserting(email, entry, a.now), Works("1")).0;
    var a2 := Exec(a1, Inserted("1", email, entry, a.now), Works("2")).0;
    assert Finish(a, Verifying(email, a.now), cs) == Finish(a, Inserting(email, entry, a.now), cs[1..]);
    assert Finish(a, Inserting(email, entry, a.now), cs[1..])
        == Finish(a1, Inserted("1", email, entry, a.now), cs[1..][1..]);
    assert Finish(a1, Inserted("1", email, entry, a.now), cs[1..][1..])
        == Finish(a2, Announcing("1", email), [Works("3"), Works("4")]);
    FinishTwo(a2, Announcing("1", email), Works("3"), Works("4"));
    assert a2.table == map["1" := Row(email, entry.hash)];
  }

  lemma ChangesPassword(a: State, email: string, token: Token)
    requires a.procs == map[] && a.usedIds == {"1"} && Active(a.table, email) && token in a.issued
    requires ParseToken(token, a.cfg.changeSecret, a.now) == Some(email)
    ensures var move := Serve(Change(0, token, "new"), [Works("5"), Works("6")]);
      CanMove(a, move) && Moved(a, move).trace == a.trace + [Changed(email, Bcrypt("new", 0), a.now)]
  {
    FinishTwo(a, Changing(email, "new", a.now), Works("5"), Works("6"));
  }

  /** One more move in front of a sequence of moves. */
  lemma MoveFirst(a: State, move: Move, rest: seq<Move>) returns (moves: seq<Move>)
    requires CanMove(a, move) && ValidMoves(Moved(a, move), rest)
    ensures ValidMoves(a, moves) && AfterMoves(a, moves) == AfterMoves(Moved(a, move), rest)
  {
    moves := [move] + rest;
    assert moves[1..] == rest;
  }

  /** From a state in which the email is registered and a token asked for: verify, then change. */
  lemma VerifyThenChange(a: State, email: string, token: Token) returns (moves: seq<Move>)
    requires a.procs == map[] && a.table == map[] && a.usedIds == {} && email in a.regs && token in a.issued
    requires a.cfg.verifySecret == a.cfg.changeSecret && ParseToken(token, a.cfg.verifySecret, a.now) == Some(email)
    ensures ValidMoves(a, moves)
    ensures AfterMoves(a, moves).trace ==
      a.trace + [Committed("1", email, a.regs[email].hash, a.now)] + [Created("1", email)]
              + [Changed(email, Bcrypt("new", 0), a.now)]
  {
    var verify := Serve(Verify(0, token), [Works("0"), Works("1"), Works("2"), Works("3"), Works("4")]);
    VerifiesEmail(a, email, token);
    var b := Moved(a, verify);
    assert b.table["1"].email == email;
    ChangesPassword(b, email, token);
    moves := MoveFirst(b, Serve(Change(0, token, "new"), [Works("5"), Works("6")]), []);
    moves := MoveFirst(a, verify, moves);
  }

  /** With equal secrets, a verification token changes a password nobody asked to change. */
  lemma EqualSecretsMixPurposes(cfg: Config, email: string) returns (a: State, moves: seq<Move>)
    requires !Distinct(cfg) && cfg.pendingTTL > 0
    ensures Init(a) && a.cfg == cfg && ValidMoves(a, moves)
    ensures exists hash, parsed :: Changed(email, hash, parsed) in AfterMoves(a, moves).trace
    ensures forall event :: event in AfterMoves(a, moves).trace ==> !event.AskedChange?
  {
    a := Begin(cfg);
    var register := Serve(Register(0, email, "u", "old"), [Works("0"), Works("1")]);
    var ask := Serve(AskVerification(0, email), [Works("0"), Works("1")]);
    Registers(a, email);
    var a1 := Moved(a, register);
    AsksVerification(a1, email);
    var a2 := Moved(a1, ask);
    moves := VerifyThenChange(a2, email, GenerateToken(email, cfg.verifySecret, cfg.pendingTTL, a.now));
    moves := MoveFirst(a1, ask, moves);
    moves := MoveFirst(a, register, moves);
    assert Changed(email, Bcrypt("new", 0), a.now) in AfterMoves(a, moves).trace;
  }

  /** In this run, a password changes only after a timely request to change it for an email found active. */
  ghost predicate ChangesAreAsked(trace: seq<Event>, ttl: nat) {
    forall i :: 0 <= i < |trace| && trace[i].Changed? ==> ChangeBefore(trace, i, trace[i].email, trace[i].parsed, ttl)
  }

  /** The same in every run under this configuration. */
  ghost predicate PurposesSeparate(cfg: Config) {
    forall a, acts :: Reached(a, acts) && a.cfg == cfg ==> ChangesAreAsked(Run(a, acts).trace, cfg.changeTTL)
  }

  lemma PurposesSeparateIff(cfg: Config)
    requires cfg.pendingTTL > 0
    ensures PurposesSeparate(cfg) <==> Distinct(cfg)
  {
    if Distinct(cfg) {
      forall a, acts | Reached(a, acts) && a.cfg == cfg ensures ChangesAreAsked(Run(a, acts).trace, cfg.changeTTL) {
        var trace := Run(a, acts).trace;
        forall i | 0 <= i < |trace| && trace[i].Changed?
          ensures ChangeBefore(trace, i, trace[i].email, trace[i].parsed, cfg.changeTTL)
        {
          PasswordChangesAreAsked(a, acts, i);
        }
      }
    } else {
      var a, moves := EqualSecretsMixPurposes(cfg, "e");
      var acts := MovesAreRun(a, moves);
      var trace := Run(a, acts).trace;
      var hash, parsed :| Changed("e", hash, parsed) in trace;
      var i :| 0 <= i < |trace| && trace[i] == Changed("e", hash, parsed);
      assert Reached(a, acts) && !ChangeBefore(trace, i, trace[i].email, trace[i].parsed, cfg.changeTTL);
    }
  }
}
