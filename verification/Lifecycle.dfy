/** The service one request at a time: per email a machine absent -> pending -> active -> absent. */
module Lifecycle {
  import opened Models
  import opened Jwt
  import opened AccountSystem
  import opened AccountInvariant

  /** A request run alone; one choice per external call, and it stops early if they run out. */
  function Finish(a: State, p: Request, cs: seq<Choice>): State
    decreases |cs|
  {
    if cs == [] then a
    else
      var (b, next) := Exec(a, p, cs[0]);
      if next.None? then b else Finish(b, next.value, cs[1..])
  }

  // ---------------------------------------------------------------- a request alone is a run

  /** The uuids the database hands out are new. */
  predicate FreshIds(a: State, cs: seq<Choice>) {
    forall i :: 0 <= i < |cs| ==> cs[i].id !in a.usedIds
  }

  lemma UsedOnlyOnce(a: State, p: Request, c: Choice, cs: seq<Choice>)
    requires FreshIds(a, cs) && (p.Inserting? ==> forall i :: 0 <= i < |cs| ==> cs[i].id != c.id)
    ensures FreshIds(Exec(a, p, c).0, cs)
  {
  }

  predicate AllDifferent(cs: seq<Choice>) {
    forall i, j :: 0 <= i < j < |cs| ==> cs[i].id != cs[j].id
  }

  /** The other requests hold no row and no email. */
  predicate Unobstructed(a: State) {
    forall q :: q in a.procs ==> !a.procs[q].Inserted? && !a.procs[q].Reporting? && !a.procs[q].Finishing?
  }

  /** The choices last until the request ends. */
  predicate Completes(a: State, p: Request, cs: seq<Choice>)
    decreases |cs|
  {
    cs != [] &&
    var (b, next) := Exec(a, p, cs[0]);
    next.None? || Completes(b, next.value, cs[1..])
  }

  /** Only calls with these choices, all of the request, and no abort if it completes. */
  predicate CallsOf(acts: seq<Action>, pid: nat, cs: seq<Choice>, completes: bool) {
    forall i :: 0 <= i < |acts| ==>
      (acts[i].Call? && acts[i].pid == pid && acts[i].choice in cs) || (acts[i] == Abort(pid) && !completes)
  }

  /** Beside requests that hold nothing, a request is never blocked: running it alone is a run of the system. */
  lemma {:induction false} FinishIsRun(a: State, pid: nat, p: Request, cs: seq<Choice>) returns (acts: seq<Action>)
    requires pid !in a.procs && Unobstructed(a) && FreshIds(a, cs) && AllDifferent(cs)
    ensures Valid(a.(procs := a.procs[pid := p]), acts)
    ensures Run(a.(procs := a.procs[pid := p]), acts) == Finish(a, p, cs)
    ensures CallsOf(acts, pid, cs, Completes(a, p, cs))
    decreases |cs|
  {
    var start := a.(procs := a.procs[pid := p]);
    if cs == [] {
      acts := [Abort(pid)];
      assert acts[1..] == [];
      assert Apply(start, Abort(pid)) == a;
    } else {
      var (b, next) := Exec(a, p, cs[0]);
      CallAlone(a, pid, p, cs[0]);
      if next.None? {
        acts := [Call(pid, cs[0])];
        assert acts[1..] == [];
      } else {
        UsedOnlyOnce(a, p, cs[0], cs[1..]);
        ExecGrown(a, p, cs[0]);
        var rest := FinishIsRun(b, pid, next.value, cs[1..]);
        acts := [Call(pid, cs[0])] + rest;
        assert acts[1..] == rest;
      }
    }
  }

  lemma AlonePool(b: State, pid: nat, p: Request, next: Option<Request>)
    requires pid !in b.procs
    ensures Continue(b.(procs := b.procs[pid := p]), pid, next)
         == if next.None? then b else b.(procs := b.procs[pid := next.value])
  {
    assert b.procs[pid := p] - {pid} == b.procs;
    if next.Some? { assert b.procs[pid := p][pid := next.value] == b.procs[pid := next.value]; }
  }

  lemma ExecIgnoresPool(a: State, p: Request, c: Choice, procs: map<nat, Request>)
    ensures Exec(a.(procs := procs), p, c) == (Exec(a, p, c).0.(procs := procs), Exec(a, p, c).1)
  {
  }

  lemma CallAlone(a: State, pid: nat, p: Request, c: Choice)
    requires pid !in a.procs && Unobstructed(a) && c.id !in a.usedIds
    ensures var start := a.(procs := a.procs[pid := p]);
      Enabled(start, Call(pid, c)) &&
      Apply(start, Call(pid, c)) ==
        (var (b, next) := Exec(a, p, c); if next.None? then b else b.(procs := b.procs[pid := next.value]))
  {
    var start := a.(procs := a.procs[pid := p]);
    NotBlocked(start, pid);
    ExecIgnoresPool(a, p, c, start.procs);
    ExecGrown(a, p, c);
    AlonePool(Exec(a, p, c).0, pid, p, Exec(a, p, c).1);
  }

  /** A request that is the only one to hold anything is not blocked by itself. */
  lemma NotBlocked(a: State, pid: nat)
    requires pid in a.procs
    requires forall q :: q in a.procs && q != pid ==>
               !a.procs[q].Inserted? && !a.procs[q].Reporting? && !a.procs[q].Finishing?
    ensures !Blocked(a, a.procs[pid])
  {
  }

  // ---------------------------------------------------------------- phases

  datatype Phase = Absent | Pending | Activated | Overlap

  function PhaseOf(a: State, email: string): Phase {
    if email in a.regs then (if Active(a.table, email) then Overlap else Pending)
    else (if Active(a.table, email) then Activated else Absent)
  }

  /** Calls of a verification: entry read, INSERT, COMMIT, AccountCreated, entry removed. */
  predicate CommitApplies(cs: seq<Choice>) {
    |cs| >= 3 && cs[0].outcome.Done? && cs[1].outcome.Done? && cs[2].outcome.Applied()
  }

  predicate EntryRemoved(cs: seq<Choice>) {
    CommitApplies(cs) && cs[2].outcome.Done? &&
    |cs| >= 5 && cs[3].outcome.Done? && cs[4].outcome.Applied()
  }

  /** Table, cache and history after a verification of `email`. */
  lemma VerificationEffect(a: State, email: string, parsed: nat, cs: seq<Choice>)
    ensures var b := Finish(a, Verifying(email, parsed), cs);
      if PhaseOf(a, email).Pending? && CommitApplies(cs)
      then b.table == a.table[cs[1].id := Row(email, a.regs[email].hash)] &&
           b.regs == (if EntryRemoved(cs) then a.regs - {email} else a.regs) &&
           b.trace == a.trace + [Committed(cs[1].id, email, a.regs[email].hash, parsed)] +
                      (if Announced(cs) then [Created(cs[1].id, email)] else [])
      else b.table == a.table && b.regs == a.regs && b.trace == a.trace
    ensures Finish(a, Verifying(email, parsed), cs).now == a.now
  {
    if |cs| >= 1 && cs[0].outcome.Done? && email in a.regs {
      var entry := a.regs[email];
      InsertionEffect(a, email, entry, parsed, cs[1..]);
    }
  }

  /** The event is sent once the commit is known to have worked. */
  predicate Announced(cs: seq<Choice>) {
    CommitApplies(cs) && cs[2].outcome.Done? && |cs| >= 4 && cs[3].outcome.Applied()
  }

  lemma InsertionEffect(a: State, email: string, entry: Entry, parsed: nat, cs: seq<Choice>)
    ensures var b := Finish(a, Inserting(email, entry, parsed), cs);
      b.now == a.now &&
      if |cs| >= 2 && cs[0].outcome.Done? && cs[1].outcome.Applied() && !Active(a.table, email)
      then b.table == a.table[cs[0].id := Row(email, entry.hash)] &&
           b.regs == (if cs[1].outcome.Done? && |cs| >= 4 && cs[2].outcome.Done? && cs[3].outcome.Applied()
                      then a.regs - {email} else a.regs) &&
           b.trace == a.trace + [Committed(cs[0].id, email, entry.hash, parsed)] +
                      (if cs[1].outcome.Done? && |cs| >= 3 && cs[2].outcome.Applied()
                       then [Created(cs[0].id, email)] else [])
      else b.table == a.table && b.regs == a.regs && b.trace == a.trace
  {
    if |cs| >= 2 && cs[0].outcome.Done? && !Active(a.table, email) {
      var a1 := Exec(a, Inserting(email, entry, parsed), cs[0]).0;
      var p1 := Inserted(cs[0].id, email, entry, parsed);
      assert Finish(a, Inserting(email, entry, parsed), cs) == Finish(a1, p1, cs[1..]);
      if cs[1].outcome.Applied() {
        var a2 := Exec(a1, p1, cs[1]).0;
        if cs[1].outcome.Done? { AnnouncementEffect(a2, cs[0].id, email, cs[1..][1..]); }
      }
    }
  }

  lemma AnnouncementEffect(a: State, id: string, email: string, cs: seq<Choice>)
    ensures var b := Finish(a, Announcing(id, email), cs);
      b.table == a.table && b.now == a.now &&
      b.regs == (if |cs| >= 2 && cs[0].outcome.Done? && cs[1].outcome.Applied() then a.regs - {email} else a.regs) &&
      b.trace == a.trace + (if |cs| >= 1 && cs[0].outcome.Applied() then [Created(id, email)] else [])
  {
    if |cs| >= 2 && cs[0].outcome.Done? {
      assert cs[1..][0] == cs[1];
    }
  }

  lemma RegistrationEffect(a: State, email: string, username: string, password: string, cs: seq<Choice>)
    ensures var b := Finish(a, Registering(email, username, password), cs);
      b.table == a.table && b.now == a.now &&
      b.regs == (if |cs| >= 2 && cs[0].outcome.Done? && email !in a.regs && cs[1].outcome.Applied()
                 then a.regs[email := Entry(username, Bcrypt(password, cs[1].salt), a.now + a.cfg.pendingTTL)]
                 else a.regs)
  {
  }

  predicate RemovalApplies(cs: seq<Choice>) {
    |cs| >= 4 && cs[0].outcome.Done? && cs[1].outcome.Done? && cs[2].outcome.Done? && cs[3].outcome.Applied()
  }

  /** AccountDeleted is sent, also when the DELETE failed and its rollback was returned. */
  predicate Reported(cs: seq<Choice>) {
    |cs| >= 3 && cs[0].outcome.Done? && cs[2].outcome.Applied()
  }

  lemma DeletionEffect(a: State, id: string, cs: seq<Choice>)
    ensures var b := Finish(a, Deleting(id), cs);
      b.regs == a.regs && b.now == a.now &&
      b.table == (if id in a.table && RemovalApplies(cs) then a.table - {id} else a.table) &&
      b.trace == a.trace + (if id in a.table && Reported(cs) then [Deleted(id, a.table[id].email)] else []) +
                 (if id in a.table && RemovalApplies(cs) then [Removed(id, a.table[id].email)] else [])
  {
    if |cs| >= 2 && cs[0].outcome.Done? && id in a.table {
      var email := a.table[id].email;
      var tx := if cs[1].outcome.Done? then Holding(true) else NoTx;
      assert Finish(a, Deleting(id), cs) == Finish(a, Removing(id, email), cs[1..]);
      assert Finish(a, Removing(id, email), cs[1..]) == Finish(a, Reporting(id, email, tx), cs[1..][1..]);
      ReportEffect(a, id, email, tx, cs[1..][1..]);
    }
  }

  lemma ReportEffect(a: State, id: string, email: string, tx: Tx, cs: seq<Choice>)
    ensures var b := Finish(a, Reporting(id, email, tx), cs);
      var removed := |cs| >= 2 && cs[0].outcome.Done? && cs[1].outcome.Applied() && tx == Holding(true);
      b.regs == a.regs && b.now == a.now &&
      b.table == (if removed then a.table - {id} else a.table) &&
      b.trace == a.trace + (if |cs| >= 1 && cs[0].outcome.Applied() then [Deleted(id, email)] else []) +
                 (if removed then [Removed(id, email)] else [])
  {
    if |cs| >= 2 && cs[0].outcome.Done? { assert cs[1..][0] == cs[1]; }
  }

  /** After a password change whose UPDATE applied, the account of the email accepts the new password and no
      other; every other row, and every row after any other outcome, is as it was. */
  lemma PasswordEffect(a: State, email: string, password: string, parsed: nat, cs: seq<Choice>)
    ensures var b := Finish(a, Changing(email, password, parsed), cs);
      var changed := |cs| >= 2 && cs[0].outcome.Done? && cs[1].outcome.Applied() && Active(a.table, email);
      && b.table.Keys == a.table.Keys && b.regs == a.regs && b.issued == a.issued
      && (!changed ==> b.table == a.table && b.trace == a.trace)
      && (forall id :: id in a.table && a.table[id].email != email ==> b.table[id] == a.table[id])
      && (changed ==> forall id :: id in a.table && a.table[id].email == email ==>
            b.table[id].email == email && forall p :: Matches(b.table[id].hash, p) <==> p == password)
  {
    if |cs| >= 2 { assert cs[1..][0] == cs[1]; }
  }

  /** The token parses for the email under the secret, until it expires. */
  ghost predicate Opens(token: Token, secret: string, email: string, expiry: nat) {
    forall t: nat :: ParseToken(token, secret, t) == if t < expiry then Some(email) else None
  }

  /** A change token is issued for the email, good until the last whole second of its lifetime, and nothing else
      happens but the record of it. */
  lemma ChangeTokenEffect(a: State, email: string, cs: seq<Choice>)
    requires |cs| >= 1
    ensures var b := Finish(a, IssuingChange(email), cs);
      if cs[0].outcome.Applied() then
        b.trace == a.trace + [AskedChange(email, a.now)] && b.table == a.table && b.regs == a.regs &&
        a.issued <= b.issued &&
        exists token :: token in b.issued && Opens(token, a.cfg.changeSecret, email, Truncate(a.now + a.cfg.changeTTL))
      else b == a
  {
    var token := GenerateToken(email, a.cfg.changeSecret, a.cfg.changeTTL, a.now);
    assert Opens(token, a.cfg.changeSecret, email, Truncate(a.now + a.cfg.changeTTL));
  }

  /** A verification token is issued for a pending email, with the lifetime of entries. */
  lemma VerificationTokenEffect(a: State, email: string, cs: seq<Choice>)
    requires |cs| >= 2
    ensures var b := Finish(a, AskingVerification(email), cs);
      if cs[0].outcome.Done? && email in a.regs && cs[1].outcome.Applied() then
        b.trace == a.trace + [AskedVerification(email, a.now, a.regs[email].expiry)] &&
        b.table == a.table && b.regs == a.regs && a.issued <= b.issued &&
        exists token :: token in b.issued && Opens(token, a.cfg.verifySecret, email, Truncate(a.now + a.cfg.pendingTTL))
      else b == a
  {
    assert cs[1..][0] == cs[1];
    var token := GenerateToken(email, a.cfg.verifySecret, a.cfg.pendingTTL, a.now);
    assert Opens(token, a.cfg.verifySecret, email, Truncate(a.now + a.cfg.pendingTTL));
  }

  /** Requests about tokens and passwords change no email, no entry and not the clock. */
  lemma OtherEffect(a: State, p: Request, cs: seq<Choice>)
    requires p.AskingVerification? || p.IssuingVerification? || p.IssuingChange? ||
             p.Changing? || p.Updating? || p.SignedIn?
    ensures var b := Finish(a, p, cs);
      b.regs == a.regs && b.now == a.now && b.table.Keys == a.table.Keys &&
      forall id :: id in a.table ==> b.table[id].email == a.table[id].email
    decreases |cs|
  {
    if cs != [] {
      var (b, next) := Exec(a, p, cs[0]);
      if next.Some? { OtherEffect(b, next.value, cs[1..]); }
    }
  }

  // ---------------------------------------------------------------- sequential runs

  datatype Move = Pass(d: nat) | Serve(act: Action, cs: seq<Choice>)

  predicate CanMove(a: State, move: Move) {
    a.procs == map[] &&
    match move
    case Pass(_) => true
    case Serve(act, cs) =>
      Enabled(a, act) && !act.Tick? && !act.Call? && !act.Abort? && FreshIds(a, cs) && AllDifferent(cs)
  }

  function Moved(a: State, move: Move): State
    requires CanMove(a, move)
  {
    match move
    case Pass(d) => Apply(a, Tick(d))
    case Serve(act, cs) =>
      var started := Apply(a, act);
      Finish(started.(procs := map[]), started.procs[act.pid], cs)
  }

  predicate ValidMoves(a: State, moves: seq<Move>)
    decreases |moves|
  {
    moves == [] || (CanMove(a, moves[0]) && ValidMoves(Moved(a, moves[0]), moves[1..]))
  }

  function AfterMoves(a: State, moves: seq<Move>): State
    requires ValidMoves(a, moves)
    decreases |moves|
  {
    if moves == [] then a else AfterMoves(Moved(a, moves[0]), moves[1..])
  }

  /** A served request is a run of the concurrent system, so everything proved there holds here. */
  lemma MoveIsRun(a: State, move: Move) returns (acts: seq<Action>)
    requires CanMove(a, move)
    ensures Valid(a, acts) && Run(a, acts) == Moved(a, move)
  {
    match move {
      case Pass(d) =>
        acts := [Tick(d)];
        assert acts[1..] == [];
      case Serve(act, cs) =>
        var started := Apply(a, act);
        var p := started.procs[act.pid];
        assert started.(procs := map[]).procs[act.pid := p] == started.procs;
        var rest := FinishIsRun(started.(procs := map[]), act.pid, p, cs);
        acts := [act] + rest;
        assert acts[1..] == rest;
    }
  }

  lemma {:induction false} MovesAreRun(a: State, moves: seq<Move>) returns (acts: seq<Action>)
    requires ValidMoves(a, moves)
    ensures Valid(a, acts) && Run(a, acts) == AfterMoves(a, moves)
    decreases |moves|
  {
    acts := [];
    if moves != [] {
      var first := MoveIsRun(a, moves[0]);
      var rest := MovesAreRun(Moved(a, moves[0]), moves[1..]);
      Concat(a, first, rest);
      acts := first + rest;
    }
  }

  predicate Verifies(a: State, move: Move, email: string) {
    move.Serve? && move.act.Verify? && ParseToken(move.act.token, a.cfg.verifySecret, a.now) == Some(email)
  }

  /** A verification whose commit took effect while a later step was reported as failed. */
  predicate FaultyVerification(a: State, move: Move, email: string) {
    Verifies(a, move, email) && CommitApplies(move.cs) && !EntryRemoved(move.cs)
  }

  predicate Deletes(a: State, move: Move, email: string) {
    move.Serve? && move.act.Delete? && move.act.id in a.table && a.table[move.act.id].email == email
  }

  /** What a move means to the machine of one email. */
  datatype Input = Registration | Confirmation(forgotten: bool) | Deletion | Expiry | Nothing

  function InputOf(a: State, move: Move, email: string): Input {
    match move
    case Pass(d) => if email in a.regs && a.regs[email].expiry <= a.now + d then Expiry else Nothing
    case Serve(Register(_, e, _, _), cs) =>
      if e == email && |cs| >= 2 && cs[0].outcome.Done? && cs[1].outcome.Applied() then Registration else Nothing
    case Serve(Verify(_, token), cs) =>
      if Verifies(a, move, email) && CommitApplies(cs) then Confirmation(EntryRemoved(cs)) else Nothing
    case Serve(Delete(_, id), cs) => if Deletes(a, move, email) && RemovalApplies(cs) then Deletion else Nothing
    case Serve(_, _) => Nothing
  }

  /** The machine of one email: absent, pending, active, absent, with the overlap that a faulty
      confirmation leads to and that ends by a deletion or by the expiry of the entry. */
  function Next(from: Phase, input: Input): Phase {
    match (from, input)
    case (Absent, Registration) => Pending
    case (Pending, Confirmation(forgotten)) => if forgotten then Activated else Overlap
    case (Pending, Expiry) => Absent
    case (Activated, Deletion) => Absent
    case (Overlap, Deletion) => Pending
    case (Overlap, Expiry) => Activated
    case _ => from
  }

  function NextAll(from: Phase, inputs: seq<Input>): Phase
    decreases |inputs|
  {
    if inputs == [] then from else NextAll(Next(from, inputs[0]), inputs[1..])
  }

  function InputsOf(a: State, moves: seq<Move>, email: string): (inputs: seq<Input>)
    requires ValidMoves(a, moves)
    ensures |inputs| == |moves|
    decreases |moves|
  {
    if moves == [] then []
    else [InputOf(a, moves[0], email)] + InputsOf(Moved(a, moves[0]), moves[1..], email)
  }

  /** One row per email, which every reachable state has (`AccountSafety.OneAccountPerEmail`). */
  ghost predicate OneRowPerEmail(a: State) {
    forall i, j :: i in a.table && j in a.table && a.table[i].email == a.table[j].email ==> i == j
  }

  lemma AddedRow(table: map<string, Row>, id: string, row: Row, email: string)
    requires id !in table
    ensures Active(table[id := row], email) <==> Active(table, email) || email == row.email
  {
    if Active(table, email) {
      var i :| i in table && table[i].email == email;
      assert table[id := row][i].email == email;
    }
    assert table[id := row][id] == row;
  }

  lemma RemovedRow(a: State, id: string, email: string)
    requires OneRowPerEmail(a) && id in a.table
    ensures Active(a.table - {id}, email) <==> Active(a.table, email) && a.table[id].email != email
  {
    if Active(a.table, email) && a.table[id].email != email {
      var i :| i in a.table && a.table[i].email == email;
      assert (a.table - {id})[i].email == email;
    }
  }

  lemma SameEmails(a: State, b: State, email: string)
    requires b.table.Keys == a.table.Keys
    requires forall id :: id in a.table ==> b.table[id].email == a.table[id].email
    ensures Active(b.table, email) <==> Active(a.table, email)
  {
  }

  lemma VerificationNext(a: State, move: Move, email: string)
    requires CanMove(a, move) && move.Serve? && move.act.Verify? && a.table.Keys <= a.usedIds
    ensures PhaseOf(Moved(a, move), email) == Next(PhaseOf(a, email), InputOf(a, move, email))
    ensures email in a.regs && email in Moved(a, move).regs ==> Moved(a, move).regs[email] == a.regs[email]
  {
    var verified := ParseToken(move.act.token, a.cfg.verifySecret, a.now).value;
    var s := a.(procs := map[]);
    assert Apply(a, move.act).procs[move.act.pid] == Verifying(verified, a.now);
    assert Apply(a, move.act).(procs := map[]) == s;
    VerificationEffect(s, verified, a.now, move.cs);
    if PhaseOf(s, verified).Pending? && CommitApplies(move.cs) {
      AddedRow(a.table, move.cs[1].id, Row(verified, a.regs[verified].hash), email);
    }
  }

  lemma DeletionNext(a: State, move: Move, email: string)
    requires CanMove(a, move) && move.Serve? && move.act.Delete? && OneRowPerEmail(a)
    ensures PhaseOf(Moved(a, move), email) == Next(PhaseOf(a, email), InputOf(a, move, email))
    ensures Moved(a, move).regs == a.regs
  {
    var s := a.(procs := map[]);
    assert Apply(a, move.act).procs[move.act.pid] == Deleting(move.act.id);
    assert Apply(a, move.act).(procs := map[]) == s;
    DeletionEffect(s, move.act.id, move.cs);
    if move.act.id in a.table { RemovedRow(a, move.act.id, email); }
  }

  lemma RegistrationNext(a: State, move: Move, email: string)
    requires CanMove(a, move) && move.Serve? && move.act.Register?
    ensures PhaseOf(Moved(a, move), email) == Next(PhaseOf(a, email), InputOf(a, move, email))
    ensures email in a.regs && email in Moved(a, move).regs ==> Moved(a, move).regs[email] == a.regs[email]
  {
    var act := move.act;
    var s := a.(procs := map[]);
    assert Apply(a, act).procs[act.pid] == Registering(act.email, act.username, act.password);
    assert Apply(a, act).(procs := map[]) == s;
    RegistrationEffect(s, act.email, act.username, act.password, move.cs);
  }

  lemma OtherNext(a: State, move: Move, email: string)
    requires CanMove(a, move) && move.Serve?
    requires move.act.AskVerification? || move.act.AskChange? || move.act.Change? || move.act.SignIn?
    ensures PhaseOf(Moved(a, move), email) == Next(PhaseOf(a, email), InputOf(a, move, email))
    ensures Moved(a, move).regs == a.regs
  {
    var started := Apply(a, move.act);
    OtherEffect(started.(procs := map[]), started.procs[move.act.pid], move.cs);
    SameEmails(a, Moved(a, move), email);
  }

  /** Every served request and every passing of time takes every email exactly where the machine says,
      with every choice of outcomes; an entry that stays is never rewritten. */
  lemma MovesAlongMachine(a: State, move: Move, email: string)
    requires CanMove(a, move) && OneRowPerEmail(a) && a.table.Keys <= a.usedIds
    ensures PhaseOf(Moved(a, move), email) == Next(PhaseOf(a, email), InputOf(a, move, email))
    ensures email in a.regs && email in Moved(a, move).regs ==> Moved(a, move).regs[email] == a.regs[email]
  {
    if move.Serve? {
      match move.act {
        case Register(_, _, _, _) => RegistrationNext(a, move, email);
        case Verify(_, _) => VerificationNext(a, move, email);
        case Delete(_, _) => DeletionNext(a, move, email);
        case _ => OtherNext(a, move, email);
      }
    }
  }

  // ---------------------------------------------------------------- whole runs

  /** Every call answers and works, and there is an answer for every call. */
  predicate FaultFree(move: Move) {
    move.Serve? ==> |move.cs| >= 5 && forall i :: 0 <= i < |move.cs| ==> move.cs[i].outcome.Done?
  }

  /** Entries in the cache have not expired. */
  ghost predicate Unexpired(a: State) {
    a.cfg.pendingTTL > 0 && forall email :: email in a.regs ==> a.now < a.regs[email].expiry
  }

  lemma ExecUnexpired(a: State, p: Request, c: Choice)
    requires Unexpired(a)
    ensures Unexpired(Exec(a, p, c).0)
  {
  }

  lemma StepUnexpired(a: State, act: Action)
    requires Unexpired(a) && Enabled(a, act)
    ensures Unexpired(Apply(a, act))
  {
    if act.Call? { ExecUnexpired(a, a.procs[act.pid], act.choice); }
  }

  lemma {:induction false} RunUnexpired(a: State, acts: seq<Action>)
    requires Unexpired(a) && Valid(a, acts)
    ensures Unexpired(Run(a, acts))
    decreases |acts|
  {
    if acts != [] {
      StepUnexpired(a, acts[0]);
      RunUnexpired(Apply(a, acts[0]), acts[1..]);
    }
  }

  lemma MoveInv(a: State, move: Move)
    requires Inv(a) && Unexpired(a) && CanMove(a, move)
    ensures Inv(Moved(a, move)) && Unexpired(Moved(a, move))
    ensures OneRowPerEmail(a) && a.table.Keys <= a.usedIds
  {
    var acts := MoveIsRun(a, move);
    RunInv(a, acts);
    RunUnexpired(a, acts);
    ActiveIsReplayed(a, "");
  }

  /** What the phases depend on, in every state of the run. */
  ghost predicate Tame(a: State, moves: seq<Move>)
    requires ValidMoves(a, moves)
    decreases |moves|
  {
    OneRowPerEmail(a) && a.table.Keys <= a.usedIds && Unexpired(a) &&
    (moves == [] || Tame(Moved(a, moves[0]), moves[1..]))
  }

  lemma {:induction false} RunsAreTame(a: State, moves: seq<Move>)
    requires Inv(a) && Unexpired(a) && ValidMoves(a, moves)
    ensures Tame(a, moves)
    decreases |moves|
  {
    ActiveIsReplayed(a, "");
    if moves != [] {
      MoveInv(a, moves[0]);
      RunsAreTame(Moved(a, moves[0]), moves[1..]);
    }
  }

  lemma StartIsTame(a: State, moves: seq<Move>)
    requires Init(a) && a.cfg.pendingTTL > 0 && ValidMoves(a, moves)
    ensures Tame(a, moves)
  {
    InitInv(a);
    RunsAreTame(a, moves);
  }

  lemma {:induction false} TameAlongMachine(a: State, moves: seq<Move>, email: string)
    requires ValidMoves(a, moves) && Tame(a, moves)
    ensures PhaseOf(AfterMoves(a, moves), email) == NextAll(PhaseOf(a, email), InputsOf(a, moves, email))
    decreases |moves|
  {
    if moves != [] {
      MovesAlongMachine(a, moves[0], email);
      TameAlongMachine(Moved(a, moves[0]), moves[1..], email);
      assert InputsOf(a, moves, email)[1..] == InputsOf(Moved(a, moves[0]), moves[1..], email);
    }
  }

  /** The sequential service refines the machine: after any run, with any faults, the phase of an email
      is the one that the machine reaches on the inputs of the run. */
  lemma RunsAlongMachine(a: State, moves: seq<Move>, email: string)
    requires Init(a) && a.cfg.pendingTTL > 0 && ValidMoves(a, moves)
    ensures PhaseOf(AfterMoves(a, moves), email) == NextAll(Absent, InputsOf(a, moves, email))
  {
    StartIsTame(a, moves);
    TameAlongMachine(a, moves, email);
  }

  /** An overlap begins with a faulty confirmation of a pending email, and with nothing else. */
  lemma OverlapBeginsIff(a: State, move: Move, email: string)
    requires CanMove(a, move) && OneRowPerEmail(a) && a.table.Keys <= a.usedIds && !PhaseOf(a, email).Overlap?
    ensures PhaseOf(Moved(a, move), email).Overlap? <==>
            PhaseOf(a, email).Pending? && FaultyVerification(a, move, email)
  {
    MovesAlongMachine(a, move, email);
  }

  predicate Ending(input: Input) {
    input.Deletion? || input.Expiry?
  }

  /** Input `i` is a faulty confirmation of a pending email, and nothing has ended the overlap since. */
  predicate OverlapSince(from: Phase, inputs: seq<Input>, i: nat) {
    i < |inputs| && inputs[i] == Confirmation(false) && NextAll(from, inputs[..i]).Pending? &&
    forall j :: i < j < |inputs| ==> !Ending(inputs[j])
  }

  lemma OverlapShifts(from: Phase, inputs: seq<Input>, i: nat)
    requires inputs != [] && i < |inputs[1..]|
    ensures OverlapSince(from, inputs, i + 1) <==> OverlapSince(Next(from, inputs[0]), inputs[1..], i)
  {
    var tail := inputs[1..];
    assert inputs[..i + 1][1..] == tail[..i];
    assert forall j :: 0 <= j < |tail| ==> tail[j] == inputs[j + 1];
    if OverlapSince(Next(from, inputs[0]), tail, i) {
      forall j | i + 1 < j < |inputs| ensures !Ending(inputs[j]) { assert !Ending(tail[j - 1]); }
    }
    if OverlapSince(from, inputs, i + 1) {
      forall j | i < j < |tail| ensures !Ending(tail[j]) { assert !Ending(inputs[j + 1]); }
    }
  }

  lemma {:induction false} MachineOverlapIff(from: Phase, inputs: seq<Input>)
    ensures NextAll(from, inputs).Overlap? <==>
            (from.Overlap? && forall j :: 0 <= j < |inputs| ==> !Ending(inputs[j])) ||
            exists i: nat :: OverlapSince(from, inputs, i)
    decreases |inputs|
  {
    if inputs != [] {
      var to, tail := Next(from, inputs[0]), inputs[1..];
      MachineOverlapIff(to, tail);
      assert inputs[..0] == [];
      assert forall j :: 0 <= j < |tail| ==> tail[j] == inputs[j + 1];
      if NextAll(from, inputs).Overlap? {
        if i: nat :| OverlapSince(to, tail, i) {
          OverlapShifts(from, inputs, i);
        } else if from.Overlap? {
          forall j | 0 <= j < |inputs| ensures !Ending(inputs[j]) {
            if j > 0 { assert inputs[j] == tail[j - 1]; }
          }
        } else {
          assert OverlapSince(from, inputs, 0) by {
            forall j | 0 < j < |inputs| ensures !Ending(inputs[j]) { assert inputs[j] == tail[j - 1]; }
          }
        }
      }
      if i: nat :| OverlapSince(from, inputs, i) {
        if i == 0 {
          forall j | 0 <= j < |tail| ensures !Ending(tail[j]) { assert !Ending(inputs[j + 1]); }
        } else {
          OverlapShifts(from, inputs, i - 1);
        }
      }
    }
  }

  /** After a run from the start, an email is pending and active at once if and only if some move of the
      run was a faulty confirmation of the then pending email, and since then neither the account was
      deleted nor the entry expired. */
  lemma OverlapIff(a: State, moves: seq<Move>, email: string)
    requires Init(a) && a.cfg.pendingTTL > 0 && ValidMoves(a, moves)
    ensures PhaseOf(AfterMoves(a, moves), email).Overlap? <==>
            exists i: nat :: OverlapSince(Absent, InputsOf(a, moves, email), i)
  {
    RunsAlongMachine(a, moves, email);
    MachineOverlapIff(Absent, InputsOf(a, moves, email));
  }

  lemma {:induction false} NoOverlapStaysAway(a: State, moves: seq<Move>, email: string)
    requires ValidMoves(a, moves) && Tame(a, moves)
    requires forall i :: 0 <= i < |moves| ==> FaultFree(moves[i])
    requires !PhaseOf(a, email).Overlap?
    ensures !PhaseOf(AfterMoves(a, moves), email).Overlap?
    decreases |moves|
  {
    if moves != [] {
      MovesAlongMachine(a, moves[0], email);
      assert FaultFree(moves[0]);
      NoOverlapStaysAway(Moved(a, moves[0]), moves[1..], email);
    }
  }

  /** Without faults no email is ever pending and active at once: by `RunsAlongMachine` the run stays
      within absent -> pending -> active -> absent, and pending -> absent by expiry. */
  lemma FaultFreeNeverOverlaps(a: State, moves: seq<Move>, email: string)
    requires Init(a) && a.cfg.pendingTTL > 0
    requires ValidMoves(a, moves) && forall i :: 0 <= i < |moves| ==> FaultFree(moves[i])
    ensures !PhaseOf(AfterMoves(a, moves), email).Overlap?
  {
    StartIsTame(a, moves);
    NoOverlapStaysAway(a, moves, email);
  }

  /** `i` moves into the run, a faulty verification of the email met this very entry in the cache. */
  ghost predicate OverlapStarted(a: State, moves: seq<Move>, email: string, i: nat, entry: Entry)
    requires ValidMoves(a, moves)
    decreases |moves|
  {
    i < |moves| &&
    if i == 0 then FaultyVerification(a, moves[0], email) && email in a.regs && a.regs[email] == entry
    else OverlapStarted(Moved(a, moves[0]), moves[1..], email, i - 1, entry)
  }

  /** An overlap at the end started somewhere in the run, or is the one the run started with. */
  lemma {:induction false} OverlapSource(a: State, moves: seq<Move>, email: string) returns (i: Option<nat>)
    requires ValidMoves(a, moves) && Tame(a, moves)
    requires PhaseOf(AfterMoves(a, moves), email).Overlap?
    ensures var b := AfterMoves(a, moves);
      b.now < b.regs[email].expiry &&
      (i.None? ==> PhaseOf(a, email).Overlap? && b.regs[email] == a.regs[email]) &&
      (i.Some? ==> OverlapStarted(a, moves, email, i.value, b.regs[email]))
    decreases |moves|
  {
    if moves == [] {
      i := None;
    } else {
      var t := Moved(a, moves[0]);
      var k := OverlapSource(t, moves[1..], email);
      MovesAlongMachine(a, moves[0], email);
      if k.Some? {
        i := Some(k.value + 1);
      } else if PhaseOf(a, email).Overlap? {
        i := None;
      } else {
        i := Some(0);
      }
    }
  }

  /** An email that is pending and active at once got there by a verification whose commit worked and
      whose later step was reported as failed, with the very entry that is still in the cache; the
      entry has not been extended since, so the overlap ends no later than the expiry it had then. */
  lemma OverlapHasCause(a: State, moves: seq<Move>, email: string) returns (i: nat)
    requires Init(a) && a.cfg.pendingTTL > 0
    requires ValidMoves(a, moves) && PhaseOf(AfterMoves(a, moves), email).Overlap?
    ensures var b := AfterMoves(a, moves);
      b.now < b.regs[email].expiry && OverlapStarted(a, moves, email, i, b.regs[email])
  {
    StartIsTame(a, moves);
    var source := OverlapSource(a, moves, email);
    i := source.value;
  }
}
