/** Pending and active at once, under every interleaving: an email is in both stores only while the
    verification that created its account is still on the way to removing the entry, in every run
    that avoids the steps named in `Careful`; and each of those steps does break it. */
module ConcurrentOverlap {
  import opened AccountSystem
  import opened AccountInvariant
  import opened AccountSafety
  import opened Lifecycle

  predicate Overlapping(a: State, email: string) {
    email in a.regs && Active(a.table, email)
  }

  /** The request committed an account of the email and has still to announce it or to forget the entry. */
  predicate Settling(p: Request, email: string) {
    (p.Announcing? || p.Forgetting?) && p.email == email
  }

  predicate SettlingElsewhere(a: State, pid: nat, email: string) {
    exists q :: q in a.procs && q != pid && Settling(a.procs[q], email)
  }

  /** An overlap is transient: a request is about to end it. */
  predicate OverlapIsTransient(a: State, email: string) {
    Overlapping(a, email) ==> exists pid :: pid in a.procs && Settling(a.procs[pid], email)
  }

  /** The calls after which nobody may be left to end an overlap: a SET for an email that has become
      active since it was checked, a commit reported as failed beside an entry, and a verification that
      stops before it has removed the entry. */
  predicate LeavesOverlap(a: State, p: Request, c: Choice, email: string) {
    match p
    case Entering(e, _, _) => e == email && c.outcome.Applied() && Active(a.table, email)
    case Inserted(_, e, _, _) => e == email && c.outcome.Unacknowledged? && email in a.regs
    case Announcing(_, e) => e == email && !c.outcome.Done? && Overlapping(a, email)
    case Forgetting(e) => e == email && !c.outcome.Applied() && Overlapping(a, email)
    case _ => false
  }

  predicate Careful(a: State, act: Action, email: string)
    requires Enabled(a, act)
  {
    match act
    case Call(pid, c) => LeavesOverlap(a, a.procs[pid], c, email) ==> SettlingElsewhere(a, pid, email)
    case Abort(pid) =>
      Settling(a.procs[pid], email) && Overlapping(a, email) ==> SettlingElsewhere(a, pid, email)
    case _ => true
  }

  // ---------------------------------------------------------------- one step

  /** After a call, the email is in both stores if it was before, unless the call ends that, or if the
      call brings the missing half. */
  lemma CallOverlaps(a: State, p: Request, c: Choice, email: string)
    requires RequestOk(a, p) && OneRowPerEmail(a)
    ensures Overlapping(Exec(a, p, c).0, email) <==>
      match p
      case Entering(e, _, _) =>
        Overlapping(a, email) || (e == email && c.outcome.Applied() && Active(a.table, email))
      case Inserted(_, e, _, _) =>
        Overlapping(a, email) || (e == email && c.outcome.Applied() && email in a.regs)
      case Forgetting(e) => Overlapping(a, email) && !(e == email && c.outcome.Applied())
      case Finishing(id, e, tx) => Overlapping(a, email) && !(e == email && c.outcome.Applied() && tx == Holding(true))
      case _ => Overlapping(a, email)
  {
    var b := Exec(a, p, c).0;
    match p {
      case Inserted(id, e, entry, _) => AddedRow(a.table, id, Row(e, entry.hash), email);
      case Finishing(id, _, tx) => if tx == Holding(true) { RemovedRow(a, id, email); }
      case Updating(_, _, _) => SameEmails(a, b, email);
      case _ =>
    }
  }

  /** Whether the caller itself will end an overlap after its call. */
  lemma CallerSettles(a: State, p: Request, c: Choice, email: string)
    ensures var next := Exec(a, p, c).1;
      (next.Some? && Settling(next.value, email)) <==>
      c.outcome.Done? && ((p.Inserted? && p.email == email) || (p.Announcing? && p.email == email))
  {
  }

  /** After a call, a request that settles the email is the caller or another one. */
  lemma SettlersAfterCall(a: State, pid: nat, c: Choice, email: string)
    requires Enabled(a, Call(pid, c))
    ensures var b, next := Apply(a, Call(pid, c)), Exec(a, a.procs[pid], c).1;
      (exists q :: q in b.procs && Settling(b.procs[q], email)) <==>
      SettlingElsewhere(a, pid, email) || (next.Some? && Settling(next.value, email))
  {
    var b, next := Apply(a, Call(pid, c)), Exec(a, a.procs[pid], c).1;
    ExecGrown(a, a.procs[pid], c);
    if SettlingElsewhere(a, pid, email) {
      var q :| q in a.procs && q != pid && Settling(a.procs[q], email);
      assert b.procs[q] == a.procs[q];
    }
    if next.Some? && Settling(next.value, email) { assert b.procs[pid] == next.value; }
    if q :| q in b.procs && Settling(b.procs[q], email) {
      assert q != pid ==> b.procs[q] == a.procs[q];
    }
  }

  lemma CallIff(a: State, pid: nat, c: Choice, email: string)
    requires Inv(a) && Enabled(a, Call(pid, c)) && OverlapIsTransient(a, email)
    ensures OverlapIsTransient(Apply(a, Call(pid, c)), email) <==> Careful(a, Call(pid, c), email)
  {
    var p := a.procs[pid];
    assert RequestOk(a, p);
    ActiveIsReplayed(a, email);
    CallOverlaps(a, p, c, email);
    CallerSettles(a, p, c, email);
    SettlersAfterCall(a, pid, c, email);
    if Overlapping(a, email) && !Settling(p, email) {
      var q :| q in a.procs && Settling(a.procs[q], email);
      assert q != pid;
    }
  }

  lemma AbortIff(a: State, pid: nat, email: string)
    requires pid in a.procs && OverlapIsTransient(a, email)
    ensures OverlapIsTransient(Apply(a, Abort(pid)), email) <==> Careful(a, Abort(pid), email)
  {
    var b := Apply(a, Abort(pid));
    if Overlapping(a, email) {
      var q :| q in a.procs && Settling(a.procs[q], email);
      assert q != pid ==> b.procs[q] == a.procs[q];
    }
    if SettlingElsewhere(a, pid, email) {
      var q :| q in a.procs && q != pid && Settling(a.procs[q], email);
      assert b.procs[q] == a.procs[q];
    }
    if q :| q in b.procs && Settling(b.procs[q], email) { assert q != pid && b.procs[q] == a.procs[q]; }
  }

  lemma QuietStays(a: State, act: Action, email: string)
    requires Enabled(a, act) && !act.Call? && !act.Abort? && OverlapIsTransient(a, email)
    ensures OverlapIsTransient(Apply(a, act), email)
  {
    if Overlapping(Apply(a, act), email) {
      var q :| q in a.procs && Settling(a.procs[q], email);
      assert Apply(a, act).procs[q] == a.procs[q];
    }
  }

  /** A step leaves every overlap of the email transient if and only if it is careful. */
  lemma StepOverlapIff(a: State, act: Action, email: string)
    requires Inv(a) && Enabled(a, act) && OverlapIsTransient(a, email)
    ensures OverlapIsTransient(Apply(a, act), email) <==> Careful(a, act, email)
  {
    match act {
      case Call(pid, c) => CallIff(a, pid, c, email);
      case Abort(pid) => AbortIff(a, pid, email);
      case _ => QuietStays(a, act, email);
    }
  }

  // ---------------------------------------------------------------- runs

  predicate CarefulRun(a: State, acts: seq<Action>, email: string)
    requires Valid(a, acts)
    decreases |acts|
  {
    acts == [] || (Careful(a, acts[0], email) && CarefulRun(Apply(a, acts[0]), acts[1..], email))
  }

  /** In every state of the run, an overlap of the email is transient. */
  predicate AlwaysTransient(a: State, acts: seq<Action>, email: string)
    requires Valid(a, acts)
    decreases |acts|
  {
    OverlapIsTransient(a, email) && (acts == [] || AlwaysTransient(Apply(a, acts[0]), acts[1..], email))
  }

  lemma {:induction false} TransientIff(a: State, acts: seq<Action>, email: string)
    requires Inv(a) && Valid(a, acts) && OverlapIsTransient(a, email)
    ensures AlwaysTransient(a, acts, email) <==> CarefulRun(a, acts, email)
    decreases |acts|
  {
    if acts != [] {
      StepOverlapIff(a, acts[0], email);
      AccountInvariant.StepInv(a, acts[0]);
      if Careful(a, acts[0], email) { TransientIff(Apply(a, acts[0]), acts[1..], email); }
    }
  }

  lemma {:induction false} LastIsTransient(a: State, acts: seq<Action>, email: string)
    requires Valid(a, acts) && AlwaysTransient(a, acts, email)
    ensures OverlapIsTransient(Run(a, acts), email)
    decreases |acts|
  {
    if acts != [] { LastIsTransient(Apply(a, acts[0]), acts[1..], email); }
  }

  /** With any number of concurrent requests and any faults: in all states of a run an email is pending and
      active at once only while the verification that committed its account is still running, if and only
      if every step of the run is careful. */
  lemma OverlapsAreTransientIff(a: State, acts: seq<Action>, email: string)
    requires Reached(a, acts)
    ensures AlwaysTransient(a, acts, email) <==> CarefulRun(a, acts, email)
    ensures CarefulRun(a, acts, email) && PhaseOf(Run(a, acts), email).Overlap? ==>
              exists pid :: pid in Run(a, acts).procs && Settling(Run(a, acts).procs[pid], email)
  {
    InitInv(a);
    TransientIff(a, acts, email);
    if CarefulRun(a, acts, email) { LastIsTransient(a, acts, email); }
  }
}
