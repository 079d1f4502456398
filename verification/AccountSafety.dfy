/** What every run of the account system keeps: any number of concurrent requests, any faults. */
module AccountSafety {
  import opened Models
  import opened Jwt
  import opened AccountSystem
  import opened AccountInvariant

  ghost predicate Reached(a: State, acts: seq<Action>) {
    Init(a) && Valid(a, acts)
  }

  lemma ReachedInv(a: State, acts: seq<Action>)
    requires Reached(a, acts)
    ensures Inv(Run(a, acts)) && Run(a, acts).cfg == a.cfg
  {
    InitInv(a);
    RunInv(a, acts);
    SameConfig(a, acts);
  }

  lemma {:induction false} SameConfig(a: State, acts: seq<Action>)
    requires Valid(a, acts)
    ensures Run(a, acts).cfg == a.cfg
    decreases |acts|
  {
    if acts != [] {
      StepGrown(a, acts[0]);
      SameConfig(Apply(a, acts[0]), acts[1..]);
    }
  }

  // ---------------------------------------------------------------- commits and events

  /** Event `i` is preceded by the commit of the account with this id and email. */
  ghost predicate CommitBefore(trace: seq<Event>, i: nat, id: string, email: string) {
    exists j :: 0 <= j < i < |trace| && trace[j].Committed? && trace[j].id == id && trace[j].email == email
  }

  ghost predicate ReportBefore(trace: seq<Event>, i: nat, id: string, email: string) {
    exists j :: 0 <= j < i < |trace| && trace[j] == Deleted(id, email)
  }

  lemma FindCommit(trace: seq<Event>, i: nat, id: string, email: string)
    requires i < |trace| && CommittedAs(trace[..i], id, email)
    ensures CommitBefore(trace, i, id, email)
  {
    var hash, parsed :| Committed(id, email, hash, parsed) in trace[..i];
    var j :| 0 <= j < i && trace[..i][j] == Committed(id, email, hash, parsed);
    assert trace[j] == trace[..i][j];
  }

  /** Every AccountCreated and every AccountDeleted message names an account committed before it, with
      the email of that commit; AccountCreated is sent once per id; every committed deletion comes after
      an AccountDeleted message for it, and an id is deleted once. */
  lemma EventSafety(a: State, acts: seq<Action>)
    requires Reached(a, acts)
    ensures var trace := Run(a, acts).trace;
      && (forall i :: 0 <= i < |trace| && (trace[i].Created? || trace[i].Deleted?) ==>
            CommitBefore(trace, i, trace[i].id, trace[i].email))
      && (forall i :: 0 <= i < |trace| && trace[i].Removed? ==> ReportBefore(trace, i, trace[i].id, trace[i].email))
      && (forall i, j :: 0 <= i < j < |trace| && trace[i].Created? && trace[j].Created? ==> trace[i].id != trace[j].id)
      && (forall i, j :: 0 <= i < j < |trace| && trace[i].Removed? && trace[j].Removed? ==> trace[i].id != trace[j].id)
  {
    ReachedInv(a, acts);
    var trace := Run(a, acts).trace;
    forall i | 0 <= i < |trace| && (trace[i].Created? || trace[i].Deleted?)
      ensures CommitBefore(trace, i, trace[i].id, trace[i].email)
    {
      assert EventOk(a.cfg, trace[..i], trace[i]);
      FindCommit(trace, i, trace[i].id, trace[i].email);
    }
    forall i | 0 <= i < |trace| && trace[i].Removed? ensures ReportBefore(trace, i, trace[i].id, trace[i].email) {
      assert EventOk(a.cfg, trace[..i], trace[i]);
      var j :| 0 <= j < i && trace[..i][j] == Deleted(trace[i].id, trace[i].email);
      assert trace[j] == trace[..i][j];
    }
    forall i, j | 0 <= i < j < |trace| &&
      ((trace[i].Created? && trace[j].Created?) || (trace[i].Removed? && trace[j].Removed?))
      ensures trace[i].id != trace[j].id
    {
      SentOnce(a.cfg, trace, i, j);
    }
  }

  lemma SentOnce(cfg: Config, trace: seq<Event>, i: nat, j: nat)
    requires Ordered(cfg, trace) && i < j < |trace|
    requires (trace[i].Created? && trace[j].Created?) || (trace[i].Removed? && trace[j].Removed?)
    ensures trace[i].id != trace[j].id
  {
    assert EventOk(cfg, trace[..j], trace[j]);
    assert trace[..j][i] == trace[i];
    assert trace[i] in trace[..j];
  }

  /** The ids in the table are exactly those committed and not deleted since. */
  lemma TableIsHistory(a: State, acts: seq<Action>, id: string)
    requires Reached(a, acts)
    ensures var b := Run(a, acts);
      id in b.table <==> WasCommitted(b.trace, id) && !WasRemoved(b.trace, id)
  {
    ReachedInv(a, acts);
  }

  // ---------------------------------------------------------------- concurrent verification

  /** At most one account per email is committed at a time, at most one INSERT of an email is open,
      and an open INSERT means that no account with this email is committed. */
  lemma OneAccountPerEmail(a: State, acts: seq<Action>)
    requires Reached(a, acts)
    ensures var b := Run(a, acts);
      && (forall i, j :: i in b.table && j in b.table && b.table[i].email == b.table[j].email ==> i == j)
      && (forall p, q :: p in b.procs && q in b.procs && b.procs[p].Inserted? && b.procs[q].Inserted? && p != q ==>
            b.procs[p].email != b.procs[q].email)
      && (forall p :: p in b.procs && b.procs[p].Inserted? ==> !Active(b.table, b.procs[p].email))
  {
    ReachedInv(a, acts);
    var b := Run(a, acts);
    ActiveIsReplayed(b, "");
    forall p, q | p in b.procs && q in b.procs && b.procs[p].Inserted? && b.procs[q].Inserted? && p != q
      ensures b.procs[p].email != b.procs[q].email
    {
      assert Compatible(b.procs[p], b.procs[q]);
    }
    forall p | p in b.procs && b.procs[p].Inserted? ensures !Active(b.table, b.procs[p].email) {
      assert RequestOk(b, b.procs[p]);
    }
  }

  /** From here to its end, no call of the request commits an account. */
  predicate CommitsNothing(a: State, acts: seq<Action>, pid: nat)
    requires Valid(a, acts)
    decreases |acts|
  {
    acts == [] || pid !in a.procs ||
    (!(acts[0].Call? && acts[0].pid == pid && a.procs[pid].Inserted? && acts[0].choice.outcome.Applied()) &&
     CommitsNothing(Apply(a, acts[0]), acts[1..], pid))
  }

  /** Table, history, cache and issued tokens are the same. */
  predicate SameData(a: State, b: State) {
    b.table == a.table && b.trace == a.trace && b.regs == a.regs && b.issued == a.issued
  }

  /** From here to its end, no step of the request itself changes any data. */
  predicate LeavesNoTrace(a: State, acts: seq<Action>, pid: nat)
    requires Valid(a, acts)
    decreases |acts|
  {
    acts == [] || pid !in a.procs ||
    ((acts[0].Call? && acts[0].pid == pid ==> SameData(a, Apply(a, acts[0]))) &&
     LeavesNoTrace(Apply(a, acts[0]), acts[1..], pid))
  }

  predicate BeforeCommit(p: Request) {
    p.Verifying? || p.Inserting? || p.Inserted?
  }

  lemma VerificationCall(a: State, p: Request, c: Choice)
    requires BeforeCommit(p)
    ensures var (b, next) := Exec(a, p, c);
      if p.Inserted? && c.outcome.Applied() then b.trace != a.trace
      else SameData(a, b) && (next.Some? ==> BeforeCommit(next.value))
  {
  }

  lemma {:induction false} UncommittedIff(a: State, acts: seq<Action>, pid: nat)
    requires Valid(a, acts) && (pid in a.procs ==> BeforeCommit(a.procs[pid]))
    ensures LeavesNoTrace(a, acts, pid) <==> CommitsNothing(a, acts, pid)
    decreases |acts|
  {
    if acts != [] && pid in a.procs {
      if acts[0].Call? && acts[0].pid == pid {
        VerificationCall(a, a.procs[pid], acts[0].choice);
        ExecGrown(a, a.procs[pid], acts[0].choice);
      } else if pid in Apply(a, acts[0]).procs {
        OthersWait(a, acts[0], pid);
      }
      var b := Apply(a, acts[0]);
      if pid in b.procs ==> BeforeCommit(b.procs[pid]) { UncommittedIff(b, acts[1..], pid); }
    }
  }

  /** A VerifyAccount, from its request to its end and under every interleaving with other requests,
      leaves table, history, cache and tokens alone in all its steps if and only if it commits nothing. */
  lemma LosersLeaveNoTrace(a: State, acts: seq<Action>)
    requires Valid(a, acts) && acts != [] && acts[0].Verify?
    ensures SameData(a, Apply(a, acts[0]))
    ensures LeavesNoTrace(Apply(a, acts[0]), acts[1..], acts[0].pid) <==>
            CommitsNothing(Apply(a, acts[0]), acts[1..], acts[0].pid)
  {
    UncommittedIff(Apply(a, acts[0]), acts[1..], acts[0].pid);
  }

  /** One whose INSERT fails, or meets a committed account of the email, commits nothing. */
  lemma LateInsertLoses(a: State, acts: seq<Action>, pid: nat)
    requires Valid(a, acts) && acts != [] && acts[0].Call? && acts[0].pid == pid && a.procs[pid].Inserting?
    requires !acts[0].choice.outcome.Done? || Active(a.table, a.procs[pid].email)
    ensures CommitsNothing(a, acts, pid)
  {
    assert pid !in Apply(a, acts[0]).procs;
  }

  /** While another transaction has the email in an open INSERT, or its row in an open DELETE, the
      INSERT waits; once it can run, it succeeds exactly if no account with the email is committed. */
  lemma InsertWaitsOrDecides(a: State, acts: seq<Action>, pid: nat, c: Choice)
    requires Reached(a, acts)
    requires var b := Run(a, acts); pid in b.procs && b.procs[pid].Inserting? && c.outcome.Done? && c.id !in b.usedIds
    ensures var b := Run(a, acts);
      var email := b.procs[pid].email;
      Enabled(b, Call(pid, c)) ==>
        (forall q :: q in b.procs ==> !HoldsEmail(b.procs[q], email)) &&
        (pid in Apply(b, Call(pid, c)).procs <==> ActiveRow(b.trace, email).None?)
  {
    ReachedInv(a, acts);
    ActiveIsReplayed(Run(a, acts), Run(a, acts).procs[pid].email);
  }

  // ---------------------------------------------------------------- passwords

  predicate Ends(event: Event, email: string) {
    (event.Committed? || event.Removed?) && event.email == email
  }

  /** Event `i` commits an account of the email, and no later event commits or removes one. */
  predicate LastCommit(trace: seq<Event>, email: string, i: nat) {
    i < |trace| && trace[i].Committed? && trace[i].email == email &&
    forall j :: i < j < |trace| ==> !Ends(trace[j], email)
  }

  predicate Changes(event: Event, email: string) {
    event.Changed? && event.email == email
  }

  /** The hash is that of the last change of the email's password after event `i`, or, without one, of the commit. */
  predicate HashSince(trace: seq<Event>, email: string, i: nat, hash: Hash) {
    (i < |trace| && trace[i].Committed? && trace[i].hash == hash &&
     forall j :: i < j < |trace| ==> !Changes(trace[j], email)) ||
    exists j :: i < j < |trace| && Changes(trace[j], email) && trace[j].hash == hash &&
      forall k :: j < k < |trace| ==> !Changes(trace[k], email)
  }

  /** Event `i`, which commits an account of the email, is followed by a removal of it. */
  predicate RemovedSince(trace: seq<Event>, email: string, i: nat) {
    exists j :: i < j < |trace| && trace[j].Removed? && trace[j].email == email
  }

  /** What the recursive reading of the history says, in terms of positions. */
  ghost predicate ActiveRowMeaning(trace: seq<Event>, email: string, row: Option<(string, Hash)>) {
    match row
    case None =>
      forall i :: 0 <= i < |trace| && trace[i].Committed? && trace[i].email == email ==> RemovedSince(trace, email, i)
    case Some(found) =>
      exists i: nat :: LastCommit(trace, email, i) && trace[i].id == found.0 && HashSince(trace, email, i, found.1)
  }

  lemma MeaningAfterCommit(past: seq<Event>, event: Event)
    requires event.Committed?
    ensures ActiveRowMeaning(past + [event], event.email, Some((event.id, event.hash)))
  {
    var trace := past + [event];
    assert trace[|past|] == event && LastCommit(trace, event.email, |past|);
    assert HashSince(trace, event.email, |past|, event.hash);
  }

  lemma MeaningAfterRemoval(past: seq<Event>, event: Event)
    requires event.Removed?
    ensures ActiveRowMeaning(past + [event], event.email, None)
  {
    var trace := past + [event];
    forall i | 0 <= i < |trace| && trace[i].Committed? && trace[i].email == event.email
      ensures RemovedSince(trace, event.email, i)
    {
      assert trace[|past|] == event;
    }
  }

  lemma MeaningAfterChange(past: seq<Event>, event: Event, row: (string, Hash))
    requires event.Changed? && ActiveRowMeaning(past, event.email, Some(row))
    ensures ActiveRowMeaning(past + [event], event.email, Some((row.0, event.hash)))
  {
    var trace := past + [event];
    var i: nat :| LastCommit(past, event.email, i) && past[i].id == row.0 && HashSince(past, event.email, i, row.1);
    assert forall j :: 0 <= j < |past| ==> trace[j] == past[j];
    assert trace[|past|] == event;
    assert LastCommit(trace, event.email, i);
    assert HashSince(trace, event.email, i, event.hash);
  }

  lemma MeaningAfterOther(past: seq<Event>, event: Event, email: string, row: Option<(string, Hash)>)
    requires !Ends(event, email) && (Changes(event, email) ==> row.None?)
    requires ActiveRowMeaning(past, email, row)
    ensures ActiveRowMeaning(past + [event], email, row)
  {
    var trace := past + [event];
    assert forall j :: 0 <= j < |past| ==> trace[j] == past[j];
    assert trace[|past|] == event;
    match row {
      case None =>
        forall i | 0 <= i < |trace| && trace[i].Committed? && trace[i].email == email
          ensures RemovedSince(trace, email, i) {
          assert RemovedSince(past, email, i);
          var j :| i < j < |past| && past[j].Removed? && past[j].email == email;
          assert trace[j] == past[j];
        }
      case Some(found) =>
        var i: nat :| LastCommit(past, email, i) && past[i].id == found.0 && HashSince(past, email, i, found.1);
        assert LastCommit(trace, email, i);
        HashStays(past, event, email, i, found.1);
    }
  }

  lemma HashStays(past: seq<Event>, event: Event, email: string, i: nat, hash: Hash)
    requires HashSince(past, email, i, hash) && !Changes(event, email)
    ensures HashSince(past + [event], email, i, hash)
  {
    var trace := past + [event];
    assert forall j :: 0 <= j < |past| ==> trace[j] == past[j];
    if j :| i < j < |past| && Changes(past[j], email) && past[j].hash == hash &&
            forall k :: j < k < |past| ==> !Changes(past[k], email)
    {
      assert Changes(trace[j], email) && trace[j].hash == hash;
    }
  }

  /** An account is active by the history if and only if some commit of the email has not been followed by
      another commit or a removal; its hash is the one last set since. */
  lemma {:induction false} ActiveRowMeans(trace: seq<Event>, email: string)
    ensures ActiveRowMeaning(trace, email, ActiveRow(trace, email))
    decreases |trace|
  {
    if trace != [] {
      var past, event := trace[..|trace| - 1], trace[|trace| - 1];
      assert trace == past + [event];
      ActiveRowMeans(past, email);
      if Ends(event, email) {
        if event.Committed? { MeaningAfterCommit(past, event); } else { MeaningAfterRemoval(past, event); }
      } else if Changes(event, email) && ActiveRow(past, email).Some? {
        MeaningAfterChange(past, event, ActiveRow(past, email).value);
      } else {
        MeaningAfterOther(past, event, email, ActiveRow(past, email));
      }
    }
  }

  lemma LastIsNotRemoved(trace: seq<Event>, email: string, i: nat)
    requires LastCommit(trace, email, i)
    ensures !RemovedSince(trace, email, i)
  {
    forall j | i < j < |trace| ensures !(trace[j].Removed? && trace[j].email == email) {
      assert !Ends(trace[j], email);
    }
  }

  lemma OneLastCommit(trace: seq<Event>, email: string, i: nat, k: nat)
    requires LastCommit(trace, email, i) && LastCommit(trace, email, k)
    ensures i == k
  {
    assert Ends(trace[i], email) && Ends(trace[k], email);
  }

  /** There is only one last commit and one hash since. */
  lemma MeaningIsUnique(trace: seq<Event>, email: string, i: nat, hash: Hash)
    requires LastCommit(trace, email, i) && HashSince(trace, email, i, hash)
    ensures ActiveRow(trace, email) == Some((trace[i].id, hash))
  {
    ActiveRowMeans(trace, email);
    LastIsNotRemoved(trace, email, i);
    if ActiveRow(trace, email).Some? {
      var row := ActiveRow(trace, email).value;
      var k: nat :| LastCommit(trace, email, k) && trace[k].id == row.0 && HashSince(trace, email, k, row.1);
      OneLastCommit(trace, email, i, k);
      OneHashSince(trace, email, i, hash, row.1);
    }
  }

  lemma OneHashSince(trace: seq<Event>, email: string, i: nat, a: Hash, b: Hash)
    requires HashSince(trace, email, i, a) && HashSince(trace, email, i, b)
    ensures a == b
  {
    if j :| i < j < |trace| && Changes(trace[j], email) && trace[j].hash == a &&
            forall k :: j < k < |trace| ==> !Changes(trace[k], email)
    {
      if l :| i < l < |trace| && Changes(trace[l], email) && trace[l].hash == b &&
              forall k :: l < k < |trace| ==> !Changes(trace[k], email)
      {
        assert j == l;
      }
    }
  }

  /** Between two commits of one email its account was removed. */
  lemma CommitsAlternate(a: State, acts: seq<Action>, i: nat, j: nat)
    requires Reached(a, acts)
    requires var trace := Run(a, acts).trace;
      i < j < |trace| && trace[i].Committed? && trace[j].Committed? && trace[i].email == trace[j].email
    ensures var trace := Run(a, acts).trace;
      exists k :: i < k < j && trace[k].Removed? && trace[k].email == trace[i].email
  {
    ReachedInv(a, acts);
    var trace := Run(a, acts).trace;
    var past, email := trace[..j], trace[j].email;
    assert EventOk(a.cfg, past, trace[j]);
    ActiveRowMeans(past, email);
    assert past[i] == trace[i];
    assert RemovedSince(past, email, i);
    var k :| i < k < |past| && past[k].Removed? && past[k].email == email;
    assert trace[k] == past[k];
  }

  lemma AcceptedPassword(a: State, email: string, password: string)
    requires Inv(a)
    ensures (exists id :: Accepts(a.table, email, password, id)) <==>
            ActiveRow(a.trace, email).Some? && Matches(ActiveRow(a.trace, email).value.1, password)
  {
    if ActiveRow(a.trace, email).Some? && Matches(ActiveRow(a.trace, email).value.1, password) {
      assert Accepts(a.table, email, password, ActiveRow(a.trace, email).value.0);
    }
  }

  /** Sign-in accepts a password if and only if it matches the hash last set since the last commit of the
      email, which no removal has followed; and the row of an account holds exactly that hash. */
  lemma SignInTracksPassword(a: State, acts: seq<Action>, email: string, password: string)
    requires Reached(a, acts)
    ensures var b := Run(a, acts);
      && ((exists id :: Accepts(b.table, email, password, id)) <==>
          exists i: nat, hash :: LastCommit(b.trace, email, i) &&
            HashSince(b.trace, email, i, hash) && Matches(hash, password))
      && (forall id, row :: id in b.table && b.table[id] == row ==>
            exists i: nat :: LastCommit(b.trace, row.email, i) && b.trace[i].id == id &&
              HashSince(b.trace, row.email, i, row.hash))
  {
    ReachedInv(a, acts);
    var b := Run(a, acts);
    AcceptedPassword(b, email, password);
    ActiveRowMeans(b.trace, email);
    if i: nat, hash :| LastCommit(b.trace, email, i) && HashSince(b.trace, email, i, hash) && Matches(hash, password) {
      MeaningIsUnique(b.trace, email, i, hash);
    }
    forall id, row | id in b.table && b.table[id] == row
      ensures exists i: nat :: LastCommit(b.trace, row.email, i) && b.trace[i].id == id &&
                HashSince(b.trace, row.email, i, row.hash)
    {
      ActiveRowMeans(b.trace, row.email);
    }
  }

  /** By the history, the email has account `id`, and the password is that of the hash last set since the last
      commit of the email, which made this account and which no removal has followed. */
  ghost predicate PasswordSince(trace: seq<Event>, email: string, id: string, password: string) {
    exists i: nat, hash: Hash ::
      LastCommit(trace, email, i) && trace[i].id == id && HashSince(trace, email, i, hash) && hash.password == password
  }

  lemma AcceptedRow(a: State, email: string, password: string, id: string)
    requires Replayed(a.table, a.trace)
    ensures Accepts(a.table, email, password, id) <==>
            var row := ActiveRow(a.trace, email); row.Some? && row.value.0 == id && row.value.1.password == password
  {
  }

  lemma RowByHistory(trace: seq<Event>, email: string, id: string, password: string)
    ensures PasswordSince(trace, email, id, password) <==>
            var row := ActiveRow(trace, email); row.Some? && row.value.0 == id && row.value.1.password == password
  {
    if i: nat, hash: Hash :|
      LastCommit(trace, email, i) && trace[i].id == id && HashSince(trace, email, i, hash) && hash.password == password
    {
      MeaningIsUnique(trace, email, i, hash);
    } else {
      ActiveRowMeans(trace, email);
    }
  }

  /** A SignIn with this password, for this account, can be served in a reachable state if and only if the
      history says so. */
  lemma SignInIff(a: State, acts: seq<Action>, pid: nat, email: string, password: string, id: string)
    requires Reached(a, acts) && pid !in Run(a, acts).procs
    ensures Enabled(Run(a, acts), SignIn(pid, email, password, id)) <==>
            PasswordSince(Run(a, acts).trace, email, id, password)
  {
    ReachedInv(a, acts);
    AcceptedRow(Run(a, acts), email, password, id);
    RowByHistory(Run(a, acts).trace, email, id, password);
  }

  /** Registrations and verification tokens can be asked for exactly while the email has no account, change
      tokens exactly while it has one. */
  lemma AdmissionIff(a: State, acts: seq<Action>, pid: nat, email: string, username: string, password: string)
    requires Reached(a, acts) && pid !in Run(a, acts).procs
    ensures var b := Run(a, acts);
      var active := exists i: nat :: LastCommit(b.trace, email, i);
      (Enabled(b, Register(pid, email, username, password)) <==> !active) &&
      (Enabled(b, AskVerification(pid, email)) <==> !active) &&
      (Enabled(b, AskChange(pid, email)) <==> active)
  {
    ReachedInv(a, acts);
    var b := Run(a, acts);
    ActiveIsReplayed(b, email);
    ActiveRowMeans(b.trace, email);
    if i: nat :| LastCommit(b.trace, email, i) { LastIsNotRemoved(b.trace, email, i); }
  }

  /** An UPDATE waits for an open DELETE of the row of its email, a DELETE for an open DELETE of its row. */
  lemma RowLocks(a: State, pid: nat, c: Choice, q: nat)
    requires Enabled(a, Call(pid, c)) && q in a.procs
    requires (a.procs[q].Reporting? || a.procs[q].Finishing?) && a.procs[q].tx == Holding(true)
    ensures a.procs[pid].Updating? ==> a.procs[q].email != a.procs[pid].email
    ensures a.procs[pid].Removing? ==> a.procs[q].id != a.procs[pid].id
  {
  }

  /** The hash committed with an account was entered in the registration cache for its email before. */
  lemma CommittedHashWasEntered(a: State, acts: seq<Action>, i: nat)
    requires Reached(a, acts) && i < |Run(a, acts).trace| && Run(a, acts).trace[i].Committed?
    ensures var trace := Run(a, acts).trace;
      exists j :: 0 <= j < i && trace[j] == Entered(trace[i].email, trace[i].hash)
  {
    ReachedInv(a, acts);
    var trace := Run(a, acts).trace;
    assert EventOk(a.cfg, trace[..i], trace[i]);
    var j :| 0 <= j < i && trace[..i][j] == Entered(trace[i].email, trace[i].hash);
    assert trace[j] == trace[..i][j];
  }

  // ---------------------------------------------------------------- tokens

  /** Somewhere before `i`, a verification token for the email was issued, less than its lifetime before `parsed`. */
  ghost predicate VerificationBefore(trace: seq<Event>, i: nat, email: string, parsed: nat, ttl: nat) {
    exists j :: 0 <= j < i < |trace| && trace[j].AskedVerification? && trace[j].email == email &&
      trace[j].at <= parsed < trace[j].at + ttl
  }

  /** Somewhere before `i`, a change token was issued in time, after the email was found active. */
  ghost predicate ChangeBefore(trace: seq<Event>, i: nat, email: string, parsed: nat, ttl: nat) {
    exists j, k :: 0 <= k < j < i < |trace| && trace[j].AskedChange? && trace[j].email == email &&
      trace[j].at <= parsed < trace[j].at + ttl &&
      trace[k] == FoundActive(email) && ActiveRow(trace[..k], email).Some?
  }

  lemma FindVerification(trace: seq<Event>, i: nat, email: string, parsed: nat, ttl: nat)
    requires i < |trace| && VerificationAsked(trace[..i], email, parsed, ttl)
    ensures VerificationBefore(trace, i, email, parsed, ttl)
  {
    var at: nat, expiry: nat :| AskedVerification(email, at, expiry) in trace[..i] && at <= parsed < at + ttl;
    var j :| 0 <= j < i && trace[..i][j] == AskedVerification(email, at, expiry);
    assert trace[j] == trace[..i][j];
  }

  lemma FindChange(cfg: Config, trace: seq<Event>, i: nat, email: string, parsed: nat, ttl: nat)
    requires Ordered(cfg, trace) && i < |trace| && ChangeAsked(trace[..i], email, parsed, ttl)
    ensures ChangeBefore(trace, i, email, parsed, ttl)
  {
    var at: nat :| AskedChange(email, at) in trace[..i] && at <= parsed < at + ttl;
    var j :| 0 <= j < i && trace[..i][j] == AskedChange(email, at);
    assert trace[j] == trace[..i][j];
    var k := ActiveBeforeAsking(cfg, trace, j);
  }

  /** Every account comes after a timely request for a verification token for its email, or, if the
      secrets are equal, after one for a change token. */
  lemma AccountsAreConfirmed(a: State, acts: seq<Action>, i: nat)
    requires Reached(a, acts) && i < |Run(a, acts).trace| && Run(a, acts).trace[i].Committed?
    ensures var trace := Run(a, acts).trace; var event := trace[i];
      VerificationBefore(trace, i, event.email, event.parsed, a.cfg.pendingTTL) ||
      (!Distinct(a.cfg) && ChangeBefore(trace, i, event.email, event.parsed, a.cfg.changeTTL))
  {
    ReachedInv(a, acts);
    var trace := Run(a, acts).trace;
    var event := trace[i];
    assert EventOk(a.cfg, trace[..i], event);
    if VerificationAsked(trace[..i], event.email, event.parsed, a.cfg.pendingTTL) {
      FindVerification(trace, i, event.email, event.parsed, a.cfg.pendingTTL);
    } else {
      FindChange(a.cfg, trace, i, event.email, event.parsed, a.cfg.changeTTL);
    }
  }

  /** A password changes only with a token issued for that change, in time, to an email found active,
      or, if the secrets are equal, with a verification token. */
  lemma PasswordChangesAreAsked(a: State, acts: seq<Action>, i: nat)
    requires Reached(a, acts) && i < |Run(a, acts).trace| && Run(a, acts).trace[i].Changed?
    ensures var trace := Run(a, acts).trace; var event := trace[i];
      ChangeBefore(trace, i, event.email, event.parsed, a.cfg.changeTTL) ||
      (!Distinct(a.cfg) && VerificationBefore(trace, i, event.email, event.parsed, a.cfg.pendingTTL))
  {
    ReachedInv(a, acts);
    var trace := Run(a, acts).trace;
    var event := trace[i];
    assert EventOk(a.cfg, trace[..i], event);
    if ChangeAsked(trace[..i], event.email, event.parsed, a.cfg.changeTTL) {
      FindChange(a.cfg, trace, i, event.email, event.parsed, a.cfg.changeTTL);
    } else {
      FindVerification(trace, i, event.email, event.parsed, a.cfg.pendingTTL);
    }
  }

  lemma ActiveBeforeAsking(cfg: Config, trace: seq<Event>, j: nat) returns (k: nat)
    requires Ordered(cfg, trace) && j < |trace| && trace[j].AskedChange?
    ensures k < j && trace[k] == FoundActive(trace[j].email) && ActiveRow(trace[..k], trace[j].email).Some?
  {
    assert EventOk(cfg, trace[..j], trace[j]);
    k :| 0 <= k < j && trace[..j][k] == FoundActive(trace[j].email);
    assert trace[k] == trace[..j][k];
    assert EventOk(cfg, trace[..k], trace[k]);
  }

  /** A verification token expires no earlier than the registration entry seen when it was asked
      for, up to the second lost in writing its expiry. */
  lemma TokenOutlivesEntry(a: State, acts: seq<Action>, i: nat)
    requires Reached(a, acts) && i < |Run(a, acts).trace| && Run(a, acts).trace[i].AskedVerification?
    ensures var event := Run(a, acts).trace[i];
      event.expiry < GenerateToken(event.email, a.cfg.verifySecret, a.cfg.pendingTTL, event.at).exp.value + SECOND
  {
    ReachedInv(a, acts);
    var trace := Run(a, acts).trace;
    assert EventOk(a.cfg, trace[..i], trace[i]);
  }
}
