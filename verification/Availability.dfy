/** What the whole service can still do: a current password leads to a session, an accepted session to the
    deletion of its account and to its clean-up, and a clean-up can always be tried again. */
module Availability {
  import opened Models
  import opened Redis
  import opened SessionStore
  import opened World
  import DeletionSafety

  /** One more action in front of a run. */
  lemma First(w: World, act: Action, rest: seq<Action>) returns (acts: seq<Action>)
    requires Enabled(w, act) && Valid(Apply(w, act), rest)
    ensures Valid(w, acts) && Run(w, acts) == Run(Apply(w, act), rest)
  {
    acts := [act] + rest;
    assert acts[1..] == rest;
  }

  /** Whoever has the password can have a session of the account. */
  lemma PasswordOpensSession(w: World, email: string, password: string, id: string)
    requires id in w.a.table && w.a.table[id].email == email && w.a.table[id].hash.password == password
    ensures DeletionSafety.CanReturn(w, id)
  {
    var pid := SI.FreshNat(w.a.procs.Keys);
    var signIn := InAccounts(A.SignIn(pid, email, password, id));
    var v := Apply(w, signIn);
    assert v.a.procs[pid] == A.SignedIn(id);
    DeletionSafety.SignInReturns(v, id);
    var acts, key, machine :| Valid(v, acts) &&
      var checked := CheckSession(Run(v, acts).s.db, key, machine);
      checked.Ok? && checked.value.accountID == id;
    var longer := First(w, signIn, acts);
    assert CheckSession(Run(w, longer).s.db, key, machine).Ok?;
  }

  /** An accepted session of an account starts the deletion of that account. */
  lemma SessionBeginsDeletion(w: World, key: Text, machine: string, pid: nat) returns (acts: seq<Action>)
    requires CheckSession(w.s.db, key, machine).Ok? && pid !in w.a.procs
    ensures Valid(w, acts)
    ensures var id := CheckSession(w.s.db, key, machine).value.accountID;
      Run(w, acts).a == w.a.(procs := w.a.procs[pid := A.Deleting(id)])
    ensures Run(w, acts).s == w.s
  {
    var caller := SI.FreshPid(w.s.procs);
    var check := InSessions(S.Check(caller, key, machine, S.DeleteAccount));
    var v := Apply(w, check);
    acts := First(v, BeginDelete(caller, pid), []);
    acts := First(w, check, acts);
    assert Apply(v, BeginDelete(caller, pid)).s.procs == w.s.procs;
  }

  function Works(): A.Choice {
    A.Choice(Done, "", 0)
  }

  /** One call of a request, as a step of the whole service. */
  lemma OneCall(w: World, pid: nat, next: A.Request)
    requires pid in w.a.procs && !w.a.procs[pid].Inserting? && !A.Blocked(w.a, w.a.procs[pid])
    requires A.Exec(w.a, w.a.procs[pid], Works()).1 == Some(next)
    ensures Enabled(w, InAccounts(A.Call(pid, Works())))
    ensures var v := Apply(w, InAccounts(A.Call(pid, Works())));
      v.s == w.s && v.a == A.Exec(w.a, w.a.procs[pid], Works()).0.(procs := w.a.procs[pid := next])
  {
    AI.ExecGrown(w.a, w.a.procs[pid], Works());
  }

  /** The calls of a deletion up to its commit, on a row that no other request holds. */
  lemma DeletionReachesCommit(w: World, pid: nat, id: string) returns (acts: seq<Action>)
    requires pid in w.a.procs && w.a.procs[pid] == A.Deleting(id) && id in w.a.table
    requires forall q :: q in w.a.procs ==> !A.Holds(w.a.procs[q], id)
    ensures Valid(w, acts) && Run(w, acts).s == w.s
    ensures Run(w, acts).a.procs == w.a.procs[pid := A.Finishing(id, w.a.table[id].email, A.Holding(true))]
    ensures Run(w, acts).a.trace == w.a.trace + [A.Deleted(id, w.a.table[id].email)]
  {
    var call, email := InAccounts(A.Call(pid, Works())), w.a.table[id].email;
    OneCall(w, pid, A.Removing(id, email));
    var w1 := Apply(w, call);
    OneCall(w1, pid, A.Reporting(id, email, A.Holding(true)));
    var w2 := Apply(w1, call);
    acts := DeletionReports(w2, pid, id, email);
    acts := First(w1, call, acts);
    acts := First(w, call, acts);
  }

  lemma DeletionReports(w: World, pid: nat, id: string, email: string) returns (acts: seq<Action>)
    requires pid in w.a.procs && w.a.procs[pid] == A.Reporting(id, email, A.Holding(true))
    ensures Valid(w, acts) && Run(w, acts).s == w.s
    ensures Run(w, acts).a.procs == w.a.procs[pid := A.Finishing(id, email, A.Holding(true))]
    ensures Run(w, acts).a.trace == w.a.trace + [A.Deleted(id, email)]
  {
    OneCall(w, pid, A.Finishing(id, email, A.Holding(true)));
    acts := First(w, InAccounts(A.Call(pid, Works())), []);
  }

  /** An accepted session of an existing account, whose row no other request holds, can delete the account: it is
      gone from the table, and a clean-up for it is about to read the index. */
  lemma SessionDeletesAccount(w: World, key: Text, machine: string) returns (acts: seq<Action>, cleaner: nat)
    requires CheckSession(w.s.db, key, machine).Ok?
    requires var id := CheckSession(w.s.db, key, machine).value.accountID;
      id in w.a.table && forall q :: q in w.a.procs ==> !A.Holds(w.a.procs[q], id)
    ensures Valid(w, acts)
    ensures var id, v := CheckSession(w.s.db, key, machine).value.accountID, Run(w, acts);
      id !in v.a.table && A.WasRemoved(v.a.trace, id) &&
      cleaner in v.s.procs && v.s.procs[cleaner] == S.AllRead(id) && v.s.db == w.s.db
  {
    var id := CheckSession(w.s.db, key, machine).value.accountID;
    var pid := SI.FreshNat(w.a.procs.Keys);
    cleaner := SI.FreshPid(w.s.procs);
    acts := SessionBeginsDeletion(w, key, machine, pid);
    var w1 := Run(w, acts);
    var calls := DeletionReachesCommit(w1, pid, id);
    var w2 := Run(w1, calls);
    CommitsDeletion(w2, pid, id, w.a.table[id].email, cleaner);
    var commit := First(w2, CommitDelete(pid, Works(), cleaner), []);
    calls := Then(w1, calls, commit);
    acts := Then(w, acts, calls);
  }

  /** A commit that is reported as done takes the row away and starts the clean-up. */
  lemma CommitsDeletion(w: World, pid: nat, id: string, email: string, cleaner: nat)
    requires pid in w.a.procs && w.a.procs[pid] == A.Finishing(id, email, A.Holding(true)) && cleaner !in w.s.procs
    ensures Enabled(w, CommitDelete(pid, Works(), cleaner))
    ensures var v := Apply(w, CommitDelete(pid, Works(), cleaner));
      id !in v.a.table && A.WasRemoved(v.a.trace, id) &&
      v.s == w.s.(procs := w.s.procs[cleaner := S.AllRead(id)])
  {
    var v := Apply(w, CommitDelete(pid, Works(), cleaner));
    assert v.a.trace == w.a.trace + [A.Removed(id, email)];
    assert A.Removed(id, email) in v.a.trace;
  }

  lemma {:induction false} Then(w: World, first: seq<Action>, second: seq<Action>) returns (acts: seq<Action>)
    requires Valid(w, first) && Valid(Run(w, first), second)
    ensures Valid(w, acts) && Run(w, acts) == Run(Run(w, first), second)
    decreases |first|
  {
    if first == [] {
      acts := second;
    } else {
      var rest := Then(Apply(w, first[0]), first[1..], second);
      acts := First(w, first[0], rest);
    }
  }

  /** Wherever a clean-up stopped, it can start again for the same account; nothing else changes. */
  lemma CleanupCanBeRetried(w: World, pid: nat)
    requires pid in w.s.procs && CleaningUp(w.s.procs[pid])
    ensures Enabled(w, RetryCleanup(pid))
    ensures Apply(w, RetryCleanup(pid)).s == w.s.(procs := w.s.procs[pid := S.AllRead(w.s.procs[pid].account)])
    ensures Apply(w, RetryCleanup(pid)).a == w.a
  {
    var v := Apply(w, RetryCleanup(pid));
    assert (w.s.procs - {pid})[pid := S.AllRead(w.s.procs[pid].account)]
        == w.s.procs[pid := S.AllRead(w.s.procs[pid].account)];
  }
}
