/** Where sessions and deletions come from, in every run of the whole service: a session from a password
    that was accepted, a deletion from a session that was accepted. */
module Provenance {
  import opened Models
  import opened Redis
  import opened SessionStore
  import opened World

  // ---------------------------------------------------------------- sessions

  /** The step serves a SignIn for account `id`: the row of the email is this account's, and its hash is one
      of the password given. */
  predicate PasswordChecked(w: World, act: Action, id: string) {
    act.InAccounts? && act.aact.SignIn? && act.aact.id == id && id in w.a.table &&
    w.a.table[id].email == act.aact.email && w.a.table[id].hash.password == act.aact.password
  }

  /** Somewhere in the run a password of the account is accepted. */
  predicate PasswordAccepted(w: World, acts: seq<Action>, id: string)
    requires Valid(w, acts)
    decreases |acts|
  {
    acts != [] && (PasswordChecked(w, acts[0], id) || PasswordAccepted(Apply(w, acts[0]), acts[1..], id))
  }

  /** A session of the account has been minted, or a SignIn is about to mint one. */
  predicate SignedInFor(w: World, id: string) {
    (exists sid :: sid in w.s.minted && w.s.minted[sid].account == id) ||
    exists pid :: pid in w.a.procs && w.a.procs[pid] == A.SignedIn(id)
  }

  /** No call of a request turns it into a SignIn. */
  lemma CallsAreNoSignIns(a: A.State, caller: nat, c: A.Choice, pid: nat, id: string)
    requires A.Enabled(a, A.Call(caller, c)) && pid in A.Apply(a, A.Call(caller, c)).procs
    requires A.Apply(a, A.Call(caller, c)).procs[pid] == A.SignedIn(id)
    ensures pid in a.procs && a.procs[pid] == A.SignedIn(id)
  {
    AI.ExecGrown(a, a.procs[caller], c);
    ExecNoSignIn(a, a.procs[caller], c);
  }

  lemma NewSignIn(a: A.State, act: A.Action, pid: nat, id: string)
    requires A.Enabled(a, act) && pid in A.Apply(a, act).procs && A.Apply(a, act).procs[pid] == A.SignedIn(id)
    ensures (pid in a.procs && a.procs[pid] == A.SignedIn(id)) ||
            (act.SignIn? && act.id == id && A.Accepts(a.table, act.email, act.password, id))
  {
    if act.Call? { CallsAreNoSignIns(a, act.pid, act.choice, pid, id); }
  }

  lemma SignInStep(w: World, act: Action, id: string)
    requires Enabled(w, act) && SignedInFor(Apply(w, act), id)
    ensures SignedInFor(w, id) || PasswordChecked(w, act, id)
  {
    var v := Apply(w, act);
    MintedBySignIn(w, act);
    if sid :| sid in v.s.minted && v.s.minted[sid].account == id {
      if act.MintSession? && sid == act.session.sessionID {
        assert w.a.procs[act.caller] == A.SignedIn(id);
      }
    } else {
      var pid :| pid in v.a.procs && v.a.procs[pid] == A.SignedIn(id);
      if AccountStep(w, act).Some? { NewSignIn(w.a, AccountStep(w, act).value, pid, id); }
    }
  }

  lemma {:induction false} SignInRun(w: World, acts: seq<Action>, id: string)
    requires Valid(w, acts) && SignedInFor(Run(w, acts), id)
    ensures SignedInFor(w, id) || PasswordAccepted(w, acts, id)
    decreases |acts|
  {
    if acts != [] {
      SignInRun(Apply(w, acts[0]), acts[1..], id);
      if SignedInFor(Apply(w, acts[0]), id) { SignInStep(w, acts[0], id); }
    }
  }

  /** Every session that validates is one of an account a password of which was accepted in the run. */
  lemma SessionsNeedPasswords(w: World, acts: seq<Action>, key: Text, machine: string)
    requires Init(w) && Valid(w, acts) && CheckSession(Run(w, acts).s.db, key, machine).Ok?
    ensures PasswordAccepted(w, acts, CheckSession(Run(w, acts).s.db, key, machine).value.accountID)
  {
    InitInv(w);
    RunInv(w, acts);
    var t := Run(w, acts).s;
    assert S.EntryOk(t, key, t.db[key]);
    var session := CheckSession(t.db, key, machine).value;
    assert session.sessionID in t.minted && t.minted[session.sessionID].account == session.accountID;
    SignInRun(w, acts, session.accountID);
  }

  /** How many SignIns for the account the run serves. */
  function PasswordsAccepted(w: World, acts: seq<Action>, id: string): nat
    requires Valid(w, acts)
    decreases |acts|
  {
    if acts == [] then 0
    else (if PasswordChecked(w, acts[0], id) then 1 else 0) + PasswordsAccepted(Apply(w, acts[0]), acts[1..], id)
  }

  function MintedFor(s: S.State, id: string): set<string> {
    set sid | sid in s.minted && s.minted[sid].account == id
  }

  function SigningIn(a: A.State, id: string): set<nat> {
    set pid | pid in a.procs && a.procs[pid] == A.SignedIn(id)
  }

  lemma OneMoreMinted(s: S.State, pid: nat, session: Session, id: string)
    requires S.Enabled(s, S.Mint(pid, session))
    ensures |MintedFor(S.Apply(s, S.Mint(pid, session)), id)|
         == |MintedFor(s, id)| + if session.accountID == id then 1 else 0
  {
    var t := S.Apply(s, S.Mint(pid, session));
    if session.accountID == id {
      assert MintedFor(t, id) == MintedFor(s, id) + {session.sessionID};
    } else {
      assert MintedFor(t, id) == MintedFor(s, id);
    }
  }

  lemma OneLessSigning(a: A.State, caller: nat, account: string, id: string)
    requires caller in a.procs && a.procs[caller] == A.SignedIn(account)
    ensures |SigningIn(A.Apply(a, A.Abort(caller)), id)| == |SigningIn(a, id)| - if account == id then 1 else 0
  {
    var b := A.Apply(a, A.Abort(caller));
    if account == id {
      assert caller in SigningIn(a, id) && SigningIn(b, id) == SigningIn(a, id) - {caller};
    } else {
      assert SigningIn(b, id) == SigningIn(a, id);
    }
  }

  /** Minting a session uses up the SignIn that does it. */
  lemma MintCounts(w: World, act: Action, id: string)
    requires Enabled(w, act) && act.MintSession?
    ensures var v := Apply(w, act);
      |MintedFor(v.s, id)| + |SigningIn(v.a, id)| == |MintedFor(w.s, id)| + |SigningIn(w.a, id)|
  {
    OneMoreMinted(w.s, act.pid, act.session, id);
    OneLessSigning(w.a, act.caller, act.session.accountID, id);
  }

  /** Sessions and SignIns that may still mint one: at most one more, by a password. */
  lemma CountStep(w: World, act: Action, id: string)
    requires Enabled(w, act)
    ensures var v := Apply(w, act);
      |MintedFor(v.s, id)| + |SigningIn(v.a, id)| <=
      |MintedFor(w.s, id)| + |SigningIn(w.a, id)| + if PasswordChecked(w, act, id) then 1 else 0
  {
    if act.MintSession? {
      MintCounts(w, act, id);
    } else {
      MintedBySignIn(w, act);
      assert MintedFor(Apply(w, act).s, id) == MintedFor(w.s, id);
      SignersOf(w, act, id);
    }
  }

  lemma SignersOf(w: World, act: Action, id: string)
    requires Enabled(w, act) && !act.MintSession?
    ensures |SigningIn(Apply(w, act).a, id)| <= |SigningIn(w.a, id)| + if PasswordChecked(w, act, id) then 1 else 0
  {
    var v := Apply(w, act);
    if AccountStep(w, act).Some? {
      forall pid | pid in SigningIn(v.a, id)
        ensures pid in SigningIn(w.a, id) || (PasswordChecked(w, act, id) && pid == act.aact.pid)
      {
        NewSignIn(w.a, AccountStep(w, act).value, pid, id);
      }
    }
    var more := if PasswordChecked(w, act, id) then {act.aact.pid} else {};
    assert SigningIn(v.a, id) <= SigningIn(w.a, id) + more;
    Smaller(SigningIn(v.a, id), SigningIn(w.a, id) + more);
  }

  lemma {:induction false} Smaller(a: set<nat>, b: set<nat>)
    requires a <= b
    ensures |a| <= |b|
    decreases |a|
  {
    if a != {} {
      var x :| x in a;
      Smaller(a - {x}, b - {x});
    }
  }

  lemma {:induction false} CountRun(w: World, acts: seq<Action>, id: string)
    requires Valid(w, acts)
    ensures var v := Run(w, acts);
      |MintedFor(v.s, id)| + |SigningIn(v.a, id)| <=
      |MintedFor(w.s, id)| + |SigningIn(w.a, id)| + PasswordsAccepted(w, acts, id)
    decreases |acts|
  {
    if acts != [] {
      CountStep(w, acts[0], id);
      CountRun(Apply(w, acts[0]), acts[1..], id);
    }
  }

  /** No more sessions are minted for an account than passwords of it were accepted: one SignIn, one session. */
  lemma OneSessionPerSignIn(w: World, acts: seq<Action>, id: string)
    requires Init(w) && Valid(w, acts)
    ensures |set sid | sid in Run(w, acts).s.minted && Run(w, acts).s.minted[sid].account == id|
         <= PasswordsAccepted(w, acts, id)
  {
    CountRun(w, acts, id);
    assert MintedFor(w.s, id) == {} && SigningIn(w.a, id) == {};
  }

  // ---------------------------------------------------------------- deletions

  /** The step checks a session for a DeleteAccount, and the session is one of account `id`. */
  predicate DeletionChecked(w: World, act: Action, id: string) {
    act.InSessions? && act.sact.Check? && act.sact.purpose.DeleteAccount? &&
    Lookup(w.s.db, act.sact.key).Some? && Lookup(w.s.db, act.sact.key).value.Json? &&
    Lookup(w.s.db, act.sact.key).value.session.machineID == act.sact.machine &&
    Lookup(w.s.db, act.sact.key).value.session.accountID == id
  }

  predicate DeletionAccepted(w: World, acts: seq<Action>, id: string)
    requires Valid(w, acts)
    decreases |acts|
  {
    acts != [] && (DeletionChecked(w, acts[0], id) || DeletionAccepted(Apply(w, acts[0]), acts[1..], id))
  }

  /** The request is a DeleteAccount of account `id` after its session check. */
  predicate DeletesAccount(p: A.Request, id: string) {
    (p.Deleting? || p.Removing? || p.Reporting? || p.Finishing?) && p.id == id
  }

  predicate ChecksDeletion(p: S.Process, id: string) {
    p.Checked? && p.purpose.DeleteAccount? && p.session.accountID == id
  }

  /** The account has been deleted, or its deletion is under way. */
  ghost predicate DeletionUnderway(w: World, id: string) {
    A.WasRemoved(w.a.trace, id) ||
    (exists pid :: pid in w.a.procs && DeletesAccount(w.a.procs[pid], id)) ||
    exists pid :: pid in w.s.procs && ChecksDeletion(w.s.procs[pid], id)
  }

  lemma CallsOfDeletion(a: A.State, p: A.Request, c: A.Choice, id: string)
    ensures var (b, next) := A.Exec(a, p, c);
      (next.Some? && DeletesAccount(next.value, id) ==> DeletesAccount(p, id)) &&
      (A.WasRemoved(b.trace, id) ==> A.WasRemoved(a.trace, id) || DeletesAccount(p, id))
  {
    var b := A.Exec(a, p, c).0;
    if b.trace != a.trace {
      var event := b.trace[|a.trace|];
      assert b.trace == a.trace + [event];
      AI.OneMoreEvent(a.trace, event);
    }
  }

  lemma AccountDeletionStep(a: A.State, act: A.Action, id: string)
    requires A.Enabled(a, act)
    ensures var b := A.Apply(a, act);
      (A.WasRemoved(b.trace, id) || exists pid :: pid in b.procs && DeletesAccount(b.procs[pid], id)) ==>
        A.WasRemoved(a.trace, id) || (exists pid :: pid in a.procs && DeletesAccount(a.procs[pid], id)) ||
        (act.Delete? && act.id == id)
  {
    var b := A.Apply(a, act);
    match act {
      case Call(caller, c) =>
        CallsOfDeletion(a, a.procs[caller], c, id);
        AI.ExecGrown(a, a.procs[caller], c);
      case AskChange(_, email) => AI.OneMoreEvent(a.trace, A.FoundActive(email));
      case _ =>
    }
  }

  lemma SessionDeletionStep(s: S.State, act: S.Action, pid: nat, id: string)
    requires S.Enabled(s, act) && pid in S.Apply(s, act).procs && ChecksDeletion(S.Apply(s, act).procs[pid], id)
    ensures (exists q :: q in s.procs && ChecksDeletion(s.procs[q], id)) ||
            (act.Check? && act.purpose.DeleteAccount? && CheckSession(s.db, act.key, act.machine).value.accountID == id)
  {
    assert act.Launch? && act.pid == pid ==> ChecksDeletion(s.procs[pid], id);
  }

  lemma DeletionStep(w: World, act: Action, id: string)
    requires Enabled(w, act) && DeletionUnderway(Apply(w, act), id)
    ensures DeletionUnderway(w, id) || DeletionChecked(w, act, id)
  {
    var v := Apply(w, act);
    if AccountStep(w, act).Some? { AccountDeletionStep(w.a, AccountStep(w, act).value, id); }
    if pid :| pid in v.s.procs && ChecksDeletion(v.s.procs[pid], id) {
      if act.RetryCleanup? {
        assert pid in w.s.procs && ChecksDeletion(w.s.procs[pid], id);
      } else if SessionStep(w, act).Some? {
        SessionDeletionStep(w.s, SessionStep(w, act).value, pid, id);
      }
    }
    if act.BeginDelete? && w.s.procs[act.caller].session.accountID == id {
      assert ChecksDeletion(w.s.procs[act.caller], id);
    }
  }

  lemma {:induction false} DeletionRun(w: World, acts: seq<Action>, id: string)
    requires Valid(w, acts) && DeletionUnderway(Run(w, acts), id)
    ensures DeletionUnderway(w, id) || DeletionAccepted(w, acts, id)
    decreases |acts|
  {
    if acts != [] {
      DeletionRun(Apply(w, acts[0]), acts[1..], id);
      if DeletionUnderway(Apply(w, acts[0]), id) { DeletionStep(w, acts[0], id); }
    }
  }

  /** An account is deleted, and a deletion of it is under way, only after a session of this account was accepted
      for a DeleteAccount in the run. */
  lemma DeletionsNeedSessions(w: World, acts: seq<Action>, id: string)
    requires Init(w) && Valid(w, acts) && DeletionUnderway(Run(w, acts), id)
    ensures DeletionAccepted(w, acts, id)
  {
    DeletionRun(w, acts, id);
  }
}
