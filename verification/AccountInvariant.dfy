/** The invariant of the account system and its preservation by every step. */
module AccountInvariant {
  import opened Models
  import opened Jwt
  import opened AccountSystem

  /** The table is what the history says it is. */
  ghost predicate Replayed(table: map<string, Row>, trace: seq<Event>) {
    (forall id :: id in table ==> ActiveRow(trace, table[id].email) == Some((id, table[id].hash))) &&
    (forall email :: ActiveRow(trace, email).Some? ==>
       ActiveRow(trace, email).value.0 in table &&
       table[ActiveRow(trace, email).value.0] == Row(email, ActiveRow(trace, email).value.1))
  }

  ghost predicate TokenOk(a: State, token: Token) {
    token.Signed? && token.exp.Some? &&
    (token.key == a.cfg.verifySecret ==>
       IssuedForVerification(a, token) || (!Distinct(a.cfg) && IssuedForChange(a, token))) &&
    (token.key == a.cfg.changeSecret ==>
       IssuedForChange(a, token) || (!Distinct(a.cfg) && IssuedForVerification(a, token)))
  }

  ghost predicate IssuedForVerification(a: State, token: Token)
    requires token.Signed? && token.exp.Some?
  {
    exists at: nat, expiry: nat :: AskedVerification(token.value, at, expiry) in a.trace &&
      at <= a.now && token.exp.value == Truncate(at + a.cfg.pendingTTL)
  }

  ghost predicate IssuedForChange(a: State, token: Token)
    requires token.Signed? && token.exp.Some?
  {
    exists at: nat :: AskedChange(token.value, at) in a.trace &&
      at <= a.now && token.exp.value == Truncate(at + a.cfg.changeTTL)
  }

  ghost predicate EntryOk(a: State, email: string, entry: Entry) {
    Entered(email, entry.hash) in a.trace && entry.expiry <= a.now + a.cfg.pendingTTL
  }

  ghost predicate RequestOk(a: State, p: Request) {
    match p
    case IssuingVerification(_, expiry) => expiry <= a.now + a.cfg.pendingTTL
    case Verifying(email, parsed) => Confirmed(a.cfg, a.trace, email, parsed)
    case Inserting(email, entry, parsed) =>
      Entered(email, entry.hash) in a.trace && Confirmed(a.cfg, a.trace, email, parsed)
    case Inserted(id, email, entry, parsed) =>
      Entered(email, entry.hash) in a.trace && Confirmed(a.cfg, a.trace, email, parsed) &&
      id in a.usedIds && id !in a.table && !Active(a.table, email) && !WasCommitted(a.trace, id)
    case Announcing(id, email) => CommittedAs(a.trace, id, email) && !WasCreated(a.trace, id)
    case IssuingChange(email) => FoundActive(email) in a.trace
    case Changing(email, _, parsed) => Requested(a.cfg, a.trace, email, parsed)
    case Updating(email, _, parsed) => Requested(a.cfg, a.trace, email, parsed)
    case SignedIn(id) => WasCommitted(a.trace, id)
    case Removing(id, email) => CommittedAs(a.trace, id, email) && (id in a.table ==> a.table[id].email == email)
    case Reporting(id, email, tx) => CommittedAs(a.trace, id, email) && HoldingOk(a, id, email, tx)
    case Finishing(id, email, tx) => Deleted(id, email) in a.trace && HoldingOk(a, id, email, tx)
    case _ => true
  }

  /** A DELETE that met a row still has it; one that met none came after another deletion of the id. */
  ghost predicate HoldingOk(a: State, id: string, email: string, tx: Tx) {
    (tx == Holding(true) ==> id in a.table && a.table[id].email == email) &&
    (tx == Holding(false) ==> WasRemoved(a.trace, id))
  }

  predicate HoldsRow(p: Request) {
    (p.Reporting? || p.Finishing?) && p.tx == Holding(true)
  }

  /** Two requests never bring the same row, insert the same email or hold the same row. */
  predicate Compatible(p: Request, q: Request) {
    ((p.Inserted? || p.Announcing?) && (q.Inserted? || q.Announcing?) ==> p.id != q.id) &&
    (p.Inserted? && q.Inserted? ==> p.email != q.email) &&
    (HoldsRow(p) && HoldsRow(q) ==> p.id != q.id)
  }

  /** The ids in the table are those committed and not removed. */
  ghost predicate Ids(a: State) {
    (forall id :: WasCommitted(a.trace, id) ==> id in a.usedIds) &&
    (forall id :: id in a.table ==> CommittedAs(a.trace, id, a.table[id].email)) &&
    (forall id :: id in a.table <==> WasCommitted(a.trace, id) && !WasRemoved(a.trace, id)) &&
    (forall id :: WasCreated(a.trace, id) ==> WasCommitted(a.trace, id)) &&
    (forall id :: WasRemoved(a.trace, id) ==> WasCommitted(a.trace, id))
  }

  ghost predicate Requests(a: State) {
    (forall pid :: pid in a.procs ==> RequestOk(a, a.procs[pid])) &&
    (forall p, q :: p in a.procs && q in a.procs && p != q ==> Compatible(a.procs[p], a.procs[q]))
  }

  ghost predicate Inv(a: State) {
    Ordered(a.cfg, a.trace) && Replayed(a.table, a.trace) && Ids(a) && Requests(a) &&
    (forall email :: email in a.regs ==> EntryOk(a, email, a.regs[email])) &&
    (forall token :: token in a.issued ==> TokenOk(a, token))
  }

  // ---------------------------------------------------------------- history grows

  /** The next state has the same configuration, a later clock and at most one more event. */
  ghost predicate Grown(a: State, b: State) {
    b.cfg == a.cfg && a.now <= b.now && a.usedIds <= b.usedIds &&
    (b.trace == a.trace || (|b.trace| == |a.trace| + 1 && b.trace[..|a.trace|] == a.trace))
  }

  /** A call changes the pool of requests only through its caller. */
  lemma ExecGrown(a: State, p: Request, c: Choice)
    ensures Grown(a, Exec(a, p, c).0) && Exec(a, p, c).0.procs == a.procs && Exec(a, p, c).0.now == a.now
  {
  }

  lemma StepGrown(a: State, act: Action)
    requires Enabled(a, act)
    ensures Grown(a, Apply(a, act))
    ensures forall event :: event in a.trace ==> event in Apply(a, act).trace
  {
    if act.Call? { ExecGrown(a, a.procs[act.pid], act.choice); }
    var b := Apply(a, act);
    assert Grown(a, b);
    forall event | event in a.trace ensures event in b.trace {
      var i :| 0 <= i < |a.trace| && a.trace[i] == event;
      assert b.trace[i] == b.trace[..|a.trace|][i];
    }
  }

  lemma AppendOrdered(cfg: Config, trace: seq<Event>, event: Event)
    requires Ordered(cfg, trace) && EventOk(cfg, trace, event)
    ensures Ordered(cfg, trace + [event])
  {
    var longer := trace + [event];
    forall i | 0 <= i < |longer| ensures EventOk(cfg, longer[..i], longer[i]) {
      assert longer[..i] == trace[..i];
      if i == |trace| { assert trace[..i] == trace; } else { assert EventOk(cfg, trace[..i], trace[i]); }
    }
  }

  lemma LastActive(trace: seq<Event>, event: Event, email: string)
    ensures (trace + [event])[..|trace + [event]| - 1] == trace
    ensures event.Committed? ==>
              ActiveRow(trace + [event], email) ==
              if event.email == email then Some((event.id, event.hash)) else ActiveRow(trace, email)
    ensures event.Removed? ==>
              ActiveRow(trace + [event], email) ==
              if event.email == email then None else ActiveRow(trace, email)
    ensures event.Changed? && event.email != email ==> ActiveRow(trace + [event], email) == ActiveRow(trace, email)
    ensures event.Changed? && event.email == email ==>
              ActiveRow(trace + [event], email) ==
              if ActiveRow(trace, email).None? then None
              else Some((ActiveRow(trace, email).value.0, event.hash))
    ensures !event.Committed? && !event.Removed? && !event.Changed? ==>
              ActiveRow(trace + [event], email) == ActiveRow(trace, email)
  {
    assert (trace + [event])[..|trace + [event]| - 1] == trace;
  }

  lemma ActiveIsReplayed(a: State, email: string)
    requires Replayed(a.table, a.trace)
    ensures Active(a.table, email) <==> ActiveRow(a.trace, email).Some?
    ensures forall i, j :: i in a.table && j in a.table && a.table[i].email == a.table[j].email ==> i == j
  {
  }

  // ---------------------------------------------------------------- each part of the invariant

  /** What the call adds to the history fits the history. */
  lemma CallEvent(a: State, pid: nat, c: Choice)
    requires Inv(a) && Enabled(a, Call(pid, c))
    ensures Ordered(a.cfg, Apply(a, Call(pid, c)).trace)
  {
    var b := Apply(a, Call(pid, c));
    var p := a.procs[pid];
    assert RequestOk(a, p);
    if b.trace != a.trace {
      var event := b.trace[|a.trace|];
      assert b.trace == a.trace + [event];
      match p {
        case Inserted(_, email, _, _) => ActiveIsReplayed(a, email);
        case Updating(email, _, _) => ActiveIsReplayed(a, email);
        case _ =>
      }
      AppendOrdered(a.cfg, a.trace, event);
    }
  }

  lemma StepOrdered(a: State, act: Action)
    requires Inv(a) && Enabled(a, act)
    ensures Ordered(a.cfg, Apply(a, act).trace)
  {
    match act {
      case Call(pid, c) => CallEvent(a, pid, c);
      case AskChange(_, email) =>
        ActiveIsReplayed(a, email);
        AppendOrdered(a.cfg, a.trace, FoundActive(email));
      case _ =>
    }
  }

  lemma SameTableReplayed(a: State, event: Event)
    requires Replayed(a.table, a.trace) && !event.Committed? && !event.Removed? && !event.Changed?
    ensures Replayed(a.table, a.trace + [event])
  {
    forall email ensures ActiveRow(a.trace + [event], email) == ActiveRow(a.trace, email) {
      LastActive(a.trace, event, email);
    }
  }

  lemma CommitReplayed(a: State, event: Event)
    requires Replayed(a.table, a.trace) && event.Committed?
    requires event.id !in a.table && !Active(a.table, event.email)
    ensures Replayed(a.table[event.id := Row(event.email, event.hash)], a.trace + [event])
  {
    forall email { LastActive(a.trace, event, email); }
  }

  lemma RemovalReplayed(a: State, event: Event)
    requires Replayed(a.table, a.trace) && event.Removed?
    requires event.id in a.table && a.table[event.id].email == event.email
    ensures Replayed(a.table - {event.id}, a.trace + [event])
  {
    forall email { LastActive(a.trace, event, email); }
  }

  lemma ChangeReplayed(a: State, event: Event)
    requires Replayed(a.table, a.trace) && event.Changed?
    ensures Replayed(SetHash(a.table, event.email, event.hash), a.trace + [event])
  {
    forall email { LastActive(a.trace, event, email); }
  }

  /** The table and the history after the call of a request that relies on what it should. */
  lemma CallReplayed(a: State, p: Request, c: Choice)
    requires Replayed(a.table, a.trace) && RequestOk(a, p)
    ensures Replayed(Exec(a, p, c).0.table, Exec(a, p, c).0.trace)
  {
    var b := Exec(a, p, c).0;
    if b.trace != a.trace {
      var event := b.trace[|a.trace|];
      assert b.trace == a.trace + [event];
      match event {
        case Committed(_, _, _, _) => CommitReplayed(a, event);
        case Removed(_, _) => RemovalReplayed(a, event);
        case Changed(_, _, _) => ChangeReplayed(a, event);
        case _ => SameTableReplayed(a, event);
      }
    }
  }

  lemma StepReplayed(a: State, act: Action)
    requires Inv(a) && Enabled(a, act)
    ensures Replayed(Apply(a, act).table, Apply(a, act).trace)
  {
    match act {
      case Call(pid, c) => CallReplayed(a, a.procs[pid], c);
      case AskChange(_, email) => SameTableReplayed(a, FoundActive(email));
      case _ =>
    }
  }

  /** What one more event says about ids. */
  lemma OneMoreEvent(trace: seq<Event>, event: Event)
    ensures forall id, email :: CommittedAs(trace + [event], id, email) <==>
              CommittedAs(trace, id, email) || (event.Committed? && event.id == id && event.email == email)
    ensures forall id :: WasCommitted(trace + [event], id) <==>
              WasCommitted(trace, id) || (event.Committed? && event.id == id)
    ensures forall id :: WasRemoved(trace + [event], id) <==>
              WasRemoved(trace, id) || (event.Removed? && event.id == id)
    ensures forall id :: WasCreated(trace + [event], id) <==>
              WasCreated(trace, id) || (event.Created? && event.id == id)
  {
    var longer := trace + [event];
    assert event in longer && forall e :: e in longer <==> e in trace || e == event;
    forall id, email
      ensures CommittedAs(longer, id, email) <==>
              CommittedAs(trace, id, email) || (event.Committed? && event.id == id && event.email == email)
    {
      if event.Committed? && event.id == id && event.email == email {
        assert Committed(id, email, event.hash, event.parsed) in longer;
      }
    }
    forall id ensures WasCommitted(longer, id) <==> WasCommitted(trace, id) || (event.Committed? && event.id == id) {
      if event.Committed? && event.id == id { assert CommittedAs(longer, id, event.email); }
      if WasCommitted(trace, id) {
        var email :| CommittedAs(trace, id, email);
        assert CommittedAs(longer, id, email);
      }
    }
  }

  lemma CommitIds(a: State, p: Request, c: Choice)
    requires Ids(a) && RequestOk(a, p) && p.Inserted? && c.outcome.Applied()
    ensures Ids(Exec(a, p, c).0)
  {
    OneMoreEvent(a.trace, Committed(p.id, p.email, p.entry.hash, p.parsed));
  }

  lemma RemovalIds(a: State, p: Request, c: Choice)
    requires Ids(a) && RequestOk(a, p) && p.Finishing? && c.outcome.Applied() && p.tx == Holding(true)
    ensures Ids(Exec(a, p, c).0)
  {
    OneMoreEvent(a.trace, Removed(p.id, p.email));
  }

  /** A step that commits and removes nothing. */
  lemma OtherIds(a: State, b: State)
    requires Ids(a) && a.usedIds <= b.usedIds
    requires b.table.Keys == a.table.Keys && forall id :: id in a.table ==> b.table[id].email == a.table[id].email
    requires b.trace == a.trace ||
      (|b.trace| == |a.trace| + 1 && b.trace == a.trace + [b.trace[|a.trace|]] &&
       var event := b.trace[|a.trace|];
       !event.Committed? && !event.Removed? && (event.Created? ==> WasCommitted(a.trace, event.id)))
    ensures Ids(b)
  {
    if b.trace != a.trace { OneMoreEvent(a.trace, b.trace[|a.trace|]); }
  }

  lemma CallIds(a: State, p: Request, c: Choice)
    requires Ids(a) && RequestOk(a, p)
    ensures Ids(Exec(a, p, c).0)
  {
    if p.Inserted? && c.outcome.Applied() {
      CommitIds(a, p, c);
    } else if p.Finishing? && c.outcome.Applied() && p.tx == Holding(true) {
      RemovalIds(a, p, c);
    } else {
      if p.Announcing? { assert CommittedAs(a.trace, p.id, p.email); }
      OtherIds(a, Exec(a, p, c).0);
    }
  }

  lemma StepIds(a: State, act: Action)
    requires Inv(a) && Enabled(a, act)
    ensures Ids(Apply(a, act))
  {
    match act {
      case Call(pid, c) =>
        CallIds(a, a.procs[pid], c);
        IdsIgnorePool(Exec(a, a.procs[pid], c).0, Apply(a, act));
      case _ => OtherIds(a, Apply(a, act));
    }
  }

  lemma IdsIgnorePool(a: State, b: State)
    requires Ids(a) && b == a.(procs := b.procs)
    ensures Ids(b)
  {
  }

  // ---------------------------------------------------------------- requests, entries, tokens

  /** Facts that only say that something happened stay true. */
  lemma HistoryStays(a: State, b: State, email: string, parsed: nat, id: string)
    requires forall event :: event in a.trace ==> event in b.trace
    requires b.cfg == a.cfg
    ensures Confirmed(a.cfg, a.trace, email, parsed) ==> Confirmed(b.cfg, b.trace, email, parsed)
    ensures Requested(a.cfg, a.trace, email, parsed) ==> Requested(b.cfg, b.trace, email, parsed)
    ensures CommittedAs(a.trace, id, email) ==> CommittedAs(b.trace, id, email)
    ensures WasCommitted(a.trace, id) ==> WasCommitted(b.trace, id)
    ensures WasRemoved(a.trace, id) ==> WasRemoved(b.trace, id)
  {
    if WasCommitted(a.trace, id) {
      var e :| CommittedAs(a.trace, id, e);
      assert CommittedAs(b.trace, id, e);
    }
  }

  /** A step of another request, or of the environment, leaves what a request relies on alone. */
  lemma RequestStays(a: State, act: Action, pid: nat)
    requires Inv(a) && Enabled(a, act) && pid in a.procs
    requires act.Call? ==> act.pid != pid
    ensures RequestOk(Apply(a, act), a.procs[pid])
  {
    var b, p := Apply(a, act), a.procs[pid];
    assert RequestOk(a, p);
    StepGrown(a, act);
    match p {
      case Inserted(id, email, entry, parsed) =>
        HistoryStays(a, b, email, parsed, "");
        InsertedStays(a, act, pid);
      case Announcing(_, _) => NamedRowStays(a, act, pid);
      case Removing(_, _) => NamedRowStays(a, act, pid);
      case Reporting(_, _, _) => NamedRowStays(a, act, pid);
      case Finishing(_, _, _) => NamedRowStays(a, act, pid);
      case _ => PastStays(a, b, p);
    }
  }

  /** Requests that rely on one row of the table. */
  lemma NamedRowStays(a: State, act: Action, pid: nat)
    requires Inv(a) && Enabled(a, act) && pid in a.procs && (act.Call? ==> act.pid != pid)
    requires var p := a.procs[pid]; p.Announcing? || p.Removing? || p.Reporting? || p.Finishing?
    ensures RequestOk(Apply(a, act), a.procs[pid])
  {
    var p := a.procs[pid];
    assert RequestOk(a, p);
    StepGrown(a, act);
    CompatibleCaller(a, act, pid);
    RowRequestStays(a, act, p);
  }

  lemma RowRequestStays(a: State, act: Action, p: Request)
    requires RequestOk(a, p) && Enabled(a, act) && (p.Announcing? || p.Removing? || p.Reporting? || p.Finishing?)
    requires Apply(a, act).cfg == a.cfg && forall event :: event in a.trace ==> event in Apply(a, act).trace
    requires act.Call? ==> RequestOk(a, a.procs[act.pid]) && Compatible(p, a.procs[act.pid])
    ensures RequestOk(Apply(a, act), p)
  {
    HistoryStays(a, Apply(a, act), p.email, 0, p.id);
    match p {
      case Announcing(_, _) => AnnouncingStays(a, act, p);
      case Removing(id, email) => RemovingStays(a, act, id, email);
      case _ => HoldingStays(a, act, p);
    }
  }

  /** Requests that rely on the history only. */
  lemma PastStays(a: State, b: State, p: Request)
    requires RequestOk(a, p) && Grown(a, b) && forall event :: event in a.trace ==> event in b.trace
    requires !p.Inserted? && !p.Announcing? && !p.Removing? && !p.Reporting? && !p.Finishing?
    ensures RequestOk(b, p)
  {
    if p.SignedIn? { HistoryStays(a, b, "", 0, p.id); }
  }

  lemma CompatibleCaller(a: State, act: Action, pid: nat)
    requires Inv(a) && Enabled(a, act) && pid in a.procs && (act.Call? ==> act.pid != pid)
    ensures act.Call? ==> RequestOk(a, a.procs[act.pid]) && Compatible(a.procs[pid], a.procs[act.pid])
  {
  }

  lemma InsertedStays(a: State, act: Action, pid: nat)
    requires Inv(a) && Enabled(a, act) && pid in a.procs && a.procs[pid].Inserted?
    requires act.Call? ==> act.pid != pid
    ensures var b, p := Apply(a, act), a.procs[pid];
      p.id !in b.table && !Active(b.table, p.email) && !WasCommitted(b.trace, p.id)
  {
    var p := a.procs[pid];
    assert RequestOk(a, p);
    if act.Call? {
      assert Compatible(p, a.procs[act.pid]);
      assert RequestOk(a, a.procs[act.pid]);
      OpenInsertStays(a, a.procs[act.pid], act.choice, p);
    } else {
      QuietTable(a, act);
      QuietHistory(a, act, p.id);
    }
  }

  /** The call of a request that inserts neither the id nor the email of an open INSERT. */
  lemma OpenInsertStays(a: State, p: Request, c: Choice, q: Request)
    requires q.Inserted? && q.id !in a.table && !Active(a.table, q.email) && !WasCommitted(a.trace, q.id)
    requires p.Inserted? ==> p.id != q.id && p.email != q.email
    ensures var b := Exec(a, p, c).0;
      q.id !in b.table && !Active(b.table, q.email) && !WasCommitted(b.trace, q.id)
  {
    var b := Exec(a, p, c).0;
    if b.trace != a.trace {
      var event := b.trace[|a.trace|];
      assert b.trace == a.trace + [event];
      OneMoreEvent(a.trace, event);
    }
  }

  lemma OnlyAnnouncedIsCreated(a: State, p: Request, c: Choice, id: string)
    requires !WasCreated(a.trace, id) && !(p.Announcing? && p.id == id)
    ensures !WasCreated(Exec(a, p, c).0.trace, id)
  {
  }

  lemma AnnouncingStays(a: State, act: Action, p: Request)
    requires Enabled(a, act) && p.Announcing? && !WasCreated(a.trace, p.id)
    requires act.Call? ==> Compatible(p, a.procs[act.pid])
    ensures !WasCreated(Apply(a, act).trace, p.id)
  {
    if act.Call? {
      OnlyAnnouncedIsCreated(a, a.procs[act.pid], act.choice, p.id);
    }
  }

  /** Only the commit of a DELETE that holds the row takes it out of the table, and no call changes its email. */
  lemma RowStays(a: State, p: Request, c: Choice, id: string)
    requires id in a.table && !Holds(p, id)
    requires p.Inserted? ==> p.id !in a.table
    ensures id in Exec(a, p, c).0.table && Exec(a, p, c).0.table[id].email == a.table[id].email
  {
  }

  /** Only calls commit accounts. */
  lemma QuietHistory(a: State, act: Action, id: string)
    requires Enabled(a, act) && !act.Call?
    ensures WasCommitted(Apply(a, act).trace, id) ==> WasCommitted(a.trace, id)
  {
    if act.AskChange? { OneMoreEvent(a.trace, FoundActive(act.email)); }
  }

  lemma QuietTable(a: State, act: Action)
    requires Enabled(a, act) && !act.Call?
    ensures Apply(a, act).table == a.table
  {
  }

  lemma HoldingStays(a: State, act: Action, p: Request)
    requires Enabled(a, act) && (p.Reporting? || p.Finishing?) && HoldingOk(a, p.id, p.email, p.tx)
    requires forall event :: event in a.trace ==> event in Apply(a, act).trace
    requires act.Call? ==> RequestOk(a, a.procs[act.pid]) && Compatible(p, a.procs[act.pid])
    ensures HoldingOk(Apply(a, act), p.id, p.email, p.tx)
  {
    if !act.Call? {
      QuietTable(a, act);
    } else if p.tx == Holding(true) {
      RowStays(a, a.procs[act.pid], act.choice, p.id);
    }
  }

  lemma RemovingStays(a: State, act: Action, id: string, email: string)
    requires Enabled(a, act) && CommittedAs(a.trace, id, email) && (id in a.table ==> a.table[id].email == email)
    requires act.Call? ==> RequestOk(a, a.procs[act.pid])
    ensures id in Apply(a, act).table ==> Apply(a, act).table[id].email == email
  {
    if !act.Call? {
      QuietTable(a, act);
    } else if id in a.table && !Holds(a.procs[act.pid], id) {
      RowStays(a, a.procs[act.pid], act.choice, id);
    }
  }

  lemma InsertCaller(a: State, p: Request, c: Choice)
    requires Ids(a) && RequestOk(a, p) && p.Inserting? && c.id !in a.usedIds
    requires Exec(a, p, c).1.Some?
    ensures RequestOk(Exec(a, p, c).0, Exec(a, p, c).1.value)
  {
  }

  lemma CommitCaller(a: State, p: Request, c: Choice)
    requires Ids(a) && RequestOk(a, p) && p.Inserted?
    requires Exec(a, p, c).1.Some?
    ensures RequestOk(Exec(a, p, c).0, Exec(a, p, c).1.value)
  {
    var b := Exec(a, p, c).0;
    var event := Committed(p.id, p.email, p.entry.hash, p.parsed);
    assert b.trace == a.trace + [event];
    assert event in b.trace;
  }

  /** The request that made the call. */
  lemma CallerOk(a: State, p: Request, c: Choice)
    requires Ids(a) && RequestOk(a, p)
    requires forall email :: email in a.regs ==> EntryOk(a, email, a.regs[email])
    requires p.Inserting? ==> c.id !in a.usedIds
    requires Exec(a, p, c).1.Some?
    ensures RequestOk(Exec(a, p, c).0, Exec(a, p, c).1.value)
  {
    match p {
      case Verifying(email, parsed) => assert EntryOk(a, email, a.regs[email]);
      case AskingVerification(email) => assert EntryOk(a, email, a.regs[email]);
      case Deleting(id) => assert id in a.table ==> CommittedAs(a.trace, id, a.table[id].email);
      case Removing(id, email) => assert WasCommitted(a.trace, id);
      case Inserting(_, _, _) => InsertCaller(a, p, c);
      case Inserted(_, _, _, _) => CommitCaller(a, p, c);
      case Reporting(id, email, tx) => assert Exec(a, p, c).0.trace == a.trace + [Deleted(id, email)];
      case _ =>
    }
  }

  /** What a request relies on does not depend on the pool of requests. */
  lemma RequestOkIgnoresPool(a: State, procs: map<nat, Request>, p: Request)
    requires RequestOk(a, p)
    ensures RequestOk(a.(procs := procs), p)
  {
  }

  /** The id of a row that is being brought is used. */
  lemma BroughtIsUsed(a: State, q: Request)
    requires Ids(a) && RequestOk(a, q) && (q.Inserted? || q.Announcing?)
    ensures q.id in a.usedIds
  {
    if q.Announcing? { assert WasCommitted(a.trace, q.id); }
  }

  /** A caller that goes on stays compatible with everyone its predecessor was compatible with. */
  lemma CallerCompatible(a: State, p: Request, c: Choice, q: Request)
    requires (q.Inserted? || q.Announcing? ==> q.id in a.usedIds) && Compatible(p, q)
    requires Exec(a, p, c).1.Some? && (p.Inserting? ==> c.id !in a.usedIds)
    requires p.Inserting? ==> !HoldsEmail(q, p.email)
    requires p.Removing? ==> !Holds(q, p.id)
    ensures Compatible(Exec(a, p, c).1.value, q)
  {
  }

  lemma CompatibleBothWays(p: Request, q: Request)
    ensures Compatible(p, q) <==> Compatible(q, p)
  {
  }

  /** A parsed token was issued for its purpose, and less than its lifetime ago. */
  lemma ParsedTokens(a: State, token: Token)
    requires Inv(a) && Presentable(a, token)
    ensures ParseToken(token, a.cfg.verifySecret, a.now).Some? ==> Confirmed(a.cfg, a.trace, token.value, a.now)
    ensures ParseToken(token, a.cfg.changeSecret, a.now).Some? ==> Requested(a.cfg, a.trace, token.value, a.now)
  {
    if token in a.issued {
      assert TokenOk(a, token);
    }
  }

  lemma NewRequestOk(a: State, act: Action, pid: nat)
    requires Inv(a) && Enabled(a, act) && !act.Call?
    requires pid !in a.procs && pid in Apply(a, act).procs
    ensures RequestOk(Apply(a, act), Apply(a, act).procs[pid])
  {
    match act {
      case Verify(_, token) => ParsedTokens(a, token);
      case Change(_, token, _) => ParsedTokens(a, token);
      case _ =>
    }
  }

  /** The request that made a call stays compatible with every other one. */
  lemma CallCompatible(a: State, pid: nat, c: Choice, q: nat)
    requires Inv(a) && Enabled(a, Call(pid, c)) && Exec(a, a.procs[pid], c).1.Some? && q in a.procs && q != pid
    ensures Compatible(Exec(a, a.procs[pid], c).1.value, a.procs[q])
  {
    assert RequestOk(a, a.procs[q]) && Compatible(a.procs[pid], a.procs[q]);
    if a.procs[q].Inserted? || a.procs[q].Announcing? { BroughtIsUsed(a, a.procs[q]); }
    CallerCompatible(a, a.procs[pid], c, a.procs[q]);
  }

  lemma StepCompatible(a: State, act: Action, p: nat, q: nat)
    requires Inv(a) && Enabled(a, act)
    requires p in Apply(a, act).procs && q in Apply(a, act).procs && p != q
    ensures Compatible(Apply(a, act).procs[p], Apply(a, act).procs[q])
  {
    match act {
      case Call(pid, c) =>
        ExecGrown(a, a.procs[pid], c);
        if pid == p {
          CallCompatible(a, pid, c, q);
        } else if pid == q {
          CallCompatible(a, pid, c, p);
          CompatibleBothWays(Apply(a, act).procs[q], Apply(a, act).procs[p]);
        }
      case _ =>
    }
  }

  /** A step touches no request but the one it names. */
  lemma OthersWait(a: State, act: Action, pid: nat)
    requires Enabled(a, act) && pid in a.procs && pid in Apply(a, act).procs && (act.Call? ==> act.pid != pid)
    ensures Apply(a, act).procs[pid] == a.procs[pid]
  {
    if act.Call? { ExecGrown(a, a.procs[act.pid], act.choice); }
  }

  lemma WaitingRequestOk(a: State, act: Action, pid: nat)
    requires Inv(a) && Enabled(a, act) && pid in a.procs && pid in Apply(a, act).procs
    requires act.Call? ==> act.pid != pid
    ensures RequestOk(Apply(a, act), Apply(a, act).procs[pid])
  {
    var b, p := Apply(a, act), a.procs[pid];
    RequestStays(a, act, pid);
    OthersWait(a, act, pid);
    assert b.procs[pid] == p;
  }

  lemma CallerGoesOn(a: State, pid: nat, c: Choice)
    requires Inv(a) && Enabled(a, Call(pid, c)) && pid in Apply(a, Call(pid, c)).procs
    ensures RequestOk(Apply(a, Call(pid, c)), Apply(a, Call(pid, c)).procs[pid])
  {
    var p := a.procs[pid];
    var (b, next) := Exec(a, p, c);
    assert RequestOk(a, p);
    CallerOk(a, p, c);
    RequestOkIgnoresPool(b, Apply(a, Call(pid, c)).procs, next.value);
  }

  lemma CallRequestOk(a: State, caller: nat, c: Choice, pid: nat)
    requires Inv(a) && Enabled(a, Call(caller, c)) && pid in Apply(a, Call(caller, c)).procs
    ensures RequestOk(Apply(a, Call(caller, c)), Apply(a, Call(caller, c)).procs[pid])
  {
    ExecGrown(a, a.procs[caller], c);
    if pid == caller { CallerGoesOn(a, pid, c); } else { WaitingRequestOk(a, Call(caller, c), pid); }
  }

  lemma StepRequestOk(a: State, act: Action, pid: nat)
    requires Inv(a) && Enabled(a, act) && pid in Apply(a, act).procs
    ensures RequestOk(Apply(a, act), Apply(a, act).procs[pid])
  {
    match act {
      case Call(caller, c) => CallRequestOk(a, caller, c, pid);
      case _ => if pid in a.procs { WaitingRequestOk(a, act, pid); } else { NewRequestOk(a, act, pid); }
    }
  }

  lemma StepRequests(a: State, act: Action)
    requires Inv(a) && Enabled(a, act)
    ensures Requests(Apply(a, act))
  {
    forall pid | pid in Apply(a, act).procs ensures RequestOk(Apply(a, act), Apply(a, act).procs[pid]) {
      StepRequestOk(a, act, pid);
    }
    forall p, q | p in Apply(a, act).procs && q in Apply(a, act).procs && p != q
      ensures Compatible(Apply(a, act).procs[p], Apply(a, act).procs[q])
    {
      StepCompatible(a, act, p, q);
    }
  }

  lemma CallEntry(a: State, p: Request, c: Choice, email: string)
    requires email in Exec(a, p, c).0.regs
    requires email in a.regs ==> EntryOk(a, email, a.regs[email])
    ensures EntryOk(Exec(a, p, c).0, email, Exec(a, p, c).0.regs[email])
  {
  }

  lemma StepEntries(a: State, act: Action)
    requires Inv(a) && Enabled(a, act)
    ensures forall email :: email in Apply(a, act).regs ==> EntryOk(Apply(a, act), email, Apply(a, act).regs[email])
  {
    forall email | email in Apply(a, act).regs ensures EntryOk(Apply(a, act), email, Apply(a, act).regs[email]) {
      if email in a.regs { assert EntryOk(a, email, a.regs[email]); }
      if act.Call? { CallEntry(a, a.procs[act.pid], act.choice, email); }
    }
  }

  lemma TokenStays(a: State, b: State, token: Token)
    requires TokenOk(a, token) && Grown(a, b) && forall event :: event in a.trace ==> event in b.trace
    ensures TokenOk(b, token)
  {
  }

  lemma NewVerificationToken(a: State, p: Request, c: Choice)
    requires p.IssuingVerification? && c.outcome.Applied()
    ensures TokenOk(Exec(a, p, c).0, GenerateToken(p.email, a.cfg.verifySecret, a.cfg.pendingTTL, a.now))
  {
    var b := Exec(a, p, c).0;
    assert b.trace == a.trace + [AskedVerification(p.email, a.now, p.expiry)];
    assert AskedVerification(p.email, a.now, p.expiry) in b.trace;
    assert IssuedForVerification(b, GenerateToken(p.email, a.cfg.verifySecret, a.cfg.pendingTTL, a.now));
  }

  lemma NewChangeToken(a: State, p: Request, c: Choice)
    requires p.IssuingChange? && c.outcome.Applied()
    ensures TokenOk(Exec(a, p, c).0, GenerateToken(p.email, a.cfg.changeSecret, a.cfg.changeTTL, a.now))
  {
    var b := Exec(a, p, c).0;
    assert b.trace == a.trace + [AskedChange(p.email, a.now)];
    assert AskedChange(p.email, a.now) in b.trace;
    assert IssuedForChange(b, GenerateToken(p.email, a.cfg.changeSecret, a.cfg.changeTTL, a.now));
  }

  lemma NewToken(a: State, p: Request, c: Choice, token: Token)
    requires Inv(a) && token in Exec(a, p, c).0.issued && token !in a.issued
    ensures TokenOk(Exec(a, p, c).0, token)
  {
    if p.IssuingVerification? { NewVerificationToken(a, p, c); } else { NewChangeToken(a, p, c); }
  }

  lemma StepTokens(a: State, act: Action)
    requires Inv(a) && Enabled(a, act)
    ensures forall token :: token in Apply(a, act).issued ==> TokenOk(Apply(a, act), token)
  {
    var b := Apply(a, act);
    StepGrown(a, act);
    forall token | token in b.issued ensures TokenOk(b, token) {
      if token in a.issued {
        TokenStays(a, b, token);
      } else {
        NewToken(a, a.procs[act.pid], act.choice, token);
        TokenStays(Exec(a, a.procs[act.pid], act.choice).0, b, token);
      }
    }
  }

  lemma StepInv(a: State, act: Action)
    requires Inv(a) && Enabled(a, act)
    ensures Inv(Apply(a, act))
  {
    StepGrown(a, act);
    StepOrdered(a, act);
    StepReplayed(a, act);
    StepIds(a, act);
    StepRequests(a, act);
    StepEntries(a, act);
    StepTokens(a, act);
    Assemble(a.cfg, Apply(a, act));
  }

  lemma Assemble(cfg: Config, b: State)
    requires b.cfg == cfg
    requires Ordered(cfg, b.trace) && Replayed(b.table, b.trace) && Ids(b) && Requests(b)
    requires forall email :: email in b.regs ==> EntryOk(b, email, b.regs[email])
    requires forall token :: token in b.issued ==> TokenOk(b, token)
    ensures Inv(b)
  {
  }

  lemma InitInv(a: State)
    requires Init(a)
    ensures Inv(a)
  {
  }

  lemma {:induction false} RunInv(a: State, acts: seq<Action>)
    requires Inv(a) && Valid(a, acts)
    ensures Inv(Run(a, acts))
    decreases |acts|
  {
    if acts != [] {
      StepInv(a, acts[0]);
      RunInv(Apply(a, acts[0]), acts[1..]);
    }
  }
}
