/** The account half of the service as a step system over the accounts table, the registration
    cache, the tokens in the users' hands and the event log. Every external call is one step with
    one of three outcomes; the steps of concurrent requests interleave freely. Open transactions
    live in the request that began them: they hold their row or their email until it ends. */
module AccountSystem {
  import opened Models
  import opened Jwt

  /** An ideal bcrypt: a hash matches its own password only. */
  datatype Hash = Bcrypt(password: string, salt: nat)

  predicate Matches(hash: Hash, password: string) {
    hash.password == password
  }

  datatype Entry = Entry(username: string, hash: Hash, expiry: nat)

  datatype Row = Row(email: string, hash: Hash)

  /** The verification token and the pending registration share one lifetime. */
  datatype Config = Config(verifySecret: string, changeSecret: string, pendingTTL: nat, changeTTL: nat)

  /** The configuration takes the secrets from two variables and does not compare them. */
  predicate Distinct(cfg: Config) {
    cfg.verifySecret != cfg.changeSecret
  }

  /** What happened, oldest first. `Created` and `Deleted` are the messages of the event log;
      `Committed`, `Removed` and `Changed` are commits to the table. */
  datatype Event =
    | Entered(email: string, hash: Hash)
    | AskedVerification(email: string, at: nat, expiry: nat)
    | FoundActive(email: string)
    | AskedChange(email: string, at: nat)
    | Committed(id: string, email: string, hash: Hash, parsed: nat)
    | Created(id: string, email: string)
    | Deleted(id: string, email: string)
    | Removed(id: string, email: string)
    | Changed(email: string, hash: Hash, parsed: nat)

  /** A DELETE transaction: none (its rollback was returned as the result), or open with or without a row. */
  datatype Tx = NoTx | Holding(row: bool)

  /** A request between two external calls, named by the call it makes next. */
  datatype Request =
    | Registering(email: string, username: string, password: string)
    | Entering(email: string, username: string, password: string)
    | AskingVerification(email: string)
    | IssuingVerification(email: string, expiry: nat)
    | Verifying(email: string, parsed: nat)
    | Inserting(email: string, entry: Entry, parsed: nat)
    | Inserted(id: string, email: string, entry: Entry, parsed: nat)
    | Announcing(id: string, email: string)
    | Forgetting(email: string)
    | IssuingChange(email: string)
    | Changing(email: string, password: string, parsed: nat)
    | Updating(email: string, password: string, parsed: nat)
    | SignedIn(id: string)
    | Deleting(id: string)
    | Removing(id: string, email: string)
    | Reporting(id: string, email: string, tx: Tx)
    | Finishing(id: string, email: string, tx: Tx)

  datatype State = State(
    cfg: Config, now: nat, table: map<string, Row>, usedIds: set<string>,
    regs: map<string, Entry>, issued: set<Token>, trace: seq<Event>, procs: map<nat, Request>)

  predicate Init(a: State) {
    a.table == map[] && a.usedIds == {} && a.regs == map[] && a.issued == {} && a.trace == [] && a.procs == map[]
  }

  // ---------------------------------------------------------------- table and cache

  predicate Active(table: map<string, Row>, email: string) {
    exists id :: id in table && table[id].email == email
  }

  /** SignIn's decision: the row of the email is `id`, and its hash matches. */
  predicate Accepts(table: map<string, Row>, email: string, password: string, id: string) {
    id in table && table[id].email == email && Matches(table[id].hash, password)
  }

  function SetHash(table: map<string, Row>, email: string, hash: Hash): map<string, Row> {
    map id | id in table :: if table[id].email == email then Row(email, hash) else table[id]
  }

  function PurgeEntries(regs: map<string, Entry>, now: nat): map<string, Entry> {
    map email | email in regs && now < regs[email].expiry :: regs[email]
  }

  /** The request holds the row `id` under an uncommitted DELETE. */
  predicate Holds(p: Request, id: string) {
    (p.Reporting? || p.Finishing?) && p.tx == Holding(true) && p.id == id
  }

  /** The unique index makes an INSERT of this email wait for the request. */
  predicate HoldsEmail(p: Request, email: string) {
    (p.Inserted? && p.email == email) ||
    ((p.Reporting? || p.Finishing?) && p.tx == Holding(true) && p.email == email)
  }

  // ---------------------------------------------------------------- one call of a request

  /** What the environment decides: the outcome of the call, the uuid a new row gets, the salt. */
  datatype Choice = Choice(outcome: Outcome, id: string, salt: nat)

  predicate Blocked(a: State, p: Request) {
    match p
    case Inserting(email, _, _) => exists q :: q in a.procs && HoldsEmail(a.procs[q], email)
    case Updating(email, _, _) => exists q :: q in a.procs && HoldsEmail(a.procs[q], email) && !a.procs[q].Inserted?
    case Removing(id, _) => exists q :: q in a.procs && Holds(a.procs[q], id)
    case _ => false
  }

  function Log(a: State, event: Event): State {
    a.(trace := a.trace + [event])
  }

  function Exec(a: State, p: Request, c: Choice): (State, Option<Request>) {
    var done := c.outcome.Done?;
    var applied := c.outcome.Applied();
    match p
    case Registering(email, username, password) =>
      (a, if done && email !in a.regs then Some(Entering(email, username, password)) else None)
    case Entering(email, username, password) =>
      var hash := Bcrypt(password, c.salt);
      (if !applied then a
       else Log(a, Entered(email, hash)).(
              regs := a.regs[email := Entry(username, hash, a.now + a.cfg.pendingTTL)]),
       None)
    case AskingVerification(email) =>
      (a, if done && email in a.regs then Some(IssuingVerification(email, a.regs[email].expiry)) else None)
    case IssuingVerification(email, expiry) =>
      (if !applied then a
       else Log(a, AskedVerification(email, a.now, expiry)).(
              issued := a.issued + {GenerateToken(email, a.cfg.verifySecret, a.cfg.pendingTTL, a.now)}),
       None)
    case Verifying(email, parsed) =>
      (a, if done && email in a.regs then Some(Inserting(email, a.regs[email], parsed)) else None)
    case Inserting(email, entry, parsed) =>
      if !done || Active(a.table, email) then (a, None)
      else (a.(usedIds := a.usedIds + {c.id}), Some(Inserted(c.id, email, entry, parsed)))
    case Inserted(id, email, entry, parsed) =>
      if !applied then (a, None)
      else (Log(a, Committed(id, email, entry.hash, parsed)).(table := a.table[id := Row(email, entry.hash)]),
            if done then Some(Announcing(id, email)) else None)
    case Announcing(id, email) =>
      if !applied then (a, None)
      else (Log(a, Created(id, email)), if done then Some(Forgetting(email)) else None)
    case Forgetting(email) =>
      (if applied then a.(regs := a.regs - {email}) else a, None)
    case IssuingChange(email) =>
      (if !applied then a
       else Log(a, AskedChange(email, a.now)).(
              issued := a.issued + {GenerateToken(email, a.cfg.changeSecret, a.cfg.changeTTL, a.now)}),
       None)
    case Changing(email, password, parsed) =>
      (a, if done && Active(a.table, email) then Some(Updating(email, password, parsed)) else None)
    case Updating(email, password, parsed) =>
      var hash := Bcrypt(password, c.salt);
      (if applied && Active(a.table, email)
       then Log(a, Changed(email, hash, parsed)).(table := SetHash(a.table, email, hash)) else a,
       None)
    case SignedIn(id) => (a, None)
    case Deleting(id) =>
      (a, if done && id in a.table then Some(Removing(id, a.table[id].email)) else None)
    case Removing(id, email) =>
      (a, Some(Reporting(id, email, if done then Holding(id in a.table) else NoTx)))
    case Reporting(id, email, tx) =>
      if !applied then (a, None)
      else (Log(a, Deleted(id, email)), if done then Some(Finishing(id, email, tx)) else None)
    case Finishing(id, email, tx) =>
      (if applied && tx == Holding(true)
       then Log(a, Removed(id, email)).(table := a.table - {id}) else a,
       None)
  }

  // ---------------------------------------------------------------- steps

  datatype Action =
    | Tick(d: nat)
    | Register(pid: nat, email: string, username: string, password: string)
    | AskVerification(pid: nat, email: string)
    | Verify(pid: nat, token: Token)
    | AskChange(pid: nat, email: string)
    | Change(pid: nat, token: Token, password: string)
    | SignIn(pid: nat, email: string, password: string, id: string)
    | Delete(pid: nat, id: string)
    | Call(pid: nat, choice: Choice)
    | Abort(pid: nat)

  /** Signatures are unforgeable: a token made under one of the service's keys was issued by it. */
  predicate Presentable(a: State, token: Token) {
    token in a.issued || token.Garbage? || token.key !in {a.cfg.verifySecret, a.cfg.changeSecret}
  }

  predicate Enabled(a: State, act: Action) {
    match act
    case Tick(_) => true
    case Register(pid, email, _, _) => pid !in a.procs && !Active(a.table, email)
    case AskVerification(pid, email) => pid !in a.procs && !Active(a.table, email)
    case Verify(pid, token) =>
      pid !in a.procs && Presentable(a, token) && ParseToken(token, a.cfg.verifySecret, a.now).Some?
    case AskChange(pid, email) => pid !in a.procs && Active(a.table, email)
    case Change(pid, token, _) =>
      pid !in a.procs && Presentable(a, token) && ParseToken(token, a.cfg.changeSecret, a.now).Some?
    case SignIn(pid, email, password, id) =>
      pid !in a.procs && Accepts(a.table, email, password, id)
    case Delete(pid, _) => pid !in a.procs
    case Call(pid, choice) =>
      pid in a.procs && !Blocked(a, a.procs[pid]) &&
      (a.procs[pid].Inserting? ==> choice.id !in a.usedIds)
    case Abort(pid) => pid in a.procs
  }

  function Spawn(a: State, pid: nat, p: Request): State {
    a.(procs := a.procs[pid := p])
  }

  function Continue(a: State, pid: nat, next: Option<Request>): State {
    a.(procs := if next.None? then a.procs - {pid} else a.procs[pid := next.value])
  }

  function Apply(a: State, act: Action): State
    requires Enabled(a, act)
  {
    match act
    case Tick(d) => a.(now := a.now + d, regs := PurgeEntries(a.regs, a.now + d))
    case Register(pid, email, username, password) => Spawn(a, pid, Registering(email, username, password))
    case AskVerification(pid, email) => Spawn(a, pid, AskingVerification(email))
    case Verify(pid, token) =>
      Spawn(a, pid, Verifying(ParseToken(token, a.cfg.verifySecret, a.now).value, a.now))
    case AskChange(pid, email) => Log(Spawn(a, pid, IssuingChange(email)), FoundActive(email))
    case Change(pid, token, password) =>
      Spawn(a, pid, Changing(ParseToken(token, a.cfg.changeSecret, a.now).value, password, a.now))
    case SignIn(pid, email, password, id) => Spawn(a, pid, SignedIn(id))
    case Delete(pid, id) => Spawn(a, pid, Deleting(id))
    case Call(pid, choice) =>
      var (a', next) := Exec(a, a.procs[pid], choice);
      Continue(a', pid, next)
    case Abort(pid) => Continue(a, pid, None)
  }

  predicate Valid(a: State, acts: seq<Action>)
    decreases |acts|
  {
    acts == [] || (Enabled(a, acts[0]) && Valid(Apply(a, acts[0]), acts[1..]))
  }

  function Run(a: State, acts: seq<Action>): State
    requires Valid(a, acts)
    decreases |acts|
  {
    if acts == [] then a else Run(Apply(a, acts[0]), acts[1..])
  }

  lemma {:induction false} Concat(a: State, first: seq<Action>, second: seq<Action>)
    requires Valid(a, first) && Valid(Run(a, first), second)
    ensures Valid(a, first + second) && Run(a, first + second) == Run(Run(a, first), second)
    decreases |first|
  {
    if first == [] {
      assert first + second == second;
    } else {
      Concat(Apply(a, first[0]), first[1..], second);
      assert (first + second)[1..] == first[1..] + second;
    }
  }

  // ---------------------------------------------------------------- reading the history

  /** The account an email has according to the history alone: the latest commit that speaks of it. */
  function ActiveRow(trace: seq<Event>, email: string): Option<(string, Hash)>
    decreases |trace|
  {
    if trace == [] then None
    else
      var past := trace[..|trace| - 1];
      match trace[|trace| - 1]
      case Committed(id, e, hash, _) => if e == email then Some((id, hash)) else ActiveRow(past, email)
      case Removed(_, e) => if e == email then None else ActiveRow(past, email)
      case Changed(e, hash, _) =>
        if e == email && ActiveRow(past, email).Some? then Some((ActiveRow(past, email).value.0, hash))
        else ActiveRow(past, email)
      case _ => ActiveRow(past, email)
  }

  ghost predicate CommittedAs(trace: seq<Event>, id: string, email: string) {
    exists hash, parsed :: Committed(id, email, hash, parsed) in trace
  }

  ghost predicate WasCommitted(trace: seq<Event>, id: string) {
    exists email :: CommittedAs(trace, id, email)
  }

  ghost predicate WasRemoved(trace: seq<Event>, id: string) {
    exists email :: Removed(id, email) in trace
  }

  ghost predicate WasCreated(trace: seq<Event>, id: string) {
    exists email :: Created(id, email) in trace
  }

  /** A verification token for the email was issued at most its lifetime before `parsed`. */
  ghost predicate VerificationAsked(trace: seq<Event>, email: string, parsed: nat, ttl: nat) {
    exists at: nat, expiry: nat :: AskedVerification(email, at, expiry) in trace && at <= parsed < at + ttl
  }

  ghost predicate ChangeAsked(trace: seq<Event>, email: string, parsed: nat, ttl: nat) {
    exists at: nat :: AskedChange(email, at) in trace && at <= parsed < at + ttl
  }

  /** A token that lets the email's account be created was asked for in time: one for that purpose, or
      one for the other purpose if the secrets do not tell them apart. */
  ghost predicate Confirmed(cfg: Config, trace: seq<Event>, email: string, parsed: nat) {
    VerificationAsked(trace, email, parsed, cfg.pendingTTL) ||
    (!Distinct(cfg) && ChangeAsked(trace, email, parsed, cfg.changeTTL))
  }

  ghost predicate Requested(cfg: Config, trace: seq<Event>, email: string, parsed: nat) {
    ChangeAsked(trace, email, parsed, cfg.changeTTL) ||
    (!Distinct(cfg) && VerificationAsked(trace, email, parsed, cfg.pendingTTL))
  }

  /** What an event says about everything that happened before it. */
  ghost predicate EventOk(cfg: Config, past: seq<Event>, event: Event) {
    match event
    case AskedVerification(_, at, expiry) => expiry <= at + cfg.pendingTTL
    case FoundActive(email) => ActiveRow(past, email).Some?
    case AskedChange(email, _) => FoundActive(email) in past
    case Committed(id, email, hash, parsed) =>
      ActiveRow(past, email).None? && !WasCommitted(past, id) && Entered(email, hash) in past &&
      Confirmed(cfg, past, email, parsed)
    case Created(id, email) => CommittedAs(past, id, email) && !WasCreated(past, id)
    case Deleted(id, email) => CommittedAs(past, id, email)
    case Removed(id, email) => Deleted(id, email) in past && !WasRemoved(past, id)
    case Changed(email, _, parsed) =>
      ActiveRow(past, email).Some? && Requested(cfg, past, email, parsed)
    case _ => true
  }

  ghost predicate Ordered(cfg: Config, trace: seq<Event>) {
    forall i :: 0 <= i < |trace| ==> EventOk(cfg, trace[..i], trace[i])
  }
}
