/** The registration cache and the accounts table in the form of their sources. */
module AccountRepositories {
  import opened Models
  import opened AccountSystem

  function Reported(outcome: Outcome): RawError {
    if outcome.Done? then NoError else Foreign
  }

  class RegistrationRepository {
    var regs: map<string, Entry>
    var now: nat

    constructor (now: nat)
      ensures regs == map[] && this.now == now
    {
      regs := map[];
      this.now := now;
    }

    method IsAccountExist(email: string, outcome: Outcome, ctx: Context) returns (inCache: bool, err: Option<ErrorCode>)
      ensures err == HandleError(ctx, Reported(outcome))
      ensures inCache <==> outcome.Done? && email in regs
    {
      inCache := outcome.Done? && email in regs;
      err := HandleError(ctx, Reported(outcome));
    }

    /** The result of SET is dropped: the caller hears of a finished context, never of a failed SET. */
    method SetAccount(email: string, account: Entry, ttl: nat, outcome: Outcome, ctx: Context)
      returns (err: Option<ErrorCode>)
      modifies `regs
      ensures regs == if outcome.Applied() then old(regs)[email := account.(expiry := now + ttl)] else old(regs)
      ensures err == HandleError(ctx, NoError)
    {
      if outcome.Applied() {
        regs := regs[email := account.(expiry := now + ttl)];
      }
      err := HandleError(ctx, NoError);
    }

    method GetAccount(email: string, outcome: Outcome, ctx: Context)
      returns (account: Option<Entry>, err: Option<ErrorCode>)
      ensures account == if outcome.Done? && email in regs then Some(regs[email]) else None
      ensures err == HandleError(ctx, if !outcome.Done? then Foreign else if email in regs then NoError else RedisNil)
    {
      if !outcome.Done? {
        return None, HandleError(ctx, Foreign);
      }
      if email !in regs {
        return None, HandleError(ctx, RedisNil);
      }
      return Some(regs[email]), HandleError(ctx, NoError);
    }

    method DeleteAccount(email: string, outcome: Outcome, ctx: Context) returns (err: Option<ErrorCode>)
      modifies `regs
      ensures regs == if outcome.Applied() then old(regs) - {email} else old(regs)
      ensures err == HandleError(ctx, Reported(outcome))
    {
      if outcome.Applied() {
        regs := regs - {email};
      }
      err := HandleError(ctx, Reported(outcome));
    }
  }

  // ---------------------------------------------------------------- the accounts table

  /** What an open transaction will do to the table: an INSERT, or a DELETE that met a row or none. */
  datatype Change = InsertRow(id: string, row: Row) | DeleteRow(id: string, hit: bool)

  function CommitChange(table: map<string, Row>, change: Change): map<string, Row> {
    match change
    case InsertRow(id, row) => table[id := row]
    case DeleteRow(id, hit) => if hit then table - {id} else table
  }

  class Transaction {
    const repo: AccountsRepository
    const change: Change
    var open: bool

    constructor (repo: AccountsRepository, change: Change)
      ensures this.repo == repo && this.change == change && open
    {
      this.repo := repo;
      this.change := change;
      open := true;
    }

    method Commit(outcome: Outcome) returns (failed: bool)
      requires open
      modifies this, repo`table
      ensures repo.table == if outcome.Applied() then CommitChange(old(repo.table), change) else old(repo.table)
      ensures failed <==> !outcome.Done?
      ensures !open
    {
      open := false;
      if outcome.Applied() {
        repo.table := CommitChange(repo.table, change);
      }
      failed := !outcome.Done?;
    }
  }

  class AccountsRepository {
    var table: map<string, Row>
    var usedIds: set<string>

    constructor ()
      ensures table == map[] && usedIds == {}
    {
      table := map[];
      usedIds := {};
    }

    /** A failed INSERT returns the result of its rollback: no transaction and, if the rollback works, no error. */
    method CreateAccount(email: string, hash: Hash, begin: bool, insert: Choice, rollback: bool, ctx: Context)
      returns (tx: Transaction?, id: string, err: Option<ErrorCode>)
      requires insert.id !in usedIds
      modifies `usedIds
      ensures var inserted := begin && insert.outcome.Done? && !Active(table, email);
        if inserted then
          && tx != null && fresh(tx) && tx.open && tx.repo == this
          && id == insert.id && tx.change == InsertRow(id, Row(email, hash))
          && usedIds == old(usedIds) + {id} && err == HandleError(ctx, NoError)
        else
          && tx == null && usedIds == old(usedIds)
          && err == HandleError(ctx, if begin && rollback then NoError else Foreign)
    {
      id := "";
      tx := null;
      if !begin {
        return tx, id, HandleError(ctx, Foreign);
      }
      if !insert.outcome.Done? || Active(table, email) {
        return tx, id, HandleError(ctx, if rollback then NoError else Foreign);
      }
      id := insert.id;
      usedIds := usedIds + {id};
      tx := new Transaction(this, InsertRow(id, Row(email, hash)));
      err := HandleError(ctx, NoError);
    }

    /** The context counts only once the query has failed. */
    method IsAccountWithEmailExist(email: string, outcome: Outcome, ctx: Context)
      returns (exist: bool, err: Option<ErrorCode>)
      ensures exist <==> outcome.Done? && Active(table, email)
      ensures err == if outcome.Done? then None else HandleError(ctx, Foreign)
    {
      if !outcome.Done? {
        return false, HandleError(ctx, Foreign);
      }
      return Active(table, email), None;
    }

    method GetAccountByEmail(email: string, outcome: Outcome, ctx: Context)
      returns (id: string, account: Option<Row>, err: Option<ErrorCode>)
      ensures account.Some? <==> outcome.Done? && Active(table, email)
      ensures account.Some? ==> id in table && table[id] == account.value && account.value.email == email
      ensures err == HandleError(ctx, if !outcome.Done? then Foreign
                                      else if Active(table, email) then NoError else Domain(NotFound))
    {
      id, account := "", None;
      if !outcome.Done? {
        return id, account, HandleError(ctx, Foreign);
      }
      if !Active(table, email) {
        return id, account, HandleError(ctx, Domain(NotFound));
      }
      var found :| found in table && table[found].email == email;
      return found, Some(table[found]), HandleError(ctx, NoError);
    }

    /** No affected row is an error. */
    method ChangePassword(email: string, hash: Hash, outcome: Outcome, ctx: Context) returns (err: Option<ErrorCode>)
      modifies `table
      ensures table == if outcome.Applied() then SetHash(old(table), email, hash) else old(table)
      ensures err == HandleError(ctx, if outcome.Done? && Active(old(table), email) then NoError else Foreign)
    {
      var affected := Active(table, email);
      if outcome.Applied() {
        table := SetHash(table, email, hash);
      }
      err := HandleError(ctx, if outcome.Done? && affected then NoError else Foreign);
    }

    /** A DELETE without a row still gives a transaction; a failed one gives none and its rollback's result. */
    method DeleteAccount(id: string, begin: bool, outcome: Outcome, rollback: bool, ctx: Context)
      returns (tx: Transaction?, err: Option<ErrorCode>)
      ensures if begin && outcome.Done? then
          && tx != null && fresh(tx) && tx.open && tx.repo == this && tx.change == DeleteRow(id, id in table)
          && err == HandleError(ctx, NoError)
        else
          && tx == null && err == HandleError(ctx, if begin && rollback then NoError else Foreign)
    {
      tx := null;
      if !begin {
        return tx, HandleError(ctx, Foreign);
      }
      if !outcome.Done? {
        return tx, HandleError(ctx, if rollback then NoError else Foreign);
      }
      tx := new Transaction(this, DeleteRow(id, id in table));
      err := HandleError(ctx, NoError);
    }

    method GetAccountEmail(id: string, outcome: Outcome, ctx: Context)
      returns (email: string, err: Option<ErrorCode>)
      ensures err == HandleError(ctx, if !outcome.Done? then Foreign
                                      else if id in table then NoError else Domain(NotFound))
      ensures outcome.Done? && id in table ==> email == table[id].email
    {
      email := "";
      if !outcome.Done? {
        return email, HandleError(ctx, Foreign);
      }
      if id !in table {
        return email, HandleError(ctx, Domain(NotFound));
      }
      return table[id].email, HandleError(ctx, NoError);
    }
  }
}
