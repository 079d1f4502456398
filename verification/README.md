# accounts_service: sessions and accounts, verified

A Dafny model of the session store with its per-account index and of the account lifecycle, with
proofs about every run. `dafny verify dfyconfig.toml` checks the whole project.

## What is modelled

**Sessions.** A session lives in Redis under its own id with a TTL. Its id is also in the set
`account_<id>`, the index that listing, bulk termination and account clean-up trust. Requests and
detached refreshes are processes; every Redis command is one step, and the commands of different
processes interleave freely, because a go-redis `Pipeline()` is no transaction. A process may stop
before any of its commands.

**Accounts.** A registration waits in a cache with a TTL until a token confirms it, then becomes a
row; creation commits and then publishes, deletion publishes and then commits. Every external call
is one step with three outcomes: it worked, it failed without effect, or it took effect while the
caller was told that it failed. Open transactions hold their row, or their email through the
unique index, until they end.

**Together.** `World` joins the two over one clock: SignIn mints sessions from accepted passwords,
DeleteAccount needs an accepted session, and a commit reported as done starts the clean-up.

## Layout

| files | contents |
|---|---|
| `Models`, `Redis`, `Jwt` | values, command semantics of Redis, tokens with ideal signatures |
| `SessionStore` | the effect of each whole operation; code as written against code as meant |
| `SessionSystem`, `SessionSafety`, `RequestFlow` | command-interleaved runs: identity, expiry, finality of deletes, what a request does from check to end |
| `IndexCoverage`, `AtomicRuns` | when the index covers every live session |
| `SessionWitnesses`, `SecretsWitness`, `AccountWitnesses` | runs that show where the guarantees end |
| `AccountSystem`, `AccountInvariant`, `AccountSafety` | concurrent requests with faults: events, uniqueness, passwords, tokens |
| `Lifecycle`, `ConcurrentOverlap` | the per-email machine one request at a time, and what concurrency adds |
| `World`, `DeletionSafety`, `Provenance`, `Availability` | both halves: deleted accounts and their sessions, where sessions and deletions come from, what stays possible |
| `SessionsRepository`, `AccountRepositories`, `AccountsService` | the classes in the form of their sources, each method proved against the step functions above |

Atomicity: `SessionStore` and `AtomicRuns` treat operations as whole; `SessionSystem`,
`SessionSafety`, `RequestFlow`, `IndexCoverage`, `World` and the modules on it interleave single Redis
commands;
`AccountSystem`, `AccountSafety` and `ConcurrentOverlap` interleave single calls; `Lifecycle` and the classes run one request
at a time, and `Lifecycle.FinishIsRun` and `SessionsRepository.TerminationProcess` (with its two
companions) tie them to the interleaved systems.

A run is *disciplined towards an account* (`IndexCoverage.Disciplined`) if, for this account:

- a SET between the read and the last command of a termination does not write a session that the
  termination will still take out of the index, and writes only sessions that a clean-up will delete;
- a clean-up does not read an index that lacks a session whose pipeline is between SET and SADD;
- a pipeline does not stop after its SET, unless the rest of it is done already or another pipeline
  of the session will do it;
- the index does not expire between a SADD and its EXPIRE while the session stays;
- a list given to the code as written is uniform, or names no live session of the account.

Everything else is free, in particular what is done to other accounts, and refreshes during a
TerminateSessions that does not name their session. Each step keeps the index invariant if and only if it is disciplined
(`IndexCoverage.StepCoverIff`), and `SessionWitnesses` has runs that break it, by an overlap with a
clean-up, an overlap with a TerminateSessions, an early read of a clean-up, a stopped pipeline, a late
EXPIRE and a mixed list, and end with a live session outside its index.

## Main results

- Sessions under every interleaving of Redis commands: `SessionSafety.IdentityStable`, `ExpiryBounds`,
  `ExpiryNeverMovesBack`, `LogoutIsFinal`, `TerminationIsFinal`, `GoneIff`, `DeleteIsFinalIff`,
  `RequestFlow.CallerListing`.
- The index: `IndexCoverage.StepCoverIff`, `IndexCovers`, `ListingAtRest`, `InterruptedListing`,
  `AtomicRuns.AtomicCoverage`.
- The code as written against the code as meant: `SessionStore.PartitionIff`, `TerminateIff`, `CoverageIff`.
- Accounts under every interleaving and every fault, for every configuration:
  `AccountSafety.EventSafety`, `TableIsHistory`, `OneAccountPerEmail`, `LosersLeaveNoTrace`,
  `SignInTracksPassword`, `SignInIff`, `SecretsWitness.PurposesSeparateIff`.
- The per-email machine: `Lifecycle.RunsAlongMachine`, `OverlapIff`, and under concurrency
  `ConcurrentOverlap.OverlapsAreTransientIff`.
- The whole service: `Provenance.SessionsNeedPasswords`, `DeletionsNeedSessions`, `World.ResolvesIff`,
  `NoRevival`, `DeletionSafety.DeletedAccountsVanish`.
- The classes: `SessionsRepository.SessionsRepository.TerminateSessions`,
  `AccountsService.AccountsService.VerifyAccount`, `DeleteAccount`, `CleanUpSessions`.

## Where the code departs from its intent

- `removeNonexistantKeys` collects the JSON bodies that MGET returns and looks them up by key, and
  its `toRemove` starts with empty strings (`sessionsRepository.go:61-79`). The code does what it is
  meant to do if and only if the list is uniform: every id live and listed once, or no id live
  (`SessionStore.PartitionIff`, `TerminateIff`). On every other list TerminateSessions deletes no
  session and takes all listed ids out of the index (`MixedListDeletesNothing`, `MixedListUnlistsLive`).
- Errors of that filter and of SMEMBERS count as success (`sessionsRepository.go:149-152`, `261-265`),
  so the clean-up goroutine can stop with sessions left: a failed first SMEMBERS ends it
  (`AccountsService.CleanUpGivesUp`). The sessions are gone at its end if and only if there were none or
  some attempt read the index and its DEL applied (`CleanUpSessions`).
- MGET without keys is an error, so listing an account with no index entry fails instead of
  returning nothing (`sessionsRepository.go:220-228`).
- A failed INSERT or DELETE returns the result of its rollback, which is nil if that works; the service then
  uses a nil transaction (`accountsRepository.go:65-68`, `134-138`). The methods here answer
  `Panicked` in exactly those cases. For a deletion this happens after AccountDeleted was sent.
- The result of SET is dropped in `SetAccount` (`registrationRepository.go:79-80`): CreateAccount can
  answer although nothing was stored; the entry is there exactly if the SET applied
  (`AccountsService.CreateAccount`).
- An email can be pending and active at once. One request at a time this needs a fault: a verification
  whose commit applied and which did not remove the entry, because the commit, the event or the removal
  failed or was reported as failed (`redis.go:26-37` turns a success into an error when the context has
  ended). It lasts until the account is deleted, which makes the email pending again, or the entry expires
  (`Lifecycle.OverlapIff`, `AccountWitnesses.OverlapOccurs`). Concurrent requests need no fault: a
  registration that has seen the email free can store its entry after another one was confirmed
  (`AccountWitnesses.RegistrationRace`). `ConcurrentOverlap.OverlapsAreTransientIff` says exactly which
  steps lead to an overlap that no request is about to end.
- Nothing makes the two token secrets differ (`config.go` reads two variables). With equal secrets a
  verification token changes passwords (`SecretsWitness.EqualSecretsMixPurposes`); the purposes are
  kept apart if and only if they differ. No other result depends on it.
- TerminateSessions that names the own session launches one refresh all the same
  (`service.go:316`), which can recreate the session after the delete
  (`SessionWitnesses.RefreshRevives`). The delete is final if and only if no such write is in flight
  (`SessionSafety.DeleteIsFinalIff`).
- Nothing orders AccountCreated before AccountDeleted or makes AccountDeleted unique
  (`AccountWitnesses.CreatedAfterDeleted`, `DeletedTwice`). Committed deletions are unique
  (`AccountSafety.EventSafety`).

## Model

| member | source | states |
|---|---|---|
| `SessionStore.LengthTest` | internal/repository/redisrepository/sessionsRepository.go:61-72 | The length test of `removeNonexistantKeys` succeeds exactly if every listed key is live and listed once, for every list |
| `SessionStore.FilterAsWritten` | internal/repository/redisrepository/sessionsRepository.go:46-88 | Exact result of the value-keyed loops on every key list: either nothing is dropped and the keys come back, or every key that is not itself a body is dropped, with the empty string, and the bodies come back |
| `SessionStore.PartitionIff` | internal/repository/redisrepository/sessionsRepository.go:46-88 | The partition the code computes is the meant one (existing ids kept, missing ones dropped) if and only if the list is uniform: all ids live and distinct, or none live |
| `SessionStore.TerminateExact` | internal/repository/redisrepository/sessionsRepository.go:139-163 | The intended termination, on any list with duplicates and stale ids: every listed session goes, exactly the listed ids leave the account index, the index never goes as a key, nothing else changes |
| `SessionStore.ExactlyTerminatedUnique` | internal/repository/redisrepository/sessionsRepository.go:139-163 | That description has at most one result for a given store, so it determines the operation |
| `SessionStore.TerminateIff` | internal/repository/redisrepository/sessionsRepository.go:139-163 | The operation as written meets that description if and only if the list is uniform |
| `SessionStore.MixedListDeletesNothing` | internal/repository/redisrepository/sessionsRepository.go:139-163 | On every list that is not uniform the code as written deletes no session at all |
| `SessionStore.MixedListUnlistsLive` | internal/repository/redisrepository/sessionsRepository.go:74-86 | On such a list every live session named in it survives unchanged and leaves the index of the account |
| `SessionStore.UniformAgrees` | internal/repository/redisrepository/sessionsRepository.go:46-88 | On a uniform list the two versions of the termination give the same store |
| `SessionStore.UniformListKeepsCoverage` | internal/repository/redisrepository/sessionsRepository.go:139-163 | The exact termination keeps every remaining live session indexed and outlived by its index |
| `SessionStore.CoverageIff` | internal/repository/redisrepository/sessionsRepository.go:139-163 | From a covered store, the code as written keeps coverage if and only if the list is uniform or names no live session of this account |
| `SessionStore.TerminateAllExact` | internal/repository/redisrepository/sessionsRepository.go:255-278 | With a sound index that covers the account, exactly the sessions of the account and its index go, and all other keys stay as they are |
| `SessionStore.ListingExact` | internal/repository/redisrepository/sessionsRepository.go:214-249 | With a sound index that covers the account, the listing holds exactly its live sessions, each with the address, machine and last activity of its record, and answers whenever there is one |
| `SessionSystem.StepInv` | internal/service/service.go:378-415 | Every command, launch, check, abort and tick keeps: stored records, index members and all snapshots held by processes agree with the identity minted for their id, and lifetimes follow the last SET |
| `SessionSystem.RunInv` | internal/service/service.go:378-415 | The same over whole runs under every interleaving of Redis commands |
| `SessionSafety.IdentityStable` | internal/service/service.go:378-415 | Whenever `checkSession` accepts, the account, machine and address are those of the one SignIn of the run that minted the id, and the machine is the one presented |
| `SessionSafety.IdsAreMintedOnce` | internal/service/service.go:203-209 | A minted id is never minted again and its identity never changes |
| `SessionSafety.MintingSignIn` | internal/service/service.go:203-209 | A session id known at the end of a run comes from exactly one SignIn of it |
| `SessionSafety.FirstActivity` | internal/service/service.go:203-209 | A SignIn takes a new id, records the time it is served as the first activity, and leaves one write behind |
| `SessionSafety.ExpiryBounds` | internal/service/service.go:397-413 | Every live session: LastActivity + TTL <= expiry = (time of its last SET) + TTL, with out-of-order refreshes |
| `SessionSafety.ExpiryNeverMovesBack` | internal/service/service.go:397-413 | Between two states of a run in which the session is live, its expiry never moves back |
| `SessionSafety.LogoutIsFinal` | internal/service/service.go:229-239 | Logout, from its session check on and under every interleaving: with no refresh of the session in flight while it runs, the session never validates after it |
| `SessionSafety.TerminationIsFinal` | internal/service/service.go:229-338 | The same for every request that asks for the end of a session, a Logout or a list that names it; as written the list must be uniform when it is read |
| `SessionSafety.GoneForever` | internal/service/service.go:378-415 | A minted session that is not live and has no write in flight stays so, and `checkSession` answers unauthenticated |
| `SessionSafety.GoneIff` | internal/service/service.go:378-415 | In every reachable state, a minted session validates in no continuation if and only if it is not live and no write of it is in flight |
| `SessionSafety.DeleteIsFinalIff` | internal/service/service.go:313-338 | The DEL of a termination that names a session is final if and only if no write of the session is in flight when it runs; for the own id in TerminateSessions, if the refresh it launched ran before |
| `SessionSafety.AccountGoneIff` | internal/service/service.go:365-373 | Without SignIns for it, none of the sessions of an account ever validates again if and only if none is live and no write is in flight for it |
| `SessionSafety.CleanupIsFinal` | internal/repository/redisrepository/sessionsRepository.go:255-278 | A clean-up that read a complete index and deletes while nothing is in flight leaves no session of the account, whatever runs between its commands and afterwards |
| `SessionSafety.AccountGoneForever` | internal/service/service.go:365-373 | Without SignIns for it, an account with no live session and no write in flight never has one again, and no check returns it |
| `SessionSafety.ListingSound` | internal/repository/redisrepository/sessionsRepository.go:220-246 | Whatever ran between SMEMBERS and MGET, a listing names only live sessions of the account asked for, with the address and machine of the SignIn that minted each of them and the last activity of its record |
| `RequestFlow.RefreshesOfRequest` | internal/service/service.go:297-338 | A request goes on exactly when it has launched its refreshes: one for GetAccountID and GetAllSessions, none for Logout and DeleteAccount, two for TerminateSessions unless its list names the session it presents |
| `RequestFlow.LaunchedRefresh` | internal/service/service.go:406-415 | A launch leaves one process behind, which will write the checked record with the time of the launch |
| `RequestFlow.RequestServes` | internal/service/service.go:217-338 | From its check to its end a request does what it was asked, for the account of the session it presented, and does not end before it has gone on |
| `RequestFlow.CallerListing` | internal/service/service.go:297-311 | The answer of GetAllSessions names only live sessions of the account whose session was presented, under every interleaving |
| `RequestFlow.ExpiryIff` | internal/repository/redisrepository/sessionsRepository.go:119 | A session is live only before its expiry, and time takes it away exactly when that is reached |
| `IndexCoverage.StepCoverInv` | internal/repository/redisrepository/sessionsRepository.go:106-163 | Command-interleaved: every step that is disciplined towards an account keeps each of its live sessions indexed and outlived by its index, except for what a pipeline in progress has still to do |
| `IndexCoverage.StepCoverIff` | internal/repository/redisrepository/sessionsRepository.go:106-278 | Every step keeps that invariant if and only if it is disciplined |
| `IndexCoverage.IndexCovers` | internal/repository/redisrepository/sessionsRepository.go:106-163 | In every state of every run that is disciplined towards an account, each of its live sessions is in its live index, which expires no earlier, unless a pipeline of this account is in progress |
| `IndexCoverage.ListingAtRest` | internal/repository/redisrepository/sessionsRepository.go:214-249 | With no pipeline of the account in progress, its listing is exactly its live sessions with the last activity of their records and the address and machine of their SignIns, and includes the session of the caller while it is live |
| `IndexCoverage.InterruptedListing` | internal/repository/redisrepository/sessionsRepository.go:220-246 | A listing interrupted between SMEMBERS and MGET names every session of the account that is live at both |
| `IndexCoverage.ReadNamesMembers` | internal/repository/redisrepository/sessionsRepository.go:220-246 | A session that is indexed at SMEMBERS and live at MGET is listed, under every interleaving |
| `AtomicRuns.AtomicCoverage` | internal/repository/redisrepository/sessionsRepository.go:106-163 | In every state of every run of whole operations, constant TTL, with ticks: the index is sound and covers every live session |
| `AtomicRuns.MoveIsDisciplined` | internal/repository/redisrepository/sessionsRepository.go:106-278 | A whole operation is a disciplined run of single commands with exactly the effect stated for it |
| `AtomicRuns.WriteAlone` | internal/repository/redisrepository/sessionsRepository.go:117-136 | The three commands of SetSession, run alone, are the atomic SetSession |
| `AtomicRuns.TerminationAlone` | internal/repository/redisrepository/sessionsRepository.go:139-163 | The commands of TerminateSessions, run alone, are the atomic termination, in both versions |
| `AtomicRuns.CleanupAlone` | internal/repository/redisrepository/sessionsRepository.go:255-278 | The commands of TerminateAllSessions, run alone, are the atomic clean-up |
| `SessionWitnesses.MixedListUnlists` | internal/repository/redisrepository/sessionsRepository.go:61-86 | A run: as written, terminating one live and one stale id leaves the live session live and unlisted |
| `SessionWitnesses.OverlapUnlists` | internal/repository/redisrepository/sessionsRepository.go:261-276 | A run: a SignIn that completes inside a TerminateAllSessions is live and unlisted |
| `SessionWitnesses.EarlyReadUnlists` | internal/repository/redisrepository/sessionsRepository.go:261-276 | A run: a clean-up reads the index between the SET and the SADD of a SignIn and deletes it afterwards; the session is live and unlisted |
| `SessionWitnesses.StaleIdReturns` | internal/repository/redisrepository/sessionsRepository.go:149-162 | A run: TerminateSessions reads a stale id, a refresh writes the session again, and the SREM leaves it live and unlisted |
| `SessionWitnesses.LateExpireUnlists` | internal/repository/redisrepository/sessionsRepository.go:126-133 | A run: an index that expires between SADD and EXPIRE leaves the session live and unlisted |
| `SessionWitnesses.AbortUnlists` | internal/repository/redisrepository/sessionsRepository.go:117-136 | A run: a pipeline that stops after its SET leaves a live session that nobody lists |
| `SessionWitnesses.RefreshRevives` | internal/service/service.go:313-338 | A run: the refresh launched by TerminateSessions itself, running after the delete of the own id, makes the session validate again |
| `SessionsRepository.SessionsRepository.SetSession` | internal/repository/redisrepository/sessionsRepository.go:106-137 | The queued pipeline does what the write process does in the commands that took effect; complete, it is the atomic SetSession; the error is the context error or the result of Exec |
| `SessionsRepository.SessionsRepository.CollectFound` | internal/repository/redisrepository/sessionsRepository.go:61-67 | The first loop computes the set of bodies found |
| `SessionsRepository.SessionsRepository.CollectMissing` | internal/repository/redisrepository/sessionsRepository.go:74-79 | The second loop computes the listed keys that are no body, behind empty strings |
| `SessionsRepository.SessionsRepository.RemoveNonexistantKeys` | internal/repository/redisrepository/sessionsRepository.go:46-88 | The loops compute the split that `FilterAsWritten` characterises, with every failure of MGET and SREM |
| `SessionsRepository.SessionsRepository.TerminateSessions` | internal/repository/redisrepository/sessionsRepository.go:139-163 | The new store is the one of the termination process stopped where the faults stop it; an error of the filter is masked; an empty list is refused |
| `SessionsRepository.SessionsRepository.GetSessionsIds` | internal/repository/redisrepository/sessionsRepository.go:165-177 | Returns the kept part of the split of the distinct index members and drops the other part; what it returns, drops and reports under every failure |
| `SessionsRepository.SessionsRepository.GetSession` | internal/repository/redisrepository/sessionsRepository.go:182-198 | Answers exactly for a key that holds session JSON; not found for a missing key, internal for anything else; a finished context overrides with canceled or deadline exceeded |
| `SessionsRepository.SessionsRepository.UpdateLastActivityForSession` | internal/repository/redisrepository/sessionsRepository.go:202-211 | Writes the field of the shared snapshot and then the whole record |
| `SessionsRepository.SessionsRepository.GetSessionsForAccount` | internal/repository/redisrepository/sessionsRepository.go:214-249 | The decode loop returns exactly the live members of the index, each with the address, machine and last activity of its record; an empty index is an error |
| `SessionsRepository.SessionsRepository.TerminateAllSessions` | internal/repository/redisrepository/sessionsRepository.go:255-278 | The new store is the one of the clean-up process stopped where the faults stop it; a failed SMEMBERS reads as success |
| `SessionsRepository.TerminationProcess` | internal/repository/redisrepository/sessionsRepository.go:139-163 | Stopping the filter and the pipeline anywhere is running the termination process of the step system for that many commands |
| `Jwt.RoundTrip` | pkg/jwt/jwt.go:15-46 | ParseToken gives back the value exactly under the same secret and before the written expiry, and never another value; truncation loses less than a second |
| `Jwt.AcceptedTokens` | pkg/jwt/jwt.go:15-33 | What parses was signed with an HMAC under this very secret and has not expired, and gives back its own value |
| `AccountInvariant.StepInv` | internal/service/service.go:147-187 | Every call outcome, interleaving, abort and tick keeps, for every configuration: the table is what the history replays to, its ids are those committed and not deleted, open transactions do not clash, entries and tokens have their cause in the history |
| `AccountInvariant.StepReplayed` | internal/repository/postgresrepository/accountsRepository.go:53-140 | Every step keeps the table equal to the replay of the committed events |
| `AccountInvariant.StepOrdered` | internal/service/service.go:147-187 | Every event a step adds is justified by the events before it |
| `AccountInvariant.StepCompatible` | internal/repository/postgresrepository/accountsRepository.go:53-71 | Two requests never have the same email in an open INSERT, bring the same id or hold the same row |
| `AccountInvariant.ParsedTokens` | pkg/jwt/jwt.go:15-33 | A token that parses was issued less than its lifetime ago, for the purpose of the secret it parsed under, or for the other purpose only if the secrets are equal |
| `AccountSafety.EventSafety` | internal/service/service.go:166-179 | Every AccountCreated and AccountDeleted message names an account committed before it, with the email of that commit; AccountCreated is sent once per id; every committed deletion comes after an AccountDeleted message for it, and an id is deleted once |
| `AccountSafety.TableIsHistory` | internal/repository/postgresrepository/accountsRepository.go:53-140 | In every reachable state, an id is in the table if and only if it was committed and not deleted since |
| `AccountSafety.OneAccountPerEmail` | accounts_db/db/up.sql:7 | In every reachable state at most one committed account per email, at most one open INSERT per email, and none beside a committed account |
| `AccountSafety.AdmissionIff` | internal/service/service.go:73-117 | Registrations and verification tokens can be asked for exactly while the email has no account by the history, change tokens exactly while it has one |
| `AccountSafety.RowLocks` | internal/repository/postgresrepository/accountsRepository.go:104-140 | An UPDATE waits for an open DELETE of the row of its email, a DELETE for an open DELETE of its row |
| `AccountSafety.LosersLeaveNoTrace` | internal/service/service.go:136-187 | A VerifyAccount, from its request to its end and under every interleaving, leaves table, history, cache and tokens alone in all its steps if and only if it commits nothing |
| `AccountSafety.LateInsertLoses` | internal/repository/postgresrepository/accountsRepository.go:64-68 | One whose INSERT fails or meets a committed account of the email commits nothing, whatever follows |
| `AccountSafety.CommitsAlternate` | accounts_db/db/up.sql:7 | Between two commits of the same email, in any run, there is a removal of that email |
| `AccountSafety.InsertWaitsOrDecides` | internal/repository/postgresrepository/accountsRepository.go:57-70 | An INSERT runs only while no open transaction has the email, and then succeeds exactly if the history has no active account with it |
| `AccountSafety.SignInTracksPassword` | internal/service/service.go:189-200 | Sign-in accepts a password exactly if it matches the hash last set since the last commit of the email that no removal followed; the row of an account holds exactly that hash |
| `AccountSafety.SignInIff` | internal/service/service.go:189-200 | In every reachable state a SignIn step for an account can be served if and only if the password is that of the hash last set since the commit of this account, which no removal followed |
| `AccountSafety.ActiveRowMeans` | internal/service/service.go:189-200 | The account of an email by the history: none exactly if every commit of the email was followed by a removal; otherwise the last commit, with the hash of the last password change after it, or else its own |
| `AccountSafety.CommittedHashWasEntered` | internal/service/service.go:154-158 | The hash committed with an account was entered in the registration cache for its email before |
| `AccountSafety.AccountsAreConfirmed` | internal/service/service.go:136-145 | Every committed account is preceded, within the lifetime, by a RequestAccountVerificationToken for its email, or, only if the secrets are equal, by a change token request |
| `AccountSafety.PasswordChangesAreAsked` | internal/service/service.go:263-295 | Every password change is preceded, within the lifetime, by a RequestChangePasswordToken that found the email active, or, only if the secrets are equal, by a verification token request |
| `AccountSafety.TokenOutlivesEntry` | internal/service/service.go:109-134 | A verification token expires no earlier than the registration entry seen at issuance, up to the second lost in the NumericDate |
| `SecretsWitness.EqualSecretsMixPurposes` | internal/service/service.go:138 | For every configuration with equal secrets, a run in which a verification token changes a password that nobody asked to change |
| `SecretsWitness.PurposesSeparateIff` | internal/service/service.go:136-295 | In all runs under a configuration, passwords change only after a request to change them, if and only if the two secrets differ |
| `Lifecycle.FinishIsRun` | internal/service/service.go:73-376 | A request run alone is a run of the concurrent system, with every choice of outcomes |
| `Lifecycle.MoveIsRun` | internal/service/service.go:73-376 | A served request or a passing of time is a run of the concurrent system |
| `Lifecycle.VerificationEffect` | internal/service/service.go:147-187 | Table, cache, commits and messages after a verification, for every outcome of its five calls |
| `Lifecycle.DeletionEffect` | internal/service/service.go:340-363 | Table, cache, commits and messages after a deletion, for every outcome of its four calls; the message is sent even if the DELETE failed and its rollback was returned |
| `Lifecycle.PasswordEffect` | internal/service/service.go:263-295 | After a password change whose UPDATE applied, the account of the email matches the new password and no other; every other row, and every row after any other outcome, is as it was |
| `Lifecycle.ChangeTokenEffect` | internal/service/service.go:252-259 | A request for a change token issues a token that parses for the email under the change secret exactly until the last whole second of its lifetime |
| `Lifecycle.VerificationTokenEffect` | internal/service/service.go:119-133 | A request for a verification token issues one for a pending email, with the lifetime of entries, and records the expiry of the entry seen |
| `Lifecycle.MovesAlongMachine` | internal/service/service.go:73-187 | Every served request and every passing of time, with any outcomes, takes every email exactly to the phase that the machine absent, pending, active, overlap gives; an entry that stays is never rewritten |
| `Lifecycle.RunsAlongMachine` | internal/service/service.go:73-376 | Refinement over whole sequential runs with any faults: the phase of an email is the one the machine reaches on the inputs of the run |
| `Lifecycle.OverlapBeginsIff` | internal/service/service.go:166-184 | One move makes an email pending and active at once if and only if it is a verification of the pending email whose commit applied and whose entry was not removed |
| `Lifecycle.OverlapIff` | internal/service/service.go:147-187 | After a sequential run, an email is pending and active at once if and only if some move was such a verification of the then pending email and since then neither the account was deleted nor the entry expired |
| `Lifecycle.FaultFreeNeverOverlaps` | internal/service/service.go:147-187 | In every fault-free sequential run no email is ever pending and active at once |
| `Lifecycle.OverlapHasCause` | internal/service/service.go:166-184 | The entry in an overlap is the very one that the faulty verification met, so the overlap ends no later than the expiry it had then |
| `ConcurrentOverlap.StepOverlapIff` | internal/service/service.go:73-187 | Concurrent: a step leaves an email pending and active only with a verification on its way to remove the entry, if and only if it is careful: no late SET of a registration, no commit reported as failed beside an entry, no verification that stops before the removal |
| `ConcurrentOverlap.OverlapsAreTransientIff` | internal/service/service.go:73-187 | Over every concurrent run with any faults: all overlaps of the email are transient if and only if every step of the run is careful |
| `AccountWitnesses.OverlapOccurs` | internal/service/service.go:166-184 | For every configuration and every outcome of a verification whose commit applies and whose entry stays, a run from the start that ends in an overlap |
| `AccountWitnesses.RegistrationRace` | internal/service/service.go:73-107 | A run without any fault that ends with no request in progress and the email pending and active: a registration checked the email before another one was confirmed, and stored its entry after |
| `AccountWitnesses.DeletedTwice` | internal/service/service.go:356-363 | A run in which AccountDeleted is sent twice for one account |
| `AccountWitnesses.CreatedAfterDeleted` | internal/service/service.go:166-179 | A run in which AccountDeleted is sent before the AccountCreated of the same account |
| `AccountRepositories.AccountsRepository.CreateAccount` | internal/repository/postgresrepository/accountsRepository.go:53-71 | An open INSERT with a fresh id, or after a failed one no transaction together with the result of the rollback, nil if that works; the table is unchanged |
| `AccountRepositories.AccountsRepository.DeleteAccount` | internal/repository/postgresrepository/accountsRepository.go:125-140 | An open DELETE, also if no row matches, or no transaction with the result of the rollback |
| `AccountsService.AccountsService.CreateAccount` | internal/service/service.go:73-107 | Refused with conflict for an active and for a pending email; an answer means that the context was open, and the entry is stored exactly if the SET applied, with the user name, the full lifetime and a hash that matches the password and no other |
| `AccountsService.AccountsService.RequestAccountVerificationToken` | internal/service/service.go:109-134 | Answers exactly for a pending email that is not active; then a token is issued that parses for the email until the lifetime of entries is over |
| `AccountsService.AccountsService.VerifyAccount` | internal/service/service.go:136-145 | A bad token changes nothing; exactly when it answers, and exactly when it dies on the nil transaction; an answer means that the account accepts the password of the entry and that commit and message happened once, in this order |
| `AccountsService.AccountsService.CreateActiveAccount` | internal/service/service.go:147-187 | The steps of createAccount in their order, for every outcome of every call |
| `AccountsService.AccountsService.SignIn` | internal/service/service.go:189-215 | Answers exactly if the stored hash of the email matches and the session was written; then a session for that account is written under the new id |
| `AccountsService.AccountsService.GetAccountID` | internal/service/service.go:217-227 | The account of an accepted session; one refresh is launched |
| `AccountsService.AccountsService.Logout` | internal/service/service.go:229-239 | A refused check changes nothing; otherwise the termination of the own id with its error; no refresh is launched |
| `AccountsService.AccountsService.RequestChangePasswordToken` | internal/service/service.go:241-261 | Answers exactly for an active email; then a token is issued that parses for the email under the change secret until its lifetime is over |
| `AccountsService.AccountsService.ChangePassword` | internal/service/service.go:263-295 | A bad token changes nothing; an inactive email is not found; after an answer the email signs in with the new password and with no other |
| `AccountsService.AccountsService.GetAllSessions` | internal/service/service.go:297-311 | The listing of the account of the accepted session; one refresh is launched |
| `AccountsService.AccountsService.TerminateSessions` | internal/service/service.go:313-338 | The flag loop launches one refresh if the list names the own session and two otherwise; the store afterwards and the error are those of the termination process |
| `AccountsService.AccountsService.DeleteAccount` | internal/service/service.go:340-376 | The deleting request run alone; exactly when it answers, exactly when it dies on the nil transaction after the event was sent, and that only an answered call starts the clean-up |
| `AccountsService.AccountsService.CleanUpSessions` | internal/service/service.go:365-373 | At least one and at most numRetries attempts, each further one after a reported failure; at the end exactly the sessions of the account are gone if and only if there were none or some attempt read the index and its DEL applied; a failed first SMEMBERS ends the loop with nothing done |
| `AccountsService.AttemptProgress` | internal/repository/redisrepository/sessionsRepository.go:255-278 | One attempt stopped anywhere, after any earlier ones: the store is untouched before the first DEL that applies, and afterwards exactly the sessions of the account are gone, and at most its list with them |
| `AccountsService.CleanUpGivesUp` | internal/service/service.go:365-373 | For any number of retries, an input on which the clean-up stops after one attempt and a session of the account still validates |
| `AccountsService.AccountsService.CheckSession` | internal/service/service.go:378-395 | Accepts exactly a stored session with the presented machine; a missing session and a wrong machine are both unauthenticated |
| `AccountsService.AccountsService.CheckAndUpdateSession` | internal/service/service.go:406-415 | The same check, and one refresh with the snapshot exactly if it accepts |
| `AccountsService.AccountsService.RunRefresh` | internal/service/service.go:397-404 | The detached refresh writes the whole snapshot back with the time of its launch |
| `World.RunProjects` | internal/service/service.go:189-376 | Every run of the whole service is a run of each half, so that what holds of the halves holds of it |
| `World.SessionsAreRooted` | internal/service/service.go:189-215 | Every session was minted for an account that had been committed |
| `Provenance.SessionsNeedPasswords` | internal/service/service.go:189-215 | Every session that validates, in any run of the whole service, is one of an account whose stored hash matched the password of a SignIn served in the run |
| `Provenance.OneSessionPerSignIn` | internal/service/service.go:189-215 | No more sessions are minted for an account than SignIns with its password were served |
| `Provenance.DeletionsNeedSessions` | internal/service/service.go:340-354 | An account is deleted, or a deletion of it is under way, only after a session of this very account was accepted, with its machine, for a DeleteAccount of the run |
| `Availability.PasswordOpensSession` | internal/service/service.go:189-215 | Whoever has the password of an account can have a session of it that validates, in some continuation of the whole service |
| `Availability.SessionDeletesAccount` | internal/service/service.go:340-373 | An accepted session of an account, whose row no other request holds, has a continuation in which the account is gone and its clean-up is about to read the index |
| `Availability.CleanupCanBeRetried` | internal/service/service.go:365-373 | Wherever a clean-up stopped, it can start again for the same account, and nothing else changes |
| `World.CleanupsAreForDeleted` | internal/service/service.go:360-373 | In every reachable state, the account a clean-up works for has been deleted |
| `World.RemovedIsDead` | internal/service/service.go:360-363 | Once a deletion of an account is in the history, its id is in no row and in no open INSERT |
| `World.ResolvesIff` | internal/service/service.go:217-227 | In every reachable state, a session that validates resolves to an existing account if and only if the account it was minted for has not been deleted |
| `World.DeadForever` | accounts_db/db/up.sql:6 | A dead account id never becomes an account again |
| `World.NoRevival` | internal/service/service.go:217-227 | Once the deletion of an account is in the history, in every continuation, through any number of registrations of the same email, its old sessions never resolve to an account that exists |
| `World.CleanupAfterDeletion` | internal/service/service.go:340-376 | A clean-up over an index that covers its account at the read, with no write in flight at its read and its delete and no SignIn holding the row, is final in every continuation |
| `DeletionSafety.AccountIsIndexed` | internal/repository/redisrepository/sessionsRepository.go:255-278 | After every run of the whole service that is disciplined towards an account, the account is fully indexed unless a pipeline of it is in progress |
| `DeletionSafety.ReturnsIff` | internal/service/service.go:189-215 | A deleted account without live sessions gets one back in some run of the whole service if and only if a write or a SignIn for it is still under way |
| `DeletionSafety.DeletedAccountsVanish` | internal/service/service.go:340-376 | From the start of the service: once a clean-up has deleted what it read, its account is deleted and has no live session, and none of its sessions ever validates again if and only if no write and no SignIn for it is still under way |

## Left out

- Handlers, request validation, gRPC and HTTP plumbing, metrics, tracing, logging, health checks and
  shutdown: no state that the properties speak of.
- JSON, bcrypt, HMAC and UUIDs are ideal: injective encoding, a hash that matches its own password
  only, unforgeable signatures, fresh ids. Failures of `json.Marshal` of these values are not modelled.
- Strings a client can send as a session id are `Text`: an index key, the JSON text of a session, or
  any other text. A session body that decodes under a key that is not its id cannot be stored by the code
  and is not modelled beyond that. A Kafka message is one event without its date and user name.
- A session or registration TTL of zero: go-redis then sets no expiry and EXPIRE deletes the key, while
  `Redis.Set` and `Redis.Expire` let the key expire at the next tick. The results are about TTLs above
  zero; those of `Lifecycle` over whole runs and `PurposesSeparateIff` say so for the registration TTL.
- Redis expiry is eager: an expired key is gone as soon as the clock shows its time. SET and EXPIRE use the
  same clock, without the sub-second differences of a real server. Redis failover, eviction and
  networking are not part of this model.
- A pipeline is cut at one point: its commands take effect up to there and not beyond. A single command that
  the server rejects while later commands of the same pipeline succeed is not part of this model.
- PostgreSQL is its unique index on email and its row locks; isolation levels, deadlocks and a commit
  that outlives its client are not part of this model beyond the three outcomes of a commit.
- Outcomes are chosen per call, so the same request may see a failure at one call and none at the
  next; a finished context is therefore folded into the outcomes in `AccountsService`, while the
  repositories take the context explicitly.
- The unsynchronised write to `LastActivity` of the snapshot that a handler shares with its refreshes: each
  refresh holds its own copy, so the two refreshes of one TerminateSessions race only through Redis.
- VerifyAccount, ChangePassword and the token requests check the email and act in
  separate calls, as in the code; SignIn is one read followed by the session write.
- Sign-in by `SignInTracksPassword` speaks of the history of commits; a request whose transaction is still
  open is not yet part of it.
- AccountsService.AccountsService.CleanUpSessions: proved for attempts that no other request interrupts, from a
  store in which the account is indexed; what interleaving allows is stated by `DeletionSafety.DeletedAccountsVanish`.
- The sleep between attempts of the clean-up is a tick that may take any time.
