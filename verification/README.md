# Omni Identity: models and proofs

Omni Identity is an OpenID Connect provider with device enrollment and an agent
that runs on enrolled machines. This project models the parts of it whose
correctness depends on interleaving, time or in-place state, and proves what the
code and its documentation promise about them.

- **Grants** (`GrantStore`, `Grants`, `TokenFamilies`, `GrantInvariant`,
  `GrantSafety`, `GrantTheorems`, `GrantRevocation`, `GrantExchange`, `GrantReuse`,
  `GrantServer`, `GrantAnswers`). The token endpoint as a state machine. Every SQL statement or
  transaction is one atomic step, every handler a small program that runs one such
  step at a time, and a run is an arbitrary interleaving of any number of requests
  with administrative changes, the sweeper and the clock. The theorems hold of
  every run from an empty database.
  `GrantServer.Server` holds the tables as mutable state and has the handlers as
  sequential code, each proved to do what its program in the machine does when
  nothing comes in between; running so is itself a run of the machine, and
  `GrantAnswers` says exactly when it ends in tokens.
- **Scopes, ScopeNames**. Scope strings, and how the sets of the grant model stand
  for them.
- **ReplayGuard**. Single-use identifiers of DPoP proofs (section 11.1 of
  RFC 9449) and device assertions (section 3 of RFC 7523), forgotten at a
  computed time. The DELETE and the INSERT are separate steps.
- **Names, TopoSpec, TopoSort, CopyData, CopyWitness**. The topological order of
  tables and the copy of one database into another under foreign keys that are
  checked after every statement.
- **RateLimiter, Lockout, Sweep**. The fixed-window limiter, the account lockout
  and the expiry sweep.
- **OfflineLogin, OfflineSafety, OfflineVerdict, UidAlloc**. The agent's login conversation with
  its offline policy, and the uids it gives out.
- **NssWire, NssBuffer, NssReader**. The name-service reply line and the C module
  that reads it and packs the result into the caller's buffer.
- **LogShipper**. The bounded queue and batching worker that ship log records.
- **Polling, PollServer**. The client's loop of section 3.5 of RFC 8628 against
  the server's throttle, which is that of the token endpoint's handler.
- **Options**. Optional values.

Throughout, the clock does not go back. Hashes are injective, so a token or code
is named by the identifier of its row and a password hash by its password.
Random identifiers do not repeat. What comes from outside (signatures, network
answers, database faults, the directory, the user) is a parameter or a field of
an event and is arbitrary.

Eight properties turned out to hold only under a condition. Each is stated as an
equivalence, and a run or input shows that the condition can fail:

- The reuse branch ends the chain for good exactly when its revoking statement,
  whose error the handler ignores (internal/web/token_handler.go:278,
  internal/web/token_handler.go:344), does not fail or there was nothing left to
  revoke (`GrantReuse.ReuseEndsTheChain`, `GrantReuse.FailedRevocation`).
- A copied database whose foreign keys hold can still fail to copy: a table that
  refers to itself has to list each row after the row it refers to
  (`CopyData.Destination.CopyFrom`, `CopyWitness.ForwardCopyFails`).
- A proof or assertion is accepted once exactly as long as its identifier is
  recorded soon enough after its verification: within the skew for a proof,
  within one tick of the clock for an assertion
  (`ReplayGuard.ReplaySafeExactlyWhenPrompt`).
- No log record is unaccounted for exactly when a request can be made for the
  endpoint's URL (`LogShipper.AccountedExactlyWhenFormed`).
- Uids stay apart in every state of a run exactly when no login of the run gives
  a subject to an entry that was cached without one and shares its uid
  (`UidAlloc.DifferentSubjectsDifferentUids`, `UidAlloc.EmptySubjectsShareAUid`).
- Every offline login of a run is justified exactly when none is accepted for a
  name whose refused refresh could not be saved
  (`OfflineSafety.OfflineLoginsAreJustified`, `OfflineSafety.LostRefusal`).
- Sweeps, wherever they are put, change no answer of a run exactly when no
  statement finds only expired rows that it takes for good: a new row that clashes
  with expired rows alone, an identifier that is already recorded, a device code
  that expired after its check, a password token that is read back, or a row whose
  expiry is compared with an earlier reading of the clock
  (`Sweep.SweepsInvisibleExactlyWhenCalm`; `Sweep.TokenLostAfterUse`,
  `Sweep.ReplayAfterSweep`, `Sweep.UserCodeTaken`, `Sweep.LateApproval`).
- An identity survives the name-service wire exactly when it is well-formed and
  its line arrives whole and is shorter than the reader's buffer. A reply that
  breaks off is noticed only before the shell of an identity or the number of a
  group begins; from there on it is read as another one
  (`NssWire.PasswdRoundTrip`, `NssWire.PasswdOfCut`, `NssWire.GroupOfCut`,
  `NssWire.BrokenOffGroup`).

Where comments and code differ, the models follow the code: the reuse branch
revokes every token of the user and client, not only the chain
(internal/web/token_handler.go:277-278), and the drop counter of the log shipper
also counts batches given up after three attempts, not only a full buffer
(internal/logship/logship.go:111, internal/logship/logship.go:246).

## Model

| member | source | states |
|---|---|---|
| GrantTheorems.OneLiveTokenPerChain | internal/web/token_handler.go:254-355 | in every reachable state, two unrevoked tokens that lead by rotated_from to the same token are the same token |
| GrantTheorems.OneChildPerToken | internal/store/refresh_tokens.go:33-67 | no two stored tokens replace the same token, and a replaced token is stored and revoked |
| GrantTheorems.RedeemedAtMostOnce | internal/web/token_handler.go:336-347 | no refresh token, authorization code or device code gets two successful responses in any run |
| GrantRevocation.RevokedExactlyWhenTargeted | internal/store/refresh_tokens.go:77-91 | in every run a step revokes a stored token if and only if it rotates or names it, the token has the user and client of the reused token or the logout, or the device being revoked; nothing else of a stored row ever changes |
| GrantReuse.ReuseEndsTheChain | internal/web/token_handler.go:276-281 | from the reuse branch of a request on, no token of its chain is live in any later state, including tokens that requests already in flight still try to store: if and only if the revoking statement does not fail or the chain was over already |
| GrantReuse.RevokedTokenEndsTheChain | internal/web/token_handler.go:336-347 | a request that presents a revoked token, or loses the rotation race, ends the chain for good once its next two steps go through, whatever happens between and after them |
| GrantReuse.FailedRevocation | internal/web/token_handler.go:278 | a run in which the revoking statement fails and a token of the chain lives on |
| GrantTheorems.Provenance | internal/web/token_handler.go:388-407 | every stored token leads by rotated_from to a token issued for one consumed code; client, user, amr, auth_time and device are that token's, the scope only shrank and a key once set stayed |
| GrantTheorems.DistinctFamiliesDistinctCodes | internal/store/auth_codes.go:28-54 | two families issued for the same code are one family |
| GrantTheorems.ExchangeStaysWithinScope | internal/web/token_exchange_handler.go:99-107 | an exchanged token's scope is not empty, lies within its refresh token's scope and the audience's allowed scopes, and its device is the refresh token's |
| GrantTheorems.StatusOnlyAdvances | internal/store/devices.go:308-342 | a device code moves from pending to approved to consumed, or from pending to denied, and no other way |
| GrantTheorems.DeviceTokensFollowApproval | internal/web/device_grant_handler.go:135-228 | tokens for a device code follow an approval and no denial, carry exactly the approval's user, amr and auth_time and the code's scope, and belong to the device the code is bound to |
| GrantTheorems.RevokedDeviceNeverRefreshes | internal/web/token_handler.go:300-309 | after a device is revoked no refresh token bound to it is ever redeemed, even one stored afterwards by a grant past its device check |
| GrantExchange.RevokedDeviceExchanges | internal/web/token_exchange_handler.go:71-86 | after a device is revoked, exchanges for it are answered at most once for each request that had passed its device check by then, and had read its token or names one not stored until later |
| GrantSafety.ExecOk | internal/web/token_handler.go:254-355 | every step of every request keeps the invariant of tables, history and requests |
| GrantSafety.ApplyOk | internal/store/devices.go:94-123 | every change from outside the requests keeps it, and adds no response |
| GrantInvariant.RotateOk | internal/store/refresh_tokens.go:33-67 | a rotation keeps the families and the ledger of who was issued what, won or lost |
| GrantInvariant.ConsumeAuthCodeOk | internal/store/auth_codes.go:28-54 | consuming an authorization code keeps the invariant and spends the code |
| GrantInvariant.SweepCodesOk | internal/store/sweep.go:24-35 | each of the two statements that delete expired code rows keeps it: a swept code cannot be spent again |
| TokenFamilies.LineDescends | internal/store/refresh_tokens.go:53-62 | every ancestor of a token is stored, one rotated_from link further up, and passes its grant down to it |
| GrantServer.Server.StoreRotateRefreshToken | internal/store/refresh_tokens.go:33-67 | changes the table as the atomic rotation of the machine, a conflicting insert undoing the update |
| GrantServer.Server.StoreRevokeForUserClient | internal/store/refresh_tokens.go:86-91 | revokes exactly the rows with this user and this client and leaves every other row alone |
| GrantServer.Server.StoreCreateRefreshToken | internal/store/refresh_tokens.go:14-25 | stores a new row, or refuses a used identifier and changes nothing |
| GrantServer.Server.StoreConsumeAuthCode | internal/store/auth_codes.go:28-54 | gives out and marks an unused, unexpired code, and nothing else |
| GrantServer.Server.StoreConsumeDeviceCode | internal/store/devices.go:333-342 | moves only an approved code to consumed |
| GrantServer.Server.StoreApproveDeviceCode | internal/store/devices.go:308-317 | records the decision only on a pending code |
| GrantServer.Server.StoreDenyDeviceCode | internal/store/devices.go:320-328 | denies only a pending code |
| GrantServer.Server.StoreMarkDeviceCodePolled | internal/store/devices.go:345-349 | records the poll and leaves the rest of the code alone |
| GrantServer.Server.StoreRevokeDevice | internal/store/devices.go:94-123 | revokes the device and exactly the token rows bound to it together, once |
| GrantServer.Server.GrantRefreshToken | internal/web/token_handler.go:254-355 | the handler ends in the state and with the answer of its program run alone |
| GrantServer.Server.RotateAndAnswer | internal/web/token_handler.go:336-355 | the same for the end of that handler: rotate, answer, or revoke the chain |
| GrantServer.Server.GrantAuthorizationCode | internal/web/token_handler.go:177-239 | the same for redeeming an authorization code |
| GrantServer.Server.GrantDeviceCode | internal/web/device_grant_handler.go:135-228 | the same for a poll with a device code |
| GrantServer.Server.ConfirmDeviceCode | internal/web/device_grant_handler.go:332-395 | the same for the user's decision, which takes effect exactly on a pending, unexpired code |
| GrantServer.Server.GrantTokenExchange | internal/web/token_exchange_handler.go:59-107 | the same for an exchange, which changes no table |
| GrantAnswers.RefreshAnswered | internal/web/token_handler.go:254-355 | an undisturbed refresh is answered if and only if the token is live, in time, of this client and key, of an enabled user and active device, and the scope within its own; it leaves exactly the replacement row, a reused token ends its user's tokens at the client, any other request changes nothing |
| GrantAnswers.CodeAnswered | internal/web/token_handler.go:177-239 | an undisturbed redemption is answered if and only if code, client, redirect URI, PKCE and user are in order, and uses up an unused code in time whatever comes of it |
| GrantAnswers.PollAnswered | internal/web/device_grant_handler.go:135-228 | an undisturbed poll gets tokens if and only if the code is approved, in time, of this client, not polled too soon and used from the device it is bound to, by its owner where the device demands it |
| GrantAnswers.ConfirmationAnswered | internal/web/device_grant_handler.go:332-395 | a decision takes effect if and only if the code is pending and in time; on an owner-only device the approval of anyone else is a denial |
| GrantAnswers.ExchangeAnswered | internal/web/token_exchange_handler.go:59-107 | an exchange succeeds if and only if the device is active, the live refresh token is bound to it and its key, and the scope is a non-empty part of grant and audience |
| GrantServer.AloneIsARun | internal/web/token_handler.go:73-109 | a request run without interference is one of the machine's runs |
| Scopes.SplitOfJoin | internal/oidc/scope.go:17-19 | splitting a joined scope gives back its words |
| Scopes.SplitAtBlank | internal/oidc/scope.go:17-19 | any white space ends a word and separates it from the rest |
| Scopes.ScopesSubset | internal/oidc/scope.go:27-34 | answers whether the requested words are a subset of the allowed ones |
| Scopes.IntersectScopes | internal/web/token_exchange_handler.go:154-166 | keeps exactly the words both lists share |
| Scopes.ExchangeScope | internal/web/token_exchange_handler.go:99-107 | refuses unless the scope is a non-empty part of grant and audience; without a request it is all they share |
| ScopeNames.ExchangeInWords | internal/web/token_exchange_handler.go:99-107 | under any naming that tells words apart, the machine's exchange answers with the names of exactly the words on which the handler decides, or refuses with it |
| ScopeNames.DownscopeInWords | internal/web/token_handler.go:311-319 | the machine's down-scoping check passes exactly when the requested words are among the granted ones |
| ReplayGuard.IdentifiesKeyAndJti | internal/pop/dpop.go:139-144 | two credentials have the same identifier if and only if key and jti agree |
| ReplayGuard.RefusedOnlyAfterUse | internal/store/devices.go:204-220 | in every run a verified credential is refused only if one with the same key and jti was accepted before, and always while that one is to be kept |
| ReplayGuard.AcceptedInTime | internal/pop/dpop.go:110-117 | in every run what is accepted was verified within the skew of its issue, an assertion within the skew of a life of at most five minutes |
| ReplayGuard.StepOk | internal/store/devices.go:204-220 | in every step, each accepted identifier is kept or its time is over, and a second acceptance of a credential was recorded late |
| ReplayGuard.PromptRunsAreSafe | internal/web/token_handler.go:123-144 | when identifiers are recorded soon enough after verification, no run accepts a credential twice |
| ReplayGuard.LateReplayRuns | internal/pop/assertion.go:58-110 | for every credential and every longer delay, a run that accepts it twice |
| ReplayGuard.ReplaySafeExactlyWhenPrompt | internal/pop/dpop.go:110-117 | forgetting is harmless if and only if the delay is at most the skew for a proof, one tick for an assertion |
| ReplayGuard.JtiTable.ConsumeJTI | internal/store/devices.go:204-220 | a credential is fresh if and only if none with its key and jti was recorded for a time that is not over, and is recorded then |
| TopoSpec.AllPlacedExactlyWhenAcyclic | internal/store/migrate_data.go:265-267 | an exhausted greedy order holds every table if and only if the graph has no cycle |
| TopoSpec.FullIsTopological | internal/store/migrate_data.go:250-264 | a full greedy order is a permutation with every parent before its children |
| TopoSpec.GreedyIsLeast | internal/store/migrate_data.go:248-264 | no topological order is smaller in the lexicographic order of names |
| TopoSpec.GreedyIsUnique | internal/store/migrate_data.go:226-269 | the graph has one exhausted greedy order |
| TopoSort.CountParents | internal/store/migrate_data.go:231-241 | counts each table's known parents and lists each table's children |
| TopoSort.Roots | internal/store/migrate_data.go:242-248 | queues exactly the tables without a known parent, sorted |
| Names.LeAtFirstDifference | internal/store/migrate_data.go:248 | of two names a prefix comes first, otherwise the smaller character at their first difference |
| TopoSort.ReleaseChildren | internal/store/migrate_data.go:257-262 | queues exactly the children whose last unplaced parent was just placed |
| TopoSort.Place | internal/store/migrate_data.go:250-264 | places the least available table until none is left |
| TopoSort.TopoSort | internal/store/migrate_data.go:226-269 | succeeds if and only if the graph of known tables is acyclic, with the least topological order |
| TopoSort.ListingDoesNotMatter | internal/store/migrate_data.go:224-225 | the order in which tables are listed does not change the result |
| CopyData.CoercionKeepsReference | internal/store/migrate_data.go:123-127 | a row that refers to a source row refers to the coerced row |
| CopyData.CoercedAsStored | internal/store/migrate_data.go:136-155 | however the source delivers a stored boolean, as a number, a digit or a word in any case, it is coerced to that boolean |
| CopyData.ClearedConsistent | internal/store/migrate_data.go:60-64 | after every DELETE, children first, every foreign key holds |
| CopyData.FilledConsistent | internal/store/migrate_data.go:66-77 | after every INSERT, parents first, every foreign key holds |
| CopyData.Clear | internal/store/migrate_data.go:59-64 | empties every table, and cannot be refused by a foreign key |
| CopyData.CopyTable | internal/store/migrate_data.go:88-134 | copies one table row by row in order: each boolean column holds the boolean that was stored, each other column its value |
| CopyData.Load | internal/store/migrate_data.go:53-82 | on success every table holds the source's rows in order, saying the same in every column, with equal counts |
| CopyData.Destination.CopyFrom | internal/store/migrate_data.go:32-83 | all or nothing: a failure leaves every table as it was, a success holds the source's rows with the same data in every column; without faults and with foreign keys that hold in both databases, success if and only if the schema versions agree, the tables do not refer to each other in a cycle, and self-references come after the rows they refer to |
| CopyWitness.ForwardCopyFails | internal/store/migrate_data.go:192-193 | a source and a destination whose foreign keys hold, without faults, whose copy fails |
| RateLimiter.ReapingIsInvisible | internal/web/ratelimit.go:79-91 | for all calls with any keys and limits, the answers are those of a limiter that never deletes |
| RateLimiter.FailuresPerInterval | internal/web/ratelimit.go:44-70 | a window holds at most max failures and every closed interval of length ttl at most 2·max − 1, whatever other keys do |
| RateLimiter.BoundIsReached | internal/web/ratelimit.go:44-70 | for every key, limits and time there are calls that put that many failures into one interval |
| RateLimiter.SpreadAppend | internal/web/ratelimit.go:58-70 | a failure that is let through comes more than ttl after the one 2·max − 1 failures before it |
| RateLimiter.Limit.DropExpired | internal/web/ratelimit.go:81-91 | deletes exactly the expired windows, at most once per ttl |
| RateLimiter.Limit.Allowed | internal/web/ratelimit.go:44-55 | true if and only if the key has no running window or fewer failures in it than the limit, five by default |
| RateLimiter.Limit.RecordFail | internal/web/ratelimit.go:58-70 | counts in the running window, or opens one of the given length, fifteen minutes by default |
| RateLimiter.Limit.Clear | internal/web/ratelimit.go:73-77 | forgets the key |
| Lockout.FailuresInPeriod | internal/store/users_security.go:9-29 | from any counter, without a success, at most threshold + (t1 − t0) / lockout failures are recorded from t0 to t1 |
| Lockout.BoundIsReached | internal/web/auth_handlers.go:240-277 | for all settings and times there are attempts that reach that bound |
| Lockout.CountsEveryFailure | internal/store/users_security.go:14-29 | until a success the counter grows by exactly the recorded failures |
| Lockout.SignInStartsOver | internal/web/auth_handlers.go:277 | after a sign-in whose reset was stored the account is locked again if and only if as many failures as the threshold have been recorded since |
| Lockout.Account.RecordFailedLogin | internal/store/users_security.go:14-29 | increments, locks at the threshold, and returns the new count |
| Lockout.Account.ResetFailedLogins | internal/store/users_security.go:33-38 | clears counter and lock |
| Lockout.Account.HandleLogin | internal/web/auth_handlers.go:240-277 | the password is accepted if and only if no lock is running, a slot is free, it is right and the account enabled, and clears count and lock; exactly a wrong password of an enabled account is recorded, and locks at the threshold |
| Sweep.SweepsInvisibleExactlyWhenCalm | internal/store/sweep.go:13-43 | no placement of sweeps among the SQL statements of a run changes an answer, if and only if every statement is calm: what it finds is not expired, it checks the expiry after it has read, or there is an unexpired row that clashes as well |
| Sweep.SweepsAreInvisible | internal/store/sweep.go:13-43 | the same answers for two sets of tables that differ only in expired rows |
| Sweep.TokenLostAfterUse | internal/store/password_tokens.go:22-46 | a run in which a used-up password token is not found again, because of a sweep between update and read-back |
| Sweep.ReplayAfterSweep | internal/store/devices.go:204-220 | a run in which a recorded identifier is taken for new, because of a sweep between delete and insert |
| Sweep.UserCodeTaken | internal/store/migrations/sqlite/0013_devices.sql:36-52 | a run in which a new device code is refused for the user code of an expired one, unless that has been swept |
| Sweep.LateApproval | internal/store/devices.go:308-317 | a run in which a code is approved after it expired, unless it has been swept |
| Sweep.SweptRows | internal/store/sweep.go:24-36 | the steps delete exactly the rows that expired before their table's cutoff |
| Sweep.SweepIsARun | internal/store/sweep.go:37-41 | a sweep is a run of separate DELETE statements |
| Sweep.UsedOnce | internal/store/webauthn.go:136-168 | in no run is a password token, authorization code or ceremony used twice, unless its key is inserted in between |
| Sweep.Store.DeleteExpired | internal/store/sweep.go:47-53 | deletes and counts exactly the table's expired rows |
| Sweep.Store.SweepExpired | internal/store/sweep.go:13-43 | runs the steps in order up to the first that fails; for each step before it, the count of the rows that had expired |
| OfflineSafety.OfflineLoginsAreJustified | internal/enrollment/login.go:206-260 | in every run, each offline login started within the validity window of an online sign-in or granted refresh of that subject, which is dated no later than the login was accepted, with no refused refresh since, a password chosen in an online login of that subject, and a device neither revoked nor pending: if and only if none is accepted for a name whose refusal could not be saved |
| OfflineVerdict.AcceptedLoginsAreJustified | internal/enrollment/login.go:227-260 | in every run that uses no lost refusal, each login that is accepted was a sign-in of this device under its own name, or typed a password whose use offline is justified by what came before |
| OfflineVerdict.VerdictHasFact | internal/enrollment/login.go:238-255 | a login is accepted if and only if it leaves the fact of the typed password's unlocking or of a sign-in |
| OfflineVerdict.WindowMoves | internal/enrollment/login.go:342-368 | every step moves the time for which an entry can be used offline exactly so: a sign-in or granted refresh extends it, a refused one, a sign-out or a replaced entry ends it |
| OfflineVerdict.TokenMoves | internal/enrollment/login.go:472-498 | the refresh token held for a name is the last one given for it, and none after a refusal |
| OfflineSafety.SavedRefusalsSuffice | internal/enrollment/login.go:491-496 | that is so whenever refusals are saved |
| OfflineSafety.LostRefusal | internal/enrollment/login.go:496 | a run with an offline login after a refusal that could not be saved |
| OfflineSafety.OpenUntilLastTrust | internal/enrollment/login.go:342-368 | in every state of every run, an entry with a password can be used offline exactly until the validity after its last recorded trust, unless a saved refusal followed or the device is revoked or pending |
| OfflineSafety.UnreachableLeavesNoTrace | internal/enrollment/login.go:489-490 | without its steps that found no connection, a run ends in the same state with the same trust, refusals and passwords |
| OfflineLogin.ChooseSecret | internal/enrollment/login.go:403-426 | a chosen password has the minimum length and was typed twice alike in one of three attempts |
| OfflineLogin.ChosenExactly | internal/enrollment/login.go:403-426 | a password is chosen if and only if one of the first three attempts has it twice alike and long enough and no prompt fails before |
| OfflineLogin.SignInExactly | internal/enrollment/login.go:262-368 | an online login succeeds if and only if name, subject and device agree, a password is there or chosen, and the entry can be saved; it changes that entry alone |
| OfflineSafety.StepOk | internal/enrollment/login.go:342-368 | every step keeps what offline logins rest on: the password's choice, the last trust, and the refusals that were lost |
| OfflineSafety.RefreshOk | internal/enrollment/login.go:477-497 | so does a refresh, whether granted, refused, saved or not |
| OfflineLogin.Agent.ChooseLocalSecret | internal/enrollment/login.go:403-426 | the prompting loop gives the specified choice |
| OfflineLogin.Agent.Login | internal/enrollment/login.go:227-260 | while an entry can be used offline, a typed password is accepted if and only if its hash is the cached one; otherwise the sign-in decides |
| OfflineLogin.Agent.LoginOnline | internal/enrollment/login.go:262-368 | accepted if and only if the sign-in is acceptable; saves the entry of that sign-in, or nothing |
| OfflineLogin.Agent.RefreshUsers | internal/enrollment/login.go:472-498 | the loop applies one refresh after the other |
| OfflineVerdict.RefreshAllIsARun | internal/enrollment/login.go:472-498 | the loop is a run of refreshes, one for each entry at the time of its answer |
| UidAlloc.DifferentSubjectsDifferentUids | internal/enrollment/nsssock.go:221-243 | in every state of a run cached entries with different subjects have different uids, if and only if no login of the run splits a uid: gives a subject to an entry without one whose uid another entry has |
| UidAlloc.StepApart | internal/enrollment/login.go:337-357 | a step puts two subjects on one uid if and only if it splits |
| UidAlloc.EntriesMove | internal/enrollment/nsssock.go:189-219 | every step changes the cache exactly so: an entry comes with its subject and an allocated uid, keeps the uid until it is removed or cached anew, and is given a subject only if it has none |
| UidAlloc.NamedSubjectsNeverSplit | internal/enrollment/nsssock.go:200-211 | while lookups name subjects, nothing splits |
| UidAlloc.UidResolvesToSameSubject | internal/enrollment/nsssock.go:169-184 | in every state of a run, looking up a resolved name's uid finds its subject whatever the order of the directory, if and only if no login of the run splits a uid |
| UidAlloc.AllocatedIsFree | internal/enrollment/nsssock.go:231-240 | an allocated uid is free in the local account file, in the accepted range, and held by no other subject |
| UidAlloc.AllocationSucceeds | internal/enrollment/nsssock.go:232-242 | allocation cannot fail while fewer than 1000 uids are blocked |
| UidAlloc.ProbeFindsFirstFree | internal/enrollment/nsssock.go:232-242 | probing returns the first free uid of its window, and fails if and only if all are blocked |
| UidAlloc.UidFor | internal/enrollment/login.go:184-194 | the hashed uid lies in the range |
| UidAlloc.EmptySubjectsShareAUid | internal/enrollment/login.go:337-357 | for any two subjects, a run with lookups that name no subject gives both the same uid, the hash of nothing |
| UidAlloc.Agent.AllocateUID | internal/enrollment/nsssock.go:223-243 | the collecting and probing loops give the specified uid |
| UidAlloc.Agent.LookupByUID | internal/enrollment/nsssock.go:169-184 | the first cached entry with the uid, if there is one and the uid is in the range |
| UidAlloc.Agent.CacheIdentity | internal/enrollment/nsssock.go:189-219 | caches the subject with an allocated uid under the name the server gave, or changes nothing |
| NssWire.PasswdRoundTrip | internal/enrollment/nsssock.go:108-117 | for all fields, and wherever the reply breaks off, the C module reads back the printed identity if and only if names and paths are words, nothing holds a NUL or newline, both ids are 32-bit, and the line arrives and fits |
| NssWire.GroupRoundTrip | internal/enrollment/nsssock.go:117-124 | for all names and ids, the C module reads back the printed group if and only if the name is a clean word, the id is 32-bit, and the whole line arrives and fits |
| NssWire.PasswdOfCut | endpoint/nss/nss_omni.c:73-97 | a well-formed identity's line that breaks off is rejected if nothing of the shell arrives, and otherwise read with what arrives of shell and gecos |
| NssWire.GroupOfCut | endpoint/nss/nss_omni.c:100-123 | a group's line that breaks off is rejected if no digit of its number arrives, and otherwise read with the number that the digits give |
| NssWire.BrokenOffGroup | endpoint/nss/nss_omni.c:46-58 | eight bytes of a reply for group 236261 are read as group 236 |
| NssWire.TokensOfCut | endpoint/nss/nss_omni.c:74-82 | a line cut no later than the end of its shell gives the words before it and the part of the shell that is there, or nothing |
| NssWire.IdRoundTrip | endpoint/nss/nss_omni.c:94-95 | a printed 64-bit number is read back modulo 2^32 |
| NssWire.ReceivedIsCut | endpoint/nss/nss_omni.c:46-57 | the reader keeps what arrives of the line, at most its first 2047 bytes |
| NssReader.GetPasswd | endpoint/nss/nss_omni.c:142-147 | a look-up answered with the line of an identity hands its caller that identity if and only if it is well-formed, its line arrives and fits, and the caller's buffer holds its five strings; not found if and only if no part of the shell arrives |
| NssReader.GetGroup | endpoint/nss/nss_omni.c:157-162 | the same for a group: exact in when the caller gets the group, and in when it is not found |
| NssReader.ReadReply | endpoint/nss/nss_omni.c:46-58 | whatever the sizes of the reads and wherever the connection ends, the buffer ends up with the received part of the line |
| NssReader.Terminate | endpoint/nss/nss_omni.c:55-57 | ends the bytes at the first newline or NUL |
| NssBuffer.Place | endpoint/nss/nss_omni.c:62-70 | copies string and NUL if they fit, and leaves every other byte alone |
| NssBuffer.PackedReads | endpoint/nss/nss_omni.c:85-89 | every packed string reads back from its own part of the buffer, in bounds |
| NssBuffer.FillPasswd | endpoint/nss/nss_omni.c:73-97 | succeeds if and only if the buffer holds all five strings, which then are disjoint, in bounds and NUL-terminated |
| NssBuffer.FillGroup | endpoint/nss/nss_omni.c:100-123 | succeeds if and only if alignment, pointers and strings fit; the member array is aligned, apart from the strings, points to the member and ends with NULL |
| LogShipper.RecordsAccountedFor | internal/logship/logship.go:131-247 | in every reachable state the accepted records are, in order, those of the posts, the batch and the queue; the counters add up to everything handled; batch and queue keep their bounds |
| LogShipper.AccountedExactlyWhenFormed | internal/logship/logship.go:230-246 | no run leaves a record unaccounted for if and only if requests can be made for the endpoint |
| LogShipper.AcknowledgedInOrder | internal/logship/logship.go:219-242 | what the server acknowledged is a subsequence of what was accepted, in order |
| LogShipper.CloseFlushes | internal/logship/logship.go:198-213 | once the worker has stopped, everything accepted before the close has been through a post |
| LogShipper.ClosedCanStop | internal/logship/logship.go:198-213 | from every state after the close the worker can stop with an empty queue |
| LogShipper.StepOk | internal/logship/logship.go:187-215 | every step of producers, ticker, worker and close keeps conservation and order |
| LogShipper.Shipper.HandleRecord | internal/logship/logship.go:143-149 | enqueues if there is room, otherwise drops and counts |
| LogShipper.Shipper.CloseShipper | internal/logship/logship.go:115-116 | closes once |
| LogShipper.Shipper.PostBatch | internal/logship/logship.go:219-247 | the batch is acknowledged if one of three attempts is; otherwise it is counted as dropped, if a request could be made |
| LogShipper.Shipper.FlushBatch | internal/logship/logship.go:181-187 | posts the batch unless it is empty |
| LogShipper.Shipper.TakeNext | internal/logship/logship.go:191-195 | moves one record to the batch and posts a full batch |
| LogShipper.Shipper.Stop | internal/logship/logship.go:212-213 | the last flush |
| LogShipper.Shipper.DrainAndStop | internal/logship/logship.go:198-213 | empties queue and batch by steps of the worker alone |
| Polling.WaitForDeviceCode | internal/enrollment/client.go:239-268 | for arbitrary latencies, and whichever poll times the server fails to store: each poll comes an interval after the last answer, five seconds more for each slow_down; it stops exactly at the first answer that is not to wait, past the lifetime, or when cancelled; at most one slow_down, none if the interval is at least 5 seconds; at most lifetime / interval + 2 polls |
| PollServer.ThrottlesAsTheHandler | internal/web/device_grant_handler.go:152-163 | the slow_down that the bound counts is the handler's own throttle, whether or not the poll time can be stored |
| PollServer.ServesAsTheHandler | internal/web/device_grant_handler.go:153-204 | the server in that loop is the token endpoint's handler: it gives tokens, and leaves the poll time behind, exactly when and as the handler does |

## Left out

- HTML pages, templates, branding, React components and browser scripts: user interface only.
- HTTP plumbing, sockets, cookies, CSRF, SMTP, LDAP, webhooks: wrappers over libraries; only the state they read or write is modelled.
- JWT signing and parsing, Argon2, SHA-256, AES-GCM, TPM and WebAuthn: opaque; a hash is injective and a signature or PKCE check is a field of the request.
- Configuration loading, admin forms, bootstrap of admin and clients, metrics, audit, downloads, URL and redirect policies: field copying and single-branch checks.
- Deletion of users and devices, device key rotation and posture; a previous fingerprint is remembered once only (internal/store/devices.go:143), so nothing is claimed about older ones.
- Device enrollment, device tokens and the cap on concurrent password checks beyond what the models read of them: a proof or assertion is verified and recorded, a verification slot is free or not.
- User codes (generation, normalising, formatting) and the resolver's cache of unknown names: easy members.
- Isolation levels of Postgres: every transaction is serial, as under SQLite's single connection.
- Database errors: they end a request and change nothing, except for the statements whose errors the handlers ignore, which are modelled.
- The error code of a refusal: the models say whether a request succeeds, and with what.
- GrantTheorems.RevokedDeviceNeverRefreshes: does not say that a revoked device has no live refresh row, because the device check and the insert of a device-code grant are separate steps (internal/web/device_grant_handler.go:183, internal/web/device_grant_handler.go:213).
- GrantServer.Server: the handlers as sequential code are for runs without database errors; the errors are in the state machine.
- Lockout.FailuresInPeriod: takes one attempt as one step; attempts whose password checks overlap can each record a failure before the lock is seen.
- RateLimiter.FailuresPerInterval: takes Allowed and the Fail that follows it as adjacent calls on the key, for one max and ttl.
- RateLimiter: lookups of the name-service resolver have a window of their own (internal/enrollment/nsssock.go:148-157), a second instance of the same proof.
- OfflineLogin: a load, its checks and its save are one step; case folding and trimming of the login name, the home directory and the prompts' texts are not modelled. A listing that cannot be read ends a refresh.
- UidAlloc: a desktop sign-in, which shares an operating-system uid on purpose (internal/enrollment/session.go:93), and cache files that cannot be listed or parsed, which allocation skips.
- NssBuffer: pointers to strings are offsets into the caller's buffer, words are 8 bytes, least significant first, as on the platforms the module is built for.
- LogShipper: what the server did with an attempt whose answer was lost; records handled after the worker has stopped stay in the queue. Close returning early at its deadline.
- Polling: the clocks of client and server run at the same rate, and the client is the only poller of its code.
- CopyData: reading the schema from the destination; the destination refuses a statement that leaves a foreign key broken; a time in a BOOLEAN column, which is passed on as it is.
- Sweep: the columns that no modelled answer depends on, and rows refused because their user is gone.
- Scopes: white space beyond ASCII.
