# logos-accounts: a verified model

This project models the account core of logos-accounts in Dafny and proves what it promises.

- **Provenance log** (`plog.dfy`): entries chained by CID, seqno and lipmaa long-hop; the key-value pairs
  folded from all entries; short-circuiting full-chain verification; verified append. Signatures, hashes,
  codecs and lock-script execution are function fields of one `Library` value, so every theorem is for
  all of them. A law about them (`decode(encode(x)) == x`, `lipmaa(n) < n`, no hash collision) is a named
  predicate, required only where a theorem uses it.
- **Entry assembly** (`entry_update.dfy`), **keys and branches** (`keys.dfy`), **listing order**
  (`sorting.dfy`), **delegations and closest-parent resolution** (`delegations.dfy`).
- **Account** (`account.dfy`): `PlogAccount` updates its log and its pending challenges in place. Each
  method is proved equal to a transition function on `AccountState`; the theorems about whole runs
  (`runs.dfy`, `refinement.dfy`) are about those functions. `handouts.dfy` says in terms of request and log
  alone what every prepare hands out to be signed.
- **Cache and module layer** (`cache.dfy`, `accounts_module.dfy`, `module_runs.dfy`): account objects in
  a map keyed by VLAD hash, changed in place, with the trace of emitted events.
- **Host scaffold** (`scaffold.dfy`): threads and locks of the C entry points, one step per lock;
  `lock_trace.dfy` ties the locks of each operation to what the module layer does.
- **Hex codec** (`hex.dfy`).

Main results: the listing derived from lock scripts and key-value pairs refines a plain map over whole
runs (`DelegationRefinement`), and the event trace replays to the same paths (`PathEventsAgree`); every
successful commit goes back to one live, untouched prepare and appends exactly what was handed out to
sign (`CommitSafety`), and a commit succeeds exactly when there is such a prepare and the signature is
accepted (`CommitIff`); every entry appended does what its request asked for, and every challenge names the
right signing key (`CommittedEntryAsked`, `EveryChallenge`); a committed delegate or revoke changes listing and signers exactly as asked, also on
imported logs with duplicate or foreign locks (`CommittedGrantEffect`, `CommittedRevokeEffect`,
`CommittedGrantSigner`, `CommittedRevokeSigner`); every action of every run has the stated outcome
(`EveryOutcome`, `CommitOutcome`); accounts of one module do not interfere (`AccountProjection`); the
closest-parent loop is correct and independent of order, and its
answer changes under a grant or a revocation for exactly the stated targets (`SignerAfterGrant`,
`SignerAfterRevoke`); the lock protocol has no reachable deadlock and serial operations
(`NoReachableDeadlock`, `ReachableSerial`), and the context hook fires at most once and is never missed
(`ContextHook`).

Where the code and its comments differ, the model follows the code:

- `rust-lib/src/api.rs:294` says a commit fails when the head moved. The `HeadMismatch` branch is modelled,
  and is unreachable: a successful commit clears all other challenges, so an outdated one is reported as
  `ChallengeNotFound`.
- `decode_hex` accepts a `+` as the first character of a two-character chunk, because the integer parser
  it uses does. Re-encoding then does not give the input back; `EncodeInvertsDecode` states exactly when
  it does, and `SignedChunkDecodes` gives the inputs for which it does not.
- With several host threads the hook may still be unfired when a setter returns although both cells are
  set: `set_context` reads no callback, `set_emit_callback` then writes one, and `set_context` returns
  (`SetterMayReturnFirst` gives the run). `HookAtLeave` says exactly when the hook has fired at the end of
  a call: iff that call itself read HOOK_FIRED set or read in place every cell it needs. For the host this
  means (`SetterFires`): a setter that has written its cell and finds the other in place returns after the
  hook has fired, whatever the other threads do, unless `set_emit_callback(null)` is under way or called.
  While both cells are in place and the hook has not fired, some other setter is still on its way to look,
  and once all calls have returned the hook has fired (`ContextHook`).
- `AccountCache::insert` files any account under any VLAD; the cache stays in order exactly when it is the
  account's own (`Insert`), which is how the module layer calls it.

Times are nanoseconds and, like challenge ids, inputs. A challenge id may repeat; the later prepare
replaces the earlier one, as inserting into the map does.

## Model

| member | source | states |
|---|---|---|
| Keys.ParseBranchPath | rust-lib/src/config.rs:117-131 | a path is accepted iff it is a key ending in `/` other than the root, and is returned unchanged |
| Keys.GeneratedCodeLooksDelegated | rust-lib/src/config.rs:23-28 | the lock code generated for any branch passes the listing's substring test for that branch |
| Delegations.GrantMeaning | rust-lib/src/api.rs:495-530 | a lock stands for a grant iff it is a script at a branch below the root whose code holds `check_signature("{branch}pubkey"` or `branch("pubkey")`, and the key stored there is text or a multikey, shown as such |
| Delegations.AncestorsMeaning | rust-lib/src/api.rs:362-370 | the delegated proper ancestors are the listed branches, other than the root and the target, that are a prefix of the target |
| Keys.DelegateKeyInjective | rust-lib/src/config.rs:105-114 | `{branch}pubkey` determines the branch, and is never `/pubkey` for a branch that may be delegated |
| Keys.AncestorsFormChain | rust-lib/src/api.rs:366-377 | of two ancestors of one key the shorter is an ancestor of the longer |
| Sorting.LexMeaning | rust-lib/src/api.rs:532 | the order used is byte-wise: a prefix first, otherwise the first difference decides |
| Sorting.ListingOrder | rust-lib/src/api.rs:532 | sorting yields a permutation of the collected grants in byte-wise order of paths |
| Sorting.SortedUnique | rust-lib/src/api.rs:532 | when the path determines the grant there is only one sorted arrangement, so duplicates and lock order cannot show |
| Plog.LastItemDecides | rust-lib/src/api.rs:65-105 | readers of the last verified item and readers of all items agree: last is a success iff all are, and it carries the last entry and all pairs |
| Plog.AppendVerifies | rust-lib/src/entry_update.rs:89-94 | a successful append keeps the whole log verified |
| Plog.LongHopFound | rust-lib/src/entry_update.rs:73-78 | on a verified log the long-hop lookup for the next entry finds a strictly earlier entry |
| Plog.ChainShape | rust-lib/src/entry_update.rs:59-78 | in a verified log seqno is the position, prev the predecessor's CID, VLAD constant, and a lipmaa link is present iff called for and names an earlier entry |
| Plog.KvpOfHistory | rust-lib/src/entry_update.rs:68-71 | the pairs at the head are all committed ops applied in order |
| EntryUpdate.OpsFromParams | rust-lib/src/entry_update.rs:118-155 | conversion succeeds iff no key or CID is left to generate, op by op in order |
| EntryUpdate.ParamEffect | rust-lib/src/entry_update.rs:118-155 | what the op built from each kind of param does to the key-value pairs |
| EntryUpdate.LocksReplacingPath | rust-lib/src/entry_update.rs:97-111 | the loop drops every lock at the path, keeps each other lock once and in order, and appends the new one |
| EntryUpdate.PrepareNextEntry | rust-lib/src/entry_update.rs:48-86 | the assembly loop yields the specified next entry or the specified error |
| EntryUpdate.PreparedIsLinked | rust-lib/src/entry_update.rs:59-80 | a prepared entry passes every structural check of verification whatever proof completes it |
| EntryUpdate.PrepareFailsOnlyFor | rust-lib/src/entry_update.rs:48-86 | on a verified log preparing fails only for an unresolved op or an entry the library refuses to sign |
| Delegations.ResolveClosestParentSigningKey | rust-lib/src/api.rs:356-383 | the loop returns `{b}pubkey` for the delegated proper ancestor b that all others are ancestors of, `/pubkey` iff there is none, and never fails |
| Delegations.ClosestParentCorrect | rust-lib/src/api.rs:360-378 | keeping the strictly longer candidate finds the closest delegated ancestor, none iff there is none |
| Delegations.ClosestIsUnique | rust-lib/src/api.rs:360-378 | there is at most one closest delegated ancestor |
| Delegations.SignerDependsOnPaths | rust-lib/src/api.rs:356-383 | the signing key depends only on the set of listed paths: order and repetition do not matter |
| Delegations.SignerAfterGrant | rust-lib/src/api.rs:356-383 | adding a grant redirects exactly the targets strictly below it whose closest ancestor was shorter |
| Delegations.SignerAfterRevoke | rust-lib/src/api.rs:356-383 | removing a grant re-signs exactly the targets it was closest to, with the next longest ancestor |
| Delegations.ListDelegations | rust-lib/src/api.rs:474-534 | fails exactly on an unverified or empty log; otherwise lists each grant once per lock of the head that stands for it, in byte-wise order of paths |
| Delegations.ListingMembers | rust-lib/src/api.rs:494-531 | a grant is listed iff some delegated lock of the head stands for it with the key stored for its path |
| Delegations.ListingAfterGrant | rust-lib/src/api.rs:494-532 | lock upsert plus stored key: the other grants as they were plus the new one, sorted |
| Delegations.ListingAfterRevoke | rust-lib/src/api.rs:494-532 | lock removal plus deleted key: exactly the other grants |
| Account.EnsurePlogVerified | rust-lib/src/api.rs:65-77 | succeeds iff the log is nonempty and every entry verifies |
| Account.GetPlogValue | rust-lib/src/api.rs:80-105 | returns the rendered value the head's pairs hold for the path, or the error of the first check that fails |
| Account.SummaryFromVerifiedPlog | rust-lib/src/api.rs:114-127 | the checks in source order yield the summary of a verified log, or report that it does not verify |
| Account.PlogOpsToParams | rust-lib/src/api.rs:316-318 | conversion succeeds iff every op converts, gives exactly the converted ops in order, and never one that still has to be generated |
| Account.OpsFailure | rust-lib/src/api.rs:316-318 | when conversion fails it is with the error of the first op that does not convert |
| Account.ConvertLockSpec | rust-lib/src/api.rs:325-353 | each form of lock spec yields its lock set from the head, or the error of the path or keyword that is not valid |
| Account.SummarySucceeds | rust-lib/src/api.rs:114-127 | a verified log always has a summary: its VLAD, its head, and the text of the value at `/pubkey` if there is one |
| Account.PrepareOutcome | rust-lib/src/api.rs:556-593 | on a reachable state a prepare succeeds iff its lock spec converts and the library can sign the assembled entry; otherwise which error |
| Account.PlogAccount.Create | rust-lib/src/api.rs:409-420 | succeeds iff the key decodes and opening yields a verified log; the account holds that log and no challenge |
| Account.PlogAccount.Import | rust-lib/src/api.rs:423-433 | succeeds iff the text decodes to a verified log; the account holds that log and no challenge |
| Account.PlogAccount.PurgeExpiredChallenges | rust-lib/src/api.rs:540-544 | keeps exactly the challenges younger than 15 minutes |
| Account.PlogAccount.HeadEntry | rust-lib/src/api.rs:546-553 | returns the last entry iff the whole log verifies |
| Account.PlogAccount.PrepareEntry | rust-lib/src/api.rs:556-593 | purges, then stores and hands out a challenge for the assembled entry, or reports why not; keeps the account valid |
| Account.PlogAccount.PrepareUpdate | rust-lib/src/api.rs:596-610 | a raw request, with a rejected request leaving the account untouched |
| Account.PlogAccount.PrepareDelegate | rust-lib/src/api.rs:615-646 | lock upsert and key update signed by the closest parent over the current listing |
| Account.PlogAccount.PrepareRevoke | rust-lib/src/api.rs:651-665 | lock removal and key delete signed by the closest parent over the current listing |
| Account.PlogAccount.CommitUpdate | rust-lib/src/api.rs:670-693 | consumes the challenge first, then checks head and signature, appends, and clears all challenges only on success |
| Account.PlogAccount.CancelUpdate | rust-lib/src/api.rs:696-702 | drops exactly the named live challenge |
| Account.PrepareKeepsInv | rust-lib/src/api.rs:556-593 | prepare keeps every challenge built on the verified head |
| Account.CommitKeepsInv | rust-lib/src/api.rs:670-693 | commit keeps the log verified and every remaining challenge built on the head |
| Account.CommitOutcome | rust-lib/src/api.rs:670-693 | on a reachable state commit succeeds iff the challenge is live, the signature decodes, completes and authorises the entry; otherwise which error, and nothing appended |
| Runs.ReachableInv | rust-lib/src/api.rs:402-405 | in every reachable state the log verifies and every challenge is built on the head |
| Runs.EveryOutcome | rust-lib/src/api.rs:556-702 | in any run a prepare is offered iff its request is in order and the library can sign the entry, a cancel succeeds iff the challenge is pending and in time, and every other rejection is for the request, the challenge, the signature or the authorisation: never because the head moved or the log fails to verify |
| Runs.LogGrowth | rust-lib/src/api.rs:687-690 | over any run old entries stay a prefix, and there is one new entry per successful commit |
| Runs.ReachableChain | rust-lib/src/entry_update.rs:59-78 | every entry of every reachable log is chained to its predecessors under the original VLAD |
| Runs.StepPending | rust-lib/src/api.rs:571-580 | what is pending after an action was handed out by it or left alone by it |
| Runs.PendingProvenance | rust-lib/src/api.rs:571-580 | every pending challenge was handed out by one earlier prepare and left alone since |
| Runs.CommitSafety | rust-lib/src/api.rs:670-693 | a successful commit has exactly one earlier prepare of its challenge left alone since: less than 15 minutes old, not cancelled, not tried before, no commit in between; the appended entry is the one handed out plus the proof, the reported kind and path are that prepare's |
| Runs.HandedOutStays | rust-lib/src/api.rs:540-580 | what a prepare handed out stays pending as it was, whatever else is prepared or cancelled, until it is used, expires, or some commit succeeds |
| Runs.LiveChallengeCommits | rust-lib/src/api.rs:670-693 | a commit of a challenge left alone and in time appends iff the signature decodes, completes the entry and is authorised |
| Runs.CommitIff | rust-lib/src/api.rs:556-702 | with a clock that does not run backwards, a commit succeeds iff an earlier prepare handed out the challenge less than 15 minutes before, it was not cancelled or tried since, no commit succeeded in between, and the signature is accepted |
| Handouts.EveryChallenge | rust-lib/src/api.rs:582-593 | every challenge of every run names the account, the head and the request's kind and path, and the right signing key: the requested one for a raw entry, else that of the closest delegated ancestor, `/pubkey` if there is none |
| Handouts.EveryEntry | rust-lib/src/api.rs:556-665 | every entry handed out has the next position, the default unlock script, exactly the locks and the ops its request asks for, and its bytes are the message |
| Handouts.LocksMeaning | rust-lib/src/api.rs:325-353 | inherit keeps the head's locks, replace gives the scripts in order, upsert and remove keep the locks at other paths in order |
| Handouts.CommittedEntryAsked | rust-lib/src/api.rs:670-693 | every entry a commit appends does what the prepare behind it asked for, and carries the given proof |
| Refinement.HandedOutFulfils | rust-lib/src/api.rs:615-665 | the entry handed out by a delegate or revoke does what was asked for |
| Refinement.CommittedGrantEffect | rust-lib/src/api.rs:615-693 | from any account with nothing pending, over any run: a commit reported as a delegate of a path goes back to a prepare_delegate of that path with a key that decodes, and the listing is then the other grants plus the path with that key, sorted |
| Refinement.CommittedRevokeEffect | rust-lib/src/api.rs:651-693 | likewise a commit reported as a revoke of a path goes back to a prepare_revoke of it, and exactly the other grants are listed |
| Refinement.CommittedGrantSigner | rust-lib/src/api.rs:355-383 | after such a delegate exactly the targets strictly below the path whose closest ancestor was shorter change signer, to the path's key |
| Refinement.CommittedRevokeSigner | rust-lib/src/api.rs:355-383 | after such a revoke exactly the targets the path was closest to change signer, to the next longest ancestor's key; nested grants survive |
| Refinement.DelegateEqualsRaw | rust-lib/src/api.rs:615-646 | the sugar assembles the same entry and message as the raw request with lock upsert and data update |
| Refinement.RevokeEqualsRaw | rust-lib/src/api.rs:651-665 | the sugar assembles the same entry and message as the raw request with lock remove and delete |
| Refinement.RepresentsUnique | rust-lib/src/api.rs:474-534 | only one listing represents a given map of grants |
| Refinement.TameEffect | rust-lib/src/api.rs:596-610 | a raw commit that inherits locks and writes no granted key leaves the listing as it was |
| Refinement.DelegationRefinement | rust-lib/src/api.rs:474-693 | over any run from a fresh account with such raw commits, the listing is the contents, in byte-wise order of paths, of the map replayed from calls and outcomes |
| Refinement.RootPolicyKept | rust-lib/src/config.rs:117-131 | no run of committed delegates and revokes alters the locks at `/` or the value at `/pubkey` |
| Refinement.GrantedPathsHaveOneLock | rust-lib/src/entry_update.rs:97-111 | after such a run from a log with at most one lock per path, each listed path has exactly one lock |
| Refinement.GetValueIsLastWriter | rust-lib/src/api.rs:80-112 | a read shows the value of the last op other than a noop on the key over the whole history: text as it is, a key in its multikey encoding, other bytes as bytes; path-not-found iff there is none or it deletes |
| Refinement.SummaryKeyIsLastWriter | rust-lib/src/api.rs:114-127 | the key in a summary is what was last written to `/pubkey`, shown the same way |
| Refinement.CommittedGrantValue | rust-lib/src/api.rs:80-112 | after a committed delegate, reading the path's key gives the key the listing shows |
| Refinement.CommittedRevokeValue | rust-lib/src/api.rs:80-105 | after a committed revoke, reading the path's key finds nothing |
| Cache.AccountCache.Insert | rust-lib/src/cache.rs:74-84 | files the account at the hash of the decoded VLAD in place of any former object; the cache stays in order iff that is the account's own VLAD, and then exactly that account changes in it |
| Cache.AccountCache.Get | rust-lib/src/cache.rs:87-97 | every spelling of a VLAD reaches the one object filed under it, with the two lookup errors |
| Cache.AccountCache.Remove | rust-lib/src/cache.rs:108-115 | drops exactly one VLAD's account |
| Cache.AccountCache.Clear | rust-lib/src/cache.rs:118-123 | empties the cache and returns how many accounts there were |
| Cache.AccountCache.SlotTaken | rust-lib/src/cache.rs:57-65 | a VLAD is cached iff the slot at its hash is taken |
| Cache.ImageSize | rust-lib/src/cache.rs:57-65 | distinct VLADs occupy as many distinct slots |
| AccountsModules.AccountsModule.CreateAccount | rust-lib/src/module.rs:70-84 | emits the created event, files the account, replies its summary; each failure emits one error |
| AccountsModules.AccountsModule.ImportPlog | rust-lib/src/module.rs:86-96 | files the imported account without challenges in place of any former one |
| AccountsModules.AccountsModule.ExportPlog | rust-lib/src/module.rs:98-108 | replies the encoded log and changes nothing |
| AccountsModules.AccountsModule.RemovePlog | rust-lib/src/module.rs:110-115 | drops one account |
| AccountsModules.AccountsModule.ClearCache | rust-lib/src/module.rs:117-120 | drops all accounts, replies how many |
| AccountsModules.AccountsModule.GetValue | rust-lib/src/module.rs:122-135 | replies the value read from the cached log |
| AccountsModules.AccountsModule.ListPaths | rust-lib/src/module.rs:137-150 | replies the listing of the cached log |
| AccountsModules.AccountsModule.OnAccount | rust-lib/src/module.rs:152-232 | runs a prepare, commit or cancel on the cached object in place, changes no other account, and emits the events of its outcome in order |
| ModuleRuns.AccountFrame | rust-lib/src/module.rs:44-57 | an account changes only by a call that replaces it or an action on a spelling of its VLAD |
| ModuleRuns.AccountProjection | rust-lib/src/module.rs:44-57 | over any run of calls an account that is not replaced goes through exactly the run of its own actions |
| ModuleRuns.ImportStartsOver | rust-lib/src/module.rs:86-96 | after a re-import, over any further run, that account's history starts from the imported log with nothing pending, and every other account is as if the import had not been |
| ModuleRuns.ErrorsAnnounced | rust-lib/src/module.rs:30-36 | a call that fails says so once, in its reply and as the last event; any other emits no error event |
| ModuleRuns.CreatedIsFiled | rust-lib/src/module.rs:70-84 | a created account is filed with nothing pending, announced once, and its summary replied |
| ModuleRuns.ReadsAfterRun | rust-lib/src/module.rs:98-150 | after any run in which the account is not replaced, reads under any spelling reply what the account's own history gives |
| ModuleRuns.ActionsAfterRun | rust-lib/src/module.rs:152-232 | an action replies its outcome on the account's own history |
| ModuleRuns.RemovalDrops | rust-lib/src/module.rs:110-120 | removing drops that account and no other, clearing drops all and replies how many |
| ModuleRuns.StaysGone | rust-lib/src/cache.rs:67-97 | an account that is gone stays gone until created or imported, and every call naming it fails with the first 16 hex digits of its hash |
| ModuleRuns.ExportRestores | rust-lib/src/api.rs:459-461 | importing an export puts the account back to the log it had then, whatever was called in between |
| ModuleRuns.ReachableModule | rust-lib/src/cache.rs:19-21 | over any run of calls every cached account is valid and filed under its own VLAD |
| ModuleRuns.UpdatesMatchAppends | rust-lib/src/module.rs:197-216 | each appended entry is announced by exactly one account_updated with the new head, and nothing else is |
| ModuleRuns.PathEventsAgree | rust-lib/src/module.rs:197-216 | replaying the path events of an account since its creation gives exactly the paths listed |
| Scaffold.OperationsNest | rust-lib/src/module.rs:70-232 | every operation, on every path, takes its locks in rank order and keeps none |
| Scaffold.WantsInOrder | rust-lib/generated/provider_gen.rs:127-154 | a thread only waits for a lock ranked above all it holds |
| Scaffold.NextKeepsLocks | rust-lib/generated/provider_gen.rs:248-300 | every step keeps lock ownership and the shape of every thread consistent |
| Scaffold.NoWaitCycle | rust-lib/generated/provider_gen.rs:127-154 | no threads, however many, wait for one another in a circle |
| Scaffold.SomeoneMoves | rust-lib/generated/provider_gen.rs:248-300 | while a call is in progress some call can take its next step |
| Scaffold.NoReachableDeadlock | rust-lib/generated/provider_gen.rs:248-300 | no interleaving of any number of threads reaches a deadlock |
| Scaffold.ReachableSerial | rust-lib/generated/provider_gen.rs:290-299 | at most one module operation is in flight, and it runs with REGISTERED and INSTANCE held |
| Scaffold.NextKeepsHook | rust-lib/generated/provider_gen.rs:127-145 | every step keeps what the hook invariant says of the cells and of each thread |
| Scaffold.ContextHook | rust-lib/generated/provider_gen.rs:330-354 | the hook fires at most once, only with a context that was given, is not missed once context and callback are in place (it has fired, or some setter is still to look), and precedes the operation of a dispatch that followed a context |
| Scaffold.CellsHoldLast | rust-lib/generated/provider_gen.rs:330-354 | over every interleaving CONTEXT and EMIT hold what the last setter to write gave them |
| Scaffold.HookGetsContext | rust-lib/generated/provider_gen.rs:127-145 | the hook is called with the context that was the last written when the calling thread read the cell |
| Scaffold.OperationRuns | rust-lib/generated/provider_gen.rs:290-300 | a dispatch goes through exactly the lock actions of its operation, in order |
| Scaffold.DispatchReturns | rust-lib/generated/provider_gen.rs:290-300 | a dispatch returns only after its whole operation |
| LockTrace.EmitPerEvent | rust-lib/src/module.rs:30-232 | EMIT is taken exactly once per event a call adds to the trace |
| LockTrace.AccountLockTaken | rust-lib/src/module.rs:44-57 | a call on a cached account takes the cache map's lock, then that account's, once each, and holds the latter to the end |
| LockTrace.CacheLockTaken | rust-lib/src/module.rs:70-120 | the set of cached accounts changes only with the cache map's lock taken |
| Scaffold.HookAtLeave | rust-lib/generated/provider_gen.rs:127-145 | as a call leaves ensure the hook has fired iff this call read HOOK_FIRED set or read in place every cell it needs, at some step of this very call |
| Scaffold.LookerFires | rust-lib/generated/provider_gen.rs:127-145 | a setter past its write that finds both cells in place is past ensure_ready only after the hook has fired, whatever other threads do, if none writes a null callback |
| Scaffold.SetterFires | rust-lib/generated/provider_gen.rs:330-354 | the same when no set_emit_callback(null) is under way or made |
| Scaffold.SetterMayReturnFirst | rust-lib/generated/provider_gen.rs:330-354 | a reachable run in which set_context returns with both cells set and the hook unfired, the other setter still to look |
| Hex.DecodeInvertsEncode | rust-lib/src/encoding.rs:80-97 | decoding inverts encoding, also behind `0x` and within whitespace |
| Hex.EncodedAt | rust-lib/src/encoding.rs:80-82 | each byte is written as two lower-case digits, the high half first |
| Hex.DecodeExactly | rust-lib/src/encoding.rs:85-97 | on any input: surrounding whitespace and one `0x` go, and the rest decodes iff it is made of two-digit or signed chunks, one byte each |
| Hex.EncodeInvertsDecode | rust-lib/src/encoding.rs:85-97 | re-encoding gives the lower-cased body iff it holds no `+`, that is iff it is all digits |
| Hex.SignedChunkDecodes | rust-lib/src/encoding.rs:90-96 | a signed digit decodes and comes back with a zero for the sign |
| Hex.DigitsDecode | rust-lib/src/encoding.rs:87-96 | every even-length body of digits decodes |
| Hex.Decode32Length | rust-lib/src/encoding.rs:100-104 | the 32-byte form succeeds iff the body decodes and has 64 characters |

## Left out

- Signature checking, multikeys, CIDs, SHA-256, multibase codecs and Comrade script execution: function fields of `Library`; nothing is claimed about what a delegate may write.
- The provenance-log crate itself is not part of this model: verification and append are the small model in `plog.dfy`, and a log's head is the CID of its last entry.
- Opening a log (`rust-lib/src/ephemeral_open.rs`): its result is an input of `Create`; that a fresh log has locks at the root only is the condition `FreshAccount`.
- JSON parsing and printing, C strings and raw pointers, the tokio runtime, tracing, the token store and the method listing: requests and replies are datatypes; a dispatch whose arguments do not parse returns before any lock.
- Error message texts: errors are cases, with the payloads callers match on.
- Lock poisoning, panics, overflow of the 64-bit seqno, and hex strings outside ASCII, where the source slices bytes.
- A callback that calls back into the module: the scaffold assumes the host's callback returns without doing so.
- Dropped events: the trace records every event emitted, whether or not a callback is set.
- `key_under_branch`, `head_cid`, byte-level import and export, and the unused update configs: one-line wrappers.
- Account histories across a re-import: import may put an older log in place, so history properties are per account object.
- Scaffold.OperationsNest: which branch an operation takes is arbitrary in the thread system, so the lock protocol is shown for more interleavings than can occur; `LockTrace.PathOf` says which branch a call takes.
- Cache.AccountCache.Insert: the shared pointers and per-account mutexes of the cache are account objects with in-place update; their locking is in `scaffold.dfy`.
