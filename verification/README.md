# Verified models of the Envanter server and client

This project models the parts of Envanter whose correctness depends on more
than one function: protocols between server and client, queries that must keep
a meaning, a queue that must not lose work, limiters, conditional updates under
interleaving, and codecs. Each module follows one component of the repository;
what the component promises is proved for all inputs, all runs or all reachable
states of the model.

| module | component |
|---|---|
| `Sessions` | the session table and its handlers: login, refresh with rotation and reuse detection, logout, logout everywhere, password change, recovery |
| `RefreshClient` | the desktop client's coalesced refresh, running against that table, with lost and late replies and other devices |
| `FolderTree` | the folder table as a parent relation: when chains end, and what re-parenting does to them |
| `Permissions` | the folder query (recursive ancestors, outer join, `UNION ALL`, three-valued `bool_or`) and the item resolver on top of it |
| `Grants` | granting access as the handlers do, by an upsert that replaces rows |
| `Outbox`, `OutboxPass`, `OutboxMachine`, `OutboxRun`, `OutboxMirror` | the offline queue, what one replay pass does, whole runs with crashes, the pass as such a run, and the UI store as a mirror |
| `Limiter`, `Lockout`, `CircuitBreaker` | one abstract batch-then-pause limiter; account lockout and the Redis breaker refine it |
| `AccessRequests` | the approval workflow, fetch and conditional update being separate steps |
| `Bootstrap` | the one-shot admin setup under an advisory lock |
| `OidcState` | single-use login state kept in Redis or in a pod's memory |
| `WsClient` | the reconnecting WebSocket client |
| `OfflineCache` | saving the query cache and merging it back |
| `BlobCodec` | the versioned blob, the AES-GCM cipher and the sealed box over abstract primitives |

`dafny verify dfyconfig.toml` checks everything.

## Conventions

- A code path that updates fields step by step is a class; its methods are
  proved against functions on values, and the lemmas are about those functions.
- Clocks, randomness and the network are parameters. Time is an integer and, in
  a run, never goes back; server and database share one clock.
- A refresh token is identified with its SHA-256 hash: the hash is all that the
  server stores or compares. A token that was drawn before runs into the
  `UNIQUE` constraint, answers an internal error and rolls back.
- A session, request or user id is the row's position in insertion order; ids
  that the source makes from time and randomness are counters.
- The link from a rotated session to its successor is the audit detail
  `rotated_from`, which the table itself does not hold.
- A step of `RefreshClient`, `OutboxMachine` and `WsClient` is what JavaScript
  executes between two awaits; a server handler of `Sessions` and `Lockout` is
  one step; in `AccessRequests`, `Bootstrap` and `OidcState` a step is one
  statement or one store command.
- Transactions of `Bootstrap` run under READ COMMITTED, PostgreSQL's default: a
  statement sees what was committed before it started.

## Where the code and what is said of it differ

The model follows the code.

- `server/internal/auth/session.go:62` calls a session inactive at the very
  instant it expires, `server/internal/httpapi/auth_refresh.go` still refreshes
  it then (`RefreshSucceedsIff`).
- "Every token goes on the wire at most once" needs the browser store to take
  one write: `client/src/api/token-storage.ts` swallows a failure, and when it
  refuses the write that settles a refresh, the new token or the clearing after
  an error, while it still holds the token that was sent, that token stays and
  the next refresh trips reuse detection and signs the user out everywhere
  (`SpentTokenStaysIff`, `ReplayFollowsIff`, `RefusedWriteTripsReuse`). Any
  other refused write does no harm (`EachTokenSentOnce`).
- `docs/auth-flow.md:297` asks for an inheriting grant even on the folder
  itself; the query does not (`FolderQueryMeans`). `docs/auth-flow.md:46` has
  logins rejected while the status is `pending_totp`; the code asks only whether
  the account is disabled (`LoginSucceedsIff`).
- Re-parenting a folder (`server/internal/httpapi/folder_handlers.go:320`)
  checks permissions and the schema forbids a folder as its own parent, but a
  folder can be moved below itself. The ancestors recursion ends exactly when no
  folder comes twice on the way up (`RecursionEndsIff`), for every folder exactly
  when the table is acyclic (`AllRecursionsEndIff`), and a move keeps it so
  exactly when the folder is not on the way up from its new parent
  (`ReparentAcyclicIff`, `ReparentEndsIff`).
- `client/src/lib/offline-sync.ts` says that a network failure stops the pass.
  With offline mode on it does not: the failing request queues a copy of its op
  and counts as an API failure, so an outage doubles the queue and three of them
  discard the originals and leave copies (`StillOfflineIff`,
  `OutageDoublesQueue`, `ThreeOutagesDiscardOriginals`). "Three API failures
  before an op is dropped" holds for all runs exactly when offline mode is off
  (`ThreeRejectionsIff`); with it on, a copy of the payload survives instead
  (`NoPayloadLost`).
- `server/internal/cache/redis.go:67` says the circuit opens when the first ping
  fails; one error is not five (`FailedPingDoesNotOpen`).
- `server/migrations/00042_access_requests.sql:35` describes the expiry as
  counted from the request; the code counts from the approver's fetch
  (`ApprovalOpensGate`).
- `server/internal/httpapi/auth_bootstrap.go` promises the first and only admin.
  At most one setup commits while nobody is demoted (`AtMostOneSetup`). Its
  account is the only admin exactly when nobody got the role directly since the
  check and kept it, and nobody has it through a group, which the check does not
  look at although `fetchUserRoles` does (`FirstAndOnlyIff`). The default admin
  that a starting server makes takes no lock and can slip in between
  (`DefaultAdminSlipsIn`). Taking the role from the only direct admin, which
  anybody else with an admin token can do (`LastDemotedIff`), reopens the setup
  (`SetupOpenIff`); a member of an admin group does so in
  `DemotionReopensSetup`, and stays admin beside the new one.
- An OIDC state is accepted once only if no `SetEX` stores it unknown to the
  caller: not the one that seemed to fail, nor the second attempt that the Redis
  client makes (`server/internal/cache/redis.go:60`), at any later time
  (`IssuedAcceptableIff`); with two attempts, up to three times
  (`AcceptedAtMostOnce`).
- Signing out is undone, the cells filled again and the new session active, when
  the server has already answered a refresh whose reply is still on its way
  (`SignOutUndoneIff`, `SignsInAgain`).
- The UI store is loaded by a read of the disk and, after an await, `setOps`. If
  no replay loop updates the queue in between, the store then mirrors the disk
  exactly when as many `addOp`s ran since the read as were outstanding at it
  (`LoadMirrorsIff`, `PassMirrorsIff`); an op that a loop takes off or counts
  after it was read leaves that load stale for good (`UpdateMakesStale`).
- A grant is an upsert: it leaves everybody as many rights as before exactly when
  it covers the active row it replaces (`GiveIsMoreIff`). Sharing an item for
  reading with a group takes the right to write from the members listed
  (`GroupSharingLowersWriter`, `SharingLowersIff`), and a group's folder grant
  given again keeps the time window of the old row (`RegrantIsActiveIff`).
- `Unpack` (`server/internal/crypto/format.go:66`) is said to validate the
  algorithm and does not (`PackOfUnpack`).
- The AAD of a column is its own only when no part has a colon
  (`AADSharedIff`).
- In `hydrateCache` a time stamp of 0 protects nothing, being falsy; among
  several entries with that time the last one wins (`Best`, `NewestWins`).

## Model

| member | source | states |
|---|---|---|
| Sessions.AuthServer.CreateSession | server/internal/auth/session.go:78-110 | appends one active row unless the hash is taken, in which case nothing changes |
| Sessions.AuthServer.RevokeSession | server/internal/auth/session.go:133-144 | stamps the one row if it is unrevoked and leaves an earlier reason alone |
| Sessions.AuthServer.RevokeAllUserSessions | server/internal/auth/session.go:149-160 | stamps every unrevoked row of the user and no other |
| Sessions.AuthServer.Login | server/internal/httpapi/auth_login.go:341-393 | the session effect of a login is the table transition that the lemmas are about, signing failures after the commit included |
| Sessions.AuthServer.Refresh | server/internal/httpapi/auth_refresh.go:39-188 | unknown, reused, expired, rotated, rolled back, and rotated but not signed: table and reply in each case, as one transition |
| Sessions.AuthServer.Logout | server/internal/httpapi/auth_logout.go:21-44 | revokes the session of the access token |
| Sessions.AuthServer.LogoutAll | server/internal/httpapi/auth_logout.go:50-73 | revokes every session of the user |
| Sessions.AuthServer.ChangePassword | server/internal/httpapi/auth_change_password.go:46-173 | with the right password revokes every session of the user, else leaves the table alone |
| Sessions.AuthServer.Recover | server/internal/httpapi/auth_recover.go:36-135 | with a right recovery code revokes every session of the user, else leaves the table alone |
| Sessions.StepFrame | server/internal/auth/session.go:133-160 | which rows an operation may change: only unrevoked ones it is entitled to, and the revoking operations leave none of those active |
| Sessions.RunKeepsValid | server/internal/httpapi/auth_refresh.go:66-162 | after every run hashes are unique, each rotated row has exactly one successor of the same user, and successors come from rotated rows only |
| Sessions.RunEvolves | server/internal/auth/session.go:133-160 | in every run rows are only appended and a revoked row never changes time or reason, let alone becomes active |
| Sessions.OlderIsRotated | server/internal/httpapi/auth_refresh.go:126-162 | of two rows in one rotation chain the older is revoked by rotation and has its successor within the chain |
| Sessions.ChainSafety | server/internal/httpapi/auth_refresh.go:66-162 | in every run each login's chain has at most one session that was not rotated away, its newest |
| Sessions.ReplayRevokesUser | server/internal/httpapi/auth_refresh.go:66-85 | presenting a revoked token revokes all active sessions of its user with the reuse reason and touches nobody else |
| Sessions.ReplayIsFinal | server/internal/httpapi/auth_refresh.go:66-85 | after a replay no token the user held then can ever be refreshed, whatever happens later |
| Sessions.RefreshSucceedsIff | server/internal/httpapi/auth_refresh.go:53-170 | a refresh succeeds exactly for a stored, unrevoked token up to and including its expiry instant, if the answer can be signed |
| Sessions.UnsignedRefreshSpendsToken | server/internal/httpapi/auth_refresh.go:158-170 | a refresh that fails to sign after its commit has rotated the session all the same |
| Sessions.TokenSucceedsAtMostOnce | server/internal/httpapi/auth_refresh.go:126-162 | in every run a token buys at most one successor |
| Sessions.MintedTokenIsGood | server/internal/httpapi/auth_refresh.go:126-188 | the token a refresh returns belongs to the same user and can be refreshed during exactly the next seven days |
| Sessions.LoginTokenIsGood | server/internal/auth/refresh.go:33-46 | a login appends one active row of its user, whose token can be refreshed for exactly the seven days after it |
| Sessions.RefreshRotates | server/internal/httpapi/auth_refresh.go:126-162 | a refresh stamps the presented row as rotated, appends its successor with seven days, and changes no other row |
| Sessions.RefusedRefreshChangesNothing | server/internal/httpapi/auth_refresh.go:53-92 | an unknown or expired token is refused for that reason and nothing changes |
| Sessions.TakenTokenChangesNothing | server/migrations/00004_sessions.sql:29 | a token drawn before makes login and refresh fail with the table rolled back |
| Sessions.RevokedWithReason | server/internal/auth/session.go:133-160 | logout, logout everywhere, password change and recovery stamp exactly their unrevoked rows, each with its own reason |
| RefreshClient.ApiClient.RefreshOnce | client/src/api/client.ts:144-159 | reads the stored refresh token and puts it, if there is one, on the wire in a new flight |
| RefreshClient.ApiClient.Ensure | client/src/api/client.ts:161-173 | joins the flight under way or starts one |
| RefreshClient.ApiClient.StartFetch | client/src/api/client.ts:175-198 | a call goes out once, and may ask for a refresh unless told not to |
| RefreshClient.ApiClient.OnRefreshReply | client/src/api/client.ts:144-159 | a reply settles the flight; tokens are stored, the refresh cell only if it takes the write |
| RefreshClient.ApiClient.OnCatch | client/src/api/client.ts:161-173 | a failed refresh clears the cells before anyone is told |
| RefreshClient.ApiClient.OnFinally | client/src/api/client.ts:161-173 | the flight is over and another may start |
| RefreshClient.ApiClient.OnResponse | client/src/api/client.ts:222-239 | an expired access token makes a first attempt join a refresh; any other answer ends the call |
| RefreshClient.ApiClient.OnRefreshed | client/src/api/client.ts:229-236 | the call is sent once more, without another refresh, or fails |
| RefreshClient.NextKeepsInv | client/src/api/client.ts:144-239 | every step of client, server or other devices, but a spending one, keeps: one flight, no token sent twice, the stored token unspent, replies naming live rows |
| RefreshClient.EachTokenSentOnce | client/src/api/client.ts:144-173 | in every interleaving with no spending step, lost and late replies and other refused writes included, no refresh token is sent twice, at most one refresh is unfinished, and no call is sent more than twice |
| RefreshClient.NeverReplaysItself | client/src/api/client.ts:144-173 | a token on the wire that the server has yet to see was not rotated by this client |
| RefreshClient.QuietRunsNeverTripReuse | client/src/api/client.ts:144-173 | in runs with no logout or other server-side revocation the reuse branch is never taken for this client |
| RefreshClient.CallGoesOut | client/src/api/client.ts:175-198 | a new call is sent once and may refresh as it was told |
| RefreshClient.AnswerDecides | client/src/api/client.ts:222-239 | success and failure end a call; an expired token joins the refresh under way, or starts one with the stored token, or fails the call if it may not refresh |
| RefreshClient.ResumesOnceMore | client/src/api/client.ts:229-236 | after a refresh that brought tokens the call is sent exactly once more, without another refresh, and its answer is the outcome; after one that failed it fails |
| RefreshClient.EndedBecause | client/src/api/client.ts:222-239 | in every run a call that has ended was ended by a success, by another failure, by an expired token it might not refresh, or by its refresh failing, with the outcome that goes with it |
| RefreshClient.RefreshedCallSucceeds | client/src/api/client.ts:144-239 | from every state with a stored token that the server accepts, a call with an expired access token ends well with its second send, and the cells hold the new pair |
| RefreshClient.FailedRefreshFailsCalls | client/src/api/client.ts:161-173 | a refused or lost refresh clears both cells and the calls that joined it fail |
| RefreshClient.CellsWritten | client/src/api/token-storage.ts:17-44 | an adopted login fills both cells, clearing empties both |
| RefreshClient.LogoutHitsStoredSession | client/src/api/client.ts:144-159 | the access token always names the session of the stored refresh token, so logging out revokes it |
| RefreshClient.ComesBackIff | client/src/api/client.ts:144-173 | with the cells empty at a time t, some run from t on without a new login fills them again exactly when a refresh under way has been answered with tokens, or is unserved with its session neither revoked nor expired at t |
| RefreshClient.SignOutUndoneIff | client/src/api/token-storage.ts:41-44 | a sign-out is undone by some later run exactly when the refresh under way can bring tokens and was answered before, or carries another token than the stored one |
| RefreshClient.SignsInAgain | client/src/api/client.ts:144-159 | a run in which the reply arrives after the sign-out and the client is signed in again |
| RefreshClient.SpentTokenStaysIff | client/src/api/token-storage.ts:29-44 | from every reachable state, of all steps exactly these leave a spent token in the cell: a refused write of a token reply or of the clearing after a failure, the cell still holding the token in flight |
| RefreshClient.ReplayFollowsIff | client/src/api/token-storage.ts:29-44 | and exactly after those is there a run, all later writes accepted, that sends some token twice |
| RefreshClient.RefusedWriteTripsReuse | client/src/api/token-storage.ts:29-39 | a ten-step run in which one refused write makes the server revoke the user's sessions |
| Permissions.AncestorsOnceAtTrueDepth | server/internal/auth/folders.go:77-84 | with no folder twice on the way up, the recursion ends and yields each folder of the parent chain exactly once, at its true depth |
| FolderTree.EndsIffAcyclicAbove | server/internal/auth/folders.go:77-84 | a parent chain ends exactly when no folder comes twice on it, and then within as many steps as there are folders |
| FolderTree.AcyclicIffAllAbove | server/migrations/00012_folders.sql:8-32 | no folder is above itself exactly when no chain has a repetition |
| FolderTree.ReparentAcyclicIff | server/internal/httpapi/folder_handlers.go:320-425 | a move that the handler and the schema accept keeps the table acyclic exactly when the folder is not on the way up from its new parent |
| FolderTree.AcceptedMoveMakesCycle | server/internal/httpapi/folder_handlers.go:390-410 | an accepted move that makes a cycle: a folder put below its own child |
| FolderTree.ReparentDoes | server/migrations/00012_folders.sql:20-31 | what the schema refuses, and that a move changes the one parent and nothing else |
| Permissions.RecursionEndsIff | server/internal/auth/folders.go:77-84 | the recursion ends exactly when no folder comes twice on the way up |
| Permissions.AllRecursionsEndIff | server/internal/auth/folders.go:77-84 | it ends for every folder exactly when the table is acyclic |
| Permissions.ReparentEndsIff | server/internal/httpapi/folder_handlers.go:320-425 | after moving a folder below itself the recursion for it never ends; after any other move every recursion still ends |
| Permissions.FolderQueryMeans | server/internal/auth/folders.go:62-152 | the SQL, joins, NULLs and aggregates included, answers Write exactly for the owner or an active write grant on the folder or an inheriting one above it, directly or by group; Read likewise; None otherwise |
| Permissions.InheritingGrantReaches | server/internal/auth/folders.go:116-128 | an inheriting grant gives at least its strength on every folder below, at any depth |
| Permissions.OwnershipReachesOnlyItsFolder | server/internal/auth/folders.go:116-118 | who owns the folders above a folder makes no difference to the query for it |
| Permissions.OwnershipReachesOnlyItsItems | server/internal/auth/items.go:142-150 | nor to the answer for any item in it |
| Permissions.FolderOwnerWritesItems | server/internal/auth/items.go:142-150 | the owner of a folder may write every item directly in it |
| Permissions.ItemQueryMeans | server/internal/auth/items.go:57-151 | with its early exits the item resolver returns the strongest of owner, direct share, group share and folder grant |
| Permissions.ResolversAnswer | server/internal/auth/items.go:57-71 | both resolvers refuse empty ids and otherwise give those meanings |
| Permissions.ItemAccessMonotone | server/internal/auth/items.go:57-151 | when every active row is covered by an active one, as strong or stronger, and no membership is lost, no item answer is lower |
| Permissions.RevocationNeverRaises | server/internal/auth/items.go:57-151 | revoking a row of any of the five kinds, and letting time pass with it, never raises an item answer |
| Permissions.TimeOnlyCloses | server/internal/auth/folders.go:96-98 | a window whose start has passed is only ever closed by time |
| Permissions.OutOfForceGivesNothing | server/internal/auth/folders.go:94-111 | a row of any kind that is revoked, run out or not yet begun is, to every folder and item answer, as if it were not there |
| Permissions.RevokedIsDeleted | server/internal/auth/items.go:84-123 | revoking a row of any of the five kinds is, to every answer, the same as deleting it |
| Permissions.FolderGrantCounts | server/internal/auth/folders.go:86-124 | a folder grant in force, direct or by group, gives its strength on its folder |
| Permissions.ShareCounts | server/internal/auth/items.go:84-141 | a share in force, direct or by group, gives its strength on its item |
| Permissions.NothingGivesNothing | server/internal/auth/folders.go:139-151 | with nothing owned and every grant out of force there is no access |
| Permissions.InheritingGrantReachesItems | server/internal/auth/items.go:144-151 | an inheriting folder grant gives at least its strength on every item below |
| Grants.GiveIsMoreIff | server/internal/httpapi/folder_permissions.go:89-104 | row by row, a grant of any of the four kinds leaves everybody at least as many rights exactly when it covers permission, inheritance and window of the active row it replaces |
| Grants.CoveringGrantNeverLowers | server/internal/httpapi/item_shares.go:239-252 | then it lowers no item answer |
| Grants.SharingLowersIff | server/internal/httpapi/item_shares.go:239-252 | sharing an item with a user lowers his answer exactly when the replaced share gave more than the new one and than everything else, and changes nobody else's |
| Grants.ListedGetNewShare | server/internal/httpapi/item_shares.go:491-514 | sharing with a group leaves each listed member the new share, whatever he had, and the others theirs |
| Grants.GroupSharingLowersWriter | server/internal/httpapi/item_shares.go:468-514 | a member who could write can only read after his group was given the item for reading |
| Grants.RegrantIsActiveIff | server/internal/httpapi/group_handlers.go:495-507 | a group's folder grant given again is active exactly when the window of the row that was there is |
| Grants.GivenFolderGrantCounts | server/internal/httpapi/folder_permissions.go:89-104 | after a grant in force its user has at least its strength on the folder |
| Grants.GivenShareCounts | server/internal/httpapi/item_shares.go:239-252 | after a share in force its user has at least its strength on the item |
| Grants.GivenGroupShareCounts | server/internal/httpapi/item_shares.go:468-490 | so does every member of a group that the item was shared with |
| Grants.NewGroupGrantCounts | server/internal/httpapi/group_handlers.go:495-507 | a folder grant that a group did not have is in force at all times for every member |
| Outbox.Engine.Push | client/src/lib/pending-ops.ts:79-90 | appends a fresh op with no failures to disk and store |
| Outbox.Engine.RemovePendingOp | client/src/lib/pending-ops.ts:93-98 | takes out the op with that id and keeps the order of the others |
| Outbox.Engine.IncrementRetryCount | client/src/lib/pending-ops.ts:100-108 | counts one failure of the op in place, or reports that it is gone |
| Outbox.Engine.ApiFetch | client/src/api/client.ts:199-217 | in offline mode a network failure appends a copy of the op behind the queue |
| Outbox.Engine.Settle | client/src/lib/offline-sync.ts:68-95 | removes, keeps, counts or discards the op as its fate says and leaves the others in place |
| Outbox.Engine.ReplayAll | client/src/lib/offline-sync.ts:60-96 | the loop leaves on disk the kept ops followed by what was pushed meanwhile, and counts as `Tally` does, for every behaviour of network and user |
| Outbox.Engine.SyncPendingOps | client/src/lib/offline-sync.ts:48-102 | the same for a whole pass with its guard; store and disk agree afterwards |
| OutboxPass.KeptExactly | client/src/lib/offline-sync.ts:60-96 | the kept ops are exactly those from the stop on, unchanged, and those before it that failed with budget left, one failure older, in their old order |
| OutboxPass.CountsAddUp | client/src/lib/offline-sync.ts:57-101 | replayed, discarded and kept add up to the snapshot, and `stillOffline` says whether it stopped |
| OutboxPass.KeptIff | client/src/lib/offline-sync.ts:60-96 | by what the network did: the pass keeps exactly the ops it does not reach or that end it, as they are, and those that failed for less than the third time, one failure older |
| OutboxPass.OpLeavesIff | client/src/lib/offline-sync.ts:68-95 | an op leaves exactly when it was reached and accepted, or failed for the third time |
| OutboxPass.ReplayedAre | client/src/lib/offline-sync.ts:71 | `replayed` is the number of ops accepted before the pass ended |
| OutboxPass.DiscardedAre | client/src/lib/offline-sync.ts:85-89 | `discarded` is the number of ops that failed for the third time before it ended |
| OutboxRun.PassIsRun | client/src/lib/offline-sync.ts:48-102 | for every network behaviour and every push, the pass of `SyncPendingOps` is a run of the interleaved machine, so that what holds of all its runs holds of the engine |
| OutboxPass.UnstoppedPassDrains | client/src/lib/offline-sync.ts:73-96 | a pass that does not stop lowers the remaining retry budget by at least one per op |
| OutboxPass.ThreePassesEmptyTheQueue | client/src/lib/offline-sync.ts:73-96 | while the server answers and nobody pushes, three passes empty any queue |
| OutboxPass.StillOfflineIff | client/src/lib/offline-sync.ts:73-78 | a pass reports being offline exactly for a missing base URL or, with offline mode off, an unreachable server |
| OutboxPass.OutageCopiesQueue | client/src/api/client.ts:205-217 | an outage in offline mode queues a copy of every op, in order |
| OutboxPass.OutageDoublesQueue | client/src/api/client.ts:205-217 | and so doubles a young queue while reporting success of nothing |
| OutboxPass.ThreeOutagesDiscardOriginals | client/src/lib/offline-sync.ts:80-96 | three such passes, each over the whole queue that the last one left, discard every op that was there at first; what is left are copies |
| OutboxPass.OutageWithoutOfflineMode | client/src/lib/offline-sync.ts:73-78 | with offline mode off the same outage changes nothing |
| OutboxMachine.LeavesOnlyWithCause | client/src/lib/offline-sync.ts:60-96 | at every await of every run an op is queued, or was accepted, cleared, or failed three times; two loops never overlap |
| OutboxMachine.LeavesAfterThreeRejections | client/src/lib/offline-sync.ts:80-96 | with offline mode off, those three were rejections by the API |
| OutboxMachine.ThreeRejectionsIff | client/src/api/client.ts:205-217 | every run that does not turn offline mode on keeps that promise exactly when it was off at launch |
| OutboxMachine.NoPayloadLost | client/src/api/client.ts:205-217 | in either mode every payload, under its own id or a copy's, is queued, accepted, cleared or rejected three times |
| OutboxMirror.StoreMirrorsDisk | client/src/store/pending-ops.ts:24-47 | in every run with no clear, and between each read and its install no queue update and just as many `addOp`s as were outstanding, the store equals the disk queue, in order, whenever no `addOp` is outstanding |
| OutboxMirror.LoadMirrorsIff | client/src/store/pending-ops.ts:28-31 | a load leaves a mirror, for whatever runs between its read and its `setOps` but queue updates, exactly when as many `addOp`s ran in between as were outstanding at the read |
| OutboxMirror.PassMirrorsIff | client/src/lib/offline-sync.ts:57-58 | the same of the load that a replay pass begins with |
| OutboxMirror.FreshIff | client/src/api/client.ts:214-215 | what was read is the disk of now less the ops to be shown exactly when that count is met |
| OutboxMirror.UpdateMakesStale | client/src/lib/offline-sync.ts:69-88 | an op that a loop removes or counts after it was read makes the read stale in every later state |
| OutboxMirror.LoadShowsTwice | client/src/store/pending-ops.ts:28-36 | an op read while its `addOp` is outstanding shows twice |
| OutboxMirror.LoadHidesPush | client/src/lib/offline-sync.ts:57-58 | an op pushed and shown while a load is under way is missing afterwards |
| OutboxMirror.ClearMirrorsIff | client/src/lib/pending-ops.ts:110-117 | a clear breaks it exactly when the queue was not empty |
| Limiter.WindowBound | server/internal/auth/lockout.go:32-50 | in any window of any run, at most n * (window / d + 1) gated attempts get through, however many ungated ones count too |
| Lockout.Account.RecordLoginFailure | server/internal/httpapi/auth_login.go:541-561 | one more failure, or lock for thirty minutes and start from zero |
| Lockout.Account.RecordLoginSuccess | server/internal/httpapi/auth_login.go:564-574 | clears count and lock |
| Lockout.Account.Login | server/internal/httpapi/auth_login.go:74-386 | the gates in order and their effect on the counter |
| Lockout.Account.RecoverInit | server/internal/httpapi/auth_recover.go:36-135 | gated; a wrong code counts, a right one does not clear |
| Lockout.Account.BootstrapLogin | server/internal/httpapi/auth_bootstrap.go:251-392 | gated; a wrong password counts, a non-admin is refused without counting |
| Lockout.Account.ChangePassword | server/internal/httpapi/auth_change_password.go:46-173 | not gated; a wrong password counts, success clears |
| Lockout.LoginSucceedsIff | server/internal/httpapi/auth_login.go:74-386 | exactly when a login issues a session |
| Lockout.CallCounts | server/internal/httpapi/auth_login.go:541-574 | every call in every state: a wrong guess past the lock is counted, the tenth locks for thirty minutes and starts from zero, a proof clears, and nothing else changes the columns |
| Lockout.LockRefuses | server/internal/auth/lockout.go:42-50 | while locked every gated endpoint refuses, the right password included |
| Lockout.UnlockedAnswers | server/internal/httpapi/auth_login.go:190-336 | without a lock wrong guesses are told from proofs, and proofs get their session |
| Lockout.GuessesAddUp | server/internal/httpapi/auth_login.go:541-561 | fewer than ten wrong guesses, on any endpoints, add up and lock nothing |
| Lockout.TenGuessesLock | server/internal/httpapi/auth_login.go:541-561 | the guess that makes ten locks for thirty minutes from then |
| Lockout.LockLastsThirtyMinutes | server/internal/httpapi/auth_login.go:174-177 | until then a login with everything right is refused, from then on it succeeds and clears the count |
| Lockout.RunRefines | server/internal/httpapi/auth_login.go:541-574 | every run of the handlers is a run of the limiter with the same failures let through |
| Lockout.LockoutBound | server/internal/httpapi/auth_login.go:541-574 | in any window with no clearing step the gated endpoints record at most 10 * (window / 30 min + 1) wrong factors; the counter is always below 10 |
| CircuitBreaker.Client.IsOpen | server/internal/cache/redis.go:141-154 | says whether the circuit is open, closing it when its time is over |
| CircuitBreaker.Client.RecordErrorAt | server/internal/cache/redis.go:156-165 | one more error; from five on the circuit opens for 30 s from now |
| CircuitBreaker.Client.ObserveAt | server/internal/cache/redis.go:156-173 | counts an error, opening at five; anything else, a missing key included, resets the count |
| CircuitBreaker.Client.Operation | server/internal/cache/redis.go:81-118 | Redis is asked exactly when the circuit is closed |
| CircuitBreaker.OpensOnFifthError | server/internal/cache/redis.go:141-173 | in every sequential run of a new client, its first ping included, the circuit opens exactly on the fifth error in a row since it last closed |
| CircuitBreaker.OpenFor30Seconds | server/internal/cache/redis.go:141-173 | once open, no sequence of calls reaches Redis for 30 s from that error; while closed, the next call does |
| CircuitBreaker.ClosesAfter30Seconds | server/internal/cache/redis.go:141-154 | from then on the next call reaches Redis, the count started afresh |
| CircuitBreaker.ClosedCallCounts | server/internal/cache/redis.go:156-173 | while closed an error counts, the fifth opens for 30 s from it, and a value or a missing key resets |
| CircuitBreaker.FailedPingDoesNotOpen | server/internal/cache/redis.go:64-75 | a failed first ping leaves the circuit closed |
| CircuitBreaker.FailuresRefine | server/internal/cache/redis.go:141-173 | a run of failing calls is a run of the limiter that lets the same calls through |
| CircuitBreaker.BackendCallBound | server/internal/cache/redis.go:141-173 | while Redis is down any window holds at most 5 * (window / 30 s + 1) calls that reach it |
| AccessRequests.ItemHandlers.CreateAccessRequest | server/internal/httpapi/access_request_handlers.go:140-216 | a readable item without a pending request of the user gets one, its minutes defaulted and capped; otherwise 404 or 409 and no change |
| AccessRequests.ItemHandlers.FetchForApproval | server/internal/httpapi/access_request_handlers.go:312-336 | the fetched request with its overridden, capped minutes and its expiry |
| AccessRequests.ItemHandlers.FetchForDenial | server/internal/httpapi/access_request_handlers.go:397-408 | finds the request only while it is pending |
| AccessRequests.ItemHandlers.UpdatePending | server/internal/httpapi/access_request_handlers.go:338-352 | answers the request if it is still pending, else affects no row |
| AccessRequests.ItemHandlers.CancelAccessRequest | server/internal/httpapi/access_request_handlers.go:439-472 | cancels the requester's own pending request or nothing |
| AccessRequests.ItemHandlers.HasActiveApproval | server/internal/httpapi/access_request_handlers.go:89-110 | sweeps, and answers as if it had not |
| AccessRequests.MinutesAre | server/internal/httpapi/access_request_handlers.go:156-161 | one hour by default, a day at most, and the approver's number up to a day |
| AccessRequests.CreateDoes | server/internal/httpapi/access_request_handlers.go:140-216 | reply and new row in every case, nothing else changed |
| AccessRequests.BeginDoes | server/internal/httpapi/access_request_handlers.go:312-336 | the fetch changes no request and succeeds exactly for an admin and a pending one |
| AccessRequests.FinishDoes | server/internal/httpapi/access_request_handlers.go:338-352 | the update answers the one request exactly while it is pending, as approved or denied |
| AccessRequests.CancelDoes | server/internal/httpapi/access_request_handlers.go:439-472 | exactly the requester's own pending request is cancelled |
| AccessRequests.SweepDoes | server/internal/httpapi/access_request_handlers.go:89-96 | exactly the approvals of the pair whose time has come are expired |
| AccessRequests.AskedAndApproved | server/internal/httpapi/access_request_handlers.go:140-352 | a new request, approved, opens the gate for exactly the minutes asked or overridden, from the fetch |
| AccessRequests.ExpireIsInvisible | server/internal/httpapi/access_request_handlers.go:89-110 | a sweep for one pair changes no later answer for any pair |
| AccessRequests.AnsweredOnceIffSettled | server/internal/httpapi/access_request_handlers.go:312-472 | in every interleaving of any number of handlers a request is answered once if it is no longer pending and otherwise not at all |
| AccessRequests.StepMoves | server/internal/httpapi/access_request_handlers.go:312-472 | a step changes only the pending request it reports as answered, or, sweeping, stale approvals of its pair; no other move between statuses exists |
| AccessRequests.RunFollows | server/internal/httpapi/access_request_handlers.go:312-472 | over every run an answered request keeps its answer, except that an approval may expire, and its time, expiry and minutes |
| AccessRequests.ApprovalOpensGate | server/internal/httpapi/access_request_handlers.go:312-352 | whatever comes between fetch and update, an approval goes through exactly if the request is still pending, and opens the gate until the agreed minutes after the fetch |
| AccessRequests.GrantsAreShort | server/internal/httpapi/access_request_handlers.go:329-352 | no grant outlives its answer by more than 1440 minutes, and no user has two pending requests for an item |
| AccessRequests.SweepIsInvisible | server/internal/httpapi/access_request_handlers.go:89-110 | with the sweeps taken out, every reply and every later answer of the gate stays the same |
| AccessRequests.ActiveIffGranted | server/internal/httpapi/access_request_handlers.go:89-110 | the gate is open exactly when the history holds an approval for the pair that ends later than now |
| Bootstrap.Database.BootstrapSetup | server/internal/httpapi/auth_bootstrap.go:57-233 | one setup on its own: commits exactly with no admin, a free name and a good commit, answering 201, or 500 with the admin kept when the token cannot be signed; otherwise no change |
| Bootstrap.RunKeepsInv | server/internal/httpapi/auth_bootstrap.go:86-205 | in every interleaving the lock has one holder, which alone is between check and commit; names stay unique |
| Bootstrap.EndsAndReleases | server/internal/httpapi/auth_bootstrap.go:86-205 | a setup that commits, conflicts or fails is over and gives the lock back, and only a commit changes the tables |
| Bootstrap.AcquiresIffFree | server/internal/httpapi/auth_bootstrap.go:96-100 | a waiting setup gets the lock exactly when it is free |
| Bootstrap.CommitDoes | server/internal/httpapi/auth_bootstrap.go:126-205 | a commit makes one user, an admin, with a token if it could be signed |
| Bootstrap.TokenSaysAdminIff | server/internal/httpapi/auth_login.go:512-535 | exactly those with the role, directly or by a group, get a token that says admin |
| Bootstrap.SetupsAtMostVacancies | server/internal/httpapi/auth_bootstrap.go:86-205 | at most one setup commits for each time the system is left without a direct admin |
| Bootstrap.SetupOpenIff | server/internal/httpapi/auth_bootstrap.go:86-205 | with the lock free, a setup can commit without a demotion exactly when there is no direct admin |
| Bootstrap.AtMostOneSetup | server/internal/httpapi/auth_bootstrap.go:86-205 | with no direct admin at first and none demoted, at most one of any number of concurrent setups commits; with one, none |
| Bootstrap.FirstAndOnlyIff | server/internal/httpapi/auth_bootstrap.go:86-205 | a committing setup makes the only admin exactly when nobody got the role directly since its check and kept it, and nobody has it through a group |
| Bootstrap.DefaultAdminSlipsIn | server/cmd/api/main.go:710-842 | the default admin of the first start can be the second admin |
| Bootstrap.LastDemotedIff | server/internal/httpapi/admin_users.go:343-397 | a demotion leaves no direct admin exactly when somebody else with an admin token takes the role from the only one |
| Bootstrap.DemotionReopensSetup | server/internal/httpapi/group_handlers.go:354-410 | a member of an admin group demotes the only direct admin, a second setup commits, and its account is not the only admin |
| OidcState.Pod.Issue | server/internal/httpapi/auth_sso.go:81-111 | the new state is in Redis, or in this pod's memory with the expired ones purged |
| OidcState.Pod.Purge | server/internal/httpapi/auth_sso.go:100-107 | drops exactly the expired entries |
| OidcState.Pod.Consume | server/internal/httpapi/auth_sso.go:113-140 | Redis first, then memory; a found entry is used up, and returned if not expired |
| OidcState.ConsumeIsBothSteps | server/internal/httpapi/auth_sso.go:113-140 | that is its two interleavable halves one after the other |
| OidcState.AcceptedAsIssued | server/internal/httpapi/auth_sso.go:81-140 | what is accepted, after any run, is what was issued, verifier included, and at most ten minutes old |
| OidcState.AcceptedAtMostOnce | server/internal/httpapi/auth_sso.go:81-140 | however Redis, breakers and pods fail, a state is accepted never before its issue and at most once after, and once more for a SetEX that seemed to fail but stored it, and for each that lands late; never more than three times |
| OidcState.NothingAfterExpiry | server/internal/httpapi/auth_sso.go:113-140 | no run accepts an expired state |
| OidcState.AcceptableIff | server/internal/httpapi/auth_sso.go:113-140 | for any k, k accepts are possible exactly from a state of the system with k copies, in Redis, in a pod or on their way to Redis, and the entry unexpired |
| OidcState.IssuedAcceptableIff | server/internal/httpapi/auth_sso.go:94-111 | for a state just issued, exactly when the copy the caller knows of, the one that seemed to fail and those that may land late are k or more |
| OidcState.FirstUseAcceptedIff | server/internal/httpapi/auth_sso.go:81-140 | exactly when the first use is accepted, by store, pod and time |
| OidcState.StateKeeps | server/internal/httpapi/auth_sso.go:97-111 | until its expiry, issues on any pod and other states' callbacks leave a state where it is |
| OidcState.LaterUseAccepted | server/internal/httpapi/auth_sso.go:81-140 | within ten minutes, whatever came between that was not aimed at it, a state is accepted by the store that has it |
| OidcState.UseIsUsedUp | server/internal/httpapi/auth_sso.go:113-140 | the store that answered no longer has it |
| WsClient.Ws.StartConnect | client/src/api/ws.ts:107-113 | nothing once destroyed; else asks for a ticket under the right status |
| WsClient.Ws.FinishConnect | client/src/api/ws.ts:111-126 | dials, or schedules a retry when the ticket or the constructor fails |
| WsClient.Ws.Schedule | client/src/api/ws.ts:151-157 | one timer with the delay of the failures so far |
| WsClient.Ws.OnOpen | client/src/api/ws.ts:128-131 | connected, and the failure count starts over |
| WsClient.Ws.OnClose | client/src/api/ws.ts:142-144 | the socket is gone and a retry is scheduled unless destroyed |
| WsClient.Ws.OnTimer | client/src/api/ws.ts:151-157 | the timer is gone and a new connect begins |
| WsClient.Ws.DestroyIt | client/src/api/ws.ts:159-165 | clears the timer and closes the socket |
| WsClient.OneWayForward | client/src/api/ws.ts:107-165 | in every run, until destroyed there is exactly one of an awaited ticket, a live socket and a pending timer, and the status says whether it is open; afterwards no timer and no live socket |
| WsClient.DestroyIsFinal | client/src/api/ws.ts:107-165 | after destroy no socket or timer is ever created and no ticket asked for, whatever is still under way |
| WsClient.BackoffGrowsToCap | client/src/api/ws.ts:30-32 | the delay doubles, never shrinks, and is 30 s exactly from the sixth failure on |
| WsClient.DelayFollowsFailures | client/src/api/ws.ts:128-157 | in every run the retry after k failures since the last open waits min(1000 * 2^k, 30000) ms |
| WsClient.FailureWaits | client/src/api/ws.ts:107-157 | every failure, of ticket, constructor or socket, leads to one timer with the delay of the failures so far and to nothing else |
| WsClient.OnlyFailureWaits | client/src/api/ws.ts:151-157 | and no other event makes a timer |
| WsClient.ProgressDoes | client/src/api/ws.ts:107-131 | a timer that fires asks for a ticket, a ticket opens a socket, an open socket ends the count |
| WsClient.DestroyDoes | client/src/api/ws.ts:159-165 | the timer is cleared and the socket closing |
| WsClient.DelaysAre | client/src/api/ws.ts:26-32 | 1, 2, 4, 8, 16 and then 30 seconds |
| WsClient.CanConnect | client/src/api/ws.ts:107-149 | from every state before destroy three events at most lead to a connection |
| OfflineCache.SerializeCache | client/src/lib/offline-cache.ts:54-70 | the successful queries with data, in order |
| OfflineCache.QueryClient.HydrateCache | client/src/lib/offline-cache.ts:73-92 | the loop computes the merge and its count that the lemmas are about |
| OfflineCache.QueryClient.LoadCacheFromDisk | client/src/lib/offline-cache.ts:97-115 | merges a file of the right version and age, else nothing |
| OfflineCache.NewestWins | client/src/lib/offline-cache.ts:73-92 | each key ends with its newest fresh entry, the first of equals, unless what was there is as new |
| OfflineCache.NothingGetsOlder | client/src/lib/offline-cache.ts:73-92 | no query gets older, nor stays older than a fresh entry |
| OfflineCache.HydrateIsIdempotent | client/src/lib/offline-cache.ts:73-92 | merging the same file again changes nothing |
| OfflineCache.SaveThenHydrate | client/src/lib/offline-cache.ts:54-92 | saving and merging into an empty client restores each surviving query once |
| OfflineCache.RoundTrip | client/src/lib/offline-cache.ts:54-115 | what comes back is exactly the successful queries at most seven days old, unchanged; the file's own age check drops nothing more |
| OfflineCache.AgesAre | client/src/lib/offline-cache.ts:97-104 | seven days for entries and files, and version 1 |
| OfflineCache.OneEntry | client/src/lib/offline-cache.ts:77-89 | an entry is taken exactly when it is fresh and nothing as new is there, a time of 0 counting as nothing |
| BlobCodec.Pack | server/internal/crypto/format.go:58-64 | the appended parts are the layout that the lemmas are about |
| BlobCodec.UnpackOfPack | server/internal/crypto/format.go:58-85 | unpacking returns what was packed exactly for the known version |
| BlobCodec.PackOfUnpack | server/internal/crypto/format.go:58-85 | data unpacks to a blob exactly when the blob packs to the data, with that nonce length and the known version |
| BlobCodec.MakeAADInjective | server/internal/crypto/format.go:87-95 | equal AADs come from equal parts when tables and row ids have no colon |
| BlobCodec.AADSharedIff | server/internal/crypto/format.go:87-95 | a column shares its AAD with another exactly when one of its parts has a colon |
| BlobCodec.OpensExactlySealed | server/internal/crypto/aesgcm.go:51-85 | `Open` returns a plaintext exactly for the blobs that `Seal` makes of it under the key and AAD |
| BlobCodec.SealForRecipient | server/internal/crypto/sealedbox.go:54-99 | the box in its layout, 62 bytes longer than the plaintext, or the error of a bad key or failed agreement |
| BlobCodec.OpenSealed | server/internal/crypto/sealedbox.go:105-158 | reading with a moving position is reading the layout; errors in their order |
| BlobCodec.OpenSealedOfSeal | server/internal/crypto/sealedbox.go:54-158 | the recipient recovers what was sealed for the matching public key and AAD |
| BlobCodec.OpensExactlyBoxes | server/internal/crypto/sealedbox.go:105-158 | and opens nothing else: exactly the boxes of that plaintext for this key and AAD |
| BlobCodec.FormatsAreDisjoint | server/internal/crypto/aesgcm.go:69-85 | a sealed box is never opened as a cipher blob, nor the other way round |
| BlobCodec.PackedLayout | server/internal/crypto/format.go:9-19 | version, algorithm, nonce, body, at their places |
| BlobCodec.SealedLayout | server/internal/crypto/aesgcm.go:51-63 | 1, 1, the nonce, and what AES-GCM makes of the plaintext |
| BlobCodec.BoxIs | server/internal/crypto/sealedbox.go:48-53 | 1, 2, the ephemeral key, the nonce, and the plaintext under HKDF of the shared secret salted with both public keys |
| BlobCodec.OnlySharedSecretOpens | server/internal/crypto/sealedbox.go:54-158 | unless HKDF collides or AES-GCM opens under another key, a box opens only for who agrees on the sender's secret |
| BlobCodec.BoxErrors | server/internal/crypto/sealedbox.go:105-141 | which malformed box is answered with which error |
| BlobCodec.CipherErrors | server/internal/crypto/aesgcm.go:69-77 | the same for cipher blobs |
| BlobCodec.AADIs | server/internal/crypto/format.go:87-95 | table, row and column in this order, separated by colons |

## Left out

- HTTP and JSON decoding, response bodies, audit rows, notifications, WebSocket events, e-mail and log forwarding: they change none of the states modelled.
- Real cryptography: AES-GCM, X25519 and HKDF are parameters with the laws in `BlobCodec.Lawful` (`LawsAreConsistent` shows that they can be met); forgery and secrecy are not expressed. Argon2id, TOTP, JWT and SHA-256 appear as outcomes of a check.
- `ResetPassword` and SCIM deprovisioning: their session updates name a column or a reason that the schema does not have.
- Removal of expired session rows, deletion of users, items and folders, and rows that cascade with them.
- `bindingChanged`: it only adds an audit row. `TouchSession` is never called.
- The browser extension's client and `KeyringBootstrap`: they refresh outside `ensureRefresh`, so the once-only claims are not about them.
- LDAP and OIDC network flows, the OIDC callback around the state, break-glass alerts.
- Network and database errors inside `ResolveFolderPermission` and `ResolveItemPermission`, and the `admin` bypass of their callers.
- Reading a damaged queue or cache file, disk errors, and the `createdAt` of queued ops.
- Event handling and listeners of the WebSocket client; an `open` event delivered after `close` was called.
- Debouncing of cache saves.
- RunKeepsValid: a server handler is one step; `Refresh` looks the token up outside its transaction, so one successor per token is not claimed for interleaved statements. A failing update in its reuse branch, which the source ignores, is not modelled.
- EachTokenSentOnce: for runs without a spending step; `ReplayFollowsIff` shows that after such a step some token can be sent twice.
- FolderQueryMeans: assumes unique folder ids (the primary key) and no cycle above the folder; on a cycle the query does not end (`RecursionEndsIff`).
- ItemQueryMeans: assumes the schema's unique direct share per item and user.
- RevocationNeverRaises: with time passing, for windows of which none opens meanwhile; a window that opens is a grant added.
- LeavesOnlyWithCause: each load, change and save of the queue file is one step; finer interleavings could lose updates.
- StoreMirrorsDisk: for runs with no clear (`ClearMirrorsIff`) and only timely loads. A load during which a replay loop updates the queue counts as untimely; `UpdateMakesStale` shows why if the op updated was read, while one that was pushed, shown and replayed within the load would do no harm. In the replay loop an update of the disk and that of the store after it are one step.
- LockoutBound: handlers are atomic and share one clock.
- OpensOnFifthError: for calls one after the other, as are the other results on the breaker; races between its atomic fields are not modelled.
- AtMostOneSetup: input validation and the session that a setup opens are left out; a failure of either before the commit is an abort. Disabling an account is not modelled: the check does not look at it.
- Pod.Consume: the method has nothing between its halves; the results on `OidcState` are about the separate halves.
- HydrateIsIdempotent: time stamps are natural numbers; a file with negative ones is not modelled.
