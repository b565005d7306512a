# CodeValdOrg: verified model of the organization manager

This project models the `orgManager` of CodeValdOrg - the service that keeps an agency's organization, users,
invitations, roles, scopes, memberships, OAuth clients and token revocations in an entity graph - and proves
what holds over every run of its operations, with a storage failure allowed at every call.
`dafny verify dfyconfig.toml` checks it.

## How it is built

**The store.** `EntityGraph` has typed entities with a property map, named edges, and the class `DataManager` with
the storage calls. The store itself is not part of this repository; what is taken for granted about it is:
a creation yields a fresh identifier; an update merges properties; a list returns the undeleted entities of one
type that match the given property, in order of creation; a deletion hides an entity from lists; a relationship
appends one edge; `GetEntity` finds deleted entities too; edges are stored without checking that their ends exist;
and any call may fail, with no effect. Clock readings (`Helpers.Clock`) never go backwards, and stored timestamps
are whole seconds while comparisons use the full reading.

**Plans and runs.** `Operations` says for every operation whether it is refused or which writes it makes, in order.
A call that is cut short makes a prefix of its writes, and nothing is rolled back. A run is any sequence of calls,
each cut short anywhere, together with two steps of the environment: minting a token (nothing in the code mints one)
and purging an expired token or revocation (the storage layer's expiry index). `Admissible` states what a run takes
for granted: random hashes and UUIDs are new, and an identifier given to `UpdateRole`, `DeleteRole`, `DeprecateScope`
or `RevokeMembership`, if it exists, names an entity of the intended type, since only `GetUser` checks the type. (The
methods themselves take any identifier; after one that names an entity of another type the history is not extended.
What such a call does is in `Misdirected`.)
Runs are of manager calls one after the other, because the uniqueness checks are not atomic with the creations;
concurrent callers are treated for `Introspect` and `Revoke`, in `TokenMachine`.

**The manager.** `OrgManagement.OrgManager` is the imperative form: the methods make the storage calls the code makes,
with its loops and early exits, and are proved against the plans. Its history of calls is ghost state, and `Valid()`
says that the store is that of a valid run and that no purge is dated after the clock - so every theorem about runs
holds for every state of the object, those about purging at every later reading of its clock. What an operation does is
in a method named `...Steps` or `Make...`; the method with the operation's name adds the call to the history.

**Uninterpreted.** SHA-256 and Argon2id are unknown functions handed in as values; of Argon2id only the length of its
output is used. Random bytes, UUIDs and clock readings are parameters.

## Findings

- *A revocation can be lost.* `Revoke` passes over a failed lookup. Its record then expires with the second it was
  made in: as soon as the clock is past the start of that second it can be purged, and the revoked token is active again
  until it expires. `Purging.LostRevocation` constructs the run, `Purging.LostRevocationExample` with numbers.
  `Purging.RevokeIsFinalExactly` gives the exact condition under which the first revocation of a token is final, and
  `Purging.FollowsRuleExactly` the exact condition under which introspection follows "minted, not expired, never
  revoked" for a hash from a clock reading on, whatever is purged; `OrgManager.RuleFromNow` is that at the manager's
  own clock. The failed lookup is the loss to expect in practice. Under concurrency there is one without any failure,
  `TokenMachine.LosingSchedule`: the token is minted between the search and the recording - so it is a token nobody can
  have been given when its Revoke began. The exact conditions there are `TokenMachine.RecordingExactly`,
  `TokenMachine.RevokedStaysInactive` and `TokenMachine.NeverActiveExactly`.
- *An invitation that failed half way strands its email.* The user is created first and never removed. After a call
  that was cut short, another invitation of the email is refused if and only if the user was made
  (`Invitations.StrandedEmail`), and then for good (`Invitations.StrandedForLife`); the token was never handed out.
- *`InitOrganization` cannot be retried.* After a call that was cut short a retry is refused if and only if the
  organization was made, seeded or not (`Seeding.RetryIsRefused`); deleting the organization and initializing again
  repairs it (`Seeding.DeleteThenInitRepairs`). It can also report a failure after its last write: the lookups of the
  seeding go on.
- *A custom role can take a built-in name.* Seeding then leaves fewer than four built-in roles; the four are complete if
  and only if no live custom role had one of the names (`Seeding.SeedingSucceeds`). A built-in role itself never changes
  (`PlansLegal.FrozenIdentity`).
- *A grant that failed is listed.* When only the second edge failed, `GrantMembership` reports an error, yet the
  membership is listed for the user, without a role (`Memberships.GrantedMembership`).
- *DeleteRole deletes whatever its identifier names.* Only the builtin flag is looked at. Given a user's identifier it
  hides the user, and the email can be invited again (`Misdirected.DeletedUserExample`). It keeps the invariants if and
  only if the entity may be deleted (`Misdirected.DeleteRoleKeepsInvExactly`), and it frees an email if and only if it
  was given that user (`Misdirected.DeleteRoleFreesEmailExactly`). The other three operations that do not check the
  type keep the invariants with every identifier (`Misdirected.AnyPatchKeepsInv`).
- *Identifiers and options are not checked by the manager.* A grant, an invitation or a client with an identifier of
  the wrong type leaves edges the schema does not declare (`EdgeConformance.StrayGrantExample`), and a client type or
  revocation reason outside the declared list an entity that does not conform, for good. Exactly those calls do:
  `EdgeConformance.EdgesConformExactly`, `Conformance.EntitiesConformExactly`. Whether the storage layer refuses such
  writes is not part of this model.
- *A very long invitation lifetime is not honoured.* From 9223372037 seconds on the 64-bit product wraps
  (`Invitations.RequestedSeconds`). A lifetime below a second can expire before it starts (`Invitations.AcceptableAtOnce`).

## Model

| member | source | states |
|---|---|---|
| `Revocations.IntrospectRefinesRule` | token_ops.go:23-61 | Over every run, for every hash that was never revoked or of which one recorded revocation held (its search found a token, or no listed access token with the hash lasted beyond that second), Introspect answers by the rule "minted, not past expiry, never revoked": exactly that when no lookup fails, inactive when one does; revocations of other hashes do not matter |
| `Revocations.IntrospectWithoutPurging` | token_ops.go:23-105 | As long as nothing is purged, Introspect is the rule for every hash, however the searches of its revocations went |
| `Revocations.HeldGuards` | token_ops.go:70-101 | Once a revocation of a hash held, every access token with it is past its expiry or outlasted by a revocation of the same hash, for the rest of the run |
| `Revocations.SeenRevokeHolds` | token_ops.go:70-84 | A revocation whose first lookup did not fail holds |
| `Purging.FollowsRuleExactly` | token_ops.go:23-105 | For every clock no earlier than the purges so far: an Introspect that reads the clock from then on follows the rule for a hash, whatever is purged, if and only if it was never revoked or one of its revocations held, or it was never minted, or the clock is past its expiry |
| `TokenRecords.IntrospectIsRule` | token_ops.go:26-61 | In any store in step with the ledger of mintings and revocations, purged or not, Introspect is the rule for every hash whose tokens, if revoked, are expired or outlasted by a revocation |
| `TokenRecords.RevocationOutlivesToken` | token_ops.go:69-100 | A revoked token that is not past its expiry and outlasted by a revocation still has one listed |
| `TokenRecords.FoundExpiry` | token_ops.go:70-82 | What the two-collection search of Revoke returns is the expiry of a token with that very hash |
| `TokenRecords.RecordedExpiryOf` | token_ops.go:77-97 | When the search found a token, its expiry is what is recorded, or the second of the revocation if it has none |
| `TokenRecords.TracksRevoke` | token_ops.go:92-101 | Recording a revocation, with whatever expiry, keeps store and ledger in step |
| `TokenRecords.TracksMint` | token_ops.go:41-55 | Minting a token with a fresh hash keeps store and ledger in step |
| `TokenRecords.RunTracks` | token_ops.go:65-105 | After every run the store is in step with the ledger, whatever was purged and whatever other operations did |
| `Purging.PurgingIsInvisible` | token_ops.go:26-53 | For every hash that was never revoked or of which one revocation held, taking all purges out of the run changes no answer of Introspect, failures included |
| `Purging.RunRestored` | token_ops.go:69-100 | Taking the purges out of any valid run leaves a valid run, which leads to the same store with the purged records back, the expiry that a revocation recorded apart |
| `Purging.RunUnpurged` | token_ops.go:69-100 | When every recorded revocation found its token, it is the very same store with the purged records back |
| `Purging.PlanRestored` | token_ops.go:65-105 | No operation outside token_ops.go can tell whether tokens and revocations were purged |
| `Purging.RevokeIsFinalExactly` | token_ops.go:70-84 | The first recorded revocation of a listed token is final - never active again from the clock on, however the run goes on - if and only if its search found a token, or the token's expiry is no later than the second of the revocation, or the clock is past it |
| `Purging.RevokeIsFinal` | token_ops.go:65-105 | The direction that makes a revocation final |
| `Purging.LostRevocation` | token_ops.go:77-84 | The run that shows it fails otherwise: as long as the clock is not past the token's expiry, purge the revocation in the token's last second and the token is active again |
| `Purging.LostRevocationExample` | token_ops.go:76-84 | A concrete run: revoked at second 50 with both lookups failing, purged, and active again until second 100 |
| `TokenMachine.NeverActiveExactly` | token_ops.go:23-105 | With any number of interleaved Introspect and Revoke callers, minting, purging, clock and other writes: in every reachable state, for every hash some token or revocation carries, no Introspect that arrives later answers active if and only if every listed access token with it is past its expiry or covered by a listed revocation that expires no earlier |
| `TokenMachine.RecordingExactly` | token_ops.go:70-101 | Recording a revocation makes its hash inactive for good if and only if no listed access token with it outlives the recorded expiry, unless it is past its own or another listed revocation covers it |
| `TokenMachine.LosingSchedule` | token_ops.go:68-92 | A schedule without any failure that loses a revocation: both lookups, then the minting, then the recording |
| `TokenMachine.RevokedStaysInactive` | token_ops.go:23-105 | Under every interleaving, after a successful Revoke no Introspect that arrives later answers active if and only if its search found a token, or no listed access token of the hash lasts beyond the second of the Revoke, unless it is past its expiry or another listed revocation covers it |
| `TokenMachine.ActiveAnswersWereCurrent` | token_ops.go:26-61 | Under every interleaving an active answer was right at an instant of its own call - its first lookup, or the minting if that came later: a token minted with that hash and the answered times was listed, no revocation of the hash was, and the clock was not past the expiry |
| `TokenMachine.ExecSound` | token_ops.go:23-105 | Every step of every caller keeps the machine's invariant: a finished revocation covers its hash |
| `TokenMachine.AloneIntrospects` | token_ops.go:23-61 | A caller that is not interrupted gives the answer of the sequential Introspect |
| `TokenMachine.AloneRevokes` | token_ops.go:65-101 | A Revoke that is not interrupted reads the clock, finds what the sequential search finds, and records the revocation that the sequential Revoke records |
| `OrgManagement.OrgManager.Introspect` | token_ops.go:23-62 | On every manager object: for a hash never revoked or with a revocation that held, the answer is the rule over the recorded history, and inactive if a lookup fails |
| `OrgManagement.OrgManager.RuleFromNow` | token_ops.go:23-105 | The same exact condition in every state of the manager object, at the reading of its clock |
| `OrgManagement.OrgManager.IntrospectSteps` | token_ops.go:27-61 | Two lists and a clock reading with early exits; any failing lookup means inactive |
| `OrgManagement.OrgManager.FindExpiry` | token_ops.go:70-82 | The search loop with its break: the first hit decides, failed lookups are passed over |
| `OrgManagement.OrgManager.Revoke` | token_ops.go:65-105 | Records one revocation; only a failure to record is reported; a recorded one holds if the first lookup of its search did not fail |
| `OrgManagement.OrgManager.RevokeSteps` | token_ops.go:67-104 | The recorded expiry is the one found, or the current second |
| `Invitations.InvitationIdentity` | org_lifecycle.go:188-326 | After any further calls the token of an invitation activates the user made for that request (same email, display name and creation time) and no other, until the whole second that falls 72 hours after it was made, or the positive lifetime asked for, however many attempts were cut short; after one finished acceptance it is refused |
| `Invitations.InvitedIsFound` | org_lifecycle.go:188-305 | In every reachable store the hash of any invitation made in the run leads to the user made for it, who still has the email, display name and creation time of the request |
| `Invitations.InviteThenAccept` | org_lifecycle.go:171-327 | From every reachable store an unclaimed email can be invited and accepted until it expires, and then the user is active and the invitation accepted |
| `Invitations.AcceptedExactly` | org_lifecycle.go:313-324 | An invitation is accepted if and only if some call of the run finished accepting its own token |
| `Invitations.StatusAfterCall` | org_lifecycle.go:313-324 | No other call, and no cut-short acceptance, changes whether it is accepted |
| `Invitations.AcceptAnswers` | org_lifecycle.go:271-327 | In every sound store the three possible outcomes of a token that was handed out |
| `Invitations.AcceptedMeansActivated` | org_lifecycle.go:231-324 | In every reachable store an accepted invitation has exactly one has_invitation edge, from a user who is no longer invited |
| `Invitations.StrandedEmail` | org_lifecycle.go:173-193 | After an invitation that was cut short anywhere, another invitation of the same email is refused if and only if the user was made |
| `Invitations.StrandedForLife` | org_lifecycle.go:173-193 | And then it is refused for the rest of every run |
| `Invitations.EmailStaysClaimed` | org_lifecycle.go:173-183 | Once a user exists for an email, deleted or not, every later invitation of that email is refused |
| `Invitations.UniqueLiveKeys` | org_lifecycle.go:13-183 | In every reachable store: one live organization, one user per email, one live role, scope, invitation and client per key |
| `Invitations.InvitationWindow` | org_lifecycle.go:205-213 | The stored expiry is the second of the end - 72 hours after the invitation, or a positive lifetime asked for - and an acceptance is in time exactly up to that whole second, less than one second before the end |
| `Invitations.AcceptableAtOnce` | org_lifecycle.go:205-289 | An invitation is acceptable at the instant it was made, for every instant, if and only if no lifetime was asked for or one of at least 999999999 ns |
| `Invitations.RequestedSeconds` | internal/server/server.go:128-134 | The 64-bit product of requested seconds is right if and only if they are at most 9223372036 in size, and then an invitation expires exactly the positive number of seconds asked for after the second it was made in, and is acceptable at once |
| `OrgManagement.OrgManager.InviteUser` | org_lifecycle.go:171-268 | The method against its plan: duplicate check, then the writes in order; it answers the plaintext token, whose hash is that of the invitation made, and as expiry the second 72 hours later unless a positive lifetime was asked for, and then the second that ends it |
| `OrgManagement.OrgManager.MakeInvitation` | org_lifecycle.go:188-237 | User, token, invitation, edge, in that order, stopping at the first failure |
| `OrgManagement.OrgManager.LinkInvitation` | org_lifecycle.go:240-262 | The optional invited_by edge and one will_grant_role edge per role |
| `OrgManagement.OrgManager.FindInvitation` | org_lifecycle.go:272-291 | What AcceptInvitation rules out before it writes, in order, with one clock reading for the expiry |
| `OrgManagement.OrgManager.Activate` | org_lifecycle.go:297-324 | First the user becomes active, then the invitation accepted |
| `OrgManagement.OrgManager.AcceptInvitation` | org_lifecycle.go:271-327 | The method against its plan, with a second clock reading for the stamp; for the token of any invitation of the history it answers the user made for it: that identifier, the email and display name of the request, its creation time, and status active |
| `OrgManagement.OrgManager.GetUser` | org_lifecycle.go:330-339 | The only operation that checks the type of an identifier; every field answered is the stored property of its own name |
| `OrgManagement.OrgManager.ChangeUser` | org_lifecycle.go:362-413 | SuspendUser, ReactivateUser and DeleteUser: exactly the status and times each one sets, every other field answered as stored |
| `Seeding.SeedingIsAPrefix` | org_lifecycle.go:51-92 | Cut short anywhere, seeding has passed the first k of super_admin, admin, member, viewer: they are live, the one it stopped at is not, no other name appeared, and k is 4 exactly when all writes were made |
| `Seeding.SeedStops` | org_lifecycle.go:61-90 | The same for any list of distinct names |
| `Seeding.SeedingSucceeds` | org_lifecycle.go:43-92 | A finished initialization leaves super_admin, admin, member and viewer live; the built-in roles are exactly these four, with display names Super Admin, Admin, Member and Viewer, if and only if no live custom role had one of the names |
| `Seeding.BuiltinsAreSeeds` | org_lifecycle.go:52-84 | In every reachable store a built-in role is live and one of the four, under its own display name |
| `Seeding.CustomAdminExample` | org_lifecycle.go:72-74 | A concrete run: with a custom role named admin the seeding succeeds without a built-in admin |
| `Seeding.BuiltinsPersist` | roles_scopes.go:55-83 | Once complete, the built-in roles stay exactly the four for the rest of every run |
| `Seeding.RetryIsRefused` | org_lifecycle.go:13-40 | After an initialization that was cut short anywhere a retry is refused, as already existing, if and only if the organization itself was made |
| `Seeding.DeleteThenInitRepairs` | org_lifecycle.go:43-168 | DeleteOrganization and a finished InitOrganization leave each of the four names live exactly once, one live organization, and every old role as it was |
| `OrgManagement.OrgManager.InitOrganization` | org_lifecycle.go:12-48 | The method against its plan, and the organization it returns; on success super_admin, admin, member and viewer are live, and are exactly the built-in roles if and only if no live custom role had one of the names; cut short, a first part of the four is |
| `OrgManagement.OrgManager.SeedRoles` | org_lifecycle.go:51-92 | The seeding loop makes the planned writes in order, or a prefix of them |
| `OrgManagement.OrgManager.SeedRole` | org_lifecycle.go:61-90 | One round: a name with a live role is passed over |
| `OrgManagement.OrgManager.GetOrganization` | org_lifecycle.go:95-107 | The first listed organization, or the right error |
| `OrgManagement.OrgManager.UpdateOrganization` | org_lifecycle.go:110-136 | Fields given are set, fields left empty stay |
| `OrgManagement.OrgManager.GatherOrgPatch` | org_lifecycle.go:116-128 | The patch map built field by field |
| `OrgManagement.OrgManager.DisableOrganization` | org_lifecycle.go:139-156 | Clears enabled and stamps the time |
| `OrgManagement.OrgManager.DeleteOrganization` | org_lifecycle.go:159-168 | Deletes the listed organization: afterwards none is listed, and nothing else changed |
| `PlansLegal.PlanLegal` | org_lifecycle.go:12-413 | Every single write of every operation is legal in a sound store: keys stay unique, only mutable properties change, built-in roles are neither changed nor deleted |
| `PlansLegal.RunKeepsInv` | org_lifecycle.go:12-413 | The invariants hold after every run, each call cut short anywhere |
| `PlansLegal.RunEvolves` | roles_scopes.go:50-185 | However a run goes on, nothing disappears, only mutable properties change, built-in roles not at all, and an acceptance is never undone |
| `PlansLegal.FrozenIdentity` | roles_scopes.go:50-88 | No run changes a type, agency, creation time, email, token hash, registrant or builtin flag, nor a name but the organization's; a built-in role never changes at all |
| `Invariants.InvAfter` | org_lifecycle.go:12-413 | Legal writes keep all invariants |
| `Footprints.PlanTouches` | org_lifecycle.go:12-413 | Every write of an operation stays inside the entity types of its footprint |
| `Footprints.CallUntouched` | org_lifecycle.go:12-413 | However far a call gets, entities of other types are exactly as before |
| `Footprints.PlanLinks` | org_lifecycle.go:231-262 | The edge names an operation may add |
| `OrgManagement.OrgManager.CreateRole` | roles_scopes.go:16-47 | Creates a custom role if no live role has the name, and refuses otherwise |
| `OrgManagement.OrgManager.UpdateRole` | roles_scopes.go:50-73 | Refuses unknown and built-in roles, whatever the type of the entity named; empty fields stay; the history stays valid if the identifier names a role or nothing |
| `OrgManagement.OrgManager.DeleteRole` | roles_scopes.go:76-88 | Refuses unknown and built-in roles, whatever the type of the entity named |
| `Misdirected.DeleteRoleKeepsInvExactly` | roles_scopes.go:76-88 | Given any identifier, DeleteRole keeps the invariants if and only if it deleted nothing, or an entity that may be deleted: a custom role, or by mistake an organization, a client, a token or a revocation |
| `Misdirected.DeleteRoleFreesEmailExactly` | roles_scopes.go:76-88 | The email of a user can be invited again after a DeleteRole if and only if that was given the identifier of this very user and made its deletion |
| `Misdirected.DeletedUserExample` | roles_scopes.go:76-88 | A concrete case: DeleteRole of an invited user's identifier goes through, and the same email can be invited again |
| `Misdirected.AnyPatchKeepsInv` | roles_scopes.go:50-185 | UpdateRole, DeprecateScope and RevokeMembership keep all invariants whatever their identifier names |
| `ScopeGrammar.MatchScopeExactly` | roles_scopes.go:11-117 | The matcher accepts exactly the names with a prefix of 1 to 20 and an action of 1 to 28 lower-case letters, digits and underscores around one colon, and such a name splits and rejoins to itself |
| `ScopeRegistry.RunRefinesRegistry` | roles_scopes.go:109-185 | In every reachable store, looking up any name reads back what an abstract map of registrations and deprecations says; no other operation shows |
| `ScopeRegistry.VerdictAgrees` | roles_scopes.go:110-139 | RegisterScope is refused, with the same error, exactly when the map says so |
| `ScopeRegistry.ReservedExactly` | roles_scopes.go:11-119 | A registration is refused as reserved if and only if its name is of the grammar with prefix org or audit and it is not by codevaldorg, and as invalid if and only if the name is not of the grammar |
| `ScopeRegistry.OwnershipIsForLife` | roles_scopes.go:138-144 | Identifier, owner, name and creation time of a scope never change again |
| `ScopeRegistry.RegisteringTwice` | roles_scopes.go:132-148 | Registering undoes a deprecation; doing it twice differs from once in updated_at alone; other names are unaffected |
| `ScopeRegistry.ForeignersAreRefused` | roles_scopes.go:136-140 | Anybody but the owner is refused, with the collision or the reserved error |
| `ScopeRegistry.ScopesAreWellNamed` | roles_scopes.go:110-119 | Every scope that ever exists has a name of the grammar, and with prefix org or audit it is registered by codevaldorg |
| `OrgManagement.OrgManager.ReservedFor` | roles_scopes.go:115-119 | The loop over the reserved prefixes answers whether the prefix is org or audit and the caller is not codevaldorg |
| `OrgManagement.OrgManager.FindScope` | roles_scopes.go:110-128 | The checks of a registration in their order |
| `OrgManagement.OrgManager.UpsertScope` | roles_scopes.go:132-166 | Creates the scope or refreshes it for its owner, clearing the deprecation |
| `OrgManagement.OrgManager.RegisterScope` | roles_scopes.go:109-167 | The method against its plan; it answers ScopeReserved if and only if the name is of the grammar with prefix org or audit and the caller is not codevaldorg, and InvalidScope if and only if the name is not of the grammar |
| `OrgManagement.OrgManager.DeprecateScope` | roles_scopes.go:170-185 | Stamps the deprecation time on whatever entity is named; the history stays valid if it is a scope or nothing |
| `Memberships.FilterInPlace` | memberships.go:86-97 | Filtering into the slots already read: no unread slot is overwritten, and the result is the mathematical filter in order |
| `Memberships.MembershipIds` | memberships.go:87-90 | The set filled edge by edge is the set of edge targets |
| `Memberships.ListsPartition` | memberships.go:78-97 | In every reachable store the lists of two users are disjoint, and a membership is in no user's list exactly when no edge leads to it |
| `Memberships.StorageOrder` | memberships.go:91-97 | Every list is in storage order without repetition |
| `Memberships.GrantedMembership` | memberships.go:10-47 | The membership of a grant stays listed for good; it is listed for exactly the user it was granted to if and only if the grant got to its first edge |
| `Memberships.OwnerForLife` | memberships.go:25-33 | No later call adds or removes a membership's owner |
| `OrgManagement.OrgManager.GrantMembership` | memberships.go:10-47 | The method against its plan |
| `OrgManagement.OrgManager.MakeMembership` | memberships.go:12-43 | Membership, user edge, role edge, in that order |
| `OrgManagement.OrgManager.RevokeMembership` | memberships.go:50-64 | Stamps the revocation time on whatever entity is named; the history stays valid if it is a membership or nothing |
| `OrgManagement.OrgManager.ListMemberships` | memberships.go:67-105 | All memberships, or one user's, converted in storage order |
| `Secrets.SecretsVerifyForLife` | oauth_clients.go:75-133 | Every plaintext a finished creation or rotation hands out verifies, for the rest of every run, against a secret linked to that client whose text tells the salt and the costs it was hashed with; that what is stored is the hash of what is handed out is ensured by the two methods of the manager |
| `Secrets.HandedOutForLife` | oauth_clients.go:75-133 | The same from the call on, for all continuations of the run at once |
| `Secrets.StoredForLife` | oauth_clients.go:95-114 | The secret stays stored and linked |
| `Secrets.HeadThenSecret` | oauth_clients.go:18-82 | The secret made behind a new client, all its redirect URIs and its scope links is stored and linked to that client |
| `Secrets.HandedOutIsStored` | oauth_clients.go:75-133 | Right after a call that hands out a secret, the secret is stored and linked to the client with that client id |
| `OrgManagement.OrgManager.CreateOAuthClient` | oauth_clients.go:14-85 | The method against its plan; it hands out "cv_cs_" and the UUID exactly for confidential clients, and then, in the store and in the store of every continuation of the run, a secret linked to that client verifies this plaintext and tells the salt and the configured costs |
| `OrgManagement.OrgManager.MakeClient` | oauth_clients.go:18-82 | Client, redirect URIs, scope links, secret, in that order, stopping at the first failure |
| `OrgManagement.OrgManager.CreateRedirectURIs` | oauth_clients.go:37-58 | Entity and edge for every URI in order |
| `OrgManagement.OrgManager.LinkAll` | oauth_clients.go:61-70 | One edge per identifier, in order, stopping at the first failure |
| `OrgManagement.OrgManager.CreateClientSecret` | oauth_clients.go:87-115 | Secret entity and edge; nothing when the salt cannot be drawn |
| `OrgManagement.OrgManager.RotateClientSecret` | oauth_clients.go:118-133 | Appends a secret to a listed client and hands out "cv_cs_" and the UUID, which verifies against it as for CreateOAuthClient, now and in every continuation; a failed lookup is reported as an unknown client |
| `OrgManagement.OrgManager.DeleteOAuthClient` | oauth_clients.go:152-165 | Deletes a listed client: afterwards none with that client id is listed, and nothing else changed |
| `Completeness.InvitationKeepsItsEdges` | org_lifecycle.go:240-262 | A finished invitation leads to its inviter and to every role it will grant, for the rest of the run |
| `Completeness.RedirectURIsForLife` | oauth_clients.go:37-58 | All redirect URIs of a finished client creation are stored and linked in the order given, for the rest of the run |
| `Completeness.AllowedScopesForLife` | oauth_clients.go:61-70 | So are the edges to all its allowed scopes |
| `Completeness.PlannedEdgesLast` | org_lifecycle.go:231-262 | Every edge a finished call planned is there, and stays |
| `Crypto.PhcRoundTrip` | crypto.go:42-73 | For every password, salt and all costs in range the printed string verifies, and another password verifies exactly when Argon2id maps both to one key |
| `Crypto.HashTellsCosts` | crypto.go:42-66 | The string made for a password splits into six parts, with memory, time and threads printed under m, t and p, and the salt decodes back |
| `Crypto.SixPartsVerify` | crypto.go:54-73 | Checking any text of six parts whose second is argon2id: the first of costs, salt and hash that cannot be read is reported, and otherwise the key under the costs and salt read is compared with the hash |
| `Crypto.InvalidFormatExactly` | crypto.go:55-58 | A text is reported as of the wrong format if and only if it is not six parts with argon2id as the second; the version is not looked at |
| `Crypto.PhcTextParts` | crypto.go:50-58 | The printed string splits into exactly six parts |
| `Crypto.ScanPrintedParams` | crypto.go:59-62 | Scanning printed costs recovers them, whatever text follows that does not begin with a digit |
| `Crypto.VerifyPrinted` | crypto.go:54-73 | Verification compares under the printed salt and costs; a thread count beyond 8 bits is taken modulo 256 |
| `Crypto.TokensAreDistinct` | crypto.go:17-32 | A token is its prefix followed by base64url text that decodes to the 32 random bytes; distinct (prefix, bytes) pairs give distinct 49-character tokens, and the returned hash decodes to the digest of the token |
| `Crypto.PKCEAcceptsExactly` | crypto.go:35-39 | A challenge is accepted if and only if it is canonical base64url text of the verifier's digest |
| `Encodings.RoundTrip64` | crypto.go:22-70 | Decoding undoes encoding, in both alphabets, and the text has no dollar sign |
| `Encodings.EncodedExactly` | crypto.go:63-70 | A text is the encoding of some bytes if and only if it decodes to them and is canonical; the lenient decoder accepts more |
| `Encodings.DecodesExactly` | crypto.go:63-70 | A text decodes if and only if, line breaks apart, all its characters are of the alphabet and their number does not leave one over; the number of bytes is three quarters of it |
| `Encodings.LineBreaksIgnored` | crypto.go:63-70 | A carriage return or line feed anywhere makes no difference to what a text decodes to |
| `Encodings.ScanDecimal` | crypto.go:60 | Scanning a printed number recovers it and stops behind it |
| `Encodings.ScanExactly` | crypto.go:59-62 | A number is read from a text if and only if it is blanks, that number in at most 32 bits, and the text that is left |
| `Encodings.DecimalRoundTrip` | crypto.go:50 | The decimal text of a number has its value |
| `Encodings.SplitJoin` | crypto.go:55 | Splitting a joined list of dollar-free parts gives the parts back |
| `Encodings.JoinSplit` | crypto.go:55 | Joining the parts of any text gives the text back |
| `Conformance.EntitiesConformExactly` | schema.go:14-315 | In every run, cut short anywhere, all entities have all required and only declared properties, of the declared kinds, if and only if every call that wrote anything had client type public or confidential, or as revocation reason none or one of the five words declared |
| `EdgeConformance.EdgesConformExactly` | schema.go:14-315 | In a store whose edges are all declared they still are after a call, cut short anywhere, if and only if the identifiers it made edges to name entities of the right types (an inviter may be the invited user) |
| `EdgeConformance.RunEdgesConformExactly` | schema.go:14-315 | Over a whole run all edges are declared ones all the time if and only if the identifiers of every call fit |
| `EdgeConformance.RunConforms` | schema.go:14-315 | With listed options and fitting identifiers every reachable store conforms, entities and edges |
| `EdgeConformance.StrayGrantExample` | memberships.go:25-43 | A concrete run: a membership granted to nobody leaves edges that are not declared |
| `Conformance.PlanRespectsSchema` | schema.go:222-307 | Every write of every operation with listed options has the declared properties of its type, and none updates an immutable type |
| `Conformance.ImmutableTypes` | schema.go:222-303 | The immutable types are exactly codes, access and refresh tokens, revocations and audit events |
| `Conformance.ImmutablesNeverChange` | schema.go:222-303 | Over every run, cut short anywhere, no property of an entity of an immutable type is ever added, removed or changed |
| `ReadBack.PatchedOrganization` | helpers.go:78-93 | What is read back of a patched organization: each field given replaced, each field left empty as before |
| `ReadBack.NewUser` | helpers.go:95-107 | What is read back of the user an invitation makes: email, display name and times of the request, status invited, not deleted |
| `ReadBack.RefreshedScope` | helpers.go:43-136 | The empty string stored over a deprecation time reads back as none |

## Left out

- Revocations.IntrospectRefinesRule: asks that a revoked hash had one revocation that held; without that the claim is false of the code (Purging.LostRevocation), and Purging.FollowsRuleExactly gives the exact condition.
- Purging.PurgingIsInvisible: asks the same; as a run without purges always follows the rule (Revocations.IntrospectWithoutPurging), the exact condition is again that of Purging.FollowsRuleExactly.
- Purging.RunUnpurged: asks that every recorded revocation found its token, since otherwise the recorded expiry can differ; Purging.RunRestored is about every valid run.
- EdgeConformance.RunConforms: asks for listed options and fitting identifiers, which the manager itself does not check; the exact conditions are Conformance.EntitiesConformExactly and EdgeConformance.RunEdgesConformExactly.
- `Authorize` and `Token` are stubs in the code (token_ops.go:11-19); code exchange, scope intersection and refresh rotation are documented only.
- Also documented but not in the code, and so not claimed: bulk revocation on suspension, disabling or client deletion, the grace window of secrets, protection of the last super admin, audit writes, an idempotent GrantMembership, revocations that refer to a token's identifier rather than its hash.
- `ListAuditEvents`, `ListUsers`, `ListRoles`, `ListScopes`, `ListOAuthClients`: one list and a conversion each; nothing writes audit events.
- The statuses `expired` and `revoked` of an invitation are declared and read but never written; no property is about them.
- "Suspended or deleted is final" is not claimed: accepting and reactivating set a user active from any status.
- That `accepted_at` is no later than `expires_at` is not claimed: expiry check and stamp are two clock readings.
- The schema's declarations are transcribed. Proved is that what operations write meets them and which types are immutable, not that they are no laxer than those of schema.go; collections, labels and path segments are not transcribed.
- The calendar text of timestamps (RFC 3339): a stored time is the whole second it denotes, and a malformed one is not modelled beyond the empty string.
- `propStrSlice` on lists of mixed values: the manager only ever writes lists of strings.
- Integer widths other than the invitation's product of seconds, the 32-bit costs and the 8-bit thread count.
- SHA-256, Argon2id (including its panic on zero costs), random bytes, UUIDs and constant-time comparison.
- Concurrency of operations other than Introspect and Revoke: the other checks are not atomic with their writes, and uniqueness holds for one call after the other.
- `context`, publisher, schema manager, the gRPC, HTTP and storage layers, configuration and generated code.
