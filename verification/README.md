# Entra Local: a verified model of its token endpoint and its pure cores

Entra Local is a local emulator of an identity provider. This project models the part of it that decides who
gets a token, and the small algorithms around it, and proves properties of that model with Dafny's verifier
(`dafny verify dfyconfig.toml`).

**The grant lifecycle.** Three protocols share one store and one clock: refresh tokens with rotation and
family revocation, single-use authorization codes with PKCE, and the device-code grant. Each table is a map.
Each SQL statement, and each `transaction(...)`, is one atomic step. A redemption is split where the source
splits it (read the row, check it, compare-and-set), so any number of redemptions interleave with each other,
with issuance, purging and a clock that never goes back. Beside each machine stands the source's own
imperative code: a repository class whose methods change the table, and a service method, proved against the
function the machine uses.

| files | what they hold |
|---|---|
| `RefreshTokens`, `RefreshService` | the refresh table, the family search, rotation, redemption |
| `RefreshRuns`, `RefreshSafety` | the refresh machine with its invariant, and what all runs guarantee |
| `AuthCodes`, `AuthCodeRuns`, `Authorize` | codes, PKCE, redemption; the machine; `/authorize` validation |
| `DeviceCodes`, `DeviceRuns`, `DeviceConsent`, `DeviceFlow` | device codes, polling and approval; the machine; the consent pages behind an approval; the whole flow |
| `Grants`, `GrantOrigins` | when a response issues a row; the three machines as one token endpoint; the grant behind every refresh row |
| `Text`, `Scopes` | split, join and search; scope lists, resources, audiences |
| `TokenConfig`, `SigningKeys`, `KeyRuns` | claims and their merge; key table, caches, validator; key rotation as a machine |
| `GraphUrls` | advertised URLs against the host router |
| `Queries`, `GraphPaging`, `LostKeys` | percent-encoding and query strings; next links; a query key that does not survive them |
| `Directory`, `SignInPages` | LIKE search and user paging; account list and HTML escaping |
| `HostsFile`, `HostNames` | the hosts-file block; the names the program puts there |

History variables (`issued`, `inserted`, `approvals`, `minted`, `wins`, `spent`, `rotations`, `roots`) remember what
rows may have been purged; no step reads them except to keep generated tokens fresh.

## Where the code does less than its comments or a first reading suggest

Each of these is stated with its exact condition, and where a promise fails a lemma names an input.

- Replay detection reads the row and revokes the family in two statements. A purge by another process in
  between can take the token's row and its successor's, and then the live tail of the chain survives.
  `RefreshSafety.RevocationKills` gives the exact condition, `RefreshSafety.ReplaySafety` carries it over whole
  runs, and `RefreshSafety.ReplayRace` is a run, purging by its clock, that shows the failure.
- `revokeFamily` calls itself a breadth-first search; it pops from the end of its list and is depth-first. The
  set it visits is the same.
- `/authorize` skips the method check for an empty `code_challenge`, which a confidential client may send. The
  empty challenge is stored and the code can never be redeemed
  (`Authorize.DecidableExactly`, `Authorize.AcceptedChallengeCanBeProved`, `Authorize.EmptyChallengeIsAccepted`).
- `scopesAreValid` accepts `https://graph.microsoft.com` scopes whatever Graph id is configured; with another
  id the audience falls back to the literal URL (`Scopes.AcceptedAudienceIsGrounded`,
  `Scopes.OtherGraphIdFallsBack`).
- A next link keeps the caller's parameters exactly when every kept key survives being written unescaped: it
  holds no `&`, `=` or `#` and decodes to itself (`GraphPaging.FollowedLink`). A request whose key decodes to
  text that ends in the offset's name, `?x%26$skiptoken=0`, gets the first page twice
  (`LostKeys.LostKeyRepeatsThePage`).
- The hosts-file update is idempotent exactly when no begin marker follows the first whole block
  (`HostsFile.Markers.IdempotentExactlyOnCleanContent`; the input is in `HostsFile.Markers.LoneBeginMarkerIsLost`).
  `applyHostsContent` on its own also needs names without the end marker
  (`HostsFile.Markers.AbsorbedExactlyWithoutEndMarkers`, `HostsFile.Markers.EndMarkerAsNameIsNotRemoved`). The
  program's own calls always meet that, since its names are lower-cased and the marker has capitals
  (`HostNames.DesiredNamesAreEndFree`, `HostNames.ProgramRunsAreAbsorbed`).
- A published Graph URL is served exactly under a condition on the three origins. Distinct hostnames are not
  enough: `hostnameOf` removes IPv6 brackets and `URL.hostname` keeps them. One origin for login and Graph
  beside a portal of its own makes the guard take the Graph host for the login host. And a Graph origin with a
  trailing slash, which the configuration accepts, publishes a path the router does not rewrite
  (`GraphUrls.PublishedUrlIsServed`, `GraphUrls.BracketedGraphHostIsNotServed`,
  `GraphUrls.SharedLoginHostIsNotServed`, `GraphUrls.TrailingSlashIsNotServed`).
- Activating an unknown kid commits with no active key
  (`SigningKeys.SetActiveLeavesOneExactlyForAKnownKey`).

## Assumptions

- SHA-256 is collision-free (a free constructor), generated tokens and codes are fresh and non-empty,
  signatures are ideal: only the private key makes a value its public key verifies. The device approval state
  is signed ideally as well.
- The database isolates transactions. Inside one Node process the statements between two awaits do not
  interleave; the machines allow more, as if several processes shared the database file.
- Strings are sequences of Unicode scalar values; the source's are UTF-16. `toLowerCase` and `toUpperCase` of
  hosts, method names and user codes are ASCII or per-character functions.
- `Number(s)` is a parameter that reads back the decimal digits of offsets below the collection size, which
  JavaScript does below 2^53. The Graph collection does not change while a client pages through it.
- An origin is `scheme://host[:port]`, the host in the form the URL parser leaves it in, with or without a
  trailing slash or a path. A client sends a link's path and query as they are written, up to its fragment.
- A purge may use any cutoff in the theorems, which covers the clock's.

## Model

| member | source | states |
|---|---|---|
| `RefreshTokens.CollectFamily` | src/store/repositories/refreshTokens.ts:97-118 | the search ends on every table, cyclic or branching, and what it has seen is exactly the connected component of the start hash, parents whose row is gone included |
| `RefreshTokens.PushChildren` | src/store/repositories/refreshTokens.ts:114-117 | the inner loop leaves every child of the hash seen or pushed, and pushes nothing outside the family |
| `RefreshTokens.RefreshTokensRepository.RevokeFamily` | src/store/repositories/refreshTokens.ts:96-124 | afterwards exactly the family's rows are revoked, no other row changed, and the result counts the family's rows that were live |
| `RefreshTokens.RefreshTokensRepository.RevokeEach` | src/store/repositories/refreshTokens.ts:119-122 | the loop revokes exactly the rows of the visited set and counts those that were live |
| `RefreshTokens.RefreshTokensRepository.RotateRow` | src/store/repositories/refreshTokens.ts:86-92 | rotation revokes and inserts together: a lost compare-and-set or a key conflict leaves the table as it was |
| `RefreshTokens.RotateMeans` | src/store/repositories/refreshTokens.ts:86-92 | rotation succeeds exactly on a live row and a new hash, spends the one and stores the other as its child, field by field |
| `RefreshTokens.RefreshTokensRepository.InsertRow` | src/store/repositories/refreshTokens.ts:63-76 | a taken hash raises and changes nothing, otherwise the row is stored under the hash, live, field by field as given |
| `RefreshTokens.RefreshTokensRepository.MarkRevoked` | src/store/repositories/refreshTokens.ts:93-95 | reports a change exactly when the row was live |
| `RefreshTokens.RefreshTokensRepository.DeleteExpiredRows` | src/store/repositories/refreshTokens.ts:125-127 | removes exactly the rows whose expiry is not after the cutoff, leaves every other row as it was, and counts what it removed |
| `RefreshService.RefreshTokenService.RedeemRefreshToken` | src/tokens/refresh.ts:66-118 | the method does what `Redeem` says for its table: replay check before expiry, client, scope, rotation, in that order |
| `RefreshService.RefreshTokenService.IssueRefreshToken` | src/tokens/refresh.ts:52-64 | stores the root of a new chain with the given app, user, scopes and resource and one lifetime ahead, or raises on a taken hash |
| `RefreshService.RedeemMeaning` | src/tokens/refresh.ts:66-118 | without interference redemption succeeds exactly on a live, unexpired row of the client with no scope beyond the grant; it answers the requested scopes or else all granted ones; one row for just these is added, every field stated, the old one is spent and nothing else moves |
| `RefreshService.RefusalMeaning` | src/tokens/refresh.ts:73-109 | each refusal has its one cause, replay before expiry, then client, then scope; a replay revokes the whole family |
| `RefreshService.ReplacementInherits` | src/tokens/refresh.ts:87-108 | a replacement keeps app, user and resource, never widens the scopes, never expires earlier |
| `RefreshRuns.InvRun` | src/store/repositories/refreshTokens.ts:51-60 | in every reachable state each row is in its place in its chain, live rows are last, purging has taken only a prefix of each chain |
| `RefreshRuns.InvNext` | src/tokens/refresh.ts:73-109 | every step of issue, redemption, revocation and purge keeps that invariant |
| `RefreshSafety.NoCycle` | src/store/repositories/refreshTokens.ts:86-92 | `rotated_from` is acyclic in every reachable state |
| `RefreshSafety.OneChild` | src/store/repositories/refreshTokens.ts:86-92 | no row has two children |
| `RefreshSafety.LiveIsLast` | src/tokens/refresh.ts:98-109 | the live row of a chain is its last token, so a chain has at most one |
| `RefreshSafety.FamilyIsChain` | src/store/repositories/refreshTokens.ts:98-118 | from a stored token, the stored rows the search reaches are exactly the stored rows of its one chain |
| `RefreshSafety.NeverRevivesRun` | src/store/repositories/refreshTokens.ts:58-61 | over any run a revoked or purged token never becomes live again |
| `RefreshSafety.DeadStaysDeadRun` | src/tokens/refresh.ts:76-82 | over any run a chain without a live row never gets one |
| `RefreshSafety.RevocationKills` | src/tokens/refresh.ts:74-82 | family revocation leaves the chain dead exactly when it was dead, or the presented row or its successor's row is still stored |
| `RefreshSafety.ReplaySafety` | src/tokens/refresh.ts:76-82 | after a spent token is presented and its family revoked, no redemption of its chain ever wins again, under any interleaving, if its row or its successor's was stored or the chain was dead; `RevocationKills` shows that condition exact |
| `RefreshSafety.ReplayRace` | src/tokens/refresh.ts:74-82 | a concrete run, each purge at its clock, in which a purge between read and revocation lets the chain's tail stay live |
| `RefreshSafety.SingleUse` | src/tokens/refresh.ts:98-109 | each refresh token wins at most one redemption, however many race |
| `RefreshSafety.RotationAddsOneRow` | src/tokens/refresh.ts:98-109 | every step but an issue adds a row exactly when it wins, one and no root, and a winner's token was live |
| `RefreshSafety.Lineage` | src/tokens/refresh.ts:87-117 | along a chain of any length app, user and resource are constant, scopes only shrink, expiry never decreases |
| `RefreshSafety.WinnerAnswers` | src/tokens/refresh.ts:111-117 | a winning redemption answers the user and resource the chain was rooted with, for its app, and the scopes it asked for or all those of the token it spends; the row it stores is for exactly these |
| `RefreshSafety.RootsIssueStep` | src/tokens/refresh.ts:52-64 | every root of a run was issued by one of its steps, with that step's app, user, scopes, resource and expiry |
| `RefreshSafety.LiveRowsBounded` | src/tokens/refresh.ts:66-118 | live rows never outnumber the chains ever started |
| `RefreshSafety.UninterruptedRedemption` | src/tokens/refresh.ts:66-118 | the machine's steps without interference are the service's redemption, in answer and in table |
| `AuthCodes.AuthCodesRepository.ConsumeCode` | src/store/repositories/authCodes.ts:69-75 | the row comes back exactly to the call that consumed it |
| `AuthCodes.AuthCodesRepository.InsertRow` | src/store/repositories/authCodes.ts:49-64 | stores the input as an unconsumed row, field by field, or raises on a taken code and changes nothing |
| `AuthCodes.AuthCodeService.IssueAuthCode` | src/tokens/authCode.ts:84-99 | a fresh code is stored for the grant it is issued for, each field in its place, one lifetime ahead; other codes stay as they were |
| `AuthCodes.AuthCodesRepository.DeleteExpiredRows` | src/store/repositories/authCodes.ts:76-78 | removes exactly the rows whose expiry is not after the cutoff, leaves every other row as it was, and counts what it removed |
| `AuthCodes.Check` | src/tokens/authCode.ts:111-120 | the checks pass exactly for an unexpired row of the app and redirect URI whose possession is proved |
| `AuthCodes.PkceMeans` | src/tokens/authCode.ts:48-59 | under S256 exactly the verifiers whose digest is the challenge pass, under plain or no method only the challenge itself, under any other method none |
| `AuthCodes.AuthCodeService.RedeemAuthCode` | src/tokens/authCode.ts:101-133 | the method does what `Redeem` says for its table, its checks in the source's order |
| `AuthCodes.RedeemMeaning` | src/tokens/authCode.ts:101-133 | success exactly on a stored, unconsumed, unexpired code of the app and redirect URI whose possession is proved, with the stored user, scopes, resource and nonce; each refusal has its one cause and changes nothing |
| `AuthCodeRuns.InvRun` | src/tokens/authCode.ts:84-133 | in every reachable state each row is the issued one up to `consumed`, and each redemption in flight holds the issued row |
| `AuthCodeRuns.WinnerMatchesGrant` | src/tokens/authCode.ts:108-132 | a winner has the app, redirect URI and verifier of the parameters the code was issued with, checked in time, and gets exactly their user, scopes, resource and nonce |
| `AuthCodeRuns.WinnerHasItsIssue` | src/tokens/authCode.ts:84-133 | behind every winning redemption of a run stands the one step that issued that code, with the redeemed parameters |
| `AuthCodeRuns.IssueStores` | src/tokens/authCode.ts:84-99 | an issued code is stored, redeemable, for what the step issues it for |
| `AuthCodeRuns.OnlyWinningChangesARow` | src/tokens/authCode.ts:122-124 | a stored code changes exactly at the step that wins it |
| `AuthCodeRuns.NeverRedeemableAgain` | src/store/repositories/authCodes.ts:43-46 | over any run a consumed or purged code is never redeemable again |
| `AuthCodeRuns.SingleUse` | src/tokens/authCode.ts:122-124 | each code wins at most one redemption under any interleaving |
| `AuthCodeRuns.UninterruptedRedemption` | src/tokens/authCode.ts:101-133 | the machine's steps without interference are the service's redemption, in answer and in table |
| `Authorize.NeverAnOpenRedirect` | src/identity/authorize.ts:119-221 | no outcome redirects anywhere but to a URI registered for the named client |
| `Authorize.AcceptedExactly` | src/identity/authorize.ts:119-202 | a request is accepted exactly when client and redirect URI are registered, mode and response type are known, there are scopes and all are valid, a public client gives a challenge, and a given challenge has a known method or none |
| `Authorize.AcceptedAsAsked` | src/identity/authorize.ts:204-220 | every validated field is the request's own |
| `Authorize.RefusalMeaning` | src/identity/authorize.ts:119-202 | a page exactly without a registered client and redirect URI; any other refusal names the first rule that fails and returns the state in the mode asked for |
| `Authorize.CodeIsForTheRequest` | src/identity/authorize.ts:342-351 | the code of an accepted request is issued for that request and the signed-in user, every field stated |
| `Authorize.AcceptedMethodIsDecidable` | src/identity/authorize.ts:192-202 | every accepted non-empty challenge carries a method the verifier can decide |
| `Authorize.DecidableExactly` | src/identity/authorize.ts:192-202 | an accepted challenge has a decidable method exactly when it is non-empty or the method lowers to one of the two names |
| `Authorize.AcceptedChallengeCanBeProved` | src/identity/authorize.ts:192-202 | the code of an accepted request is redeemable by some verifier exactly when its challenge is absent, or non-empty and a digest under S256 |
| `Authorize.EmptyChallengeIsAccepted` | src/identity/authorize.ts:194-202 | a request with an empty challenge and an unknown method is accepted and its code is beyond redemption |
| `Authorize.SnapshotKeepsTheGrant` | src/identity/authorize.ts:294-332 | the signed snapshot resumes the same grant: only prompt and login hint are dropped |
| `DeviceCodes.GenerateUserCode` | src/identity/deviceCode.ts:44-48 | the loop builds a canonical code from the eight draws in order |
| `DeviceCodes.NormalizationFindsTheCode` | src/identity/deviceCode.ts:55-58 | a human's entry normalizes to a canonical code exactly when it spells its letters |
| `DeviceCodes.CanonicalCodesAreFixed` | src/identity/deviceCode.ts:55-58 | a code typed as displayed normalizes to itself |
| `DeviceCodes.DeviceCodesRepository.ChooseUserCode` | src/identity/deviceCode.ts:98-105 | the retry takes the first free candidate of eleven draws |
| `DeviceCodes.DeviceCodesRepository.InsertRow` | src/store/repositories/deviceCodes.ts:56-60 | stores a pending row without a user, every other field as given, or raises on a taken hash or user code and changes nothing |
| `DeviceCodes.DeviceCodesRepository.ApproveRow` | src/store/repositories/deviceCodes.ts:63-66 | exactly when some row of the user code awaits a decision, that one row becomes approved with the user and is returned; every other row stays |
| `DeviceCodes.DeviceCodesRepository.DenyRow` | src/store/repositories/deviceCodes.ts:67-69 | exactly when some row of the user code awaits a decision, that one row becomes denied and is returned; every other row stays |
| `DeviceCodes.DeviceCodesRepository.ConsumeApprovedRow` | src/store/repositories/deviceCodes.ts:70-74 | the guarded delete returns the row to the one call that removed it |
| `DeviceCodes.DeviceCodesRepository.ConsumeRow` | src/store/repositories/deviceCodes.ts:75-75 | deletes the row and returns it |
| `DeviceCodes.DeviceCodesRepository.DeleteExpiredRows` | src/store/repositories/deviceCodes.ts:76-76 | removes exactly the rows whose expiry is not after the cutoff, leaves every other row as it was, and counts what it removed |
| `DeviceCodes.StatementsKeepConsistency` | src/store/repositories/deviceCodes.ts:56-76 | every statement keeps approved rows exactly those with a user, and user codes unique |
| `DeviceCodes.DeviceGrant.Poll` | src/identity/deviceCode.ts:170-277 | the method does what `PollOnce` says for its table, and never falls through |
| `DeviceCodes.PollMeaning` | src/identity/deviceCode.ts:170-277 | an uninterrupted poll answers by the row's state alone, each answer with its one cause, and removes the row exactly when the code is spent |
| `DeviceCodes.NewCodeIsPending` | src/identity/deviceCode.ts:110-117 | a code just inserted is pending for its client until the expiry given, and expired from then on |
| `DeviceRuns.InvRun` | src/store/repositories/deviceCodes.ts:56-117 | in every reachable state a row is approved exactly when its user is set, and the user is the recorded approval's |
| `DeviceRuns.DecisionsAreFinal` | src/store/repositories/deviceCodes.ts:63-69 | over any run no row moves between approved and denied, no decision changes its user, no removed code returns |
| `DeviceRuns.GrantedPollWasApproved` | src/identity/deviceCode.ts:223-255 | a granted poll has the inserted client and scopes, a code unexpired when it began, and the approval of the granted user's session |
| `DeviceRuns.GrantedPollHasItsInsertion` | src/identity/deviceCode.ts:110-117 | a granted poll presents the device code of one earlier insertion, for the same client, unexpired, with the requested scopes and the approved user code |
| `DeviceRuns.InsertStores` | src/identity/deviceCode.ts:110-117 | an inserted code is stored pending as the step asks for it unless its hash or user code is taken |
| `DeviceRuns.GrantedPollHasItsApproval` | src/identity/deviceApproval.ts:362-394 | earlier in the run one decision approved that very code, and before that its session was found live, of an enabled account, the granted user's, and matching the signed state |
| `DeviceRuns.ApprovalsComeFromDecisions` | src/identity/deviceApproval.ts:388-390 | an approval appears only at an approve step whose session check passed for that user |
| `DeviceRuns.SessionCheckStep` | src/identity/deviceApproval.ts:369-379 | a decision past its check was checked at one earlier step, with the same state and session |
| `DeviceRuns.DecisionLoadStep` | src/identity/deviceApproval.ts:381-387 | a decision is put only after its code was found once more, pending and unexpired |
| `DeviceRuns.DecisionTakesEffect` | src/identity/deviceApproval.ts:388-394 | an approval gives the pending row of the code to the session's user, a denial denies it, anything else leaves it, and no other row is touched |
| `DeviceConsent.ConsentStep` | src/identity/deviceApproval.ts:186-209 | each signed state that names a session was signed on a consent page for its user code, shown in that live session or in the one a sign-in had just created |
| `DeviceConsent.PageLoadStep` | src/identity/deviceApproval.ts:216-229 | a page is shown only after its user code was found pending and unexpired |
| `DeviceConsent.GrantedPollHasItsConsent` | src/identity/deviceApproval.ts:362-394 | behind every granted poll stand, in this order, a lookup of the pending code, a consent page for it in the approving session, the session check and the approval |
| `DeviceFlow.ApprovedDeviceIsGranted` | src/identity/deviceApproval.ts:249-394 | from any state, a user who enters a pending code and consents undisturbed in a live session has the device's next poll granted, for that user and the inserted scopes |
| `DeviceRuns.GrantedScopesAsRequested` | src/identity/deviceCode.ts:110-117 | scopes stored joined and split again at the poll are the requested ones |
| `DeviceRuns.FallThroughIsUnreachable` | src/identity/deviceCode.ts:271-276 | no poll of any run reaches the last branch |
| `DeviceRuns.SingleUse` | src/store/repositories/deviceCodes.ts:70-74 | each device code is redeemed at most once, however many polls race |
| `DeviceRuns.UninterruptedPoll` | src/identity/deviceCode.ts:170-277 | the machine's steps without interference are the poll handler, in answer and in table |
| `TokenResponses.RotationIssuesOnce` | src/identity/token.ts:210-223 | after a rotation the gate and the builder never both act, and the client gets the rotated token exactly when the grant still carries `offline_access` |
| `TokenResponses.BuilderIssuesExactly` | src/tokens/response.ts:199-208 | the builder issues exactly for a user whose scopes name `offline_access`, unless it was handed a token |
| `Grants.InvRun` | src/tokens/response.ts:199-208 | in every reachable state of the endpoint, root rows are exactly the issuing successes, each of a won code or a granted poll, and every other row is one rotation's |
| `Grants.RotationBalances` | src/tokens/refresh.ts:98-117 | each winning refresh adds exactly one row and one rotation, any other refresh step none, and the totals stay equal |
| `Grants.BuildBalances` | src/tokens/response.ts:199-208 | a response adds one root row exactly when it issues, spends one success not spent before, and keeps the totals equal |
| `Grants.GrantConservation` | src/identity/token.ts:210-223 | in every run each row is the root of one success or the product of one rotation, and live rows never outnumber the redeemed codes and granted polls |
| `Grants.RunProjects` | src/identity/token.ts:113-121 | every run of the endpoint is, at the refresh table, a run of the refresh machine |
| `Grants.CodesProject` | src/identity/token.ts:113-121 | every run of the endpoint is, at the code table, a run of the code machine |
| `Grants.DevicesProject` | src/identity/token.ts:113-121 | every run of the endpoint is, at the device table, a run of the device machine |
| `Grants.EndpointReplaySafety` | src/tokens/refresh.ts:76-82 | replay safety holds of the endpoint as a whole, under the same exact condition |
| `Grants.EndpointSingleUse` | src/identity/token.ts:113-121 | in any run of the endpoint each authorization code, device code and refresh token wins at most once |
| `GrantOrigins.CodeResponseGranted` | src/identity/token.ts:113-121 | a won code leads to a response for exactly the app, user, scopes and resource the code was issued for |
| `GrantOrigins.DeviceResponseGranted` | src/identity/deviceCode.ts:223-255 | a won device code leads to a response for the inserted app and scopes and the approving session's user |
| `GrantOrigins.RootHasItsGrant` | src/tokens/response.ts:199-208 | every root row of a run has exactly the app, user, scopes and resource of the redeemed code or granted device code it was issued for |
| `GrantOrigins.RowHasItsGrant` | src/tokens/refresh.ts:98-117 | every refresh row of a run, however often rotated, has the app, user and resource of the grant its chain started from, and only its scopes |
| `GrantOrigins.RowGoesBack` | src/identity/token.ts:113-121 | every refresh row of a run goes back to the step that issued its authorization code, or to the steps that requested and approved its device code, with their app, user, resource and scopes |
| `GrantOrigins.RotationResponseFitsItsRow` | src/identity/token.ts:187-222 | the response to a rotation is for the row it stored, and hands out its token exactly when the grant still carries `offline_access` |
| `Text.StoredScopesRoundTrip` | src/tokens/refresh.ts:87-87 | joining and reading a scope list gives it back exactly for space-free lists other than the list of one empty string |
| `Scopes.SplitScopesRoundTrip` | src/identity/scopes.ts:17-19 | splitting the joined list gives it back exactly for non-empty whitespace-free scopes |
| `Scopes.ScopeParsingIsLossless` | src/tokens/claims.ts:74-80 | prefix, slash and stripped name give a qualified scope with a path back, and the name holds no slash |
| `Scopes.ScopeOf` | src/tokens/claims.ts:74-80 | resource, slash and name make a scope whose resource and name they are |
| `Scopes.NamesMean` | src/tokens/claims.ts:83-85 | a name is granted exactly when it is not empty and some scope strips to it |
| `Scopes.ResourceIsTheFirstNamed` | src/identity/scopes.ts:27-36 | the resource of a list is that of its first scope that names one, and none when none does |
| `Scopes.ResourceScopeIsValidExactly` | src/identity/scopes.ts:43-59 | a scope of another resource is accepted exactly when an app is registered there and the name is one of its enabled scopes or `.default` |
| `Scopes.LenientScopesAreValid` | src/identity/scopes.ts:43-52 | OIDC scopes, scopes without a scheme and Graph's own are accepted whatever is registered |
| `Scopes.ResolvedResourceIsValid` | src/identity/scopes.ts:27-59 | the resolved resource of an accepted list is Graph's or a registered app's |
| `Scopes.AudienceIsTheNamedService` | src/tokens/claims.ts:106-120 | the audience is Graph, the app registered under the URI, or the literal resource, each exactly in its case |
| `Scopes.AcceptedAudienceIsGrounded` | src/tokens/claims.ts:106-120 | the audience of an accepted list is Graph or a registered app exactly unless the literal Graph URL is named under another Graph id and no app is registered under it |
| `Scopes.DefaultAudienceIsGrounded` | src/tokens/claims.ts:106-120 | with the default Graph id no accepted list falls back to the literal resource |
| `Scopes.OtherGraphIdFallsBack` | src/identity/scopes.ts:51-51 | under another Graph id a Microsoft Graph scope is accepted and its audience is the literal URL |
| `TokenConfig.ResolveOptionalClaims` | src/tokens/tokenConfig.ts:114-132 | the loop emits exactly the supported non-group names with a value, and reports the unsupported ones in order |
| `TokenConfig.IdTokenKeepsItsClaims` | src/tokens/response.ts:172-197 | whatever an app configures, every base claim of an ID token keeps its value |
| `TokenConfig.AccessTokenKeepsItsClaims` | src/tokens/response.ts:118-160 | whatever the audience's app configures, every base claim of an access token keeps its value |
| `TokenConfig.IdTokenIdentifies` | src/tokens/claims.ts:134-155 | an ID token names its user and its client: issuer, audience, subject, object id, names, times, nonce and email are theirs |
| `TokenConfig.AccessTokenIdentifies` | src/tokens/claims.ts:169-213 | an access token names the user and app of a delegated grant, or the app alone |
| `TokenConfig.PairwiseSubSeparates` | src/tokens/claims.ts:65-67 | two pairwise subjects are equal exactly for the same user, app and tenant |
| `TokenConfig.ScpNamesMean` | src/tokens/claims.ts:93-97 | the `scp` names are those granted but `offline_access` |
| `TokenConfig.UnsupportedMeans` | src/tokens/tokenConfig.ts:122-127 | a name is reported exactly when configured and none of the supported names of its kind, each listed |
| `TokenConfig.EveryNameIsAccountedFor` | src/tokens/tokenConfig.ts:209-225 | each configured name is exactly one of groups or supported, or unsupported; a supported one is emitted with the directory's value; nothing else is added but the group claims |
| `TokenConfig.ConfiguredClaimsAreTheUsers` | src/tokens/tokenConfig.ts:76-96 | each configured claim has the user's own value of just that attribute, and is left out exactly without one |
| `TokenConfig.AudienceConfiguresAccessTokens` | src/tokens/response.ts:118-141 | the optional and group claims of an access token are exactly those the audience's own app configures, and none without a user |
| `TokenConfig.GroupsOrOverage` | src/tokens/tokenConfig.ts:160-180 | with group claims on, a token carries the ids within the limit or the overage pointer, never both and never neither |
| `TokenConfig.OverageLosesNothing` | src/tokens/tokenConfig.ts:145-178 | on overage, following the advertised endpoint and its next links yields exactly the groups the array would have carried |
| `SigningKeys.InsertKeepsOneActive` | src/store/repositories/signingKeys.ts:72-88 | insertion keeps at most one active key a tenant, loses no key, and makes an active key its tenant's active one |
| `SigningKeys.SetActiveLeavesOneExactlyForAKnownKey` | src/store/repositories/signingKeys.ts:89-94 | activation leaves the tenant an active key exactly when it names one of its keys, and touches no other tenant |
| `SigningKeys.SigningKeysRepository.GetActive` | src/store/repositories/signingKeys.ts:61-64 | returns the tenant's active key, or nothing exactly when it has none |
| `SigningKeys.SigningKeysRepository.InsertKey` | src/store/repositories/signingKeys.ts:72-88 | the transaction stores the key, field by field, or, on a taken kid, rolls back to the table before |
| `SigningKeys.SigningKeysRepository.Activate` | src/store/repositories/signingKeys.ts:89-94 | reports success exactly when the tenant ends with an active key |
| `SigningKeys.SigningService.EnsureActiveKey` | src/tokens/keys.ts:93-105 | an existing active key is reused unchanged, otherwise the generated pair becomes the active key |
| `SigningKeys.SigningService.GetActiveSigner` | src/tokens/keys.ts:135-146 | through the cache, the active key's own private key |
| `SigningKeys.SigningService.GetVerificationKey` | src/tokens/keys.ts:148-160 | through the cache, the stored public key of any kid |
| `SigningKeys.SigningService.Sign` | src/tokens/mint.ts:13-22 | the token carries the payload under the active kid and verifies with the stored public key |
| `SigningKeys.SigningService.ValidateAccessToken` | src/tokens/validate.ts:79-155 | the validator behind its cache decides exactly as the table does, check by check |
| `SigningKeys.SignatureVerdict` | src/tokens/validate.ts:79-115 | algorithm, key and signature are checked in this order before any claim, each refusal with its one cause |
| `SigningKeys.ClaimsVerdict` | src/tokens/validate.ts:117-154 | claims pass exactly when issuer, times, audience, scopes and roles all do, and a refusal names the first that fails |
| `SigningKeys.ActiveKeyIsPublished` | src/tokens/keys.ts:162-169 | a tenant's JWKS holds exactly its own keys that are active or not past their end |
| `SigningKeys.ScpReadsBack` | src/tokens/validate.ts:139-145 | the validator splits `scp` back into the scope names it was built from |
| `SigningKeys.PayloadCarries` | src/tokens/claims.ts:169-213 | issuer, audience, times, scopes and roles of a payload are the grant's, whatever is configured |
| `SigningKeys.PayloadPassesExactly` | src/tokens/validate.ts:117-152 | the claims pass exactly for the issuer and an accepted audience, from a skew before issue to a skew after expiry, when the grant covers the required scopes and roles |
| `KeyRuns.InvRun` | src/tokens/keys.ts:128-170 | in every reachable state at most one key a tenant is active and both caches agree with the table |
| `KeyRuns.KeysStay` | src/store/repositories/signingKeys.ts:72-94 | over any run no key is lost or changes its pair, tenant or end |
| `KeyRuns.CachesAreInvisible` | src/tokens/keys.ts:148-160 | the cached validator of any reachable state decides as the table alone would |
| `KeyRuns.MintThenValidate` | src/tokens/validate.ts:79-155 | a minted access token is accepted after any rotation exactly within its window, by its issuer and audience, for what its grant covers |
| `KeyRuns.AcceptedWasSigned` | src/tokens/validate.ts:98-115 | whatever is accepted was signed with the private key stored under its kid |
| `KeyRuns.MintedWithAPublishedKey` | src/tokens/keys.ts:135-169 | every token was signed by a step that was given its payload, with a key that had been its tenant's active, published key |
| `KeyRuns.MintSigns` | src/tokens/mint.ts:13-22 | every mint signs the payload it is given with the stored private key of its kid |
| `KeyRuns.FreshKeySigns` | src/tokens/keys.ts:93-146 | a key inserted active can be read and signs at once, under its own kid |
| `Percent.EncodeRoundTrip` | src/graph/handlers.ts:140-140 | decoding inverts `encodeURIComponent` on every string, byte by byte |
| `Percent.EncodedIsSafe` | src/graph/handlers.ts:140-140 | an encoded value holds none of the delimiters of a URL or query |
| `QueryStrings.PairsRoundTrip` | src/graph/handlers.ts:133-144 | a query written with encoded values reads back to the same pairs when every key survives being written unescaped |
| `QueryStrings.PlusIsSpace` | src/graph/handlers.ts:135-135 | without escapes a component decodes to itself but for its plus signs, which are spaces |
| `QueryStrings.RegroupAfter` | src/graph/handlers.ts:137-141 | repeated keys written out value by value are grouped again as they were |
| `QueryStrings.QueryArrivesExactly` | src/graph/handlers.ts:133-144 | a grouped query written with unescaped keys, sent by a client and parsed, is itself again exactly when every key holds no `&`, `=` or `#` and decodes to itself |
| `GraphPaging.ParseTop` | src/graph/handlers.ts:115-119 | the page size is between 1 and the cap: the given integer in that range, the cap above it, the default below it and when no integer is given |
| `GraphPaging.SkipMeans` | src/graph/handlers.ts:122-126 | the offset is the integer given, if it is not negative, and otherwise zero |
| `GraphPaging.PushValues` | src/graph/handlers.ts:139-140 | the inner loop pushes one encoded part for each value of a key |
| `GraphPaging.PushParts` | src/graph/handlers.ts:136-141 | the outer loop pushes every parameter but the offset |
| `GraphPaging.OthersByPart` | src/graph/handlers.ts:136-141 | the link keeps every parameter but the offset, whole and in order |
| `GraphPaging.DecSpells` | src/graph/handlers.ts:142-143 | the digits written for an offset spell it |
| `GraphPaging.BuildNextLink` | src/graph/handlers.ts:133-144 | the link is the published path with every other parameter kept and the offset set |
| `GraphPaging.SendCollection` | src/graph/handlers.ts:147-168 | the page at the offset, and a next link exactly when more remain |
| `GraphPaging.FollowedLink` | src/graph/handlers.ts:133-144 | following a link, router included, reaches the same route and passes the guard, and has the parameters the link was built from exactly when every kept key survives |
| `GraphPaging.NextRequest` | src/graph/handlers.ts:147-168 | when the kept keys survive, the next request keeps route and page size and starts where the page ended |
| `GraphPaging.Server.CrawlIsTheRest` | src/graph/handlers.ts:155-166 | on any server whose links lead to the next slice, following them ends and yields the rest once, in order |
| `GraphPaging.CrawlYieldsTheCollection` | src/graph/handlers.ts:133-168 | following `@odata.nextLink` from any request whose kept keys survive ends and yields every item from its offset on exactly once, in order |
| `GraphPaging.PublishedCrawl` | src/graph/handlers.ts:233-253 | a published route without a query, followed to the end, gives the whole collection |
| `LostKeys.LostKeyRepeatsThePage` | src/graph/handlers.ts:133-144 | a request whose key does not survive, on any collection of more than one page: the link leads back to the first page |
| `GraphPaging.UserPagesAreSlices` | src/graph/handlers.ts:255-261 | the user listing's pages and count are slices and size of the table |
| `GraphUrls.HostIsRecognised` | src/http/hostRouting.ts:35-53 | a header's host equals an origin's hostname exactly when the hostnames agree and hold no brackets |
| `GraphUrls.RoleOnGraphHost` | src/http/hostRouting.ts:94-107 | the role of a request for the Graph origin, for every configuration |
| `GraphUrls.RoleOnOtherHosts` | src/http/hostRouting.ts:94-107 | the role of a request for the login origin, for the portal origin and for any other host, for every configuration |
| `GraphUrls.TenantRouteIsLogin` | src/http/hostRouting.ts:62-66 | a tenanted route belongs to the login host exactly by its second segment |
| `GraphUrls.EachHostServesItsSlice` | src/http/hostRouting.ts:152-168 | the guard lets through the tenanted routes on the login host, the Graph surface on the Graph host, and on the portal its API, the discovery documents and to a GET whatever the other two do not have |
| `GraphUrls.PublishedUrlRoundTrip` | src/http/hostRouting.ts:109-115 | a published Graph URL is rewritten to its registered route, query included, exactly under a condition on the Graph origin's path and brackets and on whether its hostname differs from login's |
| `GraphUrls.PublishedUrlIsServed` | src/http/hostRouting.ts:152-168 | it is also let through by the guard exactly under `ServesGraph`, a condition on the configured origins alone |
| `GraphUrls.UsualDeploymentsServe` | src/http/pathmap.ts:48-73 | without a path in the Graph origin, an unbracketed Graph hostname apart from login's, and one origin for all three, serve every route |
| `GraphUrls.OneOriginIsIdentity` | src/http/pathmap.ts:48-73 | with one origin for all three, publishing only puts the origin in front and the router rewrites nothing |
| `GraphUrls.BracketedGraphHostIsNotServed` | src/http/hostRouting.ts:35-53 | three distinct hostnames with an IPv6 Graph host serve no Graph route |
| `GraphUrls.SharedLoginHostIsNotServed` | src/http/hostRouting.ts:100-107 | one origin for login and Graph beside a portal of its own serves no Graph route |
| `GraphUrls.TrailingSlashIsNotServed` | src/http/pathmap.ts:48-73 | three distinct hostnames with a trailing slash on the Graph origin serve no Graph route |
| `Like.EscapedIsLiteral` | src/store/util.ts:48-50 | an escaped term followed by `%` matches exactly the texts that begin with it |
| `Like.SearchIsSubstring` | src/store/repositories/users.ts:68-77 | the search pattern matches exactly the texts the term occurs in, ignoring ASCII case |
| `Users.SelectedMeans` | src/store/repositories/users.ts:64-81 | a user is selected exactly when the trimmed term is empty or occurs in one of its two names |
| `Users.TrimMeans` | src/store/repositories/users.ts:67-67 | trimming drops the white space at both ends, all of it and nothing else |
| `Users.SelectMeans` | src/store/repositories/users.ts:64-81 | each row is selected as often as the table has it, or not at all |
| `Users.SelectKeepsOrder` | src/store/repositories/users.ts:72-76 | selection keeps the table's order |
| `Users.PagesCoverTheList` | src/store/repositories/users.ts:64-94 | pages of any size put together give each matching row once, in order |
| `Users.ListMeans` | src/store/repositories/users.ts:64-76 | without parameters a listing is the first hundred rows; an offset and a limit cut out just that part |
| `HostsFile.Markers.KeptIsStable` | src/cli/hosts.ts:75-102 | a run keeps exactly what the file held outside its block |
| `HostsFile.Markers.OneBlockIsWritten` | src/cli/hosts.ts:91-102 | applying to clean content writes one whole block at the end of the file, and before it only what was kept |
| `HostsFile.Markers.NoBlockIsLeft` | src/cli/hosts.ts:91-102 | removing from clean content leaves what was kept and no marker |
| `HostsFile.Markers.EveryNameIsMapped` | src/cli/hosts.ts:69-102 | every name gets a line of its own that maps it to 127.0.0.1 |
| `HostsFile.Markers.LastRunWins` | src/cli/hosts.ts:91-102 | on clean content two runs in a row, applying or removing, equal the second alone |
| `HostsFile.Markers.IdempotentExactlyOnCleanContent` | src/cli/hosts.ts:91-102 | earlier runs are absorbed by later ones, whatever the names, exactly on clean content |
| `HostsFile.Markers.AbsorbedExactlyWithoutEndMarkers` | src/cli/hosts.ts:69-102 | on clean content a run is absorbed by later ones exactly when no name holds the end marker |
| `HostsFile.Markers.LoneBeginMarkerIsLost` | src/cli/hosts.ts:75-84 | a file that is a lone begin marker loses it once a block is written and stripped |
| `HostsFile.Markers.EndMarkerAsNameIsNotRemoved` | src/cli/hosts.ts:69-84 | `applyHostsContent` given the end marker as a name, which the program never does, writes a block that is not removed without a trace |
| `HostsFile.Markers.TextOutsideTheBlockIsKept` | src/cli/hosts.ts:75-96 | all text before and after the first block survives in order with its line breaks; only newlines at the cuts and at the end of the file go, and one newline joins the two parts |
| `HostsFile.Markers.CleanMeansKept` | src/cli/hosts.ts:75-84 | nothing kept holds a begin marker exactly when the content is clean |
| `HostsFile.ManagedMarkersAreValid` | src/cli/hosts.ts:69-72 | the two marker texts satisfy all the proofs need |
| `HostNames.DesiredHostNames` | src/cli/hosts.ts:45-66 | the set holds exactly the origins' hosts, the base domain, and each extra domain with its three subdomains, loopback and literal addresses left out |
| `HostNames.DesiredNamesAreEndFree` | src/cli/hosts.ts:45-66 | no name the program writes holds the end marker |
| `HostNames.ProgramRunsAreAbsorbed` | src/cli/hosts.ts:91-159 | on clean content a run of the program is absorbed by whatever run comes next, for every configuration |
| `RecentAccounts.CookieIsHistoryCut` | src/identity/authorize.ts:43-70 | after any sign-ins the stored list is the first eight of the unbounded move-to-front list |
| `RecentAccounts.HistoryIsDistinct` | src/identity/authorize.ts:58-63 | no two entries are equal ignoring case |
| `RecentAccounts.HistoryIsByRecency` | src/identity/deviceApproval.ts:87-114 | the list is every account ever used, most recent first |
| `Html.EscapeIsSubstitution` | src/identity/signinPage.ts:34-41 | the five sequential replacements equal one per-character substitution |
| `Html.EscapingIsLosslessAndSafe` | src/identity/signinPage.ts:34-41 | decoding the entities gives the input back, and the output holds no angle bracket or quote |

## Left out

- Real cryptography (SHA-256, HMAC, RS256, scrypt, random bytes, base64 and JSON forms): ideal, as listed above.
- SQLite beyond the statements used: foreign keys, its pattern-length limit, the order of rows where the source gives none.
- Client authentication, the client-credentials grant, logout, discovery and userinfo: no state that the theorems depend on.
- Narrowing on the code grant: `scope` is checked there and has no effect on the grant, so it is not a step of the model.
- Rendering, cookies, sessions' own lifecycle, form posts, Fastify wiring, TLS, the CLI's file access and the sorting of its names.
- Admin routes, configuration loading, seed, reset and migrations: field mapping and fixed lists. Reset with `resetKeys` deletes key rows and leaves cached keys behind, so the key machine has no such step.
- Equality of previewed and issued tokens: the preview takes the app URI as audience where issuance takes the app id.
- Lists that name several resources: the audience follows the first qualified scope, so scope names of other resources share that audience.
- The order of keys in the JWKS, and of children in the family search: any order is allowed.
- The descriptor that the login and Graph hosts answer at their bare root: the guard itself refuses that path.
- Configured origins with user info, a query, a fragment, escapes or dots in their path: only plain paths are modelled.
- GraphPaging.CrawlYieldsTheCollection: its condition on the keys is sufficient; what is exact is the one link of `GraphPaging.FollowedLink`.
