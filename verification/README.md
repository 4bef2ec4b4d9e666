# Verification of the account API

A Dafny model of the state-changing protocols of the account API, with proofs. Each component is
modelled twice where the source runs it concurrently: as an interleaved step machine, in which every
database, cache or clock access is one step and any other client may run in between, and as classes
whose methods follow the handlers and services line by line. A method's contract says that it does what
the machine does when nothing else moves, so the theorems about all interleavings speak about the same
code; and it says outright, over the tables or the cache it finds, what it answers and what it leaves
behind, case by case, in the handler's order.

`dafny verify dfyconfig.toml` checks everything.

## Components

- **Scope registry** (`Manifest`, `Store`, `Registry`, `RegistryAnswers`, `RegistrySafety`, `Bootstrap`,
  `Catalog`, `MachineScopes`, `Services`, `CatalogCache`, `PublishEndpoint`). Manifests and their canonical form;
  tables with a revision condition and an append-only history; publishers, restorers, booting instances
  and operators as interleaved clients; the merge into the grantable catalog; the catalog cache; the
  conditional PUT and the client it reconciles. `RegistrySafety.Exec(Empty, acts)` ranges over every reachable state.
- **Signing keys** (`Keys`, `Jwt`, `Rotation`, `RotationRuns`, `FleetTokens`, `Rotator`). Wire format, the
  version-cached reader, token signing and verification, and a fleet that reloads two stored keys with
  two reads and rotates them with two writes under a lock that expires, and which of its instances accept
  which token.
- **Cache client and one-time tokens** (`CacheClient`, `FixedWindow`, `MfaChallenge`, `MfaOutcomes`). The in-memory
  cache client as a class, fixed-window counters, and concurrent second-factor challenges on one token.
- **Organization migration** (`TaxId`, `MigrationPlan`, `MigrationRun`, `MigrationResume`,
  `MigrationContents`, `MigrationApply`, `MigrationClock`). The planner that refuses to guess, runs that may die
  before any write, and what a complete one stores, field by field.
- **Authorization codes and tokens** (`OauthClients`, `AuthCode`, `AuthCodeOutcomes`, `Consent`,
  `AuthCodeHandlers`, `AuthCodeRuns`, `Base62`). Authorization requests, consent decisions, code exchanges and client
  registrations side by side; where granted scopes come from; base-62 token text.
- `Strings`, `Sorting` and `Wrappers` hold what the others share.

## What the code does where its comments or a natural reading say otherwise

- *How long a demoted signing key is kept.* "At least one maximum age after the demotion" is not what
  the code gives, even when every rotation keeps its lock. The key leaves when its successor is older
  than `KeyMaxAge`, and the successor counts its age from its creation, which may precede the demotion
  by almost `LockTTL`, truncated to whole seconds. `Rotation.Retention` proves the bound the code always
  meets, `RotationRuns.LeavesBeforeMaxAge` is a run that falls short of the larger one, and
  `RotationRuns.KeptFullAgeIff` says for each demotion when every continuation keeps the full age:
  exactly when the successor, as stored, was created at the instant of the demotion.
- *Timing hypothesis.* Retention needs `Rotation.Timely`: a tick that wins the lock still finds the key
  it loaded stored as active, it saves both keys before its lock expires, and its release deletes nobody
  else's unexpired lock. Each part is needed. `tick` does not check the age again after it has the lock
  (`RotationRuns.StaleTickLosesKey`), the two saves are unconditional (`RotationRuns.LateSaveLosesKey`,
  `RotationRuns.LateDemotionLosesKey`), and so is the release (`RotationRuns.LateReleaseLosesKey`). In the
  last three runs every step but the one is timely; in all four the active key vanishes at the instant at
  which it was still active.
- *Propagation of a new key.* The comment at rotator.go:13-15 says a new key propagates before a token
  signed with it can be rejected. The rotating instance signs with it at once, so an instance that has
  not reloaded rejects such a token: `RotationRuns.NewKeyRejectedBeforeReload` is a run,
  `FleetTokens.LoadedTooEarlyRejects` says it of every load that finished before the key became active,
  and `FleetTokens.TokenAcceptedIff` says exactly which instance accepts what.
- *A second organization.* The comment at organization/repository.go:179-183 says the worst case of a
  stale lookup is a rejected duplicate. The create is conditional on a newly generated id, so a stale
  lookup creates a second organization: `MigrationResume.StaleLookupDuplicates`. The migration theorems
  therefore assume that lookups by source reference are current.
- *Creation dates.* A plan falls back to the clock when the organization's own creation date is
  unreadable, and the first run to write a row fixes its date. `MigrationClock.ResumableIff` says exactly
  when an import that died can be completed at another clock without a trace: every planned organization
  has a readable date, or it is there with its company (or the tax id is taken) and every planned member
  who is missing has a readable date. For a first import only the organizations' dates matter
  (`MigrationClock.FirstImportResumableIff`).
- *PKCE for public clients.* Required at the authorization request of a client that is public then; the
  exchange looks at the stored challenge only. Possession was proved exactly when the request carried a
  challenge (`AuthCode.PossessionProvedIff`). No update changes a client's type, so a client that is
  public at the exchange has proved possession unless it was deleted or registered anew under its id in
  between (`AuthCode.PublicClientsProvePossession`). An operator may register a free id of their choice,
  and what was stored under it before is not looked at, so that can happen:
  `AuthCodeRuns.ReplacedClientSkipsPkce`.
- *Empty scopes.* `ValidateGrantable` and `ValidateMachineGrantable` answer with the first refused scope,
  or with the empty text for "all allowed". A refused empty scope therefore reads as acceptance
  (`Catalog.AcceptsExactly` is exact), and the request validation (oauth_clients.go:84, 114) admits an
  empty scope. A developer client registered with an empty scope followed by any other one passes both
  checks and gets a machine token for it (`MachineScopes.BlankScopeAdmitsAny`);
  `MachineScopes.HeldScopesArePublished` says exactly when passing means that everything held is
  published.
- *Legacy machine scopes.* A legacy service row may itself mark an entry for machines. A held scope is
  published by a resource or is such an entry of a service no resource manages
  (`MachineScopes.HeldScopesArePublished`).
- *Audiences.* A kept legacy service that lists a resource's scope under another audience adds that
  audience; the statement about resource scopes says exactly when (`Catalog.AudienceOfResourceScopes`).
- *Provisioning and the catalog cache.* Provisioning clears no cache; `CatalogStaleness.ProvisionStaysFreshIff`
  says when the cached catalog stays right.
- *Counters and tokens.* The bound on second-factor guesses holds of every run exactly when the counter
  lives at least as long as the token (`MfaChallenge.GuessesBoundedIff`); with any shorter counter one
  guess more is possible (`MfaChallenge.ShortCounterAllowsMore`).
- *Incremental consent.* The comment at consent/service.go:30-31 says approving new scopes never drops
  old ones. The grant is read and then put without a condition, so of two approvals recorded side by side
  one can be lost (`AuthCodeRuns.ConcurrentApprovalsCanLoseOne`). `Consent.RecordingLosesIff` says exactly
  which scope is lost, and without an overlapping decision none is (`Consent.ApprovalsAddUp`).
- *Revoked consent.* For the same reason an approval that read the grant before the user revoked it puts
  the revoked scopes back (`AuthCodeRuns.RevocationIsUndone`). A granted scope was approved and not
  revoked since, unless a recording brought this very scope back over the last revocation
  (`Consent.GrantedScopesWereApproved`), and `Consent.RevocationUndoneIff` says exactly when a revocation
  is undone.
- *A taken tax id.* When an organization is there without its company and the company's tax id is taken
  inside it, the run stops with an error. Otherwise a run that does not die completes (`MigrationApply.MigrateAlive`) and every company is imported
  (`MigrationResume.UnblockedRunImportsCompanies`).
- *A publish answered with an error.* When the client that carries the resource's id is not a first-party
  public one, the PUT answers an error although the manifest is stored
  (`PublishEndpoint.ScopeRegistryHandler.Put`).
- *Rows the migration reads.* The source rows of one organization are read with a limit of 500 and no
  paging (main.go:219-236). `MigrationApply.EveryoneIsImportedIff` says exactly when nobody is missed; with
  at most 500 rows nobody is.

## Model

| member | source | states |
|---|---|---|
| Manifests.ValidateManifest | api/internal/scopes/resource.go:103-168 | accepts exactly the valid manifests: known schema, ownable id, bounded name and list, every entry concrete, described in bounded bytes, in its owner's namespace, never an internal machine scope, no name twice |
| Manifests.CheckEntry | api/internal/scopes/resource.go:116-156 | an entry passes iff its name is a concrete scope of the grammar, not an OIDC one, in the owner's public namespace or, for no machine, the internal one, with both texts present and bounded and a known status |
| Manifests.TwoParts | api/internal/scopes/scopes.go:38-58 | a text of two parts is a scope iff the first is a segment and the second one or the wildcard |
| Manifests.ThreeParts | api/internal/scopes/scopes.go:38-58 | of three parts: a service with resource and action, each a segment or the wildcard, or internal with two segments |
| Manifests.FourParts | api/internal/scopes/scopes.go:38-58 | of four parts: internal with three segments |
| Manifests.CheckScopes | api/internal/scopes/resource.go:116-156 | the `seen` map loop finds the first bad or repeated entry, or none |
| Manifests.CanonicalManifest | api/internal/scopes/resource.go:187-203 | copying and sorting in place yields the canonical form: same version and owner, trimmed name |
| Manifests.NormalizeEntry | api/internal/scopes/resource.go:187-203 | an entry keeps name, visibility, status and mark; its texts are the given ones or the language map's, trimmed; the map is dropped |
| Manifests.CanonicalIdempotent | api/internal/scopes/resource.go:187-213 | canonicalising twice is canonicalising once, and a manifest hashes like its canonical form |
| Manifests.OrderDoesNotMatter | api/internal/scopes/resource.go:187-213 | manifests that differ in scope order only have the same canonical form and hash |
| Manifests.HashIdentifiesContent | api/internal/scopes/resource.go:205-213 | two duplicate-free manifests hash alike iff version, owner, trimmed name and the multiset of normalized scopes agree |
| Manifests.CanonicalIsValid | api/internal/scopes/resource.go:187-203 | the canonical form of a valid manifest is valid |
| Manifests.CanonicalKeepsNames | api/internal/scopes/resource.go:187-203 | canonicalisation neither adds nor drops a scope name |
| Manifests.EnsureNoActiveRemoval | api/internal/scopes/resource.go:231-250 | refuses exactly when a scope active in the stored row is missing from the new manifest |
| Store.Repository.Create | api/internal/scopes/repository.go:111-128 | stores the row iff the id is free, otherwise changes nothing |
| Store.Repository.Reconcile | api/internal/scopes/repository.go:132-171 | moves the row and adds its history row together iff the stored revision is the expected one and the history row is new |
| Services.RegistryService.CheckPublish | api/internal/scopes/registry.go:114-137 | goes on to a write iff the manifest is valid, the row there, owned by the actor, at the expected revision, without an active scope dropped and with another hash; otherwise each answer under its exact condition, in order; one step of the machine |
| Services.RegistryService.Publish | api/internal/scopes/registry.go:114-152 | which answer under which condition on the row, and what a success stores: the next revision of the canonical manifest with its author and source, and one history row; equals the publish client run alone; a failure changes no table; a fresh cached catalog stays fresh |
| Services.RegistryService.ResourceFromManifest | api/internal/scopes/resource.go:215-229 | the next row keeps id, audience and publisher, takes trimmed name, canonical scopes and hash, the next revision, the clock, the actor and the source |
| Services.RegistryService.Restore | api/internal/scopes/registry.go:154-180 | stores iff the row is there at the revision the operator named, the snapshot is there and the next history row is free; then the snapshot's content as the next revision; otherwise which error; equals the restore client run alone; a fresh cached catalog stays fresh |
| Services.RegistryService.BootstrapAccount | api/internal/scopes/registry.go:34-88 | finds or makes the account row, and over it: refuses another audience or owner, refuses to drop an active scope, answers unchanged for the same hash, else stores the manifest as the system; equals the bootstrap client run alone; an invalid manifest or audience changes nothing; the cached catalog is dropped exactly when the publish inside stores, and then what it serves is fresh |
| Services.RegistryService.Provision | api/internal/scopes/registry.go:94-110 | refuses malformed and reserved ids, empty names and publishers and bad audiences, then a taken id; else stores an empty resource at revision zero; equals the provision client run alone; it leaves the cache as it is |
| Services.RegistryService.Invalidate | api/internal/scopes/registry.go:182-190 | deletes the cached catalog and nothing else |
| RegistryAnswers.PublishAlone | api/internal/scopes/registry.go:114-152 | the publish client nobody interrupts answers and leaves exactly what is said of Publish |
| RegistryAnswers.RestoreAlone | api/internal/scopes/registry.go:154-180 | the same for the restore client |
| RegistryAnswers.BootAlone | api/internal/scopes/registry.go:34-88 | the same for the bootstrap client, with or without an account row |
| RegistryAnswers.ProvisionAlone | api/internal/scopes/registry.go:94-110 | the same for the provision client |
| RegistrySafety.HistoryIsExact | api/internal/scopes/repository.go:132-171 | in every interleaving a resource at revision n has exactly the history rows 1..n, row n mirrors the current row, each row carries its predecessor's hash, every row's content is valid and canonical |
| RegistrySafety.NothingIsRewritten | api/internal/scopes/repository.go:141-170 | between any two moments of a run no history row changes, no revision goes back, audience and publisher never change |
| RegistrySafety.WritesFollowTheirPredecessor | api/internal/scopes/registry.go:114-180 | a write that succeeds was computed from the whole row it replaces, and adds exactly one history row |
| RegistrySafety.WritesAreAsAsked | api/internal/scopes/registry.go:114-180 | in every interleaving, whenever a write changes the tables its client had begun with a request that named the revision of the very row it replaces: a publish by that row's publisher of a valid manifest that drops no active scope, or a restore of a snapshot; and what is stored is that manifest or that snapshot |
| RegistrySafety.RevisionConditionDecides | api/internal/scopes/repository.go:154-170 | in reachable states the transaction succeeds iff the revision condition holds; the condition on the history row never decides |
| RegistrySafety.ActiveScopesSurvive | api/internal/scopes/resource.go:231-250 | a scope active at revision i is listed at revision i+1 unless a restore wrote i+1, although the check runs on an earlier read |
| RegistrySafety.RestoreReproduces | api/internal/scopes/registry.go:154-180 | a revision written by restoring r has the name, scopes and hash of history row r |
| RegistrySafety.NextKeeps | api/internal/scopes/registry.go:34-180 | every step of every client keeps the tables, the writers' promises and what each client relies on |
| Bootstrap.BootstrapConverges | api/internal/scopes/registry.go:34-88 | any number of concurrent bootstraps of one manifest that are the account resource's only writers, among any other clients on other resources, all succeed, store this manifest, and raise the revision by at most one, from an absent or an existing row |
| Bootstrap.BootstrapIsShort | api/internal/scopes/registry.go:34-88 | each bootstrap finishes within six of its own database calls |
| Catalog.MergeResourceServers | api/internal/scopes/service.go:191-230 | the three loops compute the merge of unmanaged legacy services and resource services |
| Catalog.ServicesOf | api/internal/scopes/service.go:203-228 | at most a public and an internal service under the resource's names and audience; every entry stands for a definition with its texts and mark, in the internal one exactly if deprecated or internal; none is lost |
| Catalog.WithoutInternal | api/internal/scopes/service.go:196-202 | a legacy row of internal:x stands for x, any other for itself |
| Catalog.BucketInOrder | api/internal/scopes/service.go:203-220 | entries keep the order of the definitions |
| Catalog.FirstNotAllowed | api/internal/scopes/service.go:105-154 | the answer is the first scope that is not allowed, all before it being allowed, or the empty text when all are |
| Catalog.AcceptsExactly | api/internal/scopes/service.go:105-154 | the empty answer means every scope is allowed if none is empty; otherwise that those before the first empty one are |
| Catalog.GrantableMeaning | api/internal/scopes/service.go:105-154 | a scope is grantable iff it is active and public in a managed resource or listed by a non-internal legacy service no resource manages; the same for machines with the m2m mark |
| Catalog.ScopesNeverCollide | api/internal/scopes/resource.go:103-168 | two validated resources never list the same scope |
| Catalog.AudiencesFor | api/internal/scopes/service.go:159-189 | the loop collects the audiences of the services touched by the requested scopes |
| Catalog.AudienceListMeaning | api/internal/scopes/service.go:159-189 | the result has no repeats and holds exactly the nonempty audiences of services offering a requested scope |
| Catalog.AudienceOfResourceScopes | api/internal/scopes/service.go:159-230 | scopes of one resource, deprecated ones included, resolve to exactly that resource's audience, iff no kept legacy service offers one of them under another |
| MachineScopes.ScopesForDeveloperClient | api/internal/handler/token.go:257-279 | all or nothing: succeeds iff the owner is active, everything held passes the machine check and everything requested is held |
| MachineScopes.ClientCredentials | api/internal/handler/token.go:183-255 | a token carries only requested scopes the client holds, never none, for this service's audience and those of the scopes in the second catalog load; exact success conditions per client kind, and the exact condition of each refusal |
| MachineScopes.ReachableIsValidated | api/internal/scopes/resource.go:103-168 | every registry reachable through publishes, restores, bootstraps and provisions has validated resources with distinct ids |
| MachineScopes.HeldScopesArePublished | api/internal/scopes/service.go:132-154 | over any reachable registry, a held list passes iff every scope before its first empty one is active, public, marked m2m and outside the internal namespace, or an unmanaged legacy m2m entry; and passing implies this of everything held iff an empty scope can do no harm |
| MachineScopes.MachineTokensArePublished | api/internal/handler/token.go:183-279 | the same carried to the issued token: a developer client's token lists held scopes, all published where an empty held scope is harmless; elsewhere any nonempty request for held scopes is granted although something held is not published |
| MachineScopes.BlankScopeAdmitsAny | api/internal/domain/oauth/client/service.go:58-64 | an empty scope followed by any other passes the registration check and the machine check, and the token for that other scope is issued |
| Services.CatalogService.Catalog | api/internal/scopes/service.go:39-69 | a readable nonempty cached catalog is served as it is; otherwise the merge of the tables is served and, if not empty, cached for 300 seconds; over a fresh cache the answer is the merge and the cache stays fresh |
| Services.CatalogService.PutService | api/internal/scopes/service.go:73-83 | stores the row and clears the cached catalog |
| CatalogStaleness.UndisturbedLoad | api/internal/scopes/service.go:39-69 | the machine's request nobody interrupts serves and caches exactly what is said of Catalog |
| CatalogStaleness.ServedCatalogIsRecent | api/internal/scopes/service.go:39-69 | with interleaved loads, writes and invalidations a served catalog merges table states no older than the cache lifetime plus the duration of the load that filled the cache |
| CatalogStaleness.ProvisionStaysFreshIff | api/internal/scopes/registry.go:94-110 | after provisioning, the catalog cached before is still the merge of the tables iff no legacy service stands for the new resource |
| PublishEndpoint.ScopeRegistryHandler.Put | api/internal/handler/scope_registry.go:85-148 | every answer under its condition, in order; the publish is reached iff the tag names the stored row by revision and hash and the body fits the route; the tables go where the publish alone takes them; then the resource's client gets the published scopes, or the answer is an error with the manifest stored |
| PublishEndpoint.NoLostUpdate | api/internal/handler/scope_registry.go:91-116 | if the write goes through, the row it replaces is the very row the caller's tag was read from, whatever ran between the three reads |
| PublishEndpoint.PublicScopesAreGrantable | api/internal/handler/scope_registry.go:150-158 | the scopes handed to the resource's own client are exactly those the catalog makes grantable from it, and lie in its public namespace |
| PublishEndpoint.ClientService.EnsureFirstPartyPublicClientScopes | api/internal/domain/oauth/client/operator.go:195-231 | appends missing scopes to the platform's own client of that id and changes nothing else; refuses scopes outside the public namespace of that id and clients of another kind |
| PublishEndpoint.AppendMissingKeeps | api/internal/domain/oauth/client/operator.go:217-222 | nothing is removed or reordered; exactly the missing scopes are added |
| PublishEndpoint.SelectedCounts | api/internal/handler/scope_registry.go:174-182 | the reported counts are the numbers of entries with that status |
| PublishEndpoint.PublishedScopesAreTaken | api/internal/handler/scope_registry.go:131-134 | after a valid publish the reconciliation never refuses a scope |
| CacheClient.Client.Set | api/internal/cache/valkey.go:73-88 | stores the value until now plus the lifetime; other keys stay |
| CacheClient.Client.Get | api/internal/cache/valkey.go:94-128 | finds exactly what is stored and not past its expiry |
| CacheClient.Client.GetDel | api/internal/cache/valkey.go:133-170 | removes the entry in any case and returns it iff it was still readable |
| CacheClient.Client.Exists | api/internal/cache/valkey.go:186-202 | true iff the key is stored and its expiry lies ahead |
| CacheClient.Client.Count | api/internal/cache/valkey.go:206-238 | the live count, zero when absent, an error when the value is no number |
| CacheClient.Client.TTL | api/internal/cache/valkey.go:245-273 | the time left, zero from the expiry on |
| CacheClient.Client.Incr | api/internal/cache/valkey.go:288-334 | opens a window with the first count and never moves its expiry |
| CacheClient.Client.SetNX | api/internal/cache/valkey.go:339-367 | wins iff the key is free or expired, and only then writes |
| FixedWindow.IncrCountsTheWindow | api/internal/cache/valkey.go:288-315 | a call returns one plus the number of earlier calls of its window, whose expiry its opener set; the next window opens after it |
| FixedWindow.AtMostTwiceTheLimit | api/internal/cache/valkey.go:288-315 | in any stretch no longer than the ttl at most 2*max calls are told a count of at most max |
| MfaChallenge.AuthHandler.IssueMfaToken | api/internal/handler/auth.go:193-213 | stores the token payload under its hash for 300 seconds, or nothing in a disabled cache |
| MfaChallenge.AuthHandler.Challenge | api/internal/handler/auth.go:262-358 | over the cache it finds: no readable token is an invalid one; an unreadable counter is unavailable; past five attempts token and counter are dropped; a wrong code is refused and counted, the token kept; a right one gives the payload's user a session if the account is admitted, and drops both keys; equals the machine's challenge run alone; a disabled cache answers invalid token |
| MfaChallenge.ChallengeAlone | api/internal/handler/auth.go:262-358 | the machine's challenge nobody interrupts answers and leaves exactly that |
| MfaChallenge.NextKeeps | api/internal/handler/auth.go:272-317 | every step of every challenge, the clock and other keys keep the protocol's invariant |
| MfaChallenge.OneSessionFewGuesses | api/internal/handler/auth.go:272-317 | whatever the interleaving, one token yields at most one session, from a challenge that counted itself while the token was there, and at most maxAttempts of those reach a code check, provided the counter lives as long as the token |
| MfaOutcomes.SessionsAreEarned | api/internal/handler/auth.go:302-345 | in every run a session is the token's user's, and its challenge had its code found right, then took the token out while it was there, and then had its account admitted, in this order |
| MfaOutcomes.RefusalsHaveReasons | api/internal/handler/auth.go:302-345 | in every run an unauthorized challenge had a wrong code, and a refused one a right code, the token and an account not admitted |
| MfaChallenge.MfaLimitsHold | api/internal/handler/auth.go:25-31 | the configured lifetimes and the limit of five meet that proviso |
| MfaChallenge.ShortCounterAllowsMore | api/internal/handler/auth.go:281-293 | with any counter that expires before the token one guess more than the limit is possible |
| MfaChallenge.GuessesBoundedIff | api/internal/handler/auth.go:281-293 | the limit on guesses holds of every run iff the counter lives at least as long as the token |
| Keys.WireRoundTrip | api/internal/keystore/key.go:94-152 | writing and parsing a key gives it back, created at a whole second; doing it again changes nothing |
| Keys.ParsesExactly | api/internal/keystore/key.go:117-152 | what the parser takes: RSA material in either block, EC material in the newer one, an algorithm that is absent or the material's, a readable date; and what it keeps |
| Keys.WritesExactly | api/internal/keystore/key.go:94-110 | the newer block with the key's material and algorithm, its id, and its date in whole seconds |
| Keys.Store.GetKey | api/internal/keystore/ssm.go:57-84 | every cached entry is the parse of its version, and each call returns the parse of a version current at some moment of the call, whatever others write between its reads |
| Keys.Store.Load | api/internal/keystore/ssm.go:88-102 | each key is a version at least as new as at the start; a missing previous key is no error; undisturbed, it is the stored pair |
| Keys.StoredPairIs | api/internal/keystore/ssm.go:88-102 | the stored pair is the parses of the two latest versions; a previous key never written is no error, one that does not parse is |
| Keys.Store.Save | api/internal/keystore/ssm.go:125-134 | the previous key is written before the active one |
| Jwt.JWTService.SignAccessToken | api/internal/crypto/jwt.go:83-109 | signed with the active key; claim by claim: sub, sid, azp, scope, iss, aud, iat and exp are the grant's user, session, client, scopes, issuer, audiences, the clock and the lifetime; auth_time, last_mfa_at, amr and kyc_level are there exactly when the grant has them; no other claim |
| Jwt.JWTService.SignIdToken | api/internal/crypto/jwt.go:114-137 | signed with the active key; claim by claim the profile, client, nonce, issuer, level and one hour; no verifier ever accepts the result as a bearer token |
| Jwt.JWTService.Verify | api/internal/crypto/jwt.go:174-205 | accepts exactly the unaltered access tokens signed by a live key under its own id and algorithm whose audience, issuer and dates hold now, and returns the signed claims |
| Jwt.ExtractAndVerify | api/internal/middleware/auth.go:65-107 | a bearer token is taken iff it is accepted and names a user, and then stands for the user, session, client, scopes and last second factor it was signed for |
| Jwt.ScopesAreReadBack | api/internal/middleware/auth.go:126-130 | the token of a scope list has exactly its scopes, whatever the joined text is split into |
| Jwt.DeduplicatedIsSorted | api/internal/utils/list.go:8-18 | the audience claim is strictly sorted, so each audience is there once |
| Jwt.JWTService.PublicKeyJWKs | api/internal/crypto/jwt.go:247-255 | publishes exactly the live keys, the active one first |
| Jwt.JWTService.Reload | api/internal/crypto/jwt.go:68-72 | replaces the key pair |
| Jwt.LookupIsComplete | api/internal/crypto/jwt.go:155-193 | the lookup by key id with the algorithm cross-check finds the signer iff some live key signed the token |
| Jwt.AccessTokenIsAcceptedIff | api/internal/crypto/jwt.go:83-205 | a fresh access token is accepted by a holder of its key iff the audience includes it, the issuer matches and its whole-second lifetime is not over |
| Rotation.LoadSeesKey | api/internal/keystore/ssm.go:88-134 | two reads, active first, see every key that became active before the first and is still stored at the second, in every run |
| Rotation.StoreStep | api/internal/keystore/rotator.go:49-79 | one timely step leaves the stored keys, or copies the aged active key to previous, or replaces the active key that previous holds by one created under the lock |
| Rotation.TimelyStepKeeps | api/internal/keystore/rotator.go:55-75 | every timely step of every instance, crashes included, keeps mutual exclusion of rotations and the freshness of generated keys |
| Rotation.FailureIsHarmless | api/internal/keystore/rotator.go:49-79 | a failed call touches neither store nor lock nor live keys: after a failed lock attempt the tick goes live with what it loaded, after a failed release with the new key and the demoted one, after any other it ends |
| Rotation.Retention | api/internal/keystore/rotator.go:49-79 | in every timely run a key that has been active stays stored until its successor has aged, hence more than MaxAge less the lock lifetime and a second after its demotion |
| FleetTokens.TokenAcceptedIff | api/internal/crypto/jwt.go:139-205 | in every timely run an instance accepts another's token iff its first read found the signing key active or its second found it as previous, and the claims hold |
| FleetTokens.LoadedPairAccepts | api/internal/keystore/ssm.go:88-102 | in every run, timely or not, two reads between a key becoming active and leaving the store give a pair that accepts its tokens exactly when their claims hold |
| FleetTokens.TokenStaysVerifiable | api/internal/crypto/jwt.go:139-205 | a verifier that loaded after the signer read its key accepts its tokens exactly when their claims hold, while signing delay and token age stay within the retention bound |
| FleetTokens.KeyOutlivesTokens | api/internal/keystore/rotator.go:10-22 | with the configured numbers no access or id token of an instance that reloaded within 25,895 check intervals outlives its key: until it expires the key is live at every verifier that loaded since, which accepts the access tokens exactly when their claims hold |
| FleetTokens.LoadedTooEarlyRejects | api/internal/keystore/rotator.go:13-16 | an instance whose load finished before a key became active rejects every token signed with it |
| RotationRuns.UndisturbedTick | api/internal/keystore/rotator.go:49-79 | a due tick alone demotes the stored key, activates a new one, frees the lock and goes live with both |
| RotationRuns.ReloadingTick | api/internal/keystore/rotator.go:73-78 | with a young key or a lost lock the tick only reloads |
| RotationRuns.StaleTickLosesKey | api/internal/keystore/rotator.go:50-71 | without the timing hypothesis the active key can vanish at the instant it was still active |
| RotationRuns.LateSaveLosesKey | api/internal/keystore/ssm.go:125-134 | with every step timely except one save of the active key, the active key can vanish at the instant it was still active |
| RotationRuns.LateDemotionLosesKey | api/internal/keystore/ssm.go:125-134 | the same with every step timely except one save of the previous key |
| RotationRuns.LateReleaseLosesKey | api/internal/keystore/rotator.go:66-71 | with every step timely except one release after expiry, the active key can vanish at the instant it was still active |
| RotationRuns.NewKeyRejectedBeforeReload | api/internal/keystore/rotator.go:13-16 | in a timely run a token signed with the new key is rejected by an instance that has not reloaded |
| RotationRuns.LeavesBeforeMaxAge | api/internal/keystore/rotator.go:10-22 | in a timely run a key is still active and gone less than MaxAge later |
| RotationRuns.KeptFullAgeIff | api/internal/keystore/rotator.go:49-79 | after a demotion every timely continuation keeps the key for more than MaxAge iff the stored successor was created at the instant of the demotion |
| Rotator.Rotate | api/internal/keystore/ssm.go:138-151 | adds the stored active key as one more version of the previous parameter and a new key of the given algorithm, created now, as one more version of the active one; or changes nothing |
| Rotator.Rotator.Tick | api/internal/keystore/rotator.go:49-79 | with a key older than ninety days and a free lock it demotes that key, activates one of its algorithm, frees the lock and goes live with both; otherwise it goes live with the stored pair and changes nothing else; a failed load changes nothing; all this is where the fleet's machine goes when only this instance moves |
| TaxId.NormalizeIsIdempotent | api/internal/domain/company/taxid.go:34-140 | the canonical form of a tax id normalizes to itself, as the same kind |
| TaxId.NormalizeIff | api/internal/domain/company/taxid.go:34-140 | a text is accepted iff, case and mask aside, it is eleven digits or twelve letters or digits and two digits, not all the same, whose last two are the check digits of the published weights |
| TaxId.CanonicalizeOne | api/internal/domain/company/taxid.go:61-83 | what becomes of one character: kept, raised to upper case, dropped as mask, or refused |
| TaxId.CanonicalizeAppend | api/internal/domain/company/taxid.go:61-83 | a text is canonicalized character by character |
| MigrationPlan.PlanOrg | api/cmd/migrate-dfe-orgs/migrate.go:89-203 | creates iff nothing needs a human: a name, an existing owner, every row clear, at most one owner row, and it names the owner; the questions asked are exactly those of the organization, its rows and its owner rows, in order; the owner's name is the last owner row's; the members are the clear non-owner rows sorted by user id |
| MigrationPlan.ReadRows | api/cmd/migrate-dfe-orgs/migrate.go:124-187 | the row loop yields, in row order, exactly the questions, the owner rows and the members |
| MigrationPlan.RowIsReadAs | api/cmd/migrate-dfe-orgs/migrate.go:124-187 | which question is asked about a row, in which precedence, and what the other rows say field by field |
| MigrationPlan.RolesMap | api/cmd/migrate-dfe-orgs/migrate.go:41-57 | the four old roles, in any case and with blanks around, and what becomes of them; no other text has an equivalent |
| MigrationPlan.CreatedPlanAccountsForEveryRow | api/cmd/migrate-dfe-orgs/migrate.go:89-203 | rows and planned members match one to one apart from at most one owner row; members exist, have the mapped non-owner role and no extra permission; sorted |
| MigrationPlan.AskedNothingIff | api/cmd/migrate-dfe-orgs/migrate.go:124-187 | nothing is asked about the rows iff each is a clear member or the owner's row |
| MigrationPlan.EveryRowIsReported | api/cmd/migrate-dfe-orgs/migrate.go:124-187 | also in a refused plan each row is reported for what it is, right after the rows before it: as a question, an owner row or a member; and nothing else is |
| MigrationPlan.PlanCompany | api/cmd/migrate-dfe-orgs/company.go:40-107 | creates iff the key carries a valid document, there is a name and somebody acts; otherwise exactly those questions; every row with a user makes an actor with its name, inviter and date, and the owner acts without a row; nobody else does |
| MigrationPlan.DocumentInKey | api/cmd/migrate-dfe-orgs/company.go:124-131 | a key of either prefix carries the rest as its document |
| MigrationPlan.OtherKeysHaveNone | api/cmd/migrate-dfe-orgs/company.go:124-131 | any other key carries none |
| MigrationPlan.HasActor | api/cmd/migrate-dfe-orgs/company.go:109-116 | finds a user among the actors iff there |
| MigrationRun.ViewStep | api/internal/domain/company/repository.go:95-133 | a write changes what is stored for its own source reference, as the reference's view says, and for no other |
| MigrationRun.RunKeepsValid | api/internal/domain/company/repository.go:95-133 | every run keeps ids, source indexes and tax locks in step: a reference has one organization and one company inside it, and a tax id is locked by a company of that organization that has it |
| MigrationResume.InterruptedRunsConverge | api/cmd/migrate-dfe-orgs/migrate.go:232-273 | runs that died anywhere followed by a complete run leave, for every source reference, what one uninterrupted run leaves, up to generated ids |
| MigrationResume.OnePerSourceRef | api/cmd/migrate-dfe-orgs/migrate.go:235-254 | after any writes a source reference has at most one organization and one company |
| MigrationResume.ExistingRowsStay | api/internal/domain/organization/repository.go:276-294 | no write of any run changes an organization, company or membership that was there: no role is overwritten |
| MigrationResume.CompleteRunImportsEverything | api/cmd/migrate-dfe-orgs/company.go:146-192 | after a complete run every planned organization has its planned members, exactly the planned owner (or the owners it had), and its company with every planned actor unless the tax id was taken |
| MigrationContents.CompleteRunStoresThePlan | api/cmd/migrate-dfe-orgs/company.go:146-192 | field by field: an organization created in a complete run has the planned display name, owner, source and date, and its owner's row the planned name; each member added the planned role, name, inviter and date; a company created the plan's tax id, kind, legal name, source and date; each actor the planned name, granter and date; what was there stays and nobody else is added |
| MigrationContents.ImportedAsInTheSource | api/cmd/migrate-dfe-orgs/migrate.go:89-273 | a first import keeps the name, owner and date of the source row, the owner's name of the last owner row, and the company's document is that of the key |
| MigrationResume.UnblockedRunImportsCompanies | api/cmd/migrate-dfe-orgs/company.go:146-192 | a run that no taken tax id blocks leaves every planned organization with its company and all actors |
| MigrationResume.StaleLookupDuplicates | api/internal/domain/organization/repository.go:179-200 | an apply with a stale lookup creates a second organization for the same source reference |
| MigrationApply.Apply | api/cmd/migrate-dfe-orgs/migrate.go:232-273 | the result is all the organization's writes, or those before the one at which the process died; the counters say exactly how many memberships were added and how many were there |
| MigrationApply.ApplyCompany | api/cmd/migrate-dfe-orgs/company.go:146-192 | the same for the company half; it fails only when the writes run out or, changing nothing, when the tax id is taken |
| MigrationApply.Repository.CreateWithOwner | api/internal/domain/organization/repository.go:151-160 | one write stores the planned organization under a new id, its owner's row and the source index; or the process died |
| MigrationApply.Repository.PutMembership | api/internal/domain/organization/repository.go:276-294 | stores the planned member iff there is none under that user |
| MigrationApply.Repository.CreateCompany | api/internal/domain/company/repository.go:95-133 | stores the planned company, the lock on its tax id and the source index, iff the tax id is free in the organization |
| MigrationApply.Repository.PutActor | api/internal/domain/company/repository.go:244-257 | stores the planned actor over whatever was there |
| MigrationApply.BothHalves | api/cmd/migrate-dfe-orgs/main.go:94-122 | the organization is written iff neither half needs a human, and then with exactly the two planned halves |
| MigrationApply.Migrate | api/cmd/migrate-dfe-orgs/main.go:94-168 | a completed run wrote every plan in order, a failed one a prefix, a rehearsal nothing; the counter of created organizations is exact, and created, present and refused ones add up; a run fails only when the writes run out or when some planned organization is there without its company and the tax id is taken, and completes only when none is |
| MigrationApply.MigrateAlive | api/cmd/migrate-dfe-orgs/main.go:94-168 | a writing run with enough writes left completes iff no planned organization is there without its company while the tax id is taken |
| MigrationApply.MigrationResumes | api/cmd/migrate-dfe-orgs/main.go:94-155 | over unchanged data in which the planned organizations have readable dates, runs at any clocks that died, followed by a complete run, leave what one uninterrupted run leaves |
| MigrationClock.ResumableIff | api/cmd/migrate-dfe-orgs/migrate.go:102-107 | from any valid database an import can be interrupted anywhere and completed at any other clock with the same result iff every planned organization has a readable date, or is there with its company (or the tax id taken) and every missing planned member has one |
| MigrationClock.FirstImportResumableIff | api/cmd/migrate-dfe-orgs/migrate.go:102-107 | for organizations not imported before: iff every planned one has a readable date |
| MigrationClock.ClockShows | api/cmd/migrate-dfe-orgs/migrate.go:235-273 | where that fails, completing after a first run leaves something else than completing at once |
| MigrationApply.EveryoneIsImportedIff | api/cmd/migrate-dfe-orgs/main.go:219-236 | everybody with a row gets a membership iff nobody stands only past the first 500 rows, unless as the owner |
| OauthClients.AllowedScopes | api/internal/domain/oauth/client/model.go:129-137 | keeps exactly the requested scopes the client is allowed, in order |
| OauthClients.FilterScopesInOrder | api/internal/domain/oauth/client/model.go:129-137 | order and repetition are the request's |
| AuthCodeHandlers.Provider.CheckRequest | api/internal/handler/authorize.go:86-121 | passes iff client and redirect are named and registered, the response type is code, a challenge if any is S256, some requested scope is allowed, and a public client sent a challenge; each refusal under its exact condition, in the handler's order; the scopes are the requested allowed ones |
| AuthCodeHandlers.Provider.Authorize | api/internal/handler/authorize.go:76-214 | the exact condition of each answer: refused, to login without a session young enough, to the terms, to consent without a covering grant, or redirected; then the code stands for that user, session, client, redirect, challenge and the requested allowed scopes, for 60 seconds; does what the machine's four steps do; a disabled cache stores nothing |
| AuthCodeHandlers.Provider.HasGrant | api/internal/domain/oauth/consent/service.go:19-28 | there is a stored grant and it covers every requested scope |
| AuthCodeHandlers.Provider.MergeScopes | api/internal/domain/oauth/consent/service.go:44-57 | the union, each scope once, what was there first and in its order |
| AuthCodeHandlers.Provider.ConsentDecision | api/internal/handler/authorize.go:260-323 | recorded iff the user approved at a registered redirect and some scope is allowed; then the grant holds exactly the earlier scopes and the approved allowed ones, and no other grant changes |
| AuthCodeHandlers.Provider.AuthorizationCode | api/internal/handler/token.go:281-412 | takes the code out before checking it; answers with the stored user, session and scopes iff the client authenticates itself, the code is readable, stored for this client and redirect, its challenge if any is proved, and user and session are good; the exact errors before the code is touched; does what the machine's three steps do; never with a disabled cache |
| AuthCode.GatesMean | api/internal/handler/authorize.go:86-121 | what passing the gates guarantees about client, redirect, response type, scopes, challenge and its method |
| AuthCode.OneTokenSetPerCode | api/internal/domain/oauth/code/repository.go:45-57 | in every run each code yields at most one token set (section 4.1.2 of RFC 6749) |
| AuthCode.TokensAreAuthorized | api/internal/handler/token.go:299-380 | in every run a token set was redeemed within a minute by the authenticated client it was stored for, at its redirect, with a verifier matching a stored challenge (section 4.6 of RFC 7636), for a request of response type code, with S256 if challenged, and for scopes the client was allowed and, if third-party, had been granted |
| AuthCodeOutcomes.TokensGoBackToASession | api/internal/handler/authorize.go:126-214 | in every run a token set names the user and the session that were seen, young enough and with no terms pending, between the authorization request its code was stored for and its consent check; an exchange presented that code, took it out, and was answered while user and session were good |
| AuthCode.PublicClientsProvePossession | api/internal/handler/authorize.go:119-121 | a client public at the exchange has proved possession of the verifier, unless it was deleted or registered anew between its request and the exchange |
| AuthCode.PossessionProvedIff | api/internal/handler/token.go:330-337 | for every token set, possession of the verifier was proved iff its authorization request carried a challenge; a request without one came from a client that was not public |
| AuthCode.TypeStays | api/internal/domain/oauth/client/service.go:98-128 | no step but a deletion or a new registration changes whether a client is public or first-party |
| AuthCodeRuns.ReplacedClientSkipsPkce | api/internal/handler/token.go:298-330 | a developer's confidential client that is deleted and registered anew as public gets tokens without a verifier |
| Consent.GrantedScopesWereApproved | api/internal/domain/oauth/consent/service.go:30-70 | in every run a granted scope was approved by that user for that client while it was registered with it, and not revoked since unless a recording whose decision approved it, or read it as granted, before the last revocation brought it back |
| Consent.RestoringUndoesRevocation | api/internal/domain/oauth/consent/service.go:30-70 | such a recording grants the scope, which then stands revoked unless it was approved anew |
| Consent.RevocationUndoneIff | api/internal/domain/oauth/consent/service.go:30-70 | in a run a scope is ever granted though revoked since its last approval iff such a recording follows the last revocation with no new approval |
| Consent.ThirdPartyScopesWereApproved | api/internal/handler/authorize.go:175-185 | the same for every scope of a third-party token set, at the moment consent was asked |
| Consent.RecordingLosesIff | api/internal/domain/oauth/consent/service.go:30-66 | recording an approval loses a granted scope iff it is not approved and another decision added it after this one had read the grant |
| Consent.ApprovalsAddUp | api/internal/domain/oauth/consent/service.go:30-66 | without an overlapping decision of that user for that client nothing granted is lost |
| AuthCodeRuns.ConcurrentApprovalsCanLoseOne | api/internal/domain/oauth/consent/service.go:30-66 | of two approvals recorded side by side the first can be lost |
| AuthCodeRuns.RevocationIsUndone | api/internal/domain/oauth/consent/service.go:30-70 | an approval of another scope that read the grant before a revocation puts the revoked scope back |
| Base62.ToBase62 | api/internal/crypto/token.go:22-39 | the text decodes to the number of the bytes and has no leading zero digit |
| Base62.DigitsAreTheAlphabet | api/internal/crypto/token.go:12 | the digits are the published alphabet in its order |
| Base62.NumberIsBigEndian | api/internal/crypto/token.go:22-27 | the first byte weighs most |
| Base62.ReverseInPlace | api/internal/crypto/token.go:34-38 | swapping inwards reverses the array |
| Base62.DecodeIsInjective | api/internal/crypto/token.go:22-39 | a number has one text without leading zero digit |
| Base62.EqualTexts | api/internal/crypto/token.go:22-39 | inputs of equal length have the same text iff they are equal |
| Base62.LengthIff | api/internal/crypto/token.go:22-39 | the text has at most k digits iff the number is below 62^k |
| Base62.TokenLengths | api/internal/crypto/token.go:46-75 | 16 bytes take at most 22 characters, 32 bytes at most 43 |

## Left out

- Transport errors, throttling and transaction conflicts of the stores; only condition failures are modelled. Each store call is one atomic step.
- The Valkey branch of the cache client; only its in-memory branch is modelled. Expiry there is checked exactly as in the code (an entry is readable at its expiry instant, yet free for SetNX).
- Cryptography and encodings: signatures are perfect, hashes and challenges are injective, JSON and PEM are values. A generated key, code or id never repeats.
- The clock, whose readings are parameters; within one undisturbed handler call it stands still.
- The audience's URL check, the session, user and terms services and the client secret check, which arrive as answers.
- Revisions and counters are unbounded integers; upper-casing a source role is ASCII only.
- The order among equal keys of Go's unstable sorts; it does not matter for distinct keys, and planned members of equal user id keep their row order here.
- Error texts, audit records, metrics, e-mail, cookies, redirects' query text and the reports the migration prints.
- The text form of the entity tag and of the padded history key; tags are compared as values.
- The scope grammar of OIDC and service names is modelled as in the regular expressions.
- Rotation.Retention: states MaxAge less the lock lifetime and one second, not MaxAge, because the code does not give MaxAge (RotationRuns.KeptFullAgeIff says when it does); it holds under the timing hypothesis stated there.
- MigrationApply.MigrationResumes: assumes lookups by source reference are current and the planned organizations' creation dates readable, because without either the claim is false (see above).
- Timestamps as text: the migration's dates arrive parsed or unreadable.
- The forced rotation command, which neither checks the age nor takes the lock, and the one-time import of the legacy key.
- Refresh tokens, API-key exchange, token revocation and logout, and the account-deletion, data-export, identity-verification, plan-limit and support components.
- Whether an update of a deleted client is refused or creates a row without a type is up to the shared store library, which is not part of this model; both are allowed.
- A handler without any cache client (the source answers a server error); a disabled client is modelled.
