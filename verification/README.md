# Verification model of the boni-pam backend services

The backend of boni-pam is a set of in-memory services. Each keeps a few maps that must agree
with each other, guarded by a mutex, and several operations release that mutex halfway. This
project models seven clusters of them and proves what holds in every run:

- **Policies** (`Conditions`, `Context`, `PolicyModel`, `PolicyEvaluation`, `PolicyStore`,
  `PolicyHistory`): the condition language, the attribute map that conditions read, the
  evaluator with deny override, and the versioned store with its three maps. The two halves
  meet in rollback, which restores earlier responses, and in schema validity, which every
  stored version carries to the evaluator.
- **Vault** (`Vault`, `RotationRuns`, `LiveLeases`): leases, bulk revocation, rotation
  policies and the sweep over the due ones. A rotation copies its policy, issues a lease and
  writes the copy back in three critical sections; all interleavings of them are covered.
- **Tokens and sessions** (`Auth`, `AuthRuns`): two maps that point at each other, edited by
  issue, rotation, expiry and revocation, over all interleavings of critical sections.
- **Multi-factor challenges** (`Mfa`, `MfaRuns`): verification in two critical sections.
- **Assets** (`Assets`, `AssetImport`, `Ownership`, `ImportRuns`): creation, bulk import against
  repeated creation and among concurrent calls, and the ownership state machine beside its
  append-only log.
- **Groups** (`Groups`, `GroupRuns`, `GroupInterleavings`): users, roles and group mappings
  kept in agreement by three services, call by call and section by section.
- **Gateway** (`Gateway`, `GatewayRuns`): just-in-time grants and the sessions started under
  them, where the check and the start are separate critical sections.

`Text`, `Values`, `Lists`, `SortedKeys`, `Environment` and `Wrappers` are shared vocabulary.

## How the model is built

Each service is a class whose fields are the service's maps. Its methods follow the source
branch by branch and loop by loop, and each is proved against a function from the old state to
the new one (`CreateNext`, `Consume`, `RevokeThese`, `Report`, ...). The modules named `...Runs`
and `...History`, and `GroupInterleavings`, `LiveLeases` and `Ownership`, put those functions
into a state machine and prove theorems about every run of it. A run is a sequence of states and
a sequence of operations; ghost components such as a token ledger or a lease log only record
what happened.

What is assumed:

- A region executed under a lock is one atomic step. Where an operation consists of several
  regions, each is a step of its own and anything may happen in between.
- Generated identifiers and random tokens are fresh, and hashing is injective on issued tokens,
  so a token is named by its hash.
- Clock readings are inputs. Two readings in one call may differ; those of one thread never go
  back, and nothing is assumed across threads. Times are nanoseconds where durations matter.
- Go's `time.Duration` is 64 bits wide, so the multiplication of seconds by `time.Second` wraps
  around. This is modelled (`Vault.Wrap64`). Other integers are unbounded.
- Strings are ASCII. Trimming, lower-casing, case-insensitive equality and the byte-wise order
  are defined in `Text`.
- Numbers in conditions are reals tagged with their Go type.
- Iteration over a map visits its keys in an arbitrary order.
- Identifiers that the source parses arrive parsed, or as absent when malformed.

## What the proofs found

- **Live leases.** Of a policy rotated only by sweeps that do not overlap on it, at most n leases
  are unexpired at once if and only if the interval's computed duration is not negative and n
  times that duration, a nanosecond longer, exceeds the TTL
  (`LiveLeases.MostLiveLeasesExactly`). The bound TTL / interval in seconds, rounded up, holds
  exactly when the interval is at most 9223372036 s or its wrapped-around duration is no shorter
  than the TTL (`LiveLeases.BoundInSecondsExactly`). Sweeps that overlap rotate a policy once
  each, and then nothing but their number bounds its unexpired leases
  (`LiveLeases.OverlappingSweepsAreUnbounded`).
- **Bulk session revocation.** Right after it the user has no live token. No continuation without
  a new login of the user ever gives one if and only if no refresh of the user had consumed its
  token before (`AuthRuns.RevocationOutlivedOnlyByPendingRefreshes`).
- **Multi-factor challenges** let in more than one session exactly when two successful
  verifications of the same challenge overlap (`MfaRuns.ManyGrantsExactlyWhenOverlapping`), and
  for every user and code some run does (`MfaRuns.OverlappingVerificationsBothPass`).
- **Evaluation uses the current definition**, published or not, as the code does.
- **Unassigning a role** from a group leaves it with every user who had it
  (`GroupRuns.UnassignStripsNobody`).
- **Group roles, whole calls.** From any point where a group is exact, it stays exact if and only
  if every later step is harmless to it: no other group that shares a role with it is applied
  unless their live members are the same (`GroupRuns.GroupRolesExactly`). A group without roles
  is exact, and so is any group just after a call on it (`GroupRuns.ExactPoints`).
- **Group roles, overlapping calls.** A call applies a list of names it looked up earlier. A group
  is covered if live users hold its roles exactly if members, except where a call under way will
  yet apply the role. Over every interleaving it stays covered if and only if every application
  is harmless to it: for a role of the group whose name is applied, the user is in both groups or
  in neither, or another call under way will yet apply the role
  (`GroupInterleavings.GroupsAreCoveredExactly`). A covered group on which no call is under way is
  exact (`GroupInterleavings.SettledGroupsAreExact`), and a new call on a group covers it whatever
  happened before (`GroupInterleavings.CoveredPoints`). Harm is done, with no role ever in two
  groups, when a listed role moves to another group (`GroupInterleavings.StaleListBreaksExactness`)
  or is deleted and its name taken by a new role (`GroupInterleavings.StaleNameBreaksExactness`).
- **Rotation sweeps.** Whatever else happens, a sweep issues exactly one lease for each policy it
  found due, in order (`RotationRuns.SweepsIssueOneLeaseEach`).
- **Import.** The branch for a duplicate within the payload is never taken, because the index
  of existing names is extended as well. The duplicate-name error of creation fires for a row if
  and only if the row is valid and another call took its name after the index was built, so never
  in an import that nothing interrupts (`ImportRuns.RowOutcome`).
- **Re-tagging an asset** writes its owner without logging it, so the log can be wrong about the
  owner (`Ownership.TheLogCanMissTheOwner`). Over every run it is right if and only if no tag
  came after the last logged owner, or the last such tag names the owner that the log tells
  (`Ownership.OwnerReplaysTheLog`).
- **Gateway sessions** can start any length of time after their grant expired, since only the
  check reads the clock against the grant (`GatewayRuns.SessionsCanStartAfterExpiry`). If starts
  take at most d, a session is never created late if and only if its check came at least d before
  the expiry, or too late to pass (`GatewayRuns.NeverLateExactly`). Clocks of different threads are
  not ordered here; with one clock that never goes back, a check more than a day before the expiry
  would precede its grant and could not occur.

## Model

| member | source | states |
|---|---|---|
| `Text.TrimSpaceCutsEnds` | backend/internal/service/policy_service.go:248-250 | trimming a request field removes the white space at its two ends and nothing else |
| `Text.NormalizeIdempotent` | backend/internal/service/asset_service.go:34-36 | trimming and lower-casing a field a second time changes nothing |
| `Text.LessTrichotomy` | backend/internal/service/policy_service.go:483-490 | of two different strings exactly one is less than the other, and none is less than itself |
| `Text.LessTransitive` | backend/internal/service/policy_service.go:483-490 | the order on strings is transitive |
| `Text.LessExactly` | backend/internal/service/policy_service.go:483-490 | a string is less than another if and only if it is a proper beginning of it or has the lesser character where they first differ |
| `Text.DecimalDenotes` | backend/internal/service/policy_service.go:282-287 | the decimal form of a number has only digits, no leading zero, and denotes the number by place value |
| `Lists.FirstOccurrencesMeaning` | backend/internal/service/role_service.go:118-138 | removing repetitions keeps exactly the members, repeats none, and never changes what an earlier part of the list contributed |
| `Lists.KeptMembers` | backend/internal/service/role_service.go:125-129 | the cleaned-up list holds exactly the non-blank normal forms of entries |
| `Lists.Dedupe` | backend/internal/service/role_service.go:118-138 | the loop with its set of seen entries yields the first occurrences of the cleaned-up entries |
| `Lists.AddFirstOccurrences` | backend/internal/service/policy_service.go:296-306 | continuing the loop on another list gives the first occurrences of both lists together |
| `SortedKeys.AscendingUnique` | backend/internal/service/group_mapping_service.go:131-141 | a set of keys has only one ascending list, so the arbitrary order of iteration does not show |
| `SortedKeys.MapKeys` | backend/internal/service/group_mapping_service.go:131-141 | returns that list |
| `Conditions.CompareScalarsSymmetry` | backend/internal/service/policy_service.go:465-495 | two values compare if and only if both are numbers or both strings; swapping them negates the answer; zero means loosely equal |
| `Conditions.CompareScalarsPreorder` | backend/internal/service/policy_service.go:465-495 | within a kind the comparison is total and transitive |
| `Conditions.BetweenSplits` | backend/internal/service/policy_service.go:449-459 | `between` holds if and only if `gte` the low bound and `lte` the high bound both hold |
| `Conditions.BetweenNeedsOrderedBounds` | backend/internal/service/policy_service.go:449-459 | a satisfied `between` has comparable bounds in order, so a reversed window admits nothing |
| `Conditions.OrderOperatorsComplement` | backend/internal/service/policy_service.go:418-432 | on comparable values `gt` negates `lte` and `lt` negates `gte`; on incomparable ones all four fail |
| `Conditions.EqualityOperatorsComplement` | backend/internal/service/policy_service.go:414-448 | `neq` always negates `eq`; `nin` negates `in` on lists and both fail otherwise |
| `Conditions.NumericTypeIrrelevant` | backend/internal/service/policy_service.go:497-532 | loosely equal values satisfy the same conditions, whatever the Go type of a number |
| `Conditions.EqualityMeaning` | backend/internal/service/policy_service.go:414-417 | for all values `eq` holds if and only if both are numbers of equal magnitude or the values are the same; `neq` holds if and only if not |
| `Conditions.MembershipMeaning` | backend/internal/service/policy_service.go:433-448 | `in` holds if and only if the condition has a list with an item equal in that sense, `nin` if and only if it has a list without one |
| `Conditions.NumberOrderMeaning` | backend/internal/service/policy_service.go:418-432 | on numbers, of whatever numeric types, each of `gt`, `gte`, `lt` and `lte` holds if and only if the magnitudes are so ordered |
| `Conditions.StringOrderMeaning` | backend/internal/service/policy_service.go:418-432 | on strings each of the four holds if and only if the byte order of the two says so |
| `Conditions.BetweenMeaning` | backend/internal/service/policy_service.go:449-459 | `between` holds if and only if the condition has a list of exactly two bounds and `gte` holds of the first and `lte` of the second |
| `Context.Resolve` | backend/internal/service/context_resolver_service.go:15-46 | the copy-and-overwrite procedure yields the caller's attributes overlaid with the request's own fields and the time |
| `Context.DedicatedKeys` | backend/internal/service/context_resolver_service.go:21-43 | which keys the request fixes by itself: the three time keys always, each other one if and only if its field is filled in |
| `Context.ResolvedValues` | backend/internal/service/context_resolver_service.go:15-46 | the time of day, timestamp and weekday under their keys are those of the request's instant or else the clock's; any key the request does not fix keeps the caller's value |
| `Context.ResolvedRequestValues` | backend/internal/service/context_resolver_service.go:21-33 | a trimmed source address, device id, lower-cased device trust and risk score that the request states are what conditions read |
| `Context.HiddenAttributesDoNotInterfere` | backend/internal/service/context_resolver_service.go:15-46 | caller attributes under a key the request fixes never reach the context |
| `Context.ClockStringRoundTrip` | backend/internal/service/context_resolver_service.go:41 | "HH:MM" strings and minutes of the day correspond one to one, in both directions |
| `Context.ClockStringOrder` | backend/internal/service/context_resolver_service.go:41 | an earlier minute has the lesser string in the byte-wise order |
| `Context.MinuteOfDayMeaning` | backend/internal/service/context_resolver_service.go:41 | of so many days, minutes and seconds the minute of the day is the minutes, before 1970 too |
| `Context.WeekdayMeaning` | backend/internal/service/context_resolver_service.go:43 | 1 January 1970 was a thursday, a day has one name throughout, and the next day has the next |
| `PolicyModel.PatternMeaning` | backend/internal/service/policy_service.go:379-388 | a pattern ending in a star matches exactly the values with the part before as prefix, any other only itself; "*" needs no case of its own |
| `PolicyModel.MatchesAny` | backend/internal/service/policy_service.go:367-377 | true if and only if some trimmed pattern matches |
| `PolicyModel.ConditionsMatch` | backend/internal/service/policy_service.go:390-409 | true if and only if every condition names a present attribute and holds of it; what each operator decides, see `Conditions.EqualityMeaning` and the four after it |
| `PolicyEvaluation.EvaluateDefinition` | backend/internal/service/policy_service.go:257-320 | the loop decides deny if a matching rule denies, else allow if one allows, else the default; obligations are the first occurrences of those of the matching rules; matched rules are listed in order |
| `PolicyEvaluation.Evaluate` | backend/internal/service/policy_service.go:248-255 | a request with a blank field is refused, any other is judged in its resolved context |
| `PolicyEvaluation.CollectedMembers` | backend/internal/service/policy_service.go:296-306 | an obligation is reported if and only if some matching rule lists it |
| `PolicyEvaluation.RuleOrderIrrelevant` | backend/internal/service/policy_service.go:268-313 | reordering or repeating rules changes neither the decision nor the set of obligations |
| `PolicyEvaluation.AddingARule` | backend/internal/service/policy_service.go:288-313 | a matching deny rule forces deny; an allow rule never overturns a deny or an allow; a rule that does not match changes nothing |
| `PolicyEvaluation.RulesMatchPartByPart` | backend/internal/service/policy_service.go:367-409 | one more condition narrows a rule to where it holds, one more pattern widens a field to what it matches; no conditions ask nothing, no patterns match nothing |
| `PolicyEvaluation.DefaultDecidesExactlyWhenNothingMatches` | backend/internal/service/policy_service.go:257-313 | for a valid definition the decision is allow or deny, and the default makes a difference if and only if no rule matches |
| `PolicyEvaluation.ValidOperatorsAreKnown` | backend/internal/service/schemas/policy_v1.json:53-56 | no condition of a valid definition reaches the evaluator's unknown-operator case |
| `PolicyEvaluation.VerdictReadsOnlyNamedAttributes` | backend/internal/service/policy_service.go:390-409 | contexts that agree on the attributes named in conditions get the same verdict |
| `PolicyEvaluation.CallerAttributesDoNotInterfere` | backend/internal/service/policy_service.go:255-280 | caller attributes hidden by the request's own fields, or named in no condition, never change the response |
| `PolicyEvaluation.TimeWindow` | backend/internal/service/context_resolver_service.go:34-41 | a `between` on two "HH:MM" strings holds if and only if the minute of the day of the request lies in the numeric interval, both ends included |
| `PolicyEvaluation.OneRuleDecides` | backend/internal/service/policy_service.go:240-320 | a policy of one rule with an `eq` condition answers every complete request by the rule's effect, obligations and name if its trimmed fields match and the resolved attribute is the value, else by the default |
| `PolicyStore.PolicyService.NameInUse` | backend/internal/service/policy_service.go:70-74 | the scan finds a clash if and only if another policy has the name up to case |
| `PolicyStore.PolicyService.CreatePolicy` | backend/internal/service/policy_service.go:38-79 | the whole outcome of creation: the errors in order, or a draft at version 1 in both maps |
| `PolicyStore.PolicyService.UpdatePolicy` | backend/internal/service/policy_service.go:114-161 | a new name, and with a new definition a new draft version on top; an error changes nothing; see `PolicyHistory.UpdateOutcome` for what that stores and leaves |
| `PolicyStore.PolicyService.PublishPolicy` | backend/internal/service/policy_service.go:163-189 | marks the current version published |
| `PolicyStore.PolicyService.PreviousVersion` | backend/internal/service/policy_service.go:556-570 | the largest positive recorded version below the current one, or zero if there is none |
| `PolicyStore.PolicyService.RollbackPolicy` | backend/internal/service/policy_service.go:191-238 | publishes the target's definition as a new version; the errors in order |
| `PolicyStore.PolicyService.EvaluatePolicy` | backend/internal/service/policy_service.go:240-321 | answers from the current definition, published or not; see `PolicyHistory.DeviceTrustDecides` for one rule, end to end |
| `PolicyHistory.ReachableInStep` | backend/internal/service/policy_service.go:68-238 | in every reachable state the versions of a policy are exactly 1 to its version, the entry at its version is its definition, every entry is schema-valid, it is published if and only if its mark equals its version, and names are distinct up to case |
| `PolicyHistory.HistoryIsAppendOnly` | backend/internal/service/policy_service.go:151-154 | between any two points of a run recorded versions never change or disappear |
| `PolicyHistory.CreationOutcome` | backend/internal/service/policy_service.go:38-79 | a creation succeeds if and only if the trimmed name is filled in and free, the definition valid and the creator well-formed or absent; it stores that definition as a draft version 1, current and recorded, and touches nothing else |
| `PolicyHistory.UpdateOutcome` | backend/internal/service/policy_service.go:114-161 | exactly which updates succeed; a given definition becomes the current and recorded next version in draft, a given name the trimmed name; the mark, earlier versions and all other policies stay |
| `PolicyHistory.PublishOutcome` | backend/internal/service/policy_service.go:163-189 | publication sets status, time and the mark of that policy and changes nothing else |
| `PolicyHistory.UnknownPolicies` | backend/internal/service/policy_service.go:114-246 | every operation on a malformed or unknown id fails with that error and changes nothing |
| `PolicyHistory.UpdatesDecide` | backend/internal/service/policy_service.go:142-280 | over every run, right after an accepted update every request gets the answer of the definition given, or without one of the definition before; publication changes no answer |
| `PolicyHistory.CreationsDecide` | backend/internal/service/policy_service.go:52-280 | over every run, right after a creation every request gets the answer of the definition given |
| `PolicyHistory.DeviceTrustDecides` | backend/internal/service/policy_service.go:240-417 | a stored policy of one rule that asks for a level of device trust decides by the rule's effect if the stated level, trimmed and lower-cased, is that level, else by the default |
| `PolicyHistory.RollbackOutcome` | backend/internal/service/policy_service.go:207-222 | exactly which rollbacks succeed, which error the others give, and that those change nothing |
| `PolicyHistory.RollbackMakesCurrent` | backend/internal/service/policy_service.go:219-235 | the full new state after a rollback, with the default target one version back |
| `PolicyHistory.RollbackRestoresResponses` | backend/internal/service/policy_service.go:191-321 | rolling back to the version that was current at an earlier point gives every request, at a fixed time, the response it had then |
| `PolicyHistory.DefaultRollbacksAlternate` | backend/internal/service/policy_service.go:212-235 | k default rollbacks leave the original definition if k is even and the one before it if k is odd |
| `PolicyHistory.StoredDefinitionsAreValid` | backend/internal/service/policy_service.go:142-154 | every definition ever recorded is valid and uses known operators only, though rollback does not re-validate |
| `PolicyHistory.ReachableResponses` | backend/internal/service/policy_service.go:240-321 | on a reachable policy a complete request gets allow or deny, and the default if no rule matches |
| `Auth.AuthService.IssueSession` | backend/internal/service/auth_service.go:314-351 | records a token and a session that point at each other |
| `Auth.AuthService.ConsumeToken` | backend/internal/service/auth_service.go:235-259 | the first critical section of a refresh: unknown, expired or redeemed, with its effect on both maps; see `AuthRuns.RedeemedOrExpiredExactly` for when each happens |
| `Auth.AuthService.RefreshToken` | backend/internal/service/auth_service.go:228-262 | a refresh that nothing interrupts: both critical sections, and which of them runs; see `AuthRuns.RedeemedOrExpiredExactly` for when it succeeds |
| `Auth.AuthService.RevokeSessions` | backend/internal/service/auth_service.go:264-312 | the loop ends exactly the targeted sessions and their tokens, and reports each once |
| `AuthRuns.TokenSessionGraph` | backend/internal/service/auth_service.go:235-351 | over every interleaving a live token belongs to an unrevoked session of its user that holds its hash, a held hash of an unrevoked session is live, and the stale hash of a revoked session names no live token |
| `AuthRuns.TokensAreConserved` | backend/internal/service/auth_service.go:235-351 | each issued token is exactly one of live, redeemed, expired and revoked; each redeemed one has one heir of the same user or one pending refresh |
| `AuthRuns.FreshTerms` | backend/internal/service/auth_service.go:314-351 | a login or a finished refresh stores a token for its user and session that expires its time to live after the reading, and the session |
| `AuthRuns.EveryTokenWasIssued` | backend/internal/service/auth_service.go:314-351 | over every interleaving each token was issued by some step |
| `AuthRuns.LiveTokensKeepTheirTerms` | backend/internal/service/auth_service.go:235-351 | over every interleaving a live token has the user, session and expiry of the step that issued it |
| `AuthRuns.RedeemedOrExpiredExactly` | backend/internal/service/auth_service.go:235-261 | over every interleaving, told from the step that issued the token: presenting it redeems it for its user if and only if it is live and the clock reads at most the issuing reading plus the TTL; it expires, and its session is revoked, if and only if it is live and the clock reads later |
| `AuthRuns.TokensDieExactly` | backend/internal/service/auth_service.go:235-311 | a live token is gone after a step if and only if the step presents it or revokes its session or all sessions of its user |
| `AuthRuns.ExpiryRevokesOnce` | backend/internal/service/auth_service.go:242-248 | over every interleaving the expiry path, which does not test the revocation time, writes it to a session that has none, and nothing writes it again |
| `AuthRuns.RunsAreOnward` | backend/internal/service/auth_service.go:235-351 | over every interleaving revoked sessions are frozen, so the revocation time is written once, and spent tokens, owners and heirs stay as they are |
| `AuthRuns.SpentTokensStaySpent` | backend/internal/service/auth_service.go:254-261 | a token issued and no longer live never becomes live again |
| `AuthRuns.RedeemedAtMostOnce` | backend/internal/service/auth_service.go:228-262 | over every interleaving a token is redeemed at most once |
| `AuthRuns.BulkRevocationIsComplete` | backend/internal/service/auth_service.go:298-311 | revoking without a session id removes exactly the user's live tokens and ends exactly the user's unrevoked sessions; everything else is untouched |
| `AuthRuns.SingleRevocation` | backend/internal/service/auth_service.go:277-311 | revoking one session: refused if unknown or another user's, idle if revoked before, and otherwise that session is revoked, only its token is gone and all else stays |
| `AuthRuns.SignedOutExactly` | backend/internal/service/auth_service.go:228-351 | in any state no continuation without a new login of the user leads to a live token if and only if the user has neither a live token nor a refresh under way |
| `AuthRuns.RevocationOutlivedOnlyByPendingRefreshes` | backend/internal/service/auth_service.go:253-311 | right after a bulk revocation the user has no live token, and no continuation without a new login of the user gives one if and only if no refresh of the user was under way |
| `AuthRuns.FinishingRefreshesSignIn` | backend/internal/service/auth_service.go:253-311 | if only the refreshes in flight run after a bulk revocation until all have finished, the user has a live token again if and only if one of them was the user's |
| `AuthRuns.PendingRefreshSurvivesRevocation` | backend/internal/service/auth_service.go:253-261 | a run in which that happens |
| `Mfa.MfaService.CreateMFAChallenge` | backend/internal/service/auth_service.go:133-181 | the challenge stored, with its normalised method and expiry, or why it is refused |
| `Mfa.MfaService.VerifyMFA` | backend/internal/service/auth_service.go:183-226 | a verification that nothing interrupts: whose session is issued, which error is given, and when the challenge is deleted |
| `MfaRuns.GrantsGoToTheChallenged` | backend/internal/service/auth_service.go:183-226 | over every interleaving sessions go to the user the challenge was made for, and the branch for an unknown method is dead |
| `MfaRuns.ChallengesKeepTheirTerms` | backend/internal/service/auth_service.go:133-181 | over every interleaving a challenge has the user, method and secret of the step that made it and ends five minutes after it |
| `MfaRuns.ChallengesAreMade` | backend/internal/service/auth_service.go:133-181 | every challenge was made by a step for somebody, by a known method |
| `MfaRuns.AnswersPassExactly` | backend/internal/service/auth_service.go:183-221 | over every interleaving, told from the step that made the challenge: an answer is let through, for the user of that step, if and only if the challenge is stored, the method is the same up to case, at most five minutes have passed, and the secret is the one made |
| `MfaRuns.ChallengesEndExactly` | backend/internal/service/auth_service.go:183-226 | a challenge is deleted exactly by the second section of a verification of it |
| `MfaRuns.ManyGrantsExactlyWhenOverlapping` | backend/internal/service/auth_service.go:190-225 | a challenge with no verification under way has let in two or more sessions if and only if two successful verifications of it overlapped |
| `MfaRuns.OverlappingVerificationsBothPass` | backend/internal/service/auth_service.go:190-225 | for every user and code, a run in which one challenge lets in two sessions |
| `Vault.VaultService.IssueCredential` | backend/internal/service/vault_service.go:56-113 | the lease issued, or why a request is refused |
| `Vault.VaultService.RevokeLease` | backend/internal/service/vault_service.go:127-143 | succeeds if and only if the lease exists unrevoked, and then changes only it |
| `Vault.VaultService.RevokeLeasesByTarget` | backend/internal/service/vault_service.go:146-170 | ends every unrevoked lease on the target up to case, counts them, and leaves none |
| `Vault.EndingIsComplete` | backend/internal/service/vault_service.go:158-167 | afterwards no unrevoked lease is on the target, and leases elsewhere are untouched |
| `Vault.VaultService.CreateRotationPolicy` | backend/internal/service/vault_service.go:197-247 | the policy created, or why a request is refused, a taken target included |
| `Vault.VaultService.TriggerRotation` | backend/internal/service/vault_service.go:261-300 | a rotation that nothing interrupts: one new lease, then one policy write at a later reading; it never fails on a sound policy |
| `Vault.VaultService.DuePolicies` | backend/internal/service/vault_service.go:304-311 | the scan finds all policies due at its start, none not due by its end, and each once |
| `Vault.VaultService.RunDueRotations` | backend/internal/service/vault_service.go:303-321 | a sweep that nothing interrupts rotates exactly the policies it found due, each once with one new lease, and leaves everything else alone |
| `Vault.SweepAddsOneLeaseEach` | backend/internal/service/vault_service.go:303-321 | such a sweep adds exactly as many leases as it found policies due |
| `Vault.RotationIsIssuable` | backend/internal/service/vault_service.go:274-284 | rotating a stored policy passes every check of credential issue and gives a lease for its target and time to live |
| `Vault.CreatedIsSound` | backend/internal/service/vault_service.go:197-247 | a created policy is enabled, scheduled, normalised and issuable |
| `Vault.RotatedIsSound` | backend/internal/service/vault_service.go:285-291 | and stays so when rotated |
| `Vault.IssueExactly` | backend/internal/service/vault_service.go:56-113 | a credential is issued if and only if the trimmed target and role are filled in, the type known and the TTL in range or left out; the lease is for those and ends that many seconds later |
| `Vault.CreateExactly` | backend/internal/service/vault_service.go:197-247 | a rotation policy is created if and only if target and role are filled in and not taken up to case, the type known, the interval at least a minute and the TTL, or else the interval, in range; it is due one interval later |
| `Vault.RotationTimes` | backend/internal/service/vault_service.go:285-311 | a rotation sets its three times and nothing else, and the policy is due again strictly after one interval |
| `RotationRuns.PoliciesKeepTheirPlan` | backend/internal/service/vault_service.go:197-321 | over every interleaving target, role, interval and time to live never change, and the next rotation is one interval after the last written one or the creation, although stale copies are written back |
| `RotationRuns.RotationNeverFailsValidation` | backend/internal/service/vault_service.go:274-284 | whenever a rotation issues its lease, validation accepts it and the lease is for the stored policy |
| `RotationRuns.SweepsIssueOneLeaseEach` | backend/internal/service/vault_service.go:303-321 | over every interleaving, overlapping sweeps included, a sweep has at any point issued exactly one lease for each due policy it is done with, one for the policy at hand if it has come so far, and none for the rest |
| `RotationRuns.FinishedSweepsIssuedOneLeaseEach` | backend/internal/service/vault_service.go:303-321 | a finished sweep has issued exactly one lease of its own for each policy it found due, whatever happened in between |
| `RotationRuns.TargetsStayDistinct` | backend/internal/service/vault_service.go:234-244 | over every interleaving no two rotation policies are for the same target, type and role up to case |
| `RotationRuns.UninterruptedRotation` | backend/internal/service/vault_service.go:261-300 | the sections of a manual rotation run without interruption issue one lease and write the policy once, or do nothing if there is no such policy |
| `RotationRuns.LeaseStatusNeverReturns` | backend/internal/service/vault_service.go:172-178 | over every interleaving a lease no longer active never is again, and a revoked one is frozen |
| `RotationRuns.StepRevokes` | backend/internal/service/vault_service.go:127-170 | a step revokes an unrevoked lease if and only if it names its id, or its target up to case; then at its time for its trimmed reason, and no other step touches the lease |
| `RotationRuns.LeasesAreRevokedExactly` | backend/internal/service/vault_service.go:127-170 | over every interleaving a lease is revoked if and only if some such step came |
| `RotationRuns.StatusMeaning` | backend/internal/service/vault_service.go:172-178 | over every interleaving a lease reads as revoked if and only if some step revoked it, else as active up to its expiry, that instant included |
| `LiveLeases.AlwaysTracked` | backend/internal/service/vault_service.go:302-321 | in runs that sweep a policy alone, its leases are issued more than one interval apart |
| `LiveLeases.LiveLeaseBound` | backend/internal/service/vault_service.go:261-321 | in such runs at any instant at most TTL / interval of its leases, rounded up, are unexpired, the interval being the duration the code computes; with a duration of zero they are still a nanosecond apart |
| `LiveLeases.MostLiveLeasesExactly` | backend/internal/service/vault_service.go:197-321 | n is enough for the unexpired leases in all such runs if and only if the computed duration is not negative and n times that duration, a nanosecond longer, exceeds the TTL |
| `LiveLeases.ManyLiveLeases` | backend/internal/service/vault_service.go:261-321 | a run that sweeps the policy alone with as many unexpired leases as fit into a TTL one delay apart |
| `LiveLeases.BoundInSecondsExactly` | backend/internal/service/vault_service.go:231-288 | the bound in seconds holds of all runs if and only if the interval does not wrap around, or wraps to no less than the TTL |
| `LiveLeases.TwoLiveLeases` | backend/internal/service/vault_service.go:288 | otherwise a run with two unexpired leases exists |
| `LiveLeases.DefaultLifetimeLeavesOne` | backend/internal/service/vault_service.go:210-216 | with the TTL left to default to the interval at most one lease is unexpired |
| `LiveLeases.OverlappingSweepsAreUnbounded` | backend/internal/service/vault_service.go:303-321 | for every interval, TTL and n, a run of overlapping sweeps with n unexpired leases of one policy |
| `Assets.BuildMeaning` | backend/internal/service/asset_service.go:33-74 | validity of a row does not depend on the generated fields; a built asset has the trimmed name and owner |
| `Assets.BuildNeverClashes` | backend/internal/service/asset_service.go:33-58 | validation of a row by itself never yields the duplicate-name error |
| `Assets.NormalizedKeyMeaning` | backend/internal/service/asset_service.go:426-429 | a key is present if and only if it is the normal form of some given key, and has the value of the last such entry visited |
| `Assets.MetadataMeaning` | backend/internal/service/asset_service.go:421-475 | metadata is accepted if and only if the keys of the asset type are present with admissible values; only the method or engine is rewritten, to its normal form |
| `Assets.TagMeaning` | backend/internal/service/asset_service.go:477-504 | tags are accepted if and only if environment and criticality are known or blank; groups are the distinct non-blank normal forms |
| `Assets.BuildExactly` | backend/internal/service/asset_service.go:33-74 | exactly which rows describe an asset, and the asset they describe, field by field, with the default port of its type |
| `Assets.AssetService.NormalizeMetadata` | backend/internal/service/asset_service.go:426-429 | the loop over the entries yields the map that `Assets.NormalizedKeyMeaning` describes |
| `Assets.AssetService.NormalizeTags` | backend/internal/service/asset_service.go:477-504 | normalised tags with groups cleaned up and de-duplicated, or the first refusal |
| `Assets.AssetService.CreateAsset` | backend/internal/service/asset_service.go:33-87 | the asset stored, or the first of the errors, the name clash up to case last |
| `Assets.AssetService.RecordAuditEvent` | backend/internal/service/asset_service.go:523-535 | one event more at the end of one log |
| `Assets.AssetService.AssignOwner` | backend/internal/service/asset_service.go:211-238 | the new owner and the logged event, or the refusal |
| `Assets.AssetService.RequestOwnershipTransfer` | backend/internal/service/asset_service.go:240-281 | a pending transfer and its logged event, or the refusal; see `Ownership.RequestOutcome` for its two owners |
| `Assets.AssetService.ReviewOwnershipTransfer` | backend/internal/service/asset_service.go:283-332 | the decided transfer, the owner changed only by approval, and the logged event, or the refusal |
| `Assets.AssetService.UpdateAssetTagging` | backend/internal/service/asset_service.go:134-156 | tags and owner overwritten, nothing logged |
| `Assets.AssetService.ExistingNames` | backend/internal/service/asset_service.go:537-546 | the folded names in the store |
| `Assets.IndexAgreesWithScan` | backend/internal/service/asset_service.go:79-83 | the name index of an import and the scan of creation agree on every name |
| `Assets.CreationFollowsFates` | backend/internal/service/asset_service.go:381-405 | creating the rows one by one accepts a row if and only if it is valid and its name is provided neither by the store nor by an earlier valid row |
| `Assets.AssetService.ImportAssets` | backend/internal/service/asset_service.go:362-408 | an import leaves the store that creating each row in order and ignoring errors leaves, and reports each row's fate told from the rows before it; the branch for a duplicate within the payload is dead |
| `AssetImport.ReportPartitionsRows` | backend/internal/service/asset_service.go:371-405 | imported, skipped and failed list, in row order, exactly the rows of each fate, and their counts add up to all rows |
| `AssetImport.IndicesMeaning` | backend/internal/service/asset_service.go:381-405 | the indices of a fate are exactly its rows, ascending |
| `AssetImport.FailuresAreTheRowsOwn` | backend/internal/service/asset_service.go:383-400 | a failed row is blank or invalid by itself; the duplicate-name error never appears |
| `AssetImport.FirstValidRowIsImported` | backend/internal/service/asset_service.go:387-404 | a row is imported if and only if it is valid, its name is new to the store, and no earlier row of the name is valid |
| `AssetImport.OthersOfTheNameAreNot` | backend/internal/service/asset_service.go:387-404 | around an imported row earlier rows of its name failed and later ones are skipped |
| `AssetImport.ReimportSkips` | backend/internal/service/asset_service.go:378-390 | importing the same rows again skips every row imported before |
| `Ownership.TransfersAreLogged` | backend/internal/service/asset_service.go:240-332 | over every run a transfer has exactly one request in its asset's log and, after it, exactly one review if and only if it is no longer pending |
| `Ownership.ReviewFindsTheAsset` | backend/internal/service/asset_service.go:305-308 | the missing-asset branch is dead: a review succeeds if and only if it says who reviews and the transfer is pending |
| `Ownership.AssignmentOutcome` | backend/internal/service/asset_service.go:211-238 | exactly which assignments succeed; the asset gets the trimmed owner, and its log alone one event from the previous owner to that one |
| `Ownership.RequestOutcome` | backend/internal/service/asset_service.go:240-281 | exactly which requests succeed; the pending transfer and its event are from the owner at that step to the trimmed owner asked for, and no owner changes |
| `Ownership.ReviewDecides` | backend/internal/service/asset_service.go:283-321 | a review of a pending transfer by somebody decides it; approval gives the asset the owner that the transfer names, rejection changes no asset, any other review changes nothing |
| `Ownership.ReviewIsLogged` | backend/internal/service/asset_service.go:321-332 | the log of the transfer's asset, and no other, gets the decision with both owners |
| `Ownership.TaggingOutcome` | backend/internal/service/asset_service.go:134-156 | tagging an existing asset with acceptable tags overwrites those four fields of it alone; other tagging changes nothing |
| `Ownership.OwnersAreExplained` | backend/internal/service/asset_service.go:134-332 | over every run the owner is the one of the last tag if that came after the last logged owner, else the one that the last assignment or approved transfer logged since any earlier point names, else the owner of that point |
| `Ownership.OwnerReplaysTheLog` | backend/internal/service/asset_service.go:134-332 | over every run, re-tagging included, the log since any earlier point tells an asset's owner if and only if no successful tag came after the last logged owner, or the last such tag names the owner that the log tells |
| `Ownership.LogIsAppendOnly` | backend/internal/service/asset_service.go:523-535 | logs only grow at their end, re-tagging included |
| `Ownership.CreationStartsTheLog` | backend/internal/service/asset_service.go:60-86 | a new asset has the trimmed owner of its row and an empty log |
| `Ownership.RetaggingIsUnlogged` | backend/internal/service/asset_service.go:134-156 | right after a re-tagging the log is unchanged, and tells the owner if and only if the tags name the owner that it tells |
| `Ownership.TheLogCanMissTheOwner` | backend/internal/service/asset_service.go:134-156 | for every valid row and other owner, creating the asset and re-tagging it ends with an owner that the log does not tell |
| `Ownership.AssetNamesStayDistinct` | backend/internal/service/asset_service.go:76-86 | in every run without imports no two assets have the same name up to case |
| `ImportRuns.RowsArePartitioned` | backend/internal/service/asset_service.go:371-405 | over every interleaving of imports and other calls the rows an import has come to are in exactly one of three ascending lists |
| `ImportRuns.RowOutcome` | backend/internal/service/asset_service.go:378-405 | over every interleaving a row is reported as a name clash if and only if it is valid and another call took its name after the index was built, and is imported if and only if it is valid and its name is free; a duplicate within the payload is never reported |
| `ImportRuns.UninterruptedImport` | backend/internal/service/asset_service.go:362-408 | with nothing in between, the row steps leave the store and the report of the import as a whole |
| `ImportRuns.RunsProject` | backend/internal/service/asset_service.go:396-404 | every run with imports passes through the stores of a run without them, so the theorems about such runs carry over |
| `ImportRuns.NamesStayDistinct` | backend/internal/service/asset_service.go:76-86 | over every interleaving, imports included, no two assets have the same name up to case |
| `ImportRuns.LogsCarryOver` | backend/internal/service/asset_service.go:240-332 | over every interleaving, imports included, logs only grow at their end and every transfer is logged once and reviewed once if decided |
| `ImportRuns.RequestsMakeTransfers` | backend/internal/service/asset_service.go:265-281 | over every interleaving, imports included, an accepted request makes a transfer from the owner at that step to the one it names, and the transfer keeps those terms |
| `ImportRuns.TransfersComeFromRequests` | backend/internal/service/asset_service.go:265-281 | over every interleaving each stored transfer was made by such a request |
| `ImportRuns.ReviewsDecideOwners` | backend/internal/service/asset_service.go:283-321 | over every interleaving, right after an approving review of a pending transfer the asset belongs to the owner that the requesting step asked for; after a rejecting one to whom it did |
| `ImportRuns.AssignmentsSetOwners` | backend/internal/service/asset_service.go:211-238 | over every interleaving, right after an assignment the asset belongs to the owner it names, and the last event names that owner and the previous one |
| `Groups.UserService.RemoveValue` | backend/internal/service/user_service.go:257-265 | the list without the target, in order |
| `Groups.UserService.EqualSlices` | backend/internal/service/user_service.go:267-277 | true if and only if the lists are equal |
| `Groups.WithoutMembers` | backend/internal/service/user_service.go:257-265 | the members left are all but the target |
| `Groups.AddedMembers` | backend/internal/service/user_service.go:126-132 | roles after adding are those before and the non-blank trimmed names |
| `Groups.RemovedMembers` | backend/internal/service/user_service.go:133-137 | roles after removing are those before but the trimmed names |
| `Groups.UserService.ReconcileGroupMembership` | backend/internal/service/user_service.go:68-106 | every live user's membership of the group is set from the list, and the count is that of the users changed |
| `Groups.UserService.ApplyRoleMapping` | backend/internal/service/user_service.go:108-147 | the names are added to live members and removed from other live users, and the count is that of the users changed |
| `Groups.UserService.SoftDeleteUser` | backend/internal/service/user_service.go:207-226 | deletes a live user; the errors otherwise |
| `Groups.RoleService.CreateRole` | backend/internal/service/role_service.go:23-51 | the role stored under its folded name, or why it is refused |
| `Groups.RoleService.DeleteRole` | backend/internal/service/role_service.go:102-116 | removes a role that is not a system role; the errors otherwise |
| `Groups.GroupMappingService.RoleNamesForIDs` | backend/internal/service/group_mapping_service.go:120-129 | the names of those listed roles that exist, in order |
| `Groups.GroupMappingService.AssignRole` | backend/internal/service/group_mapping_service.go:26-52 | an assignment that nothing interrupts: mapping, users and report |
| `Groups.GroupMappingService.UnassignRole` | backend/internal/service/group_mapping_service.go:54-79 | an unassignment that nothing interrupts: mapping, users and report |
| `Groups.GroupMappingService.ReconcileGroupMembers` | backend/internal/service/group_mapping_service.go:98-118 | a reconciliation that nothing interrupts: membership first, roles at a later reading, and report |
| `GroupRuns.ListedRoles` | backend/internal/service/user_service.go:108-147 | after applying a list a live user holds an existing role on it if and only if a member, and any other role as before |
| `GroupRuns.ApplyMakesExact` | backend/internal/service/group_mapping_service.go:42-45 | applying a group makes it exact and keeps every group exact that shares no role with it |
| `GroupRuns.SharedRoleExactly` | backend/internal/service/group_mapping_service.go:42-45 | applying one of two groups that share a role leaves it exact for the other if and only if their live members are the same |
| `GroupRuns.GroupRolesExactly` | backend/internal/service/group_mapping_service.go:26-118 | in runs of whole calls, from any point where a group is exact, it stays exact if and only if no step applies a group that shares a role with it and has other live members |
| `GroupRuns.ExactPoints` | backend/internal/service/group_mapping_service.go:26-118 | over every run a group without roles is exact, and so is a group that was just applied |
| `GroupRuns.DisjointIsHarmless` | backend/internal/service/group_mapping_service.go:26-118 | a step after which no role is mapped to two groups is harmless to every group |
| `GroupRuns.GroupRolesAreExact` | backend/internal/service/group_mapping_service.go:26-118 | in runs of whole calls from empty mappings whose steps are harmless to a group, live users hold each of its roles if and only if members |
| `GroupRuns.ReconcileIsCorrect` | backend/internal/service/group_mapping_service.go:98-118 | afterwards the live members are exactly the live users listed, they hold the group's roles and no other live user does, and nothing else changed |
| `GroupRuns.ReconcileIsIdempotent` | backend/internal/service/group_mapping_service.go:98-118 | a second identical call at any later time changes nothing and reports zero |
| `GroupRuns.UnassignStripsNobody` | backend/internal/service/group_mapping_service.go:66-73 | unassigning a role leaves it with exactly the users who had it |
| `GroupRuns.StepDeletes` | backend/internal/service/user_service.go:207-226 | a live user stops being live if and only if the step deletes that user, which sets status and time; a deleted user is frozen |
| `GroupRuns.UsersAreLiveExactly` | backend/internal/service/user_service.go:207-226 | over every run a user is live if and only if live at its start and not deleted since |
| `GroupRuns.StepMaps` | backend/internal/service/group_mapping_service.go:26-79 | a role is mapped to a group after a step if and only if the step assigns it, or it was before and the step does not unassign it |
| `GroupRuns.ReportMeaning` | backend/internal/service/group_mapping_service.go:26-118 | a successful call reports the trimmed group, its roles in ascending order, and how many users the application of their names changed |
| `GroupRuns.StepChangesRoles` | backend/internal/service/role_service.go:23-116 | exactly which creations and deletions of roles succeed, with the whole new set of roles |
| `GroupInterleavings.GroupsAreCoveredExactly` | backend/internal/service/group_mapping_service.go:26-129 | over every interleaving of critical sections, from any point where a group is covered, it stays covered if and only if every application of names is harmless to it |
| `GroupInterleavings.SettledGroupsAreExact` | backend/internal/service/group_mapping_service.go:26-129 | over every interleaving whose steps since a group was last covered are harmless to it, live users hold each of its roles if and only if members whenever no call on it is under way |
| `GroupInterleavings.CoveredPoints` | backend/internal/service/group_mapping_service.go:37-116 | a group without roles is covered, and a call that changes its mapping or sets its members covers it whatever happened before |
| `GroupInterleavings.OwnNamesAreHarmless` | backend/internal/service/group_mapping_service.go:42-45 | an application is harmless to every group as long as the existing roles of its names are mapped to no group but its own |
| `GroupInterleavings.UninterruptedCalls` | backend/internal/service/group_mapping_service.go:26-118 | the sections of a call run without interruption have the effect of the whole operation |
| `GroupInterleavings.StaleListExactly` | backend/internal/service/group_mapping_service.go:42-45 | applying the name of a role mapped to another group leaves that role exact there if and only if the two groups have the same live members |
| `GroupInterleavings.StaleListBreaksExactness` | backend/internal/service/group_mapping_service.go:42-73 | for every role, pair of groups and member of the second alone, a run that ends with the member lacking the role |
| `GroupInterleavings.StaleNameBreaksExactness` | backend/internal/service/group_mapping_service.go:120-129 | for every role, pair of groups and member of the second alone, a run in which a deleted role's name, looked up before, is stripped from the member who holds the new role of that name |
| `Gateway.GatewayService.ValidateJITGrant` | backend/internal/service/gateway_service.go:205-228 | accepts if and only if the grant exists, is approved, has not passed its expiry and is for the user, asset and protocol up to case; else the first check that fails |
| `Gateway.GatewayService.InitiateSession` | backend/internal/service/gateway_service.go:28-63 | a start that nothing interrupts: the session stored or the first refusal |
| `Gateway.GatewayService.TerminateSession` | backend/internal/service/gateway_service.go:77-93 | ends an active session once |
| `Gateway.GatewayService.RequestJITGrant` | backend/internal/service/gateway_service.go:106-143 | the pending grant stored, with its expiry, or the first refusal |
| `Gateway.GatewayService.ApproveJITGrant` | backend/internal/service/gateway_service.go:157-180 | approves a pending grant that has not expired |
| `Gateway.GatewayService.DenyJITGrant` | backend/internal/service/gateway_service.go:183-202 | denies a pending grant; see `GatewayRuns.DeniedGrantsLetNobodyIn` for what that means |
| `GatewayRuns.RunsAreOnward` | backend/internal/service/gateway_service.go:157-202 | over every interleaving decided grants and terminated sessions are frozen, and no grant changes its terms |
| `GatewayRuns.RequestsMakeGrants` | backend/internal/service/gateway_service.go:106-143 | a request makes a grant if and only if its trimmed fields are filled in, the protocol known and the TTL in range or left out |
| `GatewayRuns.StepMakes` | backend/internal/service/gateway_service.go:106-143 | a new grant comes from a request, is pending on its trimmed terms, and expires the TTL after it |
| `GatewayRuns.GrantsComeFromRequests` | backend/internal/service/gateway_service.go:106-202 | over every interleaving each grant was made by a request and keeps its terms |
| `GatewayRuns.StepDecides` | backend/internal/service/gateway_service.go:157-202 | the status of a grant after any step: approved by a non-blank approver while pending and not past expiry, denied by one while pending, else as before |
| `GatewayRuns.GrantsAreDecidedExactly` | backend/internal/service/gateway_service.go:157-202 | over every interleaving a grant is approved if and only if a non-blank approver approved it while it was pending and not past its expiry, and denied if and only if one denied it while pending |
| `GatewayRuns.CheckOutcome` | backend/internal/service/gateway_service.go:205-228 | a check passes if and only if the fields are filled in, the protocol known, and the grant stored, approved, not past its expiry and for the same user, asset and protocol up to case |
| `GatewayRuns.DeniedGrantsLetNobodyIn` | backend/internal/service/gateway_service.go:183-228 | over every interleaving no check of a grant passes once it has been denied |
| `GatewayRuns.SessionsWereApproved` | backend/internal/service/gateway_service.go:39-228 | over every interleaving each session under a grant has an approval of that grant, by somebody, while pending and not past expiry, and after it a check for the session's user, asset and protocol |
| `GatewayRuns.StartOutcome` | backend/internal/service/gateway_service.go:28-63 | exactly which starts without a grant store a session, and what session either kind of start stores |
| `GatewayRuns.SessionsEndExactly` | backend/internal/service/gateway_service.go:77-93 | over every interleaving a session is terminated if and only if some step terminated it |
| `GatewayRuns.GrantsBackTheirSessions` | backend/internal/service/gateway_service.go:39-60 | whatever happens between check and start, a session under a grant is for the grant's user, asset and protocol up to case, the grant is still approved, and it had not expired at the check |
| `GatewayRuns.SessionsCanStartAfterExpiry` | backend/internal/service/gateway_service.go:39-60 | for every user, asset, protocol, expiry, check before it and delay, a run that creates the session that much after the check |
| `GatewayRuns.NeverLateExactly` | backend/internal/service/gateway_service.go:39-60 | in all runs whose starts take at most d, the clocks of different threads unordered, a session checked at one time under a grant that expires at another is created by the expiry if and only if the check came at least d before it, or too late to pass |

## Left out

- HTTP handlers, middleware, configuration, the frontend and the command mains: plumbing.
- JWT signing, hashing, encryption, `StoreSecret` and `GetSecret`, and the key provider: library code around one map.
- Failures of the random source and of JWT signing when a session or a credential is issued: the call then ends before it stores anything.
- Login, single sign-on and `UserSyncService`: scaffolding with fixed data.
- Execution of the JSON schema: the predicate `PolicyModel.ValidDefinition` is read off the schema file.
- Parsing of CSV and JSON import data, of timestamps and of identifiers: the model starts from parsed rows, instants and identifiers.
- Rendering of the timestamp (section 5.6 of RFC 3339): an instant carries its rendering.
- Go values other than numbers, strings, booleans, lists and maps, typed slices, the difference between nil and empty slices, NaN and rounding to 64-bit floats.
- Integer overflow other than in durations, such as that of version numbers.
- Text outside ASCII.
- Generated usernames and passwords, audit event ids and messages, session metadata: carried along unread.
- `CreateUser`, `UpdateUser` and `RestoreUser`: they do not reapply mappings, so runs that contain them are outside the exactness theorems.
- `UpdateRole`: it changes neither the name nor the existence of a role.
- `PermissionService`, `TestConnection` and the list and get accessors: map lookups and stubs.
- Sharing of slices between a stored record and a returned copy: records are values here.
- Auth.AuthService.RefreshToken: its contract is that of a refresh that nothing interrupts; interleavings are in `AuthRuns`.
- Mfa.MfaService.VerifyMFA: its contract is that of a verification that nothing interrupts; interleavings are in `MfaRuns`.
- Vault.VaultService.TriggerRotation: its contract is that of a rotation that nothing interrupts; interleavings are in `RotationRuns`.
- Vault.VaultService.RunDueRotations: its contract is that of a sweep that nothing interrupts, because other calls may change the store in between; over every interleaving see `RotationRuns.SweepsIssueOneLeaseEach`.
- Vault.SweepAddsOneLeaseEach: counts the store of a sweep that nothing interrupts; over every interleaving see `RotationRuns.FinishedSweepsIssuedOneLeaseEach`.
- Assets.AssetService.ImportAssets: its contract is that of an import that nothing interrupts, because another creation in between can take a name first; interleavings are in `ImportRuns`.
- Groups.GroupMappingService.AssignRole: its contract is that of a call that nothing interrupts; interleavings are in `GroupInterleavings`.
- Groups.GroupMappingService.UnassignRole: its contract is that of a call that nothing interrupts; interleavings are in `GroupInterleavings`.
- Groups.GroupMappingService.ReconcileGroupMembers: its contract is that of a call that nothing interrupts; interleavings are in `GroupInterleavings`.
- Gateway.GatewayService.InitiateSession: its contract is that of a start that nothing interrupts; interleavings are in `GatewayRuns`.
- GroupRuns.GroupRolesAreExact: treats a call as one step; over every interleaving see `GroupInterleavings.SettledGroupsAreExact`.
- Clock readings inside the loops over users: one reading serves all users of a loop, and only `updatedAt` depends on it.
