# Verified model of quack_oauth's decisions

This project models the logic by which the quack_oauth extension decides whether a
token is good and whether a statement may run, and proves what those decisions
guarantee. It is written for Dafny 4.11; verify it with `dafny verify dfyconfig.toml`.

Three parts carry the weight.

**Token validation and the key cache.** `JwksModel` gives the cache of published keys
as a value with one function per operation; `JwksCacheImpl` is the cache as it runs,
two tables with their LRU lists updated in place, each method tied to its function.
`JwksTrace` proves what holds of *every* sequence of cache operations: which commits
are possible, when a kid leaves, what its counter means, that addresses do not disturb
each other; `JwksWindows`, `JwksMerge` and `KeyAge` do the same for its time windows, for
merged key lists and for how old a cached key is. `Signatures`, `Candidates`, `AuditReason`, `ValidatorModel` and `Validator`
model one validation. Because the process lock is dropped during the fetch, a
validation is two atomic steps around it; `Protocol` runs any number of them
interleaved, and `Spacing`, `Corroboration` and `Provenance` prove the rate limits, the
two-document rule and the origin of every good verdict over all interleavings.
`FetchRules` and `MissRate` say in seconds when a validation fetches, `RefreshOutcome` what
the end of a refresh makes of each entry. `Verdicts`, `ColdMiss`, `ColdOrders` and
`RefreshOrders` prove what one validation guarantees.

**Statement inspection and policy.** `SqlScope` gives the meaning: the references of a
statement under lexical scoping of CTE aliases, with an environment passed down.
`SqlInspector` is the recursive walk with its mutable alias stack, proved to collect
exactly those. `SqlPlaces` and `SqlReferences` say what a request is a second time,
without the walk: a path leads from a statement to any part of it (a statement with a
path is a context with one hole), and the request is exactly what the parts at the ends
of all paths name and refuse; `SqlCoverage` shows that the paths leave nothing out.
`SqlRename` renames aliases consistently. `Glob` and `Policy` are the matcher and the
rule walk, and `Authorization` composes everything into one equivalence under default
deny. `Sessions` interleaves the checks with the sessions stored meanwhile.

**Smaller pieces.** `DecisionModel` and `DecisionCacheImpl` (LRU with expiry),
`AuditLine` and `AuditRingImpl` (log lines and the ring of recent events), `Calendar` and
`Iso8601` (time stamps).

Foreign code enters as inputs. Verifying a token under a key, whether a key is usable
and whether an RSA key is too short are function values (`Signatures.Crypto`). A token's
header is given or absent (src/jwt_parse.cpp:18-37 rejects kids with control
characters). A fetch brings either nothing or the keys parsed from a 200 response, whose
type is known and whose kids are non-empty lines (src/jwks_parse.cpp:38-51). The order
in which a hash table is visited is a parameter, and every result holds for all orders.
Clock readings are inputs, fixed for the whole of a validation. Integers are unbounded.

## Where the code and its description differ

- README.md:577 of the repository says a rule without `column_pattern` does not cover
  the `*` sentinel; the code (src/policy.cpp:116) lets it, and so does the model
  (`Policy.UnpatternedColumnsDoNotMatter`).
- `columns` gathers references from every expression position, not only the projection
  (src/sql_inspect.cpp:256-285). A statement that names no object is decided by one
  blank cell, so its columns are not looked at.
- Renaming a CTE alias never changes action, objects or columns, but can make a request
  unsafe or safe: SHOW tests the spelling of its target before it looks at aliases
  (`SqlRename.ShowCanTellSpellingsApart`; exactly when: `SqlRename.RenamingKeepsTheRequest`).
- A reported rotation means that a new key was published, not that one was stored
  (`AuditReason.RotatedMayStoreNothingNew`; exactly when: `AuditReason.RotatedStoresANewKey`).
- src/validator.cpp:4 says that a kid with a usable published key is never recorded as
  missing. A cold miss does record it when the usable kids do not fit, or when the kid was
  cached meanwhile and siblings push it out (`ColdMiss.AnAlreadyCachedKidMayBeLost`; exactly
  when: `ColdOrders.UncachedKidHitsInEveryOrder`, `ColdOrders.CachedKidSurvivesEveryOrder`).
- Merging sibling keys is described as preserving fresh material (src/validator.cpp:196-200);
  it preserves new keys, but can drop a cached key that is still published
  (`JwksMerge.MergeMayDropAPublishedKey`; exactly when: `JwksMerge.CachedKeySurvivesExactly`).
- A commit for an outdated reservation or moment is refused so that late answers cannot
  overwrite newer keys (src/include/jwks_cache.hpp:185-187). A sibling merge moves neither
  reservation nor stamp, so the keys it brings can be newer than both. A late merge pushes
  newer keys out (`JwksWindows.LateSiblingEvictsANewerKey`), and an earlier refresh that
  commits after a merge takes the merged key and reports it revoked
  (`KeyAge.EarlierCommitTakesAMergedKey`; exactly when: `KeyAge.NewerKeyTakenInARun`).
- Misses are described as limited to one fetch per kid within the configured floor
  (src/include/jwks_cache.hpp:97-98). The floor counts from the answer that records the
  miss: a pending or failed fetch holds nothing back but the common budget of two seconds
  (`MissRate.TwoColdFetches`; exactly when: `MissRate.FloorHoldsExactly`).
- A cached decision can be missing before its time when the clock goes back
  (`DecisionModel.AFutureLookMayRemove`; exactly when: `DecisionModel.PresentUnlessLookedExpired`).
- Between finding an expired session and dropping it the lock is released
  (src/check_authorization_function.cpp:110-133): a session stored meanwhile under the same
  id is dropped in its place (`Sessions.FreshSessionIsDropped`; exactly when:
  `Sessions.UnexpiredLeavesExactly`).
- Time stamps before 1969 are off by a day in most years (`Iso8601.ParseUndoesFormat`
  says in exactly which), and day numbers are only checked against 31.

## Model

| member | source | states |
|---|---|---|
| Protocol.EveryRunIsATrace | src/check_token_function.cpp:327-360 | in any interleaving of validations, with the lock dropped during each fetch, the cache is what one sequence of cache operations makes of it, and its tables stay consistent |
| Protocol.CommitOfARun | src/jwks_cache.cpp:257-308 | over every interleaving: each commit that takes effect was granted for that very kid, its grant stayed current ever since, and nothing overtook it |
| Protocol.CommitsOfARun | src/jwks_cache.cpp:257-308 | over every interleaving: no identifier commits twice and later commits of a kid carry larger identifiers |
| Protocol.GrantsAreHeld | src/validator.cpp:356-393 | over every interleaving: each pending refresh holds an identifier that is current for no other kid, and while it is current the entry carries the time of that grant |
| Protocol.StepKeepsGrants | src/validator.cpp:356-506 | every step of every validation keeps all pending grants |
| Protocol.NoSharedGrants | src/jwks_cache.cpp:257-280 | two pending refreshes never hold the same identifier |
| Protocol.WhereAbsenceIs | src/validator.cpp:298-311 | the only absence report a validation makes is the holder's own, for its own identifier, with its own clock reading |
| Protocol.StampMovesByGrantOnly | src/jwks_cache.cpp:75-308 | while a kid stays cached, only a grant moves the time of its last attempt, provided absence reports come from the holder |
| JwksTrace.OnlyGrantInstalls | src/jwks_cache.cpp:257-280 | a reservation becomes current in no other way than by being granted |
| JwksTrace.CommitNeedsUnbrokenGrant | src/jwks_cache.cpp:282-308 | a commit that takes effect was granted for its entry and its reservation was current at every moment since |
| JwksTrace.CommitsAtMostOnce | src/jwks_cache.cpp:282-308 | an identifier commits at most once, for whichever entry |
| JwksTrace.CommitIdsIncrease | src/jwks_cache.cpp:257-308 | later commits of one entry carry larger identifiers |
| JwksTrace.OvertakenNeverCommits | src/jwks_cache.cpp:75-308 | a later grant, a counted absence, eviction, an authoritative ingest of other keys or a commit ends every earlier reservation of the entry for good |
| JwksTrace.LostExactlyWhenOvertaken | src/jwks_cache.cpp:75-308 | a reservation that is current stays so exactly until one of these overtakes it |
| JwksTrace.DeadStaysDead | src/jwks_cache.cpp:257-308 | a reservation that is no longer current never becomes current again |
| Spacing.FetchesAreApart | src/jwks_cache.cpp:212-255 | over every interleaving, for any number of kids, addresses and threads: two fetches in a row, on either path, are at least two seconds apart unless the clock went back by more than a minute |
| Spacing.NFetchesTake2nSeconds | src/validator.cpp:356-453 | without a clock reset, the n-th fetch after another is at least 2n seconds later |
| Spacing.RefreshesAreSpaced | src/validator.cpp:356-393 | over every interleaving: while a kid stays cached, any two grants for it are at least the configured floor apart unless the clock was reset |
| Spacing.GrantsAreSpaced | src/jwks_cache.cpp:257-280 | the same for any sequence of operations whose absence reports come from the holder |
| Spacing.RunsKeepStamps | src/validator.cpp:298-311 | no absence report of a run moves the time of a grant |
| Spacing.OneMoreFetch | src/jwks_cache.cpp:212-255 | the budget check and the record of a fetch together keep consecutive fetches apart |
| JwksTrace.IngestOutcome | src/jwks_cache.cpp:75-118 | the ingest that replaces keeps the last attempt of a cached kid, its reservation exactly if the keys are those it had, and the later of both stamps; a new kid starts with the time of the ingest |
| JwksTrace.WhyAKidLeaves | src/jwks_cache.cpp:75-210 | a kid leaves the cache exactly when a full table pushes it out or it is observed absent while its counter stands at one |
| JwksTrace.CounterCountsAbsences | src/jwks_cache.cpp:120-210 | the counter of a cached kid is the number of absences observed since it was last observed present, and is 0 or 1 at rest |
| JwksTrace.CounterFollowsObservation | src/jwks_cache.cpp:75-308 | each operation sets the counter to zero, raises it by one or leaves it, as it observes presence, absence or nothing |
| Corroboration.DocumentCountsOnce | src/validator.cpp:201-219 | one refresh document counts at most once against any kid |
| Corroboration.ColdMissesNeverCount | src/validator.cpp:451-500 | a cold miss never counts against any kid |
| Corroboration.AbsencesNeedDocuments | src/validator.cpp:379-389 | over every interleaving: a kid has been counted absent at most once per document a refresh fetched |
| Corroboration.EvictionNeedsTwoDocuments | src/jwks_cache.cpp:151-210 | over every interleaving: a kid that a step takes out of the cache other than by capacity was counted absent by the refresh document of that step and by that of an earlier step, and nothing in between observed it present |
| Provenance.GoodVerdictsRestOnPublishedKeys | src/validator.cpp:395-506 | over every interleaving and on all three paths: a good verdict is that of a key with a fitting algorithm and use which a document fetched for the token's own cache entry has published |
| Provenance.VerdictsAfterACommit | src/validator.cpp:298-393 | over every interleaving: once a commit has taken effect, every later good verdict for its kid is that of a key it stored, of one stored since or of one published by the document of that very step |
| Provenance.CachedKeysWerePublished | src/validator.cpp:201-333 | over every interleaving: a cached key was published, usable and for signing, under the kid of its entry in a document fetched from the entry's address |
| Provenance.StepCaches | src/jwks_cache.cpp:75-308 | a step caches no key that was not cached before or published by its document |
| Provenance.RefreshVerdictHasAKey | src/validator.cpp:335-393 | a good verdict after a refresh is that of a key in the cache it leaves or one its document files under the kid |
| Provenance.ColdVerdictHasAKey | src/validator.cpp:451-506 | the same after a cold miss |
| Verdicts.AnswerFromTheCache | src/validator.cpp:402-428 | without a fetch a good signature is reported exactly when the algorithm is admitted and a fitting key cached for the kid verifies the token |
| Verdicts.AnswerAfterRefresh | src/validator.cpp:335-393 | a refresh yields a good verdict exactly when its commit took and a published key verified or a key in the cache afterwards verifies; without a taken commit the verdict is that of a key in that cache |
| Verdicts.AnswerAfterMiss | src/validator.cpp:451-506 | a good verdict after a cold miss is that of a usable key filed under the kid or of a cached one |
| Verdicts.RefusalAfterRefresh | src/validator.cpp:335-393 | a refresh that refuses gives the verdict of the cached keys if it brought no document, else no matching key if keys are cached and none fits the header, and a bad signature in any other case |
| Verdicts.RefusalAfterMiss | src/validator.cpp:451-506 | a cold miss that refuses says why: the fetch failed, the document was empty, it did not establish the kid, no cached key fits, or no fitting key is good, a bad signature taking precedence |
| Verdicts.CommittedVerdictIsStored | src/validator.cpp:298-333 | the key behind a verdict reached before the commit is among the keys the commit stores |
| Verdicts.RefreshReportsTheTruth | src/validator.cpp:298-333 | the reported reason is true of the stored keys: same keys for no rotation, a strict part for revoked, unchanged for superseded, gone for evicted |
| AuditReason.ReasonTellsTheTruth | src/validator.cpp:146-194 | no rotation and revoked are never reported when the cap of four cut a key; rotated means exactly that a published key was not cached |
| AuditReason.Pigeonhole | src/validator.cpp:149-176 | distinct keys that are all among others are not more than those |
| AuditReason.RotatedMayStoreNothingNew | src/validator.cpp:246-296 | counterexample family: with four cached keys, a fifth published and the token verifying under the first (merged while the document was fetched), rotated is reported though the stored keys stay the same |
| AuditReason.UnmergedRotationIsTrue | src/validator.cpp:246-296 | if no published key that was already cached verifies the token, rotated is reported exactly when a new key is stored |
| AuditReason.RotatedStoresANewKey | src/validator.cpp:246-296 | rotated is reported exactly when a published key was not cached; a new key is stored exactly when, with at most four keys or none verifying, any is new, and otherwise one of the first four is once the verifying key has changed places with the first |
| AuditReason.CompareKeys | src/validator.cpp:149-176 | finds whether a candidate is not cached and whether a cached key is no candidate |
| Candidates.RetentionUnderCap | src/validator.cpp:246-296 | of any number of candidates a verifying one is stored if there is one, otherwise as many new ones as four places allow |
| Candidates.PreparedIsPermutation | src/validator.cpp:246-296 | the reorderings lose and duplicate nothing |
| Candidates.ScreenKeeps | src/validator.cpp:114-131 | screening keeps usable published keys only, each key once |
| Candidates.ScreenCovers | src/validator.cpp:114-131 | every usable key survives screening as key material |
| Candidates.SomethingUsable | src/validator.cpp:114-131 | screening leaves a key exactly when one is usable |
| Candidates.GroupSigningKeysByKid | src/validator.cpp:104-112 | each kid is grouped with exactly its signing keys, in document order |
| Candidates.ScreenUsableKeys | src/validator.cpp:114-131 | the loop computes the screened list |
| Candidates.PrioritizeMatchingKey | src/validator.cpp:246-262 | the loop moves the first verifying key to the front and reports its verdict, for two or more candidates |
| Candidates.PrioritizeNewKeys | src/validator.cpp:264-296 | above the cap the loops put uncached keys first, each part in its order |
| Candidates.Filed | src/validator.cpp:104-112 | the signing keys of a kid are those of the document with that kid and a signing use |
| Candidates.AnySame | src/validator.cpp:118-124 | finds a key of the same material |
| Candidates.Pick | src/validator.cpp:271-294 | one pass of the reordering keeps the new, or the old, keys in order |
| AuditReason.AnyUnheld | src/validator.cpp:149-161 | finds a key that is not among the others |
| Signatures.CachedVerdictHasAKey | src/validator.cpp:56-83 | a good signature is reported exactly when some key gives one, and with that key's own verdict |
| Signatures.VerifyWithCachedKeys | src/validator.cpp:56-83 | the loop returns the first good signature, else a bad signature, else the last other failure |
| Signatures.SelectAndVerify | src/validator.cpp:133-144 | the loop returns the verdict of the first fitting key that verifies |
| Signatures.MatchingKeys | src/validator.cpp:85-93 | the loop keeps the fitting keys in order |
| Validator.BeginValidation | src/validator.cpp:395-452 | up to the fetch: the outcome and the cache operations done |
| Validator.TryReserve | src/validator.cpp:362-379 | budget first, then the reservation, then the record of the fetch |
| Validator.FinishRefresh | src/validator.cpp:379-393 | after the fetch of a refresh: verdict, reason and cache operations |
| Validator.StoreDocument | src/validator.cpp:385-389 | the target kid is committed before the siblings are reconciled and ingested |
| Validator.CommitTargetKid | src/validator.cpp:298-333 | absent, unusable and commit branches with their reasons; a refused commit drops the verdict |
| Validator.CommitCandidates | src/validator.cpp:322-332 | the candidates are reordered against the keys cached at that moment and committed |
| Validator.IngestSiblingKeys | src/validator.cpp:201-219 | reconciles without the target, then ingests the other kids in any order |
| Validator.ReverifyAfterCommit | src/validator.cpp:335-354 | keeps the verdict of a taken commit, else verifies against the cache |
| Validator.FinishMiss | src/validator.cpp:452-506 | after the fetch of a cold miss: verdict and cache operations |
| Validator.IngestAll | src/validator.cpp:466-475 | every kid with a usable key is ingested passively, the token's kid with its matching key first |
| Validator.WhyNotEstablished | src/validator.cpp:480-499 | why a kid was not established: unknown if no key has it, no matching key if none of those is for signing, unsupported if one of those is a short RSA key, else unusable |
| Validator.CollectPresent | src/validator.cpp:203-208 | the kids with a signing key, without the empty one |
| Validator.IngestPassives | src/validator.cpp:211-218 | ingests every sibling with a usable key, in any order |
| Validator.IngestDocument | src/validator.cpp:462-475 | notes the document and ingests all its kids |
| ColdMiss.ColdMissEstablishesTheKid | src/validator.cpp:466-500 | for every order of visits, a usable uncached kid is a hit afterwards and not recorded as missing, if the usable kids fit into the cache |
| ColdOrders.UncachedKidHitsInEveryOrder | src/validator.cpp:466-500 | for any cache: a kid not cached yet, with a usable published key, is a hit after every order of visits exactly when the usable published kids fit into the cache |
| ColdOrders.CachedKidSurvivesEveryOrder | src/validator.cpp:466-500 | for any cache: a kid cached at position p when the document is processed stays a hit after every order exactly when p and the usable siblings not cached ahead of it are fewer than the places |
| ColdOrders.UnpublishedKidNeverHits | src/validator.cpp:477-499 | a kid neither cached nor published with a usable key is a hit after no order |
| RefreshOrders.RefreshAcceptsInEveryOrder | src/validator.cpp:335-393 | once the commit of a refresh has taken and a usable published key verifies, the refresh accepts in every order of visits exactly when the document has two usable keys for the kid or its usable kids fit into the cache |
| RefreshOrders.RefreshRuns | src/validator.cpp:379-392 | after the commit and the sweep a refresh visits the siblings as a cold miss would |
| FetchRules.RefreshFetchExactly | src/validator.cpp:356-377 | a validation sends a refresh exactly when the token is admissible, its kid cached, the cached keys leave the verdict open, the last fetch of all is two seconds ago and the last attempt for the kid the floor ago, or more than a minute ahead of the clock |
| FetchRules.HeldBackExactly | src/validator.cpp:362-377 | otherwise it answers with the verdict of the cached keys, which is not good, and says whether the budget or the floor held it back |
| FetchRules.RefreshIsOnRecord | src/jwks_cache.cpp:246-280 | a refresh sent leaves its identifier and time in the entry of its kid, the keys and all other entries as they are, and its time with the budget |
| FetchRules.FirstGoodKeyDecides | src/validator.cpp:402-428 | if a cached key with fitting use and algorithm gives a good signature, the first such key gives the verdict and nothing is fetched; if none does, no good verdict is reached without a fetch |
| FetchRules.OpenExactly | src/validator.cpp:56-83 | the cached keys leave the verdict open exactly when none is good and there is none, or one signature is bad, or the last key of a supported type is unusable |
| FetchRules.AdmittedAlgorithms | src/jwt_verify.cpp:242-260 | RS256, RS384, RS512, ES256, ES384 and EdDSA are admitted when no list is configured, else exactly the members of the list; none, an HMAC algorithm or no algorithm never |
| RefreshOutcome.WithdrawnKid | src/jwks_cache.cpp:192-210 | over every interleaving: a refresh whose document files no signing key under its kid, if it still holds the reservation, counts a first absence, which gives the reservation up and starts the floor anew, or by the second evicts the kid and says so; if not, the entry stays |
| RefreshOutcome.TwoRefreshesEvict | src/jwks_cache.cpp:192-210 | a withdrawn kid is gone after two refreshes, the second no sooner than the floor after the first was sent unless the clock was reset |
| RefreshOutcome.PublishedKid | src/jwks_cache.cpp:282-308 | over every interleaving: a refresh whose document files usable keys under its kid stores the first four, with counter and reservation cleared, exactly if it still holds the reservation and its clock is not up to a minute behind the last commit |
| RefreshOutcome.ReportedExactly | src/validator.cpp:298-393 | the reported reason names the branch taken: failed fetch, nothing parsed or usable, kid absent or evicted, superseded exactly when the usable keys were not stored, else rotated, revoked or no rotation |
| RefreshOutcome.AbsentSibling | src/jwks_cache.cpp:151-190 | over every interleaving: a refresh document without a signing key for another cached kid of the address raises its counter, and the second time evicts it |
| RefreshOutcome.PresentSibling | src/jwks_cache.cpp:120-190 | over every interleaving: a refresh document with signing keys for another cached kid clears its counter and merges the usable ones; if the keys of others have pushed it out first, it becomes a new entry |
| MissRate.FloorHoldsExactly | src/validator.cpp:402-453 | over every interleaving: where nothing else holds it back, a validation fetches for an uncached kid exactly unless a miss of the kid is on record from less than the floor ago |
| MissRate.MissesOfARun | src/jwks_cache.cpp:75-323 | after any operations the recorded miss of a kid is the last one recorded and not forgotten since |
| MissRate.WhenAMissIsRecorded | src/validator.cpp:451-480 | an answer records a miss exactly when a document came in and the kid is not cached once it is stored; a failed fetch records nothing |
| MissRate.ColdFetchExactly | src/validator.cpp:402-447 | a validation fetches on a miss exactly when the token is admissible, its kid not cached, the last fetch of all and the last document of the address two seconds ago, and the last recorded miss of the kid the floor ago, each up to a clock reset |
| MissRate.TwoColdFetches | src/validator.cpp:451-455 | counterexample family: two fetches for one kid two seconds apart, whatever the floor, while the first is pending or after it failed |
| ColdOrders.PushOut | src/jwks_cache.cpp:103-117 | while there are as many such siblings as places behind the kid, one of them is not cached, and visiting such siblings pushes the kid out |
| ColdMiss.ColdMissNeedsRoom | src/validator.cpp:466-500 | visited first with nothing cached, the kid is a hit exactly when the usable kids fit, and recorded as missing otherwise |
| ColdMiss.AnAlreadyCachedKidMayBeLost | src/validator.cpp:466-500 | counterexample family: a kid cached during the fetch and at the back of a full list is pushed out by a sibling and recorded as missing |
| ColdMiss.OtherKidMovesByOne | src/jwks_cache.cpp:103-117 | another kid moves a cached one back by at most one place |
| ColdMiss.VisitsSettleTheKid | src/validator.cpp:466-475 | after any part of the visits the kid stands no further back than the kids stored so far |
| JwksModel.RunKeepsValid | src/jwks_cache.cpp:75-323 | after any operations the lists and tables hold the same keys, stay within capacity, no kid keeps more than four keys and no counter rests above one |
| JwksTrace.OtherUrisUntouched | src/include/jwks_cache.hpp:208-213 | an operation for one address leaves entries and misses of all others as they are, except for capacity eviction |
| JwksTrace.ScopeIsTheUri | src/jwks_cache.cpp:151-172 | the prefix test selects exactly the entries of its own address |
| JwksTrace.CacheKeyIsInjective | src/include/jwks_cache.hpp:208-213 | on one-line addresses and kids the cache key is injective |
| Jwks.SameListIsMultisetEquality | src/include/jwks_cache.hpp:49-62 | the list comparison is equality of multisets of keys |
| Jwks.SameUpToTheKid | src/include/jwks_cache.hpp:36-47 | two keys of a known type are the same exactly if they differ at most in the kid and in parameters of other types |
| Jwks.SameIsEquivalence | src/include/jwks_cache.hpp:36-47 | key comparison is an equivalence on keys of known type, and only there reflexive |
| Jwks.SameKeyMaterial | src/include/jwks_cache.hpp:49-62 | the erasing loop computes the list comparison |
| JwksCacheImpl.JwksCache.constructor | src/jwks_cache.cpp:7-10 | in place: an empty cache, floor clamped, at least one entry |
| JwksCacheImpl.JwksCache.SetMinRefreshSeconds | src/jwks_cache.cpp:12-14 | in place: clamps the floor |
| JwksCacheImpl.JwksCache.Lookup | src/jwks_cache.cpp:37-65 | in place: hit, miss or rate-limited with the time to wait |
| JwksCacheImpl.JwksCache.OnFetchSuccess | src/jwks_cache.cpp:75-118 | in place: authoritative ingest, including what a changed key set does to the reservation and what falls off the list |
| JwksCacheImpl.JwksCache.OnPassiveFetchSuccess | src/jwks_cache.cpp:120-149 | in place: merges into a cached kid, ingests an uncached one |
| JwksCacheImpl.JwksCache.ReconcileAbsentKids | src/jwks_cache.cpp:151-190 | in place: counts or clears every judged kid and evicts the second-time absent ones |
| JwksCacheImpl.JwksCache.CountAbsences | src/jwks_cache.cpp:156-182 | in place: the sweep, in any order of entries |
| JwksCacheImpl.JwksCache.RecordKidAbsent | src/jwks_cache.cpp:192-210 | in place: in the fields of the entry: nothing changes unless the caller's reservation is current; the first absence sets the counter, the time and gives the reservation up, the second evicts |
| JwksCacheImpl.JwksCache.CanFetchJwks | src/jwks_cache.cpp:212-224 | in place: the budget is free exactly before any fetch, two seconds after the last one, or when the clock is more than a minute behind it |
| JwksCacheImpl.JwksCache.HasFreshJwksDocument | src/jwks_cache.cpp:226-244 | in place: a document younger than the window, never one from the future |
| JwksCacheImpl.JwksCache.RecordJwksFetch | src/jwks_cache.cpp:246-255 | in place: the budget remembers the latest fetch, or restarts after a reset |
| JwksCacheImpl.JwksCache.TryReserveRefresh | src/jwks_cache.cpp:257-280 | in place: grants the next identifier exactly when the kid is cached and its last attempt the floor ago or more than a minute ahead of the clock |
| JwksCacheImpl.JwksCache.CommitRefresh | src/jwks_cache.cpp:282-308 | in place: stores the first four keys exactly for the current identifier and with a clock that is not up to a minute behind the last commit |
| JwksCacheImpl.JwksCache.OnFetchMiss | src/jwks_cache.cpp:310-323 | in place: records a miss, dropping the oldest |
| JwksCacheImpl.JwksCache.RecordJwksFetchSuccess | src/jwks_cache.cpp:67-73 | in place: the arrival of a document, per address |
| JwksCacheImpl.Visit | src/jwks_cache.cpp:156-181 | what one cached kid learns from a document, and whether it must go |
| JwksModel.StepKeepsValid | src/jwks_cache.cpp:75-323 | every operation keeps lists, tables, caps and counters consistent |
| Lru.RemoveAll | src/jwks_cache.cpp:184-189 | removing keys one by one leaves the rest of the list in its order |
| JwksCacheImpl.MergeKeys | src/jwks_cache.cpp:130-144 | adds the keys not held and drops the oldest beyond four |
| Lru.Shrink | src/jwks_cache.cpp:113-117 | dropping from the back keeps exactly the front of the list and its part of the table |
| JwksWindows.MissThrottles | src/jwks_cache.cpp:37-65 | a recorded miss throttles look-ups of its kid exactly within the window, and the reported wait ends it |
| JwksWindows.ThrottledMissFetchesNothing | src/validator.cpp:429-436 | within that window no validation fetches for the kid |
| JwksWindows.WhyAMissIsForgotten | src/jwks_cache.cpp:75-118 | a recorded miss goes only when keys arrive for its kid, which is then cached, or when newer misses push it out |
| JwksWindows.DocumentStopsColdMisses | src/validator.cpp:438-440 | over any operations after the arrival of a document: no uncached kid makes a validation fetch from its address within the window, as long as no later arrival carries an earlier clock reading or one ahead of the validation |
| JwksWindows.FreshExactly | src/jwks_cache.cpp:226-244 | after any operations a document of an address counts as fresh exactly by the clock reading of its last arrival |
| JwksWindows.EarlierArrivalEndsFreshness | src/jwks_cache.cpp:67-73 | counterexample family: an arrival with an earlier clock reading ends the freshness of a later one inside the window |
| JwksWindows.ArrivalElsewhere | src/validator.cpp:438-440 | an arrival from one address does not affect validations for another |
| JwksWindows.CommitStampDoesNotFall | src/jwks_cache.cpp:75-308 | the stamp of the last commit or ingest of a cached kid does not fall, unless the clock was reset; it says nothing about merged keys |
| JwksWindows.StampsRiseWithoutReset | src/jwks_cache.cpp:282-308 | over any operations without a reset the commit stamp of a kid that stays cached never falls |
| JwksWindows.BehindStampChangesExactly | src/jwks_cache.cpp:75-308 | an operation that read its clock before the commit stamp of a cached kid changes its keys exactly when it merges a key not held, commits after a clock reset, or is a replacing ingest |
| KeyAge.OriginIsKnown | src/jwks_cache.cpp:75-308 | over any operations: every cached key was brought by an operation that took effect, and unless a merge brought it last, the stamp of its entry is no earlier than that |
| KeyAge.KeyIsLostExactly | src/jwks_cache.cpp:75-308 | an operation loses a cached key exactly when its kid leaves, a merge appends too many keys behind it, or a commit that takes effect or a replacing ingest does not hold it |
| KeyAge.NewerKeyTakenExactly | src/jwks_cache.cpp:75-308 | over any operations: an operation takes a key brought after its own clock reading exactly under that condition; a commit does so only for a key a merge brought last, or after a clock reset |
| KeyAge.NewerKeyTakenInARun | src/validator.cpp:395-506 | the same for every operation of every interleaving of validations |
| KeyAge.EarlierCommitTakesAMergedKey | src/jwks_cache.cpp:125-147 | counterexample family without a clock reset: a refresh that began before a sibling document merged a key commits after it, takes that key and reports it revoked |
| KeyAge.RunsAreClean | src/validator.cpp:114-131 | over every interleaving: the keys an operation brings are distinct and of known type |
| JwksWindows.LateSiblingEvictsANewerKey | src/jwks_cache.cpp:120-149 | counterexample family: a late sibling merge pushes the oldest of four newer keys out and leaves the stamp as it was |
| Protocol.NoValidationReplaces | src/validator.cpp:201-219 | over every interleaving: validations never issue the ingest that replaces the keys of a cached kid |
| JwksMerge.MergeKeepsNewKeys | src/jwks_cache.cpp:120-149 | merging keeps every published key that was not cached, up to four of them |
| JwksMerge.NothingIsDroppedWhileAllFit | src/jwks_cache.cpp:120-149 | while all keys fit the merge only appends: every cached and every published key is held afterwards |
| JwksMerge.AppendedAreTheNewOnes | src/jwks_cache.cpp:130-141 | of a document that lists each key once, the merge appends exactly the keys not cached, in document order |
| JwksMerge.SurvivesExactly | src/jwks_cache.cpp:120-149 | a key is held after a merge exactly when one of the last four of the cached and appended keys is that key |
| JwksMerge.CachedKeySurvivesExactly | src/jwks_cache.cpp:130-144 | a cached key survives exactly when it and all keys behind it, old and appended, are at most four, published or not |
| JwksMerge.MergeChangesExactly | src/jwks_cache.cpp:130-144 | a merge changes the cached list exactly when it brings a key not held |
| JwksMerge.MergeMayDropAPublishedKey | src/jwks_cache.cpp:142-144 | counterexample family: a cached key that the document still publishes is dropped in favour of a fifth |
| Authorization.AuthorizedIffEveryReferenceIs | src/check_authorization_function.cpp:94-162 | end to end under default deny: a request passes exactly when no part of the script is refused and each object a part names, with each column a part mentions, is allowed by the first rule that applies |
| Authorization.FreeTableIsGated | src/check_authorization_function.cpp:145-161 | wherever it stands in an authorized script, a table that no alias in sight stands for is of no other catalog, is not path-like, and is the one open system view or allowed by rule for every column mentioned |
| Authorization.WrittenTableIsGated | src/sql_inspect.cpp:298-366 | the same for the table an INSERT or COPY names, as a statement or in the place of a query at any depth, in terms of its own catalog, schema and table |
| Authorization.InsertIsGated | src/sql_inspect.cpp:355-358 | in particular for the target of an INSERT statement of the script |
| Authorization.CopyIsGated | src/sql_inspect.cpp:298-301 | and for the table of a COPY statement |
| Authorization.ShownTableIsGated | src/sql_inspect.cpp:569-584 | the same for the target of a SHOW that is neither a listing nor an alias in sight; it is neither empty nor the session variables |
| Authorization.DefaultPolicyExactly | src/authz.cpp:46-68 | without a policy table a request is authorized exactly for a known session whose expiry, if any, is no more than the skew ago, a script that passes the inspector, and the scope quack:write, or quack:read if every statement is a SELECT or EXPLAIN |
| Authorization.ReadersChangeNothing | src/authz.cpp:46-68 | without a policy table a principal that may only read gets no data change run: every statement is a SELECT or an EXPLAIN without ANALYZE at any depth, and no query hides a data change |
| Authorization.FunctionIsGated | src/check_authorization_function.cpp:145-161 | wherever it stands in an authorized script, a table function has a name, does not run SQL text, and is one of the two exempt ones or allowed by rule for every column mentioned |
| Authorization.Decide | src/check_authorization_function.cpp:118-161 | the decision on the session as it was found, made without the lock: allowed exactly for an unexpired session, a safe script and an allowing policy; an expired session is to be dropped; the reason is that of the first check that fails, and without a policy table names the scope required |
| Authorization.SessionTable.FindSession | src/check_authorization_function.cpp:110-117 | the session stored under the id, if any |
| Authorization.SessionTable.DropSession | src/check_authorization_function.cpp:130-133 | whatever is stored under the id by then is dropped |
| Authorization.SessionTable.CheckAuthorization | src/check_authorization_function.cpp:94-162 | with nothing stored in between: allows exactly the authorized requests and drops exactly the expired session |
| Sessions.WhyASessionLeaves | src/check_authorization_function.cpp:110-133 | a session leaves the table exactly as the victim of a store into a full table, or dropped by a check that had found a session under its id expired |
| Sessions.EveryDropWasFound | src/check_authorization_function.cpp:110-133 | over every interleaving: a check that drops had found the session under that id expired at an earlier step |
| Sessions.UnexpiredLeavesExactly | src/check_authorization_function.cpp:110-133 | over every interleaving: a session not expired by the clock of a check dropping it leaves exactly as a victim, or dropped in place of an expired one under its id, having been stored after the check looked |
| Sessions.FreshSessionIsDropped | src/check_authorization_function.cpp:110-133 | counterexample family: a check finds an expired session, a new one is stored under its id, and the check drops the new one |
| Sessions.RunsKeepCapacity | src/check_token_function.cpp:362-378 | over every interleaving the table keeps to 1000 sessions |
| Sessions.StoreIsTheMethod | src/check_token_function.cpp:362-378 | the store step leaves what the method that stores a session leaves |
| Authorization.SessionTable.FindVictim | src/check_token_function.cpp:367-375 | the scan, in any order, ends at an entry no other should go before |
| Authorization.SessionTable.StoreSessionPrincipal | src/check_token_function.cpp:362-378 | stores the session and, above 1000, drops one victim |
| Authorization.VictimExactly | src/check_token_function.cpp:367-375 | an entry may be the victim exactly when it expires first of all of known expiry, or none has a known one, and it is the oldest of equal expiry |
| SqlInspector.InspectSql | src/sql_inspect.cpp:901-952 | the walk with its mutable alias stack yields the request that the lexically scoped references give |
| SqlInspector.Inspector.WalkQuery | src/sql_inspect.cpp:394-397 | walking a query adds its references and restores the alias stack |
| SqlInspector.Inspector.WalkBody | src/sql_inspect.cpp:398-478 | the same for every kind of body; the recursive alias is visible in the right arm only |
| SqlInspector.Inspector.WalkRef | src/sql_inspect.cpp:480-600 | the same for every kind of table reference |
| SqlInspector.Inspector.WalkExpression | src/sql_inspect.cpp:256-285 | the same for expressions, with subqueries and columns at every depth |
| SqlInspector.Inspector.EnterCtes | src/sql_inspect.cpp:242-252 | a WITH list walks each definition under the aliases before it and leaves all of them visible |
| SqlInspector.Inspector.WalkModifiers | src/sql_inspect.cpp:306-338 | the same for ORDER BY, LIMIT and DISTINCT ON |
| SqlInspector.Inspector.WalkStatement | src/sql_inspect.cpp:782-835 | the same for SELECT, EXPLAIN, INSERT, UPDATE, DELETE, MERGE and COPY |
| SqlInspector.MergeOnlyUpdates | src/sql_inspect.cpp:340-347 | finds whether a MERGE has at least one action and updates in all of them |
| SqlInspector.Inspector.WalkScript | src/sql_inspect.cpp:929-943 | statement by statement with an empty stack; the first action names the request |
| SqlInspector.Inspector.AddObject | src/sql_inspect.cpp:94-121 | adds an object at most once, or marks the request unsafe |
| SqlGate.CollectIsExact | src/sql_inspect.cpp:89-168 | objects, columns and the unsafe flag are exactly those the references call for, without duplicates |
| SqlGate.NoAliasLeaks | src/sql_inspect.cpp:929-943 | the references of a script are those of its statements, each on its own |
| SqlGate.PassingScriptsAreUniform | src/sql_inspect.cpp:464-476 | a script that passes the inspector has one action only: that of every statement in it and of every data change in the place of a query, at any depth |
| SqlGate.MixedActionsAreUnsafe | src/sql_inspect.cpp:936-937 | two statements of different action make the request unsafe |
| SqlScope.DefinitionSeesEarlierAliases | src/sql_inspect.cpp:234-254 | a definition is resolved against the outer aliases and the ones before it, neither its own nor a later one |
| SqlPlaces.WalkMeetsExactly | src/sql_inspect.cpp:394-600 | the walk of a statement meets exactly the references and refusals of its parts: each expression, query, table reference and change in it, at any depth, under the aliases visible there |
| SqlPlaces.NothingIsMissed | src/sql_inspect.cpp:394-600 | whatever a part says is met by the walk of any part around it |
| SqlPlaces.NotInStatement | src/sql_inspect.cpp:782-835 | what no part of a statement says is not met by its walk |
| SqlCoverage.PlacesLeaveNothingOut | src/sql_inspect.cpp:394-600 | the places leave nothing of a statement out: two parts with the same names and the same parts at every place are equal, so no expression, query, table reference or change is out of reach of a path |
| SqlReferences.ObjectsAreNamed | src/sql_inspect.cpp:89-158 | a name is among the objects of a request exactly when some part of the script names it: a table no alias in sight stands for, a written or shown table, or a table function |
| SqlReferences.ColumnsAreNamed | src/sql_inspect.cpp:256-264 | a name is among the columns exactly when some column reference of the script ends in it, or is a star |
| SqlReferences.UnsafeIsRefused | src/sql_inspect.cpp:394-600 | a request is unsafe exactly when the text did not parse, an entry is null or of another action, or some part is refused: incomplete, of an unknown kind, a read of session state, a closed table or a hidden change of another action |
| SqlReferences.FileNameExactly | src/sql_inspect.cpp:201-229 | a name counts as a file read exactly with a slash, backslash or colon in any part, a dot in the table, or, if qualified, a table named like a file suffix |
| SqlReferences.TableIsSeen | src/sql_inspect.cpp:483-503 | at every place of a statement: a table no alias in sight stands for is among the objects as schema.table, main by default, unless the request is unsafe or it is the open system view |
| SqlReferences.ColumnIsSeen | src/sql_inspect.cpp:258-262 | at every place of a statement: the last name of a column reference is among the columns |
| SqlReferences.StarIsSeen | src/sql_inspect.cpp:263-264 | at every place of a statement: a star is among the columns |
| SqlReferences.TableFunctionIsSeen | src/sql_inspect.cpp:522-547 | at every place of a statement: a table function is among the objects as fn:name unless it is exempt or the request is unsafe; without a name, or as query or query_table, it makes the request unsafe |
| SqlReferences.WrittenTableIsSeen | src/sql_inspect.cpp:298-358 | at every place: the table an INSERT or COPY names is among the objects, even if an alias has its name |
| SqlReferences.ShownTableIsSeen | src/sql_inspect.cpp:569-584 | at every place: the target of a SHOW that is neither a listing nor an alias in sight is among the objects; without a name, or for the session variables, it makes the request unsafe |
| SqlReferences.HiddenChangeIsSeen | src/sql_inspect.cpp:464-476 | a data change in the place of a query, at any depth of a script that passes, is of the action of the request, and a MERGE only updates |
| SqlReferences.ActionIsSeen | src/sql_inspect.cpp:724-755 | the action of a request that passes is that of each of its statements |
| SqlRename.RenamingKeepsTheRequest | src/sql_inspect.cpp:394-600 | renaming the CTE aliases of a whole script to names not used freely never changes action, objects or columns; the request stays the same exactly when it was unsafe before just if SHOW forbids a new spelling or another reference is forbidden |
| SqlRename.AgreeingSpellingsAreHarmless | src/sql_inspect.cpp:569-584 | when SHOW treats old and new spellings alike the whole request stays the same |
| SqlRename.StatementCommutes | src/sql_inspect.cpp:782-835 | walking a renamed statement, with its own WITH list, meets the renamed references |
| SqlRename.LeafKeepsItsGate | src/sql_inspect.cpp:569-584 | a renamed reference is gated as before exactly when SHOW treats both spellings alike |
| SqlRename.ShowCanTellSpellingsApart | src/sql_inspect.cpp:573-582 | counterexample family: WITH a AS (SELECT 1) FROM (SHOW a) passes, and renaming a to a name with a dot makes its request unsafe, as SHOW tests the spelling before the alias |
| SqlRename.QueryCommutes | src/sql_inspect.cpp:394-478 | walking a renamed query meets the renamed references |
| SqlInspector.Inspector.Unsafe | src/sql_inspect.cpp:227-230 | marks the request unsafe |
| SqlInspector.Inspector.AddFunctionObject | src/sql_inspect.cpp:149-158 | adds fn: and the name once, unless exempt; dynamic SQL functions mark the request unsafe |
| SqlInspector.Inspector.AddColumn | src/sql_inspect.cpp:160-168 | adds a column once |
| SqlInspector.Inspector.IsCte | src/sql_inspect.cpp:185-187 | finds an alias on the stack exactly when it is visible |
| SqlInspector.Inspector.PushAlias | src/sql_inspect.cpp:239-241 | a non-empty alias becomes visible |
| SqlInspector.Inspector.WalkSelect | src/sql_inspect.cpp:399-427 | adds exactly the references of: every clause of a SELECT |
| SqlInspector.Inspector.WalkUnderAlias | src/sql_inspect.cpp:447-460 | adds exactly the references of: walks one arm with its alias visible and takes the alias off again |
| SqlInspector.Inspector.WalkCteNode | src/sql_inspect.cpp:433-461 | adds exactly the references of: definition and child of a CTE node, seed and arm of a recursive one, the alias visible in the second alone |
| SqlInspector.Inspector.WalkQueries | src/sql_inspect.cpp:428-432 | adds exactly the references of: every arm of a set operation |
| SqlInspector.Inspector.WalkBaseTable | src/sql_inspect.cpp:483-503 | adds exactly the references of: a bare name of a visible alias is skipped, any other table is gated |
| SqlInspector.Inspector.WalkJoin | src/sql_inspect.cpp:504-514 | adds exactly the references of: both sides and the condition |
| SqlInspector.Inspector.WalkTableFunction | src/sql_inspect.cpp:522-548 | adds exactly the references of: the function, its arguments and its subquery |
| SqlInspector.Inspector.WalkPivotRef | src/sql_inspect.cpp:549-563 | adds exactly the references of: the source, the aggregates and the pivot columns |
| SqlInspector.Inspector.WalkShowName | src/sql_inspect.cpp:572-584 | adds exactly the references of: the spelling tests, then the alias test, then the object |
| SqlInspector.Inspector.WalkInsert | src/sql_inspect.cpp:355-365 | adds exactly the references of: target, source and clauses of an INSERT |
| SqlInspector.Inspector.WalkUpdate | src/sql_inspect.cpp:367-372 | adds exactly the references of: target, sources and clauses of an UPDATE |
| SqlInspector.Inspector.WalkDelete | src/sql_inspect.cpp:374-379 | adds exactly the references of: target, sources and clauses of a DELETE |
| SqlInspector.Inspector.WalkMerge | src/sql_inspect.cpp:381-392 | adds exactly the references of: target, source, condition and actions of a MERGE |
| SqlInspector.Inspector.WalkMergeAction | src/sql_inspect.cpp:385-390 | adds exactly the references of: condition, assignments and values of one action, a null one marked unsafe |
| SqlInspector.Inspector.WalkCopy | src/sql_inspect.cpp:298-304 | adds exactly the references of: target, query, path and options of a COPY |
| SqlInspector.Inspector.WalkExplain | src/sql_inspect.cpp:790-804 | adds exactly the references of: an EXPLAIN, with ANALYZE and a null statement marked unsafe |
| SqlInspector.Inspector.WalkNeededExprs | src/sql_inspect.cpp:291-296 | adds exactly the references of: a list of expressions none of which may be null |
| SqlInspector.Inspector.WalkHiddenChange | src/sql_inspect.cpp:465-470 | adds exactly the references of: a data change in the place of a query, marked unsafe unless the request is of its action |
| SqlInspector.Inspector.WalkChangeStatement | src/sql_inspect.cpp:805-829 | adds exactly the references of: a data-changing statement under its WITH list, with the mark its classification sets |
| SqlInspector.Inspector.WalkEntry | src/sql_inspect.cpp:930-942 | adds exactly the references of: one entry of a script, null entries and a differing action marked unsafe |
| Policy.HasAnyScope | src/policy.cpp:107-109 | an unconstrained rule or a shared scope |
| Policy.PatternSkips | src/policy.cpp:113-128 | a pattern is skipped exactly when it does not cover the name; no name is never covered |
| Text.LowerExactly | src/sql_inspect.cpp:59-63 | folding turns each capital into its small letter and leaves every other character |
| Glob.GlobMatch | src/policy.cpp:73-94 | terminates and holds exactly when some replacement of the stars gives the value, up to case |
| Glob.LaterStarSubsumes | src/policy.cpp:77-86 | once a second star is met the first one no longer matters |
| Glob.RestartFails | src/policy.cpp:83-86 | a mismatch rules out the present restart and no other |
| Glob.MatchesAtIffDenotes | src/policy.cpp:73-94 | matching position by position is the replacement semantics |
| Glob.CaseDoesNotMatter | src/policy.cpp:29-33 | folding the pattern or the value never changes the answer |
| Policy.SoleRuleAllows | src/policy.cpp:101-179 | a policy of one rule that allows, all else denied, passes a request exactly when the rule is for its principal, a shared scope and its action, and its patterns cover every object and every column named; a pattern covers nothing where nothing is named |
| Policy.NothingMattersBehindACatchAll | src/policy.cpp:101-148 | behind a rule without conditions neither further rules nor the default matter, and every rule in front of it that applies outranks it |
| Policy.EvaluateCell | src/policy.cpp:101-148 | the first applicable rule decides, else the default; with the reason |
| Policy.RuleApplies | src/policy.cpp:103-128 | the checks in their order amount to the rule applying |
| Policy.EvaluateColumns | src/policy.cpp:163-177 | for one object: allows exactly when every column of the request is allowed on it; a denial names a denied cell |
| Policy.EvaluatePolicy | src/policy.cpp:152-179 | allows exactly when every touched cell is allowed; a denial names a denied cell |
| Policy.OnlyTheNamesMatter | src/policy.cpp:152-179 | permuting or repeating objects and columns never changes a decision |
| Policy.TiesMayBeReordered | src/policy.cpp:101-148 | neighbouring rules that agree on allow may be exchanged |
| Policy.PatternFreeIgnoresNames | src/policy.cpp:101-148 | without patterns the decision on a cell depends on principal and action alone |
| Policy.PatternFreeRequests | src/policy.cpp:152-179 | without patterns the decision on a request depends on principal and action alone |
| Policy.UnpatternedColumnsDoNotMatter | src/policy.cpp:113-128 | without column patterns the decision on a request depends on principal, action and objects alone, whatever its columns, the star sentinel included |
| DecisionModel.HitsAreFresh | src/decision_cache.cpp:43-68 | a look-up hits exactly when the key is present and neither the default lifetime of its last good decision nor the expiry of the principal has passed, and returns that principal |
| DecisionModel.PresentUnlessLookedExpired | src/decision_cache.cpp:43-86 | whatever the clock does: unless max_entries other keys were used since the key was, a stored key is present exactly when it has not been looked up at or past its expiry |
| DecisionModel.MissingWasLookedExpiredOrPushed | src/decision_cache.cpp:43-86 | a stored key is missing only if it was looked up expired or max_entries other keys were used since it was |
| DecisionModel.WhyAStoredKeyIsMissing | src/decision_cache.cpp:43-86 | at a time no earlier than any use of the key so far, a stored key is missing only if it expired or at least max_entries other keys were used since it was |
| DecisionModel.AFutureLookMayRemove | src/decision_cache.cpp:48-53 | counterexample family: when the clock goes back a key can be missing without either |
| DecisionModel.ListIsInOrderOfUse | src/decision_cache.cpp:54-86 | everything ahead of an entry has been used since the entry was |
| DecisionModel.WhyAKeyLeaves | src/decision_cache.cpp:43-86 | a key leaves when looked up expired or when pushed off a full list |
| DecisionModel.EntriesAreLastPuts | src/decision_cache.cpp:59-80 | every entry is that of the last good decision stored for its key |
| DecisionCacheImpl.DecisionCache.constructor | src/decision_cache.cpp:23-25 | an empty cache of at least one entry |
| DecisionCacheImpl.DecisionCache.Lookup | src/decision_cache.cpp:43-57 | in place: the look-up, with list and index in bijection |
| DecisionCacheImpl.DecisionCache.Store | src/decision_cache.cpp:59-86 | in place: the store, with list and index in bijection |
| DecisionCacheImpl.IndexFinds | src/decision_cache.cpp:70-72 | the index finds what a search of the list would find |
| DecisionCacheImpl.Remove | src/decision_cache.cpp:48-52 | erases one entry from list and index |
| DecisionCacheImpl.MoveToFront | src/decision_cache.cpp:54-75 | moves one entry to the front and replaces it |
| DecisionCacheImpl.PushFront | src/decision_cache.cpp:78-85 | pushes an entry and drops what exceeds the capacity |
| AuditLine.NeedsQuoting | src/audit.cpp:50-57 | finds whether a value must be quoted |
| AuditLine.AppendEscaped | src/audit.cpp:63-86 | appends the escape of one character |
| AuditLine.AppendField | src/audit.cpp:91-95 | appends a field unless it is empty |
| AuditLine.ReadUndoesFormat | src/audit.cpp:49-107 | a reader recovers time, type and all six fields from the line, whatever characters they hold |
| AuditLine.FormatIsInjective | src/audit.cpp:97-107 | two events give the same line only if they are equal |
| AuditLine.LineHasNoControl | src/audit.cpp:49-107 | no character below 0x20 and no 0x7f in a line |
| AuditLine.QuotedIsTaken | src/audit.cpp:60-88 | a quoted value ends where its closing quote is |
| AuditLine.MaybeQuote | src/audit.cpp:49-89 | the loops compute the quoted form |
| AuditLine.FormatAuditLine | src/audit.cpp:97-107 | appends the line field by field |
| AuditRingImpl.AuditRing.constructor | src/audit.cpp:23-24 | an empty ring of at least one place |
| AuditRingImpl.AuditRing.Push | src/audit.cpp:26-32 | the history grows by the event, the oldest place is overwritten |
| AuditRingImpl.AuditRing.Snapshot | src/audit.cpp:34-44 | the last events pushed, oldest first, as many as the ring holds |
| Iso8601.ParseUndoesFormat | src/acquire_function.cpp:29-61 | reading a written stamp of a four-digit year gives the moment exactly in the years in which the divisions toward zero cancel, and so in every year from 1969 on |
| Iso8601.ParseCountsDays | src/acquire_function.cpp:50-60 | from 1970 on the reader gives the seconds found by counting days one by one |
| Iso8601.ParseIsIncreasing | src/acquire_function.cpp:29-61 | later stamps read as larger numbers |
| Iso8601.ReaderCountsRight | src/acquire_function.cpp:57-58 | the reader's day count is the calendar's exactly under that condition |
| Iso8601.DayPastTheMonth | src/acquire_function.cpp:45-48 | a day past the end of its month reads as a day of the next month |
| Iso8601.WrittenIsRead | src/acquire_function.cpp:32-44 | every field of a stamp within range is read as written |
| Calendar.FormulaCountsDays | src/acquire_function.cpp:52-58 | the closed formula numbers the days one by one, in both directions from 1970 |
| Calendar.EveryDateIsCounted | src/acquire_function.cpp:52-58 | every calendar date is reached by counting, at the number of the formula |
| Calendar.EarlierIsLess | src/acquire_function.cpp:52-58 | an earlier date has a smaller number |

## Left out

- HTTP, TLS, OpenSSL, the JWT and JSON libraries, PEM building and SHA-256: foreign code, kept as inputs.
- The retry of a failed fetch: a validation records one fetch and the client may send a second request for it; the rate limits count fetches, not requests.
- Throttle counters and the label of the last refresh reason: reporting only.
- Introspection, tokeninfo and GitHub validation: linear mappings of a response around the decision cache.
- The DuckDB parser: the model starts from parsed statements; an empty query is an empty script.
- CREATE, DROP, ALTER, ATTACH, DETACH, PRAGMA, SET, LOAD and transaction statements: single-branch cases of the inspector.
- Error texts of the inspector, and null entries in the expression lists that it skips.
- Loading the policy table and reading settings: the policy document, its default and the clock skew are inputs.
- The list iterators of the caches: a list holds keys, and an entry is found by its key, so moving a node and moving its key are the same in the model.
- Strings are sequences of characters; where the source works on bytes, characters above 0x7f are treated as the source treats bytes above 0x7f.
- Year formatting outside 1000 to 9999.
- Authorization.SessionTable.CheckAuthorization: states the case with nothing stored between its two locked moments; what each moment does on its own is stated by FindSession, Decide and DropSession, and what they do interleaved by the module Sessions.
