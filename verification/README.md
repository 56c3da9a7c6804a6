# Gatekeeper, verified

Gatekeeper stands between callers and the Cloudflare API. One Durable Object holds token buckets, API
keys, upstream tokens and a configuration registry; it collapses identical purge requests into one
upstream call and decides by policy what a key may do. This project models that object and proves what it
promises, in Dafny 4.11. `dafny verify dfyconfig.toml` checks everything.

| File | What it holds |
|---|---|
| `TokenBucket.dfy` | the bucket class, and conservation, window bound, retry-after and polling laws |
| `RequestCollapse.dfy` | the collapser class, its step relation over concurrent callers, and laws about all runs |
| `PurgeProtocol.dfy` | `purge` and `doPurge` with any number of callers, responses, drains and bucket replacements in any order; the end-to-end rate bound |
| `Gatekeeper.dfy`, `GatekeeperObject.dfy` | the Durable Object: account buckets, per-key buckets with their LRU map, configuration, key and bucket calls; the invariant of all reachable states; the class, with a method proved against each of those steps |
| `Gateway.dfy` | both at once: purges in flight while configuration, keys and budgets change, and the rate bound in terms of the configuration |
| `PerKeyBudget.dfy` | the budget of one key over whole runs of that object |
| `KeyStore.dfy` | API keys and the credential cache |
| `PurgeContexts.dfy` | from a purge body to the questions put to the policy |
| `ConfigRegistry.dfy` | the configuration registry and its cache |
| `UpstreamTokens.dfy` | upstream tokens, their scan and the resolution cache |
| `PolicyTypes.dfy`, `PolicyEngine.dfy`, `Glob.dfy`, `PolicyValidation.dfy` | policies: evaluation, glob compilation, and what validation guarantees about evaluation |
| `PolicyOperators.dfy`, `PolicyAcceptance.dfy` | what each operator and pattern says, and which documents validation accepts, over texts, numbers and JSON alone |
| `PolicySchema.dfy` | what the request schema makes of a policy, and the guarantee from request to decision |

The two layers are tied together: a class with the code's own fields and control flow is proved against
functions on values (its `ensures` give the whole new state), and the theorems are about those functions,
over every run. What these functions mean is said again without them, in terms of rows, texts, numbers and
buckets: `DecisionIff`, `IsSetting`, `Denotes`, `WithoutFetchIs429`, `WithoutEntryStartsFull`, and all of
`PolicyOperators` and `PolicyAcceptance`. Larger machines are refined by smaller ones: a run of the gateway
is a run of the collapser (`GatewayRunsAreCollapserRuns`), a run of the Durable Object is a run of the key
store (`RunsAreKeyStoreRuns`), and a run of the whole is a run of both (`RunsProject`).

## Laws that hold only under a condition

For each of these the code is kept as it is, and the exact condition or a failing input is proved.

- Every unsettled flight is the one in `inflight` for its key, so no key has two: exactly in runs in which no
  follower's catch branch deletes the entry of an unsettled flight (`SingleFlightIff`). Two followers of a
  failed leader break it (`TwoFollowersOfAFailedLeaderBothLead`). If nothing rejects it always holds.
- A collapsed result is that of a flight which its lookup found unsettled, or settled at most the grace window
  before, on any clock (`CollapsedResultsAreFaithful`). That the lookup was in truth no later than that, also
  where the settlement was recorded afterwards, and that flights are a grace window apart, needs a clock that
  does not step back (`CollapsedResultsAreFresh`, `OneFlightPerGraceWindow`).
- Every stretch of a bucket's run conserves tokens exactly if no drain sets the clock back by more than the
  tokens it destroys are worth (`BudgetIff`). The window bound holds for all such runs, whatever the clock does
  inside the window: without drains on every clock, with drains on every clock that does not step back.
  Otherwise some stretch does not conserve, and the window bound can fail too
  (`DrainInThePastBreaksTheBudget`, `DrainsInThePastBreakTheWindow`).
- Retry-after: waiting helps exactly when the count fits into the bucket (`RetryAfterIsLeast`).
- An upstream 429 empties the bucket that new calls of the class use exactly if no configuration change
  replaced it since the fetch started (`DrainReachesCurrentBucketIff`); a run in which it misses is
  `DrainMissesReplacement`.
- A `setConfig` with a bad entry writes the entries before it and skips invalidation and rebuild. Table,
  cache and buckets stay in step exactly if each of those entries repeats the stored value
  (`SetConfigKeepsInStepIff`). The next valid update repairs the rest (`ValidUpdateRepairs`). Resetting a key
  without a row reloads the cache and rebuilds nothing, so it repairs exactly if what the rows left behind
  resolve to is what the cache said (`ResetOfMissingRowKeepsInStepIff`,
  `FailedUpdateThenResetLeavesBucketsBehind`).
- A cached upstream token is the current answer while the row behind it is live (`CacheHitIsCurrentIff`).
- A zone shares its cache entry with another query exactly if its id starts with `id:` or `account:`
  (`ZonesCollideIff`), and can then be given a token that no scan gives it (`CollisionGivesAWrongToken`). The
  purge and proxy routes let only 32 hex digits through as a zone id (`src/constants.ts:41`,
  `src/cf/proxy-helpers.ts:25`), so no such id arrives by them.
- A list of zone ids survives storage exactly when it is not empty and no id has a comma
  (`ListRoundTripIff`).
- Conditions nested deeper than 20 levels are cut off, and under `not` that can turn a refusal into a
  match (`DeepNotIsTrue`); validated conditions never get there.
- A validated policy is not always decided. The validator goes by `any`, `all` or `not` where an object has one;
  the evaluator goes by `field` and `operator` where an object has both, and then reads values that nobody
  validated. A leaf throws on some request exactly if its `field` does not convert to a property name, or it
  compares numbers and its `value` does not convert (`LeafThrowsOnSomeIff`); two accepted conditions that throw
  are `UnvalidatedFieldThrows` and `UnvalidatedValueThrowsIff`. Whole stored policies throw exactly on the
  requests that lead the engine to such a leaf before something decides, and are otherwise decided by what the
  engine reads (`StoredPoliciesDecideAsRead`). That is what the validator read exactly if no condition has two
  shapes (`ReadingsAgreeIff`, `MixedShapesAreReadTwoWays`), and then nothing throws (`StoredPoliciesDecideExactly`).
  The create route's schema strips every condition to one shape first, so every policy stored by it is decided,
  and exactly (`RoutePoliciesDecideExactly`).
- A leaf on a name that every object inherits, such as `constructor`, finds something on every context: exactly
  for these names `exists` always holds and `not_exists` never (`AlwaysPresentIff`).
- A star in a glob does not match line terminators (`StarStopsAtLineTerminators`).
- A key that lost its entry in the per-key map starts with a full bucket (`WithoutEntryStartsFull`), and an
  entry is only evicted after 1024 different keys were used (`EvictedKeyIsLongUnused`).

## Where code and comments disagree

The model follows the code.

- `src/iam.ts` speaks of extending an expiry in `updateKey`; any expiry is accepted, also one that
  revives an expired key (`UpdateRevivesIff`).
- `rotateKey` is said to inherit the configuration; it drops the expiry (`RotationDropsExpiry`) and turns an
  absent upstream token into an empty one (`RotationKeepsPinIff`).
- An expiry of 0 is "none" for authorization and resolution, and due for both cleanups.
- `evalWildcard` is said to affect action and resource matching; those compare case-sensitively and do not
  use it.
- `resolveTokenForZone` looks at tokens of every scope type; a wildcard row with an empty token is passed over.

## Assumptions

- Tokens and rates are reals; the clock counts whole milliseconds, and each synchronous stretch of code
  reads it once. Theorems say when they need the clock not to step back.
- Generated ids are fresh. SQL tables are maps or lists of rows, rows of one instant in insertion order.
- Policy text is either a parsed document or corrupt; parsing what was stored gives it back.
- A cleanup timer fires no sooner than its delay, and perhaps never.
- Rates and sizes in key rows and configuration are positive, as the request schemas demand
  (`src/routes/admin-schemas.ts:74-118`); nothing inside the Durable Object checks them again.
- `Number(...)` and the conversion to a property name are parameters on values that convert; on the others they
  throw, and `Unconvertible` says which JSON values these are. Regular expressions other than compiled globs, the
  regex safety checks, case folding and `new URL(...)` are parameters. Each theorem holds whatever they return.
- A policy of the declared type, as `KeyStore` and `PolicyEngine` have it, holds values that convert. Documents
  that need not are in `PolicyValidation`.
- The runs of `PurgeProtocol` and `Gateway` are on a clock that does not step back between purge steps; those of
  `RequestCollapse`, `Gatekeeper` and `KeyStore` are on any clock.

## Model

| member | source | states |
|---|---|---|
| TokenBuckets.TokenBucket.constructor | src/token-bucket.ts:9-14 | a new bucket is full |
| TokenBuckets.TokenBucket.Refill | src/token-bucket.ts:63-69 | earns rate times elapsed time up to the size; a clock that stands or steps back changes nothing |
| TokenBuckets.TokenBucket.Consume | src/token-bucket.ts:20-42 | grants and charges, or refuses and reports the wait; a count of zero or less is charged as one |
| TokenBuckets.TokenBucket.Drain | src/token-bucket.ts:45-48 | empties the bucket and sets its clock, also backwards |
| TokenBuckets.TokenBucket.GetRemaining | src/token-bucket.ts:51-54 | whole tokens after a refill |
| TokenBuckets.TokenBucket.GetSecondsUntilRefill | src/token-bucket.ts:57-61 | whole seconds until one token |
| TokenBuckets.RefillComposes | src/token-bucket.ts:63-69 | refilling in two steps is refilling once, through saturation |
| TokenBuckets.RetryAfterIsLeast | src/token-bucket.ts:20-42 | a refused call succeeds after w seconds iff the count fits the bucket and w is at least the reported wait |
| TokenBuckets.RemainingIsLargest | src/token-bucket.ts:20-42 | after a grant, exactly the counts up to `remaining` are still grantable at that instant |
| TokenBuckets.ConsumeCosts | src/token-bucket.ts:20-42 | a count of zero or less costs one token and any other itself; granted iff the refilled bucket holds that much, charged exactly that, and a refusal costs nothing and reports none left |
| TokenBuckets.NewBucketIsFull | src/token-bucket.ts:9-14 | a new bucket has the given rate and size and grants at once exactly what fits |
| TokenBuckets.RefilledAfterSeconds | src/token-bucket.ts:63-69 | after w seconds a bucket holds what it held plus w times its rate, up to its size |
| TokenBuckets.SecondsUntilRefillIsLeast | src/token-bucket.ts:57-61 | the least number of whole seconds after which one token is granted, if one fits at all |
| TokenBuckets.GetRemainingIsLargest | src/token-bucket.ts:51-54 | the largest whole count that this instant grants |
| TokenBuckets.RunKeepsValid | src/token-bucket.ts:20-69 | 0 <= tokens <= size after every run on any clock |
| TokenBuckets.StepConservesIff | src/token-bucket.ts:20-69 | one call conserves tokens iff it is not a drain that sets the clock back by more than the tokens it destroys are worth |
| TokenBuckets.Budget | src/token-bucket.ts:20-69 | a run without such a drain conserves: tokens granted plus tokens left never exceed tokens at the start plus what the rate earns |
| TokenBuckets.BudgetIff | src/token-bucket.ts:20-69 | every stretch of a run conserves iff the run has no such drain |
| TokenBuckets.WindowBound | src/token-bucket.ts:20-69 | all grants at instants of [s, e] total at most a full bucket plus rate times the time from s to e, on any clock, if no drain overdraws |
| TokenBuckets.WindowBoundWithoutDrains | src/token-bucket.ts:20-69 | so without drains on every clock |
| TokenBuckets.WindowBoundOnMonotoneClock | src/token-bucket.ts:20-69 | and with drains on every clock that does not step back |
| TokenBuckets.WindowInsideRun | src/token-bucket.ts:20-69 | and there for any window inside a longer run |
| TokenBuckets.NoDrainInThePastNeverOverdraws | src/token-bucket.ts:45-48 | a drain that is not before the last refill never overdraws |
| TokenBuckets.MonotoneMeansNoDrainInThePast | src/token-bucket.ts:45-48 | a clock that never steps back has no drain before the last refill |
| TokenBuckets.WithoutDrainsAnyClockWillDo | src/token-bucket.ts:63-69 | nor has a run without drains, on any clock |
| TokenBuckets.DrainInThePastBreaksTheBudget | src/token-bucket.ts:45-48 | a concrete run in which a drain at an earlier instant lets the same time be earned twice |
| TokenBuckets.DrainsInThePastBreakTheWindow | src/token-bucket.ts:45-48 | a concrete run inside one window that is granted more than the bound |
| TokenBuckets.SameOutcomes | src/token-bucket.ts:20-69 | buckets that refill to the same state answer and grant the same in every run from then on |
| TokenBuckets.PollingIsHarmless | src/token-bucket.ts:35-61 | any queries and refused calls put before a run change no later answer and no grant |
| RequestCollapse.RequestCollapser.constructor | src/request-collapse.ts:36-41 | no entries, the given grace window |
| RequestCollapse.RequestCollapser.Lookup | src/request-collapse.ts:52-65 | shares an entry that is unsettled or within the grace window, evicts a stale one |
| RequestCollapse.RequestCollapser.LeaderFailed | src/request-collapse.ts:68-72 | the catch branch deletes whatever entry the key has |
| RequestCollapse.RequestCollapser.Create | src/request-collapse.ts:76-82 | a new flight object becomes the entry of its key |
| RequestCollapse.RequestCollapser.OnSettled | src/request-collapse.ts:85-86 | records the settlement of its own flight |
| RequestCollapse.RequestCollapser.OnTimer | src/request-collapse.ts:90-95 | a timer removes its own flight's entry and never another |
| RequestCollapse.StepKeepsInv | src/request-collapse.ts:51-101 | every interleaved step, on any clock, keeps: callers hold flights of their key, fresh at lookup; each flight has one leader |
| RequestCollapse.CollapsedResultsAreFaithful | src/request-collapse.ts:54-72 | in every run, on any clock, a collapsed result is the value and flight id of a flight for the same key that resolved and that the lookup found unsettled or settled at most graceMs before; the caller created no flight |
| RequestCollapse.StepKeepsTimed | src/request-collapse.ts:51-101 | on a clock that does not step back every step keeps creation, settlement and joining in order |
| RequestCollapse.CollapsedResultsAreFresh | src/request-collapse.ts:54-67 | on such a clock the lookup was no later than graceMs after the settlement, also if that was recorded later |
| RequestCollapse.StepSingleIff | src/request-collapse.ts:68-82 | a step keeps every unsettled flight in the map iff it is not a catch branch that finds an unsettled one |
| RequestCollapse.SingleFlightIff | src/request-collapse.ts:51-101 | the same over runs: at most one unsettled flight per key, the one in `inflight`, iff no catch branch drops a live entry |
| RequestCollapse.SingleFlightWithoutRejections | src/request-collapse.ts:52-95 | it holds in every run in which no flight rejects, through eviction, joins and late timers |
| RequestCollapse.TwoFollowersOfAFailedLeaderBothLead | src/request-collapse.ts:68-82 | a reachable state with two unsettled flights for one key |
| RequestCollapse.OneFlightPerGraceWindow | src/request-collapse.ts:54-95 | if no catch branch runs and the clock does not step back, k flights for one key need an interval of at least (k - 1) times graceMs |
| RequestCollapse.ArrivalJoinsIff | src/request-collapse.ts:52-82 | a call joins the flight of its key iff that is unsettled or was settled at most graceMs before; otherwise it creates one, which its key then has |
| RequestCollapse.ResumeAnswers | src/request-collapse.ts:65-101 | a caller returns what its flight resolved to, collapsed iff it joined; a rejection is thrown to the leader, and a caller that joined leads a new flight |
| RequestCollapse.StepKeepsArmed | src/request-collapse.ts:85-95 | every step keeps a timer armed for each settled flight that is still in the map |
| RequestCollapse.NothingLeaks | src/request-collapse.ts:76-95 | after any run, when all flights are settled and no timer is left, the map is empty |
| RequestCollapse.TimerSweepsItsOwn | src/request-collapse.ts:90-95 | a timer removes the entry of its own flight and leaves every other, also a newer one of the same key |
| PurgeProtocol.StepKeepsInv | src/durable-object.ts:174-405 | every step of the whole keeps the collapser's invariant, valid buckets, and an account of each bucket that covers every window |
| PurgeProtocol.InitHasInv | src/durable-object.ts:78-120 | a new gateway starts in it |
| PurgeProtocol.GatewayRunsAreCollapserRuns | src/durable-object.ts:193-196 | every run of the gateway is a run of the collapser, so the laws of the collapser hold in it |
| PurgeProtocol.GrantKeepsLedger | src/durable-object.ts:266-267 | a granted fetch keeps every window of its bucket within size plus earnings |
| PurgeProtocol.BucketObjectBound | src/durable-object.ts:259-303 | what any run charges to one bucket object in any window is at most its size plus rate times time |
| PurgeProtocol.RunExtends | src/durable-object.ts:266-303 | while a class's bucket is not replaced, all its new fetches are charged to that one object |
| PurgeProtocol.EndToEndRateBound | src/durable-object.ts:174-303 | tokens of all upstream fetches of a class started in [s, e] total at most size plus rate times time, for any interleaving, while its bucket is not replaced |
| PurgeProtocol.RunIsCovered | src/durable-object.ts:259-405 | what a run charges to one bucket is covered by what it held at the start plus what it earned |
| PurgeProtocol.NoBurstAfter429 | src/durable-object.ts:332-336 | after an upstream 429 at t, the bucket that paid grants in every run no more than its rate earned since t |
| PurgeProtocol.RunHolds | src/durable-object.ts:266-267 | a purge under way holds one bucket object through every run |
| PurgeProtocol.CurrentStaysIff | src/durable-object.ts:132-137 | after a run a class has the bucket it had iff no step replaced it |
| PurgeProtocol.DrainReachesCurrentBucketIff | src/durable-object.ts:259-336 | from the start of a fetch over any run to its 429: the bucket that new calls use is emptied if it was not replaced since, and untouched if it was |
| PurgeProtocol.DrainMissesReplacement | src/durable-object.ts:332-336 | a reachable run of call, rebuild and 429 that leaves the new bucket full |
| PurgeProtocol.CollapseKeyIsInjective | src/durable-object.ts:192-193 | the NUL keeps zone and body apart: equal collapse keys mean equal requests |
| PurgeProtocol.CollapsedCallersNeverPay | src/durable-object.ts:192-201 | a collapsed caller has no fetch of its own, and got the result of another caller's flight for the same zone and body |
| PurgeProtocol.FollowersTouchNoBucket | src/durable-object.ts:192-201 | a step of a caller that charges a bucket or fetches creates a flight that the caller leads |
| PurgeProtocol.OneFetchPerCaller | src/durable-object.ts:259-303 | no caller has two fetches |
| PurgeProtocol.FetchIffCovered | src/durable-object.ts:266-303 | whatever follows, a flight has an upstream fetch iff the account bucket of its class covered its cost when it was created, and then the fetch is charged that cost, to that bucket, at that instant |
| PurgeProtocol.WithoutFetchIs429 | src/durable-object.ts:30-289 | whatever follows, a flight without a fetch of its own answers 429, not sent upstream, nothing left, the rate and size of the bucket that refused, and as wait the least number of seconds after which that bucket grants the cost |
| PurgeProtocol.FailedFetchIs502 | src/durable-object.ts:305-329 | whatever follows, a flight whose fetch threw answers 502, not sent upstream, with the largest count and the least wait of the bucket it holds |
| PurgeProtocol.FailedReadRejects | src/durable-object.ts:347-368 | whatever follows, a flight whose body could not be read rejects |
| PurgeProtocol.ReadAnswersUpstream | src/durable-object.ts:332-404 | whatever happens between response, body and end of the run, a flight that was read answers the status of its response and the body it read, sent upstream; a 429 reports nothing left and its header, five seconds without one; anything else reports the bucket it holds |
| PurgeProtocol.AnswersOnBuckets | src/durable-object.ts:305-404 | a 429 empties the bucket held, any other answer refills it, and nothing else that a purge under way does touches a bucket or starts a fetch |
| PurgeProtocol.CallsReachTheCurrentBucket | src/durable-object.ts:412-435 | a call on a class uses the bucket of new purges of the class; a replacement puts a full one there; both leave all other buckets |
| ConfigRegistry.ConfigManager.constructor | src/config-registry.ts:69-76 | the stored rows, nothing cached |
| ConfigRegistry.ConfigManager.LoadRegistry | src/config-registry.ts:202-215 | the cached registry, or the positive numbers among the rows |
| ConfigRegistry.ConfigManager.GetConfig | src/config-registry.ts:90-129 | when the cache is current, every key has its setting: a positive number in its row, else a positive number in the environment, else the default |
| ConfigRegistry.ConfigManager.SetConfig | src/config-registry.ts:138-156 | throws iff some entry has an unlisted name or is no positive finite number; rows before it are written, and the cache then stays |
| ConfigRegistry.ConfigManager.ResetKey | src/config-registry.ts:159-166 | deletes the row and the cache; throws for a name that is not listed |
| ConfigRegistry.ResolvesToTheSetting | src/config-registry.ts:90-129 | on a table and an environment, with no or a current cache: the resolved value is the setting of the key, no other value is, and it is positive |
| ConfigRegistry.DefaultsAre | src/config-registry.ts:6-22 | the default of each of the twelve keys |
| ConfigRegistry.WrittenRows | src/config-registry.ts:138-153 | exactly the entries before the first bad one are written, all other rows stay |
| ConfigRegistry.WrittenLeavesRegistryIff | src/config-registry.ts:138-156 | an update leaves the parsed registry as it was iff each entry it writes repeats the stored value |
| ConfigRegistry.ValidUpdateResolves | src/config-registry.ts:90-156 | a valid update sets exactly its own keys, above environment and default |
| ConfigRegistry.ResetFallsBack | src/config-registry.ts:159-166 | a reset key falls back to a positive number in the environment, else to its default; no other key changes |
| KeyStore.IamManager.constructor | src/credential-manager.ts:44-51 | the stored rows, nothing cached |
| KeyStore.IamManager.GetCachedOrLoad | src/credential-manager.ts:183-208 | a live entry as it is, else the row with its parsed policy, cached; a missing row drops the entry |
| KeyStore.IamManager.Authorize | src/iam.ts:305-348 | order of refusals, denied list, and the decision of the table alone when the cache is coherent; a grant then reports the name and the upstream token pin of the key's row |
| KeyStore.IamManager.DeniedContexts | src/iam.ts:332-337 | the loop lists exactly the contexts that the policy refuses, in order |
| KeyStore.DecisionIff | src/iam.ts:305-348 | each answer by its own condition, in order: no row, revoked, past its expiry, another zone, a context that the policy does not permit; otherwise granted with the name and the upstream token pin of the row, and a corrupt policy permits nothing |
| KeyStore.OutOfScopeListsTheRefused | src/iam.ts:331-345 | the denied list is the subjects of exactly the contexts that are not permitted, in their order |
| KeyStore.OtherDenials | src/iam.ts:412-427 | a refused context that is no purge is reported by action and resource, and one without its field as unknown |
| KeyStore.LimitIsOfTheRow | src/durable-object.ts:212-217 | a key has a limit of a class iff its row has both the rate and the bucket size of that class, and it is these two |
| KeyStore.IamManager.CreateKey | src/iam.ts:70-113 | the new row, its expiry and limits |
| KeyStore.IamManager.RotateKey | src/iam.ts:119-168 | creates and revokes, or does nothing when the old key is missing, revoked, expired or corrupt |
| KeyStore.IamManager.UpdateKey | src/iam.ts:175-239 | changes the given fields of a key that is not revoked |
| KeyStore.IamManager.RevokeKey | src/iam.ts:361-365 | marks the row, drops the entry, says whether anything changed |
| KeyStore.IamManager.DeleteKey | src/iam.ts:367-371 | removes row and entry |
| KeyStore.IamManager.RevokeExpired | src/iam.ts:293-300 | revokes exactly the due keys and clears the cache if there were any |
| KeyStore.IamManager.BulkRevoke | src/credential-manager.ts:70-84 | the loop of single revocations, with a status per item |
| KeyStore.IamManager.BulkDelete | src/credential-manager.ts:87-94 | the loop of single deletions, with a status per item |
| KeyStore.StepKeepsCoherent | src/iam.ts:70-371 | every operation leaves each cached entry equal to the current row and its parsed policy |
| KeyStore.CacheIsInvisible | src/credential-manager.ts:183-208 | after every run, for every time to live, `authorize` answers what the table alone decides |
| KeyStore.RevocationIsPermanent | src/iam.ts:189-192 | once revoked or deleted, no run of operations makes an id authorized again |
| KeyStore.WaysToDie | src/iam.ts:119-168 | rotation kills exactly the keys it accepts, cleanup exactly the due ones |
| KeyStore.BulkRevokeTable | src/credential-manager.ts:70-84 | a bulk revocation revokes exactly the mentioned rows |
| KeyStore.BulkRevokeReports | src/credential-manager.ts:70-84 | each item's status, a repeated id counting once |
| KeyStore.BulkDeleteReports | src/credential-manager.ts:87-94 | each item's status, a repeated id counting once |
| KeyStore.UpdateRevivesIff | src/iam.ts:175-239 | an update ends an expiry iff the key is not revoked and the new expiry has not passed |
| KeyStore.RotationTransfersAuthority | src/iam.ts:119-168 | the old key is refused for good; the new one has the same effective limits and, unless born expired, the same decision and denied list for every zone and context list |
| KeyStore.ExpiryOfNewRow | src/iam.ts:70-74 | a key is born expired iff its expiry in days is negative and does not land on 0 |
| KeyStore.CreatedKeyDecides | src/iam.ts:70-113 | a created key is granted what its policy allows in its zone until the given days have passed, reports its name and pin, has the limits asked for, and changes no other key |
| KeyStore.RotatedKeyIs | src/iam.ts:119-168 | name, zone, policy, creator, rates, pin, creation and expiry of a rotated key; the old row is marked revoked and no other key changes; a key that is missing, revoked, expired or corrupt is left alone |
| KeyStore.UpdateSetsItsFields | src/iam.ts:175-239 | each of the six fields is set on its own if given and kept if not; all other fields and keys stay; the cached entry goes |
| KeyStore.OtherRowsStay | src/iam.ts:70-371 | no operation changes a key that it does not name, but for the cleanup of keys whose expiry is set and not after its instant |
| KeyStore.RevokeAndDelete | src/iam.ts:361-371 | a revocation marks one row and nothing else of it, a deletion removes one row |
| KeyStore.RotationKeepsPinIff | src/iam.ts:134-156 | the upstream token of a key survives rotation iff it had one |
| KeyStore.RotationDropsExpiry | src/iam.ts:119-168 | without an override the new key never expires |
| KeyStore.NoContextsNoDenial | src/iam.ts:305-348 | with no contexts the policy is not asked: granted iff live and in its zone |
| KeyStore.DeniedIsEmptyIff | src/iam.ts:332-345 | the denied list is empty iff the policy allows every context |
| PurgeContexts.FileFields | src/iam.ts:446-470 | the fields of a URL item: its own over the request fields |
| PurgeContexts.PurgeBodyToContexts | src/iam.ts:431-493 | one context per item, in order; `purge_everything` stands for all |
| PurgeContexts.AuthorizeFromBody | src/iam.ts:354-357 | decides the contexts of the body by the table; a grant reports the name and the upstream token pin of the key's row |
| PurgeContexts.UrlCannotBeForged | src/iam.ts:446-470 | no request field, header or query parameter changes the url of an item, the host and path of a URL that parses, or its query if it has one |
| PurgeContexts.UrlNamesAreApart | src/iam.ts:458-467 | headers and query parameters get field names of their own |
| PurgeContexts.RequestFieldsShowThrough | src/iam.ts:450-462 | what the URL does not determine is taken from the request fields and from nothing else |
| PurgeContexts.BodyIsAsked | src/iam.ts:431-493 | one context per file, host, tag and prefix, in this order, with the action of its kind, the zone as resource and the item in the field of its kind; one for `purge_everything` |
| PurgeContexts.HeadersAndParametersShow | src/iam.ts:458-467 | every header and query parameter is a field under its prefix, with the value of its last mention |
| PurgeContexts.OtherFieldsAreRequestFields | src/iam.ts:436-490 | all other fields of an item that is no URL are the request fields |
| PurgeContexts.DeniedItemIsItsSubject | src/iam.ts:412-427 | a refused item is reported by its own URL, host, tag or prefix |
| PurgeContexts.DeniedListNamesItems | src/iam.ts:412-427 | the denied list names exactly the refused items, in body order |
| PurgeContexts.BodyGrantedIff | src/iam.ts:305-357 | granted, with the name and the pin of the key, iff the key is live, in its zone, and every item is permitted |
| PurgeContexts.HostConditionBinds | src/iam.ts:446-470 | under a policy that pins a host, an allowed URL is on that host, or does not parse and the request fields name the host |
| UpstreamTokens.ListRoundTripIff | src/upstream-tokens.ts:98-132 | a stored id list reads back as it was iff it is not empty and free of commas |
| UpstreamTokens.CreatedTokenCoversItsList | src/upstream-tokens.ts:98-132 | a registered token covers exactly the ids of its list |
| UpstreamTokens.CreatedTokenIs | src/upstream-tokens.ts:98-132 | a new row behind the others, of zone scope if none is given, unexpired until the given days have passed, and an empty cache |
| UpstreamTokens.NewestFirstSorts | src/upstream-tokens.ts:249-287 | the scan order is a permutation of the rows, newest first |
| UpstreamTokens.WinnerIsNewest | src/upstream-tokens.ts:249-287 | newest unexpired exact row, else newest unexpired wildcard, and none iff there is neither, where an account asks for account scope; its token is the answer |
| UpstreamTokens.ByIdIff | src/upstream-tokens.ts:340-365 | by its id a row answers, with its token, exactly while it is unexpired |
| UpstreamTokens.ResolutionIsKept | src/upstream-tokens.ts:249-365 | an answer is stored under the key of its query and given again for less than the time to live; "none" is not stored |
| UpstreamTokens.WinnerStaysIff | src/upstream-tokens.ts:249-287 | an earlier winner still wins iff it is still live |
| UpstreamTokens.RunKeepsFaithful | src/upstream-tokens.ts:98-371 | the cache stays faithful over every run on a clock that does not step back |
| UpstreamTokens.KeysOfProperQueriesDiffer | src/upstream-tokens.ts:249-365 | different queries have different cache keys |
| UpstreamTokens.ZonesCollideIff | src/upstream-tokens.ts:249-345 | a zone shares its cache key with another query iff its id starts with `id:` or `account:` |
| UpstreamTokens.CollisionGivesAWrongToken | src/upstream-tokens.ts:249-365 | a run after which such a zone is given a token that no scan at any instant gives it |
| UpstreamTokens.UpstreamTokenManager.constructor | src/upstream-tokens.ts:49-58 | the stored rows, nothing cached |
| UpstreamTokens.UpstreamTokenManager.ResolveByName | src/upstream-tokens.ts:249-333 | the loop with its remembered wildcard is the scan, behind the cache |
| UpstreamTokens.UpstreamTokenManager.ResolveById | src/upstream-tokens.ts:340-365 | the row's token while live, behind the cache |
| UpstreamTokens.UpstreamTokenManager.CreateToken | src/upstream-tokens.ts:98-132 | adds the row and clears the cache |
| UpstreamTokens.UpstreamTokenManager.UpdateToken | src/upstream-tokens.ts:156-179 | changes the given fields and clears the cache |
| UpstreamTokens.UpstreamTokenManager.DeleteToken | src/upstream-tokens.ts:203-211 | removes the row, and clears the cache if there was one |
| UpstreamTokens.UpstreamTokenManager.DeleteExpired | src/upstream-tokens.ts:193-200 | removes exactly the due rows |
| UpstreamTokens.UpstreamTokenManager.BulkDelete | src/upstream-tokens.ts:214-221 | the loop of single deletions, with a result per item |
| UpstreamTokens.WhatDeletesLeave | src/upstream-tokens.ts:203-211 | row by row, a delete removes the rows of that id and keeps the others in order |
| UpstreamTokens.WhatCleanupsLeave | src/upstream-tokens.ts:193-200 | row by row, a cleanup removes those with an expiry not after its instant, 0 included, and keeps the others in order |
| UpstreamTokens.WritesClearTheCache | src/upstream-tokens.ts:156-211 | a call that writes a row clears the cache, and one that finds nothing changes nothing |
| UpstreamTokens.UpdatedAre | src/upstream-tokens.ts:156-179 | an update sets the given fields in the rows of that id and nothing else |
| UpstreamTokens.BulkDeleteTable | src/upstream-tokens.ts:214-221 | a bulk delete removes exactly the rows of its ids |
| UpstreamTokens.BulkDeleteReports | src/upstream-tokens.ts:214-221 | each item's result, a repeated id counting once |
| UpstreamTokens.StepKeepsFaithful | src/upstream-tokens.ts:249-371 | every operation leaves each entry what a scan of the current table answered when it was cached |
| UpstreamTokens.ResolutionIsBoundedlyStale | src/upstream-tokens.ts:249-371 | after every run an answer is the scan of the current table now or less than the time to live ago; "none" is never stale |
| UpstreamTokens.CacheHitIsCurrentIff | src/upstream-tokens.ts:249-371 | the row behind a cache hit still wins iff it has not expired, and then the hit is the answer of now |
| PolicyEngine.BoundedIsExact | src/policy-engine.ts:106-116 | within 20 levels the bounded evaluator is the boolean meaning, under any nesting of `not` |
| PolicyEngine.DeepNotIsTrue | src/policy-engine.ts:106-116 | beyond it a tower of `not`s is true whatever its leaf says |
| PolicyEngine.AlwaysPresentIff | src/policy-engine.ts:121-129 | `exists` holds on every context, and `not_exists` on none, exactly for names that every object inherits |
| PolicyEngine.MatchStatement | src/policy-engine.ts:41-52 | action, resource and all conditions |
| PolicyEngine.EvaluatePolicyForContext | src/policy-engine.ts:26-35 | some allow matches and no deny does |
| PolicyEngine.EvaluatePolicy | src/policy-engine.ts:11-18 | every context is allowed |
| PolicyEngine.OrderAndRepetitionDoNotMatter | src/policy-engine.ts:26-35 | the decision depends on the set of statements only |
| PolicyEngine.DenyOnlyTakesAway | src/policy-engine.ts:26-35 | a deny put anywhere refuses exactly what it matches |
| PolicyEngine.ResourceCoversDescendants | src/policy-engine.ts:85-96 | a pattern that covers a resource covers everything below it |
| PolicyEngine.DenyReachesDescendants | src/policy-engine.ts:26-96 | a deny that matches at a resource denies every descendant |
| PolicyEngine.RegexCache.constructor | src/policy-engine.ts:178-180 | an empty cache |
| PolicyEngine.RegexCache.Eval | src/policy-engine.ts:186-208 | the cache of compiled expressions stays within its cap and changes no answer |
| PolicyOperators.StartsWithMeans | src/policy-engine.ts:140-141 | on a text field: the field is the value followed by something |
| PolicyOperators.EndsWithMeans | src/policy-engine.ts:142-143 | the field is something followed by the value |
| PolicyOperators.ContainsMeans | src/policy-engine.ts:136-139 | the value is somewhere in the field, and `not_contains` is the complement |
| PolicyOperators.WildcardMeans | src/policy-engine.ts:152-153 | the field is cut into the pieces of the condition's value |
| PolicyOperators.RegexMeans | src/policy-engine.ts:186-208 | `matches` and `not_matches` are complements for a pattern that compiles and both false for one that does not |
| PolicyOperators.TextOperatorsNeedTexts | src/policy-engine.ts:136-208 | all seven are false for a flag and for a value that is no text |
| PolicyOperators.EqMeans | src/policy-engine.ts:132-135 | `eq` is equality of text with text and flag with flag, and `ne` its complement |
| PolicyOperators.InMeans | src/policy-engine.ts:148-151 | the field's text, or the name of its flag, is among the items of the list, and `not_in` is the complement |
| PolicyOperators.ListOperatorsNeedLists | src/policy-engine.ts:148-151 | both are false for a value that is no list |
| PolicyOperators.ComparisonsMean | src/policy-engine.ts:154-176 | the four orders of the numbers of field and value, the field on the left |
| PolicyOperators.ComparisonsNeedNumbers | src/policy-engine.ts:171-176 | all four are false if a side is no number |
| PolicyOperators.ExistsMeans | src/policy-engine.ts:124-126 | a field of the context exists |
| PolicyOperators.AbsentMeans | src/policy-engine.ts:121-129 | of a field that is not there only `not_exists` holds |
| PolicyOperators.InheritedMeans | src/policy-engine.ts:121-165 | what holds of each of the names that every object inherits |
| PolicyOperators.CompoundsMean | src/policy-engine.ts:112-114 | `any` and `all` condition by condition, and `not` |
| PolicyOperators.ActionMatchesIff | src/policy-engine.ts:59-68 | a pattern names its own action, every action, or, ending in `:*`, all actions behind its colon |
| PolicyOperators.ResourceMatchesIff | src/policy-engine.ts:85-96 | a pattern names its own resource and what is below it, every resource, or those that start like it up to its star |
| PolicyOperators.StatementMatchesIff | src/policy-engine.ts:41-52 | with conditions of at most 20 levels: some action and some resource match and all conditions hold |
| PolicyOperators.TwentyIsTheLimit | src/policy-engine.ts:101-110 | twenty `not`s are evaluated exactly and twenty-one are not |
| PolicyOperators.EmptyPolicyDenies | src/policy-engine.ts:26-35 | a policy without statements allows nothing |
| PolicyOperators.AllowOnlyAdds | src/policy-engine.ts:26-35 | an allow put anywhere allows exactly what it matches and no deny forbids |
| Glob.CompiledTextParses | src/policy-engine.ts:215-223 | the built text is a regular expression that reads back as the pattern's own literals and stars |
| Glob.WildcardMeansSplits | src/policy-engine.ts:215-223 | it matches iff the value is cut into the pattern's pieces, up to case, with line-terminator-free gaps at the stars |
| Glob.WildcardOnOneLine | src/policy-engine.ts:215-223 | for a value without line terminators the gaps are arbitrary |
| Glob.StarStopsAtLineTerminators | src/policy-engine.ts:215-223 | a star does not match a line feed |
| PolicyValidation.AcceptedDecodes | src/policy-engine.ts:357-400 | what the validator accepts is a condition that nests within the limit |
| PolicyValidation.LeafThrowsOnSomeIff | src/policy-engine.ts:121-176 | a leaf throws on some request iff its field does not convert to a property name, or it compares numbers and its value does not convert |
| PolicyValidation.ListIsRead | src/policy-engine.ts:112-113 | `some` and `every` are the two quantifiers over what is read, unless an item throws before one decides |
| PolicyValidation.ConditionIsRead | src/policy-engine.ts:106-116 | on every accepted condition the evaluator throws exactly when it comes to a leaf that throws, and otherwise answers the meaning of what it reads |
| PolicyValidation.SafeNeverThrows | src/policy-engine.ts:106-116 | a condition without such a leaf throws on no request |
| PolicyValidation.AcceptedPlainIsSafe | src/policy-engine.ts:357-478 | the values that the validator looked at convert, so only objects of two shapes can throw |
| PolicyValidation.ReadNests | src/policy-engine.ts:106-116 | what it reads nests within the limit |
| PolicyValidation.ReadingsAgreeIff | src/policy-engine.ts:106-400 | evaluator and validator read an accepted condition alike iff no object on the validator's way is also a leaf |
| PolicyValidation.AcceptedConditionsEvaluateExactly | src/policy-engine.ts:106-400 | an accepted condition never reaches the cutoff, throws or has the meaning of what is read as `ConditionIsRead` says, and if it has one shape never throws and has the meaning of what was validated |
| PolicyValidation.MixedShapesAreReadTwoWays | src/policy-engine.ts:357-400 | an accepted object of two shapes that evaluates to the opposite of what was validated |
| PolicyValidation.UnvalidatedFieldThrows | src/policy-engine.ts:106-122 | an accepted condition that throws on every request |
| PolicyValidation.UnvalidatedValueThrowsIff | src/policy-engine.ts:171-176 | an accepted condition that throws exactly on the requests that have its field |
| PolicyValidation.AcceptedStatement | src/policy-engine.ts:264-304 | an accepted statement, decoded, matches by the unbounded meaning of its conditions |
| PolicyValidation.AcceptedPoliciesDecideExactly | src/policy-engine.ts:238-304 | an accepted policy decides by the unbounded meaning of its conditions |
| PolicyValidation.AcceptedStatementMatches | src/policy-engine.ts:41-52 | matching an accepted stored statement throws exactly when its conditions lead to a throw, and otherwise holds iff what is read means to match |
| PolicyValidation.StoredPoliciesDecideAsRead | src/policy-engine.ts:11-52 | the engine run on any accepted stored document throws exactly when a statement leads to a throw before a matching deny, and otherwise decides by the meaning of what it reads, which is what was validated iff no condition has two shapes |
| PolicyValidation.SafePoliciesNeverThrow | src/policy-engine.ts:11-52 | a document without risky leaves throws on no request |
| PolicyValidation.StoredPoliciesDecideExactly | src/policy-engine.ts:11-52 | on accepted documents of one shape it never throws and answers what the decoded policy means |
| PolicyAcceptance.OperatorNames | src/policy-engine.ts:306-324 | each of the seventeen operators is read from its own name and from no other text |
| PolicyAcceptance.ConditionAcceptedIff | src/policy-engine.ts:357-478 | a condition has no errors iff it is in the grammar: at most 20 levels, nonempty lists, a field, an operator, and the value that this operator asks for |
| PolicyAcceptance.StatementAcceptedIff | src/policy-engine.ts:264-304 | a statement has none iff its effect is allow or deny, its actions and resources are nonempty lists of nonempty texts, and its conditions are in the grammar |
| PolicyAcceptance.PolicyAcceptedIff | src/policy-engine.ts:238-262 | a document has none iff it has the version and a nonempty list of such statements |
| PolicyAcceptance.ConditionErrorsInside | src/policy-engine.ts:357-478 | every error of a condition points into that condition |
| PolicyAcceptance.ItemIsBlamedIff | src/policy-engine.ts:371-397 | an `any` or `all` reports something inside an item iff that item is not in the grammar |
| PolicyAcceptance.StatementIsBlamedIff | src/policy-engine.ts:238-262 | a document's errors point into a statement iff that statement is not in the grammar |
| PolicyAcceptance.DecodedIsDenoted | src/policy-types.ts:30-114 | what a condition decodes to is what it denotes: the same shape, field, operator name and value throughout |
| PolicyAcceptance.DecodedStatementIs | src/policy-engine.ts:264-304 | effect, actions, resources and conditions of an accepted statement, in order |
| PolicyAcceptance.DecodedPolicyIs | src/policy-engine.ts:238-262 | and the statements of an accepted policy |
| PolicyAcceptance.LeafShapeIsReadFirst | src/policy-engine.ts:106-111 | an object with a field and an operator is evaluated as that leaf, whatever else it has |
| PolicySchema.CopyIsPlain | src/routes/admin-schemas.ts:39-54 | whatever comes in, the schema's copy of a condition has one shape, and copying it again changes nothing |
| PolicySchema.PolicyCopyIsPlain | src/routes/admin-schemas.ts:56-66 | so has every condition of the copy of a policy |
| PolicySchema.RoutePoliciesDecideExactly | src/routes/admin-keys.ts:35-54 | for every request that schema and validator let in, the engine run on what is stored never throws and decides exactly what it means |
| PolicySchema.MixedShapeIsStripped | src/routes/admin-schemas.ts:39-54 | the object of two shapes comes out as the leaf that the evaluator reads |
| PolicySchema.CopyMeansTheSame | src/routes/admin-schemas.ts:39-54 | the copy of a condition of one shape decodes to the same condition |
| PolicySchema.PolicyCopyMeansTheSame | src/routes/admin-schemas.ts:56-66 | a policy of such conditions is stored as it was sent |
| PolicySchema.ValidConditionsPass | src/routes/admin-schemas.ts:38-54 | the schema refuses no valid condition of one shape whose values are texts, flags and lists of texts |
| Gatekeeper.RebuildFollows | src/durable-object.ts:125-151 | after a rebuild every account bucket has the resolved parameters |
| Gatekeeper.BootFollowsSettings | src/durable-object.ts:85-95 | a gatekeeper starts with full account buckets that have the rate and size set for each by row, environment or default |
| Gatekeeper.InStepFollowsSettings | src/durable-object.ts:125-151 | while in step, each account bucket has the rate and size that table and environment set for it |
| Gatekeeper.SetConfigKeepsInStepIff | src/durable-object.ts:717-721 | table, cache and buckets stay in step iff the update is valid or writes nothing new |
| Gatekeeper.ValidUpdateRepairs | src/durable-object.ts:717-721 | a valid update after a failed one puts all of them in step again |
| Gatekeeper.ResetOfMissingRowKeepsInStepIff | src/durable-object.ts:724-730 | a reset that deletes nothing leaves every bucket, and all in step iff the table resolves to what the cache said for each rate and size |
| Gatekeeper.FailedUpdateThenResetLeavesBucketsBehind | src/durable-object.ts:717-730 | a failed update and such a reset after which the buckets do not follow the configuration |
| Gatekeeper.StepKeepsInStep | src/durable-object.ts:717-730 | every call keeps registry cache, table and account buckets in step |
| Gatekeeper.ConfigCallKeepsTokensIff | src/durable-object.ts:125-730 | `setConfig` or `resetConfigKey` leaves an account bucket alone, tokens included, iff both its resolved parameters stay |
| Gatekeeper.AccountRuns | src/durable-object.ts:129-146 | over any calls that leave a bucket's parameters alone, failed updates included, it ends as the start after exactly the calls that used it |
| Gatekeeper.KeepsLimitsIff | src/durable-object.ts:125-146 | over runs, parameters of a bucket move exactly when the resolved ones do |
| Gatekeeper.UnchangedLimitsKeepTokens | src/durable-object.ts:129-730 | over every sequence of calls, a bucket whose resolved parameters stay keeps its tokens but for its own use |
| Gatekeeper.StepKeepsAllFit | src/durable-object.ts:207-236 | every call leaves each per-key entry with a row and exactly its rates and sizes over the resolved defaults |
| Gatekeeper.CheckKeepsAllFit | src/durable-object.ts:207-236 | in particular the check that makes and charges entries |
| Gatekeeper.BulkDeletedIdsAreDropped | src/durable-object.ts:503-509 | every id that a bulk delete removes is among those whose buckets go, repeated ids included |
| Gatekeeper.KeyCallDropsIff | src/durable-object.ts:458-509 | a call on keys removes the entries of exactly the keys that it takes effect on; every other call but check and configuration leaves the map alone |
| Gatekeeper.ConfigCallEmptiesIff | src/durable-object.ts:125-151 | a configuration call empties the map iff it changes a parameter of a purge bucket |
| Gatekeeper.CheckKeepsLru | src/durable-object.ts:219-236 | in particular the check that moves, inserts and evicts |
| Gatekeeper.StepKeepsLru | src/durable-object.ts:219-236 | the map stays within 1024 entries and in order of last use, through hits, inserts and deletions |
| Gatekeeper.OnlyTheFirstIsEvicted | src/durable-object.ts:221-224 | a check keeps every entry but the first, which goes at capacity only |
| Gatekeeper.EvictedKeyIsLongUnused | src/durable-object.ts:221-224 | the evicted entry is the least recently used, and 1024 different keys were used since |
| Gatekeeper.BootHasInv | src/durable-object.ts:78-120 | a gatekeeper started over any stored rows satisfies the invariant |
| Gatekeeper.StepKeepsInv | src/durable-object.ts:412-730 | every call keeps the whole invariant |
| Gatekeeper.RunKeepsInv | src/durable-object.ts:412-730 | so it holds in every reachable state |
| Gatekeeper.StepKeepsSound | src/durable-object.ts:412-730 | also failed updates leave valid buckets and positive parameters |
| Gatekeeper.RunsAreKeyStoreRuns | src/durable-object.ts:437-509 | what a run does to keys is a run of the key store |
| Gatekeeper.AuthorizationAfterAnyRun | src/durable-object.ts:437-444 | after any run `authorize` answers what the current table decides, and refuses every id revoked before |
| GatekeeperObject.GatekeeperDO.constructor | src/durable-object.ts:78-120 | the fields as configured, no per-key entries |
| GatekeeperObject.GatekeeperDO.LoadLimits | src/config-registry.ts:185-198 | the rates, sizes and time to live that table and environment set, all positive |
| GatekeeperObject.GatekeeperDO.Replacement | src/durable-object.ts:129-144 | a new full object iff a parameter changed, else the same object |
| GatekeeperObject.GatekeeperDO.RebuildBuckets | src/durable-object.ts:125-151 | new objects for changed parameters, and the per-key map cleared when a purge class changed |
| GatekeeperObject.GatekeeperDO.SetConfig | src/durable-object.ts:717-721 | the step of the state machine, and the resolved configuration |
| GatekeeperObject.GatekeeperDO.ResetConfigKey | src/durable-object.ts:724-730 | the same for a reset |
| GatekeeperObject.GatekeeperDO.CreateKey | src/durable-object.ts:446-448 | the new row |
| GatekeeperObject.GatekeeperDO.Authorize | src/durable-object.ts:442-444 | the decision, and the entry it caches; a grant reports the name and the upstream token pin of the key's row |
| GatekeeperObject.GatekeeperDO.CleanupExpired | src/durable-object.ts:696-707 | revokes the due keys |
| GatekeeperObject.GatekeeperDO.Consume | src/durable-object.ts:412-415 | uses the bucket of the class |
| GatekeeperObject.GatekeeperDO.ConsumeS3RateLimit | src/durable-object.ts:577-580 | takes one token of the S3 bucket |
| GatekeeperObject.GatekeeperDO.ConsumeCfProxyRateLimit | src/durable-object.ts:582-585 | takes one token of the proxy bucket |
| GatekeeperObject.GatekeeperDO.DrainCfProxyBucket | src/durable-object.ts:587-589 | drains the proxy bucket |
| GatekeeperObject.GatekeeperDO.DrainBucket | src/durable-object.ts:432-435 | drains the bucket of the class |
| GatekeeperObject.GatekeeperDO.GetRateLimitInfo | src/durable-object.ts:417-430 | reads the bucket of the class |
| GatekeeperObject.GatekeeperDO.RevokeKey | src/durable-object.ts:458-461 | the row and the entry |
| GatekeeperObject.GatekeeperDO.DeleteKey | src/durable-object.ts:463-466 | the row and the entry |
| GatekeeperObject.GatekeeperDO.RotateKey | src/durable-object.ts:468-474 | the rows, and the old key's entry if it rotated |
| GatekeeperObject.GatekeeperDO.UpdateKey | src/durable-object.ts:476-493 | the row, and the entry if it was updated |
| GatekeeperObject.GatekeeperDO.DropBuckets | src/durable-object.ts:497-499 | the entries of all ids that a bulk call reports as gone |
| GatekeeperObject.GatekeeperDO.BulkRevokeKeys | src/durable-object.ts:495-501 | rows and entries of the revoked ids |
| GatekeeperObject.GatekeeperDO.BulkDeleteKeys | src/durable-object.ts:503-509 | rows and entries of the deleted ids |
| GatekeeperObject.GatekeeperDO.TakeBuckets | src/durable-object.ts:219-236 | the entry leaves its place, or is new, with the first one evicted at capacity |
| GatekeeperObject.GatekeeperDO.CheckPerKeyRateLimit | src/durable-object.ts:207-253 | the 429 or none, and the map with the entry at its end |
| GatekeeperObject.GatekeeperDO.BeginPurge | src/durable-object.ts:259-289 | charges the class's account bucket; settled at once with the 429, or pending |
| GatekeeperObject.OnFetchError | src/durable-object.ts:305-329 | the 502 result with the bucket's own numbers |
| GatekeeperObject.OnResponse | src/durable-object.ts:332-336 | an upstream 429 drains the bucket that this call holds |
| GatekeeperObject.OnBody | src/durable-object.ts:332-404 | the result that callers share; a 429 reports the `Retry-After` header as a number, 5 without one, NaN for a date |
| PerKeyBudget.PassesIff | src/durable-object.ts:207-253 | a key with both fields of the class passes iff its bucket grants the charge |
| PerKeyBudget.UnlimitedKeysPass | src/durable-object.ts:207-217 | a key without a row, or without the rate or the bucket size of the class, is never refused and gets no entry |
| PerKeyBudget.RefusalOfCheck | src/durable-object.ts:30-252 | a refusal is a 429, not sent upstream, with nothing left, the rate and size of the key's row, and as wait the least number of seconds after which the same check passes |
| PerKeyBudget.StepOnEntry | src/durable-object.ts:219-236 | a step that leaves a key's entry changes it by its own check only, whatever moves around it |
| PerKeyBudget.EntryRuns | src/durable-object.ts:207-253 | what the checks let through is what the key's bucket grants in a run of its own |
| PerKeyBudget.KeyBoundOnAnyClock | src/durable-object.ts:207-253 | while a key keeps its entry and all its checks read instants of [from, to], they let through at most the row's bucket size plus its rate times the time, for either class, on any clock |
| PerKeyBudget.EntryIsMadeByCheck | src/durable-object.ts:219-231 | a step gives a key an entry iff it is a check of that key, which is limited |
| PerKeyBudget.FirstCheckRunsIn | src/durable-object.ts:207-253 | from the check that makes the entry on, the key's checks make a run of a full bucket |
| PerKeyBudget.KeyWindowBound | src/durable-object.ts:207-253 | in any run in which a key does not lose its entry and the clock does not step back between its checks, every window lets through at most the row's bucket size plus its rate times the time, for either class, from the check that makes the entry on |
| PerKeyBudget.WithoutEntryStartsFull | src/durable-object.ts:219-231 | a key that has no entry and both fields of a class passes iff its cost is at most the row's bucket size |
| Gateway.BootHasInv | src/durable-object.ts:78-120 | a gateway started over any stored rows satisfies the invariant of the whole |
| Gateway.EnabledIff | src/durable-object.ts:174-201 | the whole holds nothing back: exactly when a purge can start or go on, and when a call is served |
| Gateway.GoesOnIff | src/durable-object.ts:182-190 | a purge reaches the collapser iff it names no key or the key's check reports no refusal; a refused one leaves the purges alone |
| Gateway.PurgeChargesItsKey | src/durable-object.ts:182-190 | a purge that names a key is checked against that key's budget, and any other leaves the budgets alone |
| Gateway.StepKeepsInv | src/durable-object.ts:78-730 | every step of the whole keeps both invariants, and both machines about the same buckets |
| Gateway.RunsProject | src/durable-object.ts:174-730 | every run of the whole is a run of the purges and a run of the object |
| Gateway.ReplacedIffLimitsMove | src/durable-object.ts:125-146 | a step replaces a purge bucket iff it changes the resolved rate or size of its class |
| Gateway.KeepsLimitsIff | src/durable-object.ts:125-146 | so does a run |
| Gateway.ConfiguredRateBound | src/durable-object.ts:125-303 | while the rate and size that rows, environment and defaults set for a class stay, its upstream fetches started in [from, to] use at most that size plus that rate times the time, with per-key checks and all other calls interleaved |

## Left out

- HTTP routing, dashboard, CLI, OpenAPI, breadcrumbs and response headers: no state.
- Analytics and audit, SQL schema migrations, S3 and R2 managers, JWT validation: SQL or cryptography out of view.
- Listing, counting and dry-run calls (`listKeys`, `listTokens`, `listOverrides`, `bulkInspect`, counts): reads that change nothing.
- Floating-point rounding: tokens are reals.
- The texts of refusals built here: one constant per kind of refusal.
- Regular expressions other than compiled globs: an uninterpreted function.
- A configuration row or environment variable that reads as Infinity, which the code takes for a usable value: values are reals.
- Running out of stack on deeply nested JSON.
- `PurgeProtocol`: a call there is a purge that its per-key check let pass; `Gateway` puts the check in front.
- GatekeeperObject.GatekeeperDO.CheckPerKeyRateLimit: the two buckets of an entry are held as values, not objects, since nothing but the map refers to them.
- PolicyValidation.StoredPoliciesDecideExactly: asks for one shape per condition, which `validatePolicy` alone does not enforce; `StoredPoliciesDecideAsRead` is what holds without it.
- PerKeyBudget.KeyWindowBound: bounds the time up to the loss of the entry; `WithoutEntryStartsFull` is what happens when it does not.
