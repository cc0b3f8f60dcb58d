# Verification of the outbox, the limiter, identifiers and the composed reads

A Dafny model of the parts of the overwatch backend whose correctness is an argument rather
than a field copy, with proofs of what they promise. `dafny verify dfyconfig.toml` checks it.

| file | models |
|---|---|
| `OutboxStore.dfy` | the in-memory outbox store, as a class over a map of rows |
| `OutboxProtocol.dfy`, `OutboxInvariant.dfy` | any number of dispatchers over one store as a state machine, in every interleaving, and its invariant |
| `OutboxTiming.dfy` | what holds of due times and burial while no clock steps back |
| `OutboxTheorems.dfy` | safety, burial, exactly-once effect, the counters and no starvation, over every run |
| `OutboxDispatcher.dfy` | the dispatcher's own code, shown to make only protocol steps; what one `Dispatch` and one `Drain` do |
| `Limit.dfy`, `LimitTheorems.dfy` | the token bucket in a bounded map, and how it compares with one that never evicts |
| `LimitEviction.dfy` | exactly when eviction drops the oldest buckets |
| `Id.dfy`, `IdGenerator.dfy` | the identifier's text and parser; the two generators and their order |
| `Neighborhood.dfy` | the bounded breadth-first walk around a record |
| `Coverage.dfy` | how far a record's or a question's evidence has been compared |
| `Changes.dfy` | the snapshot diff between two runs |
| `Unicode.dfy` | the scan for lone surrogates in request bodies |
| `Password.dfy` | the PHC string codec and the rehash policy |
| `FakeClock.dfy` | the hand-moved clock and its timers |
| `Sorting.dfy` | `sort.Slice`: an in-order rearrangement, which is unique when keys differ |
| `Collections.dfy`, `Bits.dfy`, `Hex.dfy` | what the others share: optional values, bytes and their operators, hexadecimal digits, counting without repetition |

## How it is built

Code that updates state is a class or a method with loops, proved against a function or a
predicate of its inputs; the theorems are lemmas about those. For the outbox there are two
levels. `OutboxProtocol` splits a `Dispatch` into its store calls, handler calls and counter
updates, so that those of several dispatchers interleave freely, and carries a clock and a
history that no step depends on.
`OutboxDispatcher.Dispatcher.Dispatch` is the source's loop; its contract produces a legal run
of the protocol that ends where the method ends, so what holds of all runs holds of it.

What the program takes from outside is a parameter: clock readings, entropy, handler outcomes
(`OutboxDispatcher.World`: any mix of success, error and panic), what the stores answer
(`Neighborhood.Reads`), and the order in which Go yields a map's keys.

Assumptions, each one the source's own: clock readings after the zero time, because the zero
time means "bury"; `MaxAttempts` and `Batch` at least one, as `withDefaults` leaves them unless
a negative number is configured. A clock that does not step back is assumed in two places only:
for how long a burial takes (`ReachableOnTime`), and in the limiter's theorems, because line
133 of limit.go moves `seen` back with it. Every other outbox result, and the identifier
generator's, holds for any clock at all.

## Where the code and its claims part

- `limit.go` takes the empty key for "none found yet" while looking for the oldest bucket, so
  that it can drop the newest (`LimitEviction.ScanCanFindNewest`).
  `LimitEviction.ScanAlwaysFindsOldest` says exactly when a scan finds the oldest whatever the
  order of the keys, and `LimitEviction.EvictionDropsOldestExactly` when a whole eviction drops
  only the oldest: a condition on the map and the clock before the call.
- `Tokens` reads as a report, but in a full map it can evict, and its caller
  (internal/identity/transport/http/session.go:67) asks before it takes.
  `LimitTheorems.AskingIsHarmlessExactly` says exactly when asking leaves every key with what it
  would have had, `LimitTheorems.AskingChangesNothing` what that means for later answers, and
  `LimitTheorems.AskingCanEvict` shows a call that changes one.
- A dispatcher counts what it has buried or delivered after the store call, under another lock.
  The counters trail the store in between (`OutboxTheorems.CountersCanTrail`), by exactly what is
  left to count (`OutboxTheorems.CountersTrailTheStore`).
- `recordGapStatus` counts relations, not pairs. `Coverage.RecordStatusMeans` rests on one
  relation per pair, which two places give together: `New` puts the pair in order
  (internal/review/domain/relation.go:66-68), and the table allows each ordered pair once
  (internal/review/infra/postgres/migrations/0001_review.sql:11-12).
  `Coverage.RepeatedRelationsMislead` shows the count alone is not enough.
- The clock package leaves the order of equal deadlines open; the code orders them by creation,
  and so does the model.
- The default backoff's ten-minute cap never binds (`OutboxTheorems.DefaultBackoffShape`).
- `Sequence` and `V7` repeat after 2^62 identifiers and 2^48 milliseconds
  (`IdGenerator.SequenceRepeatsAfter62Bits`, `IdGenerator.MillisWrapAt48Bits`), so the bounds
  in their order theorems cannot be relaxed.

`makeChange` takes an empty subject value for "no row", but no stored row has one: the domain
refuses it (internal/observation/domain/observation.go:82) and so does the table
(internal/observation/infra/postgres/migrations/0001_observation.sql:41). For what `snapshot`
builds from stored rows the diff is a correct patch without further condition
(`Changes.StoredDiffIsPatch`); `Changes.DiffIsPatch` has the exact condition for the function on
its own, and `Changes.EmptySubjectIsMislabelled` an input that fails it.

## Model

| member | source | states |
|---|---|---|
| OutboxStore.Memory.Add | pkg/outbox/memory.go:38-48 | the rows become those of adding the events one by one, skipping an id already present |
| OutboxStore.AddIsIdempotentById | pkg/outbox/memory.go:41-46 | adding changes no row that was there and makes exactly one fresh row per new id |
| OutboxStore.FirstEventWins | pkg/outbox/memory.go:42-45 | of several events with one new id the first is stored |
| OutboxStore.AddedRowIs | pkg/outbox/memory.go:41-46 | a new row holds that event, no attempts, due at zero, unclaimed, unburied, stamped with the number of distinct ids there were |
| OutboxStore.Memory.Claim | pkg/outbox/memory.go:50-71 | hands out min(n, due) distinct due rows in written order, none written later than a due row left behind, with their own event and attempts, and marks exactly those claimed |
| OutboxStore.ClaimIs | pkg/outbox/memory.go:50-71 | what such a claim is, row by row, in the rows' own fields |
| OutboxStore.MarkedRowsAre | pkg/outbox/memory.go:65-69 | the rows handed out differ in `claimed` alone, the others not at all |
| OutboxStore.Memory.MarkAll | pkg/outbox/memory.go:65-69 | the rows kept are handed out in order with their own event and attempts, and exactly they are marked |
| OutboxStore.SortedPrefixIsClaim | pkg/outbox/memory.go:61-69 | the first n of the due rows sorted by the written stamp are such a claim |
| OutboxStore.Memory.Delivered | pkg/outbox/memory.go:73-80 | exactly the listed rows are gone |
| OutboxStore.Memory.Failed | pkg/outbox/memory.go:82-100 | the listed rows are failed in turn, ids without a row skipped |
| OutboxStore.FailAllFailsEach | pkg/outbox/memory.go:85-98 | each listed row gets one more attempt, its claim released, and is buried or due at the retry time; no other row changes |
| OutboxStore.FailedRowsAre | pkg/outbox/memory.go:85-98 | the same field by field: attempts + 1, released, its reason, buried with its due time kept if the retry time is zero, else due then |
| OutboxStore.Memory.Depth | pkg/outbox/memory.go:102-117 | buried and owed rows are counted apart, and the age is the greatest among the owed, never below zero |
| OutboxStore.DepthIs | pkg/outbox/memory.go:102-117 | the three figures as set sizes and an age attained by some owed row, or zero |
| OutboxInvariant.StepKeepsInv | pkg/outbox/dispatcher.go:84-156 | every step of every dispatcher, store call, handler call or counter update, keeps the invariant: rows, holders, calls made, ledgers, deliveries and counts, under any clock |
| OutboxInvariant.RunKeepsInv | pkg/outbox/dispatcher.go:84-156 | the invariant holds after every legal run |
| OutboxTiming.RunKeepsTimes | pkg/outbox/dispatcher.go:146-155 | while no clock steps back, a failed row is due no sooner than its backoffs after its first failure, and a claimed row was due when its dispatcher last read the clock |
| OutboxTiming.FailureIsNoted | pkg/outbox/dispatcher.go:132-156 | what the history keeps of a failure: the reading at the row's first, the clock at its burial |
| OutboxTiming.PassingIsNoted | pkg/outbox/dispatcher.go:124-129 | and of a handler's call: that it passed this row on this attempt, exactly if it returned nil |
| OutboxTheorems.ClaimedIsHeldByOne | pkg/outbox/memory.go:55-68 | in every reachable state a row is claimed exactly when a dispatcher holds it, never two, and what is held agrees with the row's event and attempts |
| OutboxTheorems.EveryRowIsInOnePlace | pkg/outbox/memory.go:38-100 | every row ever written is in exactly one of waiting, claimed, buried, delivered |
| OutboxTheorems.DeliveredPassedEveryHandler | pkg/outbox/dispatcher.go:95-111 | a delivered row passed every handler within one attempt |
| OutboxTheorems.ExactlyOnceInEffect | pkg/outbox/doc.go:35-47 | with handlers that insert if absent each ledger ends with one entry per delivered event, never two for any, none for an unpublished one |
| OutboxTheorems.BuriedAtTheLimit | pkg/outbox/dispatcher.go:132-156 | a row is buried exactly at MaxAttempts failures, and never fails more often |
| OutboxTheorems.CountersTrailTheStore | pkg/outbox/dispatcher.go:104-144 | the dispatchers' Buried counters and the burials not yet counted add up to the rows Depth counts as buried, the counters alone exactly when no dispatcher stands between the store call and the count; the same for Delivered |
| OutboxTheorems.CountersCanTrail | pkg/outbox/dispatcher.go:141-144 | a run on which they do not: one row buried and none counted |
| OutboxTheorems.BuriedIsForever | pkg/outbox/memory.go:56 | after burial no later step of any run claims or changes the row |
| OutboxTheorems.BurialTakesAllTheBackoffs | pkg/outbox/dispatcher.go:136-155 | while no clock steps back, burial comes no sooner after the first failure than all the backoffs added up |
| OutboxTheorems.DefaultBackoffShape | pkg/outbox/dispatcher.go:42-48 | the default backoff is 1 s doubled once an attempt up to 512 s, and never meets its cap |
| OutboxTheorems.DefaultBurialTakes254Seconds | pkg/outbox/dispatcher.go:39-48 | with the defaults burial takes at least 254 s |
| OutboxTheorems.ClaimUsesAttempts | pkg/outbox/memory.go:61-64 | a claim that passes over a due row takes a full batch, and uses up that many of the attempts owed to other rows |
| OutboxTheorems.ClaimsAreBounded | pkg/outbox/dispatcher.go:84-112 | along any run that passes a due row over, claims times batch is at most the attempts the others have left |
| OutboxTheorems.OwedIsTheSum | pkg/outbox/dispatcher.go:132-136 | the attempts owed are the sum over the other unburied rows of MaxAttempts less attempts |
| OutboxTheorems.NoStarvation | pkg/outbox/dispatcher.go:84-112 | a due row is claimed within floor(P / Batch) + 1 claims, whoever makes them and however many deliveries fail |
| OutboxDispatcher.Dispatcher.Deliver | pkg/outbox/dispatcher.go:118-130 | calls handlers in order up to the first that errors or panics, and returns that cause, in the words of the code |
| OutboxDispatcher.VerdictIsShared | pkg/outbox/dispatcher.go:124-129 | a delivery passes only if every handler passes |
| OutboxDispatcher.Dispatcher.Fail | pkg/outbox/dispatcher.go:132-156 | the row gets one more attempt, its claim released and the cause's text; at the last attempt it is buried with its due time kept, before it due at the reading plus the backoff of that attempt; the matching counter goes up by one; nothing else changes |
| OutboxDispatcher.Dispatcher.Dispatch | pkg/outbox/dispatcher.go:84-112 | one batch is claimed and settled, the number drained returned, and all of it is a legal run of the protocol with one claim, whatever the clock; if the clock does not step back, neither does the run's |
| OutboxDispatcher.DispatchSettlesEachRow | pkg/outbox/dispatcher.go:95-111 | poison isolation: rows that pass are gone, each other row of the batch is failed on its own account, rows outside it are untouched |
| OutboxDispatcher.FailedRowIs | pkg/outbox/dispatcher.go:95-156 | a row whose first failing handler is h is, after the dispatch, the old one with one more attempt, released, with h's text, due at its reading plus the backoff or buried at the limit |
| OutboxDispatcher.PassedRowIsGone | pkg/outbox/dispatcher.go:95-111 | a row every handler passes is gone |
| OutboxDispatcher.FailuresAre | pkg/outbox/dispatcher.go:132-156 | how far the failed and the buried counter go up: by the rows some handler failed, short of the limit and at it |
| OutboxDispatcher.DispatchRemovesPassed | pkg/outbox/dispatcher.go:103-111 | the store shrinks by exactly the number drained |
| OutboxDispatcher.Dispatcher.Drain | pkg/outbox/dispatcher.go:160-170 | ends after at most as many draining calls as there were rows, and its last batch drained nothing |
| OutboxDispatcher.DrainLeavesNothingDueUnlessFull | pkg/outbox/dispatcher.go:160-170 | that last claim took everything due, or was a full batch in which every delivery failed |
| Limit.Limiter.constructor | pkg/limit/limit.go:45-62 | an empty map, and the default bound when none is given |
| Limit.Limiter.Evict | pkg/limit/limit.go:141-165 | first drops full buckets only, down to half the bound or until none is left, then down to half what one scan after another ends on |
| Limit.Limiter.Oldest | pkg/limit/limit.go:155-161 | the scan's answer, for whatever order the map yields |
| Limit.ScanFindsOldest | pkg/limit/limit.go:153-163 | the scan finds the oldest bucket exactly when the empty key is not older than every other or is visited last |
| LimitEviction.ScanAlwaysFindsOldest | pkg/limit/limit.go:153-163 | whatever the order of the keys the scan finds the oldest, exactly when the empty key is not there, not older than every other, or alone |
| LimitEviction.ScanCanFindNewest | pkg/limit/limit.go:155-163 | a map of three keys in which it ends on the newest |
| LimitEviction.SweepDropsOldestExactly | pkg/limit/limit.go:153-165 | the second phase drops the oldest whatever the orders, exactly when nothing is to be kept, the empty key is not there, or enough others are no newer than it |
| LimitEviction.EvictionDropsOldestExactly | pkg/limit/limit.go:137-165 | the same for the whole eviction, as a condition on the map and the clock before it |
| Limit.Limiter.BucketFor | pkg/limit/limit.go:116-135 | evicts only for a new key in a full map, then brings the key's bucket up to now and no other |
| Limit.KeptIs | pkg/limit/limit.go:116-165 | there is no eviction unless the key is new and the map full; then half the bound is left, and the first phase drops just buckets that would be full |
| Limit.HasIs | pkg/limit/limit.go:116-135 | what a key has: Burst * Every if it has no bucket, else what it held and a unit for each nanosecond since, up to that |
| Limit.Limiter.Reserve | pkg/limit/limit.go:100-114 | grants exactly when a token is there, takes one, and otherwise reports what is missing as a wait |
| Limit.ReservedIs | pkg/limit/limit.go:100-114 | a grant takes Every units and a refusal none, the bucket is then as of now, and no other changes |
| Limit.Limiter.Allow | pkg/limit/limit.go:66-69 | the grant of reserve |
| Limit.Limiter.Tokens | pkg/limit/limit.go:93-98 | the tokens the key has now |
| LimitTheorems.NeverWorseThanUnbounded | pkg/limit/limit.go:116-165 | on any calls, for every key, grants, and grants plus tokens, are at least those of the limiter that never evicts |
| LimitTheorems.DroppingFullIsUnobservable | pkg/limit/doc.go:31-36 | while evictions drop only full buckets every answer equals the unbounded limiter's |
| LimitTheorems.AskingIsHarmlessExactly | pkg/limit/limit.go:92-98 | a Tokens call leaves every key at every later moment with what it would have had, exactly when its key has a bucket, the map is not full, or at least as many buckets are full as are to go |
| LimitTheorems.AskingChangesNothing | pkg/limit/limit.go:92-98 | such a call changes no later answer while evictions get by on full buckets |
| LimitTheorems.AskingCanEvict | pkg/limit/limit.go:92-98 | another call can: a concrete map of one key |
| LimitTheorems.MapStaysBounded | pkg/limit/limit.go:116-124 | the map never exceeds MaxKeys |
| LimitTheorems.FreshKeyHasItsBurst | pkg/limit/limit.go:100-135 | a key with no bucket, asked at one instant, is granted exactly Burst times and then refused with a wait of Every |
| LimitTheorems.LeftAloneIsFull | pkg/limit/limit.go:125-134 | a bucket left alone for Burst * Every holds Burst * Every again |
| LimitTheorems.RateIsBounded | pkg/limit/limit.go:100-135 | in any window a key not dropped as oldest gets at most Burst + elapsed / Every grants |
| LimitTheorems.RateIsBoundedInAnyWindow | pkg/limit/limit.go:100-135 | the same in every window of a limiter's life, after any calls before it |
| LimitTheorems.WaitIsExact | pkg/limit/limit.go:109-113 | the wait a refusal reports is the least delay after which an undisturbed request is granted |
| Id.String | pkg/id/id.go:30-42 | the 36 characters of the canonical text |
| Id.Parse | pkg/id/id.go:65-95 | the parser's verdict and bytes, never writing past its 32-byte buffer whatever the hyphens |
| Id.HexDecode | pkg/id/id.go:86-89 | decodes exactly the strings of hexadecimal digits |
| Id.ParseUndoesString | pkg/id/id.go:30-95 | parsing a printed identifier gives it back, and refuses only the nil one |
| Id.StringNormalisesParse | pkg/id/id.go:30-95 | printing what was parsed gives the text in lower case |
| Id.ParseAcceptsExactly | pkg/id/id.go:65-95 | accepts exactly 36 characters with hyphens at 8, 13, 18, 23 and hexadecimal digits, not all zero, elsewhere |
| Id.ParseRefuses | pkg/id/id.go:65-95 | and each refusal names the first of four faults the text has |
| Id.DigitsAre | pkg/id/id.go:30-42 | the digits written are 0-9 and a-f |
| Hex.HexDigitsAre | pkg/id/id.go:86-90 | the digits read are those of either case, with their values |
| IdGenerator.V7.Tick | pkg/id/generator.go:59-73 | the count 4096 * lastMS + seq goes to the greater of one more and 4096 * now |
| IdGenerator.TickClosedForm | pkg/id/generator.go:59-73 | after n calls the count is the greatest of n and of each reading carried forward by the calls since |
| IdGenerator.LeadIsBounded | pkg/id/generator.go:59-73 | the millisecond issued leads the highest reading by at most n / 4096 |
| IdGenerator.TicksIncrease | pkg/id/generator.go:59-73 | the count strictly increases under any clock |
| IdGenerator.V7.NewID | pkg/id/generator.go:42-57 | the bytes of the ticked millisecond, version, counter, variant and entropy |
| IdGenerator.V7LayoutIs | pkg/id/generator.go:50-56 | bytes 6 and 7 hold the version and the counter whole, byte 8 the variant over six bits of entropy, the rest the entropy as it came |
| IdGenerator.LaterTickSortsLater | pkg/id/generator.go:42-57 | a later tick sorts later as bytes and as canonical text, for any entropy |
| IdGenerator.MintedInOrder | pkg/id/generator.go:24-57 | identifiers are distinct and sort in issue order, as bytes and as text, for any clock and entropy, up to 48 bits of milliseconds |
| IdGenerator.MillisWrapAt48Bits | pkg/id/generator.go:100-107 | past 48 bits the same bytes come again |
| IdGenerator.V7ReadsBack | pkg/id/id.go:19-28 | Version reads 7, Time reads the ticked millisecond, and the variant bits are 10 |
| IdGenerator.CanonicalOrder | pkg/id/id.go:30-42 | the canonical text keeps the order of the bytes |
| Bits.OrIsSum | pkg/id/generator.go:52-55 | on the bytes the generators write, the masks leave six bits and the ors add |
| IdGenerator.TopBits | pkg/id/generator.go:92 | the masked top byte of a 64-bit number under the variant bits |
| IdGenerator.PutMilli | pkg/id/generator.go:100-107 | writes the low 48 bits, most significant byte first, into the first six places only |
| IdGenerator.PutLowBytes | pkg/id/generator.go:93-95 | writes the low seven bytes of the number into the last seven places only |
| IdGenerator.Sequence.NewID | pkg/id/generator.go:83-98 | the bytes for the number, and the number goes up by one in 64 bits |
| IdGenerator.SequenceLayoutIs | pkg/id/generator.go:88-96 | read back, the bytes give the fixed millisecond and the whole number, up to 48 and 62 bits |
| IdGenerator.SequenceIsIncreasing | pkg/id/generator.go:83-98 | the first 2^62 identifiers sort in issue order, as bytes and as text |
| IdGenerator.SequenceRepeatsAfter62Bits | pkg/id/generator.go:92-95 | and no more: identifier n + 2^62 is identifier n |
| Neighborhood.RecordKindMatches | root/research_neighborhood.go:111-127 | the cached answer is the store's |
| Neighborhood.AddRecord | root/research_neighborhood.go:128-142 | visible means returned; invisible means unset or dropped for room, with truncation noted |
| Neighborhood.VisitConnection | root/research_neighborhood.go:169-201 | one connection: kept only with both ends returned, queued only then, nothing lost unless truncated |
| Neighborhood.VisitEvent | root/research_neighborhood.go:208-254 | one event: kept only with every record returned, each record tried whatever became of the others |
| Neighborhood.VisitRecord | root/research_neighborhood.go:163-256 | everything a record's connections and events name is found or the walk is truncated |
| Neighborhood.Walk | root/research_neighborhood.go:106-258 | distinct records, anchor first and then the nearest first, at most limit + 1, all in the ball; both ends of each connection and all participants and the location of each event among them; truncated exactly when the ball holds more than limit + 1, and otherwise the records are the ball |
| Neighborhood.BallIsWithin | root/research_neighborhood.go:149-258 | with no unset identifier the ball of any radius is what lies within so many hops |
| Neighborhood.WithinIsPaths | root/research_neighborhood.go:149-258 | within n hops means at the end of a path of at most n hops |
| Neighborhood.HopIs | root/research_neighborhood.go:163-254 | one hop leads to the ends of a passing connection and the participants and location of a passing event, none of them unset |
| Neighborhood.ConnectionFilterIs | root/research_neighborhood.go:169-187 | a connection passes by its kind and by the kind of either of its ends |
| Neighborhood.EventFilterIs | root/research_neighborhood.go:208-229 | an event passes by the kind of any participant or of its location |
| Neighborhood.FinishedHasTheBall | root/research_neighborhood.go:132-142 | a finished walk was cut short exactly when the ball is too big, and otherwise saw all of it |
| Neighborhood.NearestFirst | root/research_neighborhood.go:149-258 | records come in order of distance, and one is left out only when none farther away is returned |
| Neighborhood.UntruncatedHasEveryRecord | root/research_neighborhood.go:163-258 | not truncated, everything the passing connections and events fewer than depth hops away name is returned |
| Neighborhood.FinishedHasEveryItem | root/research_neighborhood.go:188-247 | not truncated, every kept connection and event fewer than depth hops away is returned |
| Coverage.RecordGapStatus | root/source_alerts.go:172-219 | the loop's counters and set are the counts over all relations, and the status follows |
| Coverage.Tally | root/source_alerts.go:177-199 | the loop's set and counters are those of all the relations |
| Coverage.CountsAre | root/source_alerts.go:177-199 | those of a kind that touch a citation, and those between two, are counted once each |
| Coverage.QuestionGapStatus | root/source_alerts.go:258-298 | the same for a question |
| Coverage.CountPairs | root/source_alerts.go:201 | n observations make n(n-1)/2 pairs |
| Coverage.EnoughIsAll | root/source_alerts.go:176-216 | with one relation a pair the count inside never exceeds that, and reaches it exactly when every pair is related |
| Coverage.RecordStatusMeans | root/source_alerts.go:172-219 | what each of the six statuses says, if and only if |
| Coverage.RecordStatusCounts | root/source_alerts.go:172-219 | the same for any citations and relations, repeated or not, by the count against n(n-1)/2 |
| Coverage.QuestionStatusMeans | root/source_alerts.go:258-298 | what each of the five question statuses says, if and only if |
| Coverage.RepeatedRelationsMislead | root/source_alerts.go:176-216 | without one relation a pair "covered" can be wrong |
| Changes.KeyIsInjective | root/changes.go:67-73 | keys of subjects without NUL tell subject and field apart |
| Changes.DiffRunSnapshots | root/changes.go:79-114 | one change per differing key and none for any other, each the right one |
| Changes.AddedSays | root/changes.go:86-98 | a row only the newer run has is reported "added", from "" to its value, with its subject, field and identifier, and the summary by whether its subject was seen before |
| Changes.ChangedSays | root/changes.go:99-102 | a row with two values is reported "changed", with both |
| Changes.GoneSays | root/changes.go:104-112 | a row gone from a subject measured again is reported "gone", from its value to "" |
| Changes.DiffCounts | root/changes.go:79-114 | there are as many changes as such rows, of the three sorts together |
| Changes.OneChangeEach | root/changes.go:79-130 | and no two are of the same row |
| Changes.LabelIsKey | root/changes.go:116-130 | a change names its own row exactly when it is not an added row with an empty subject, and carries the new value |
| Changes.DiffIsPatch | root/changes.go:79-130 | applied to the older values the diff gives the newer and exactly the older rows not measured again, if and only if every added row can be labelled |
| Changes.StoredDiffIsPatch | root/changes.go:79-236 | between two runs read from the store the diff is a correct patch, unconditionally |
| Changes.EmptySubjectIsMislabelled | root/changes.go:116-130 | an input the store would refuse, on which the diff alone is not a patch |
| Changes.NoChangesMeans | root/changes.go:79-114 | no changes exactly when values repeat and only unmeasured rows are missing |
| Changes.TakeSnapshot | root/changes.go:212-236 | per key the latest row, the first among equals, and every subject seen |
| Changes.SnapshotIsWellFormed | root/changes.go:212-236 | such a snapshot is fit for the diff |
| Unicode.ValidResearchUnicode | root/sources.go:2025-2068 | the loop accepts what the scan accepts, never out of range on any bytes |
| Unicode.ScanLiteral | root/sources.go:2031-2066 | a string literal passes exactly when its surrogate escapes pair up |
| Unicode.AcceptsExactlyPairedText | root/sources.go:2025-2068 | on every text of literals and bytes between, accepted exactly when UTF-8 and every surrogate escape is half of a high-low pair |
| Unicode.AcceptsExactly | root/sources.go:2025-2068 | of all bytes exactly these are accepted, the last literal perhaps unfinished |
| Unicode.ValidUtf8Is | root/sources.go:2026 | valid means the encodings of code points, surrogates apart, one after another |
| Unicode.SurrogatesArePairs | root/sources.go:2053-2063 | a high and a low unit are exactly the two halves of a code point past 0xFFFF |
| Unicode.UnitIs | root/sources.go:2048-2051 | four digits of either case are read as the sixteen-bit unit they spell |
| Password.Base64RoundTrip | pkg/crypto/password.go:113-117 | unpadded base64 decodes to the bytes encoded and holds no separator |
| Password.SameBits | pkg/crypto/password.go:116 | three bytes and their four symbols are the same 24 bits |
| Password.AlphabetIs | pkg/crypto/password.go:111 | the symbols are those of the standard alphabet |
| Password.DecodeSymbolsIs | pkg/crypto/password.go:149-156 | a text decodes exactly if it is all symbols and not one too many, and then it was the encoding of the result but for spare bits of its last symbol |
| Password.LineEndsDrop | pkg/crypto/password.go:149-156 | line ends are passed over wherever they stand, and nothing else is |
| Password.ParamsScanBack | pkg/crypto/password.go:140-147 | the printed costs scan back |
| Password.SplitUndoesJoin | pkg/crypto/password.go:120-123 | splitting at the separators gives the segments joined |
| Password.JoinUndoesSplit | pkg/crypto/password.go:120-123 | and the segments joined give the text |
| Password.DecodeUndoesEncodeHash | pkg/crypto/password.go:113-166 | decode after encode gives the costs, salt and key, lengths filled in, for any salt and key but empty ones |
| Password.EncodeIs | pkg/crypto/password.go:113-117 | the text written, from "$argon2id$v=19$m=" on |
| Password.DecodeAcceptsExactly | pkg/crypto/password.go:119-166 | accepted exactly when version and costs are what encode prints for costs in range and the last two segments decode to a salt and a key that are not empty |
| Password.VersionRefused | pkg/crypto/password.go:131-138 | another version, or anything after the version, is refused for that |
| Password.CostsRefused | pkg/crypto/password.go:145-147 | anything after the costs is refused for that |
| Password.AlgorithmRefused | pkg/crypto/password.go:127-129 | another algorithm, and nothing else, is refused for that |
| Password.FreshHashNeedsNoRehash | pkg/crypto/password.go:48-54 | a hash read back never calls for a rehash at its own parameters |
| Password.RehashIsForWeaker | pkg/crypto/password.go:48-54 | a rehash is called for exactly when the hash is weaker in memory, iterations, parallelism, salt or key length |
| FakeClock.Fake.Advance | pkg/clock/fake.go:38-52 | both clocks move by the duration, exactly the due timers leave, each of their channels gets the new wall time and was empty before, no other channel changes |
| FakeClock.Fake.Set | pkg/clock/fake.go:54-58 | only the wall clock moves and nothing fires |
| FakeClock.Fake.Sleep | pkg/clock/fake.go:60-66 | an advance with all its sends, unless the context is done, and then nothing changes |
| FakeClock.Fake.After | pkg/clock/fake.go:68-75 | one more timer with a fresh number and an empty channel |
| FakeClock.Fake.Take | pkg/clock/fake.go:77-94 | splits due from rest and orders the due by deadline and creation |
| FakeClock.BatchMeans | pkg/clock/fake.go:77-94 | an advance fires exactly the timers due, in order, each once |
| FakeClock.BatchInOrder | pkg/clock/fake.go:87-92 | an earlier deadline first, and of equal deadlines the timer made first |
| FakeClock.AdvancedIs | pkg/clock/fake.go:38-52 | an advance adds the duration to both readings and keeps the timers whose deadline has not come |
| FakeClock.FiresAtMostOnce | pkg/clock/fake.go:38-94 | over every run each timer fires at most once and none that fired is pending |
| FakeClock.FiresAtFirstReach | pkg/clock/fake.go:38-94 | a timer fires if and only if a later advance reaches its deadline, at the first that does, never at a Set, with that moment's wall time |
| FakeClock.FiredTimeIs | pkg/clock/fake.go:38-58 | over any run a timer's channel carries the start, or the last Set before, plus the advances since |
| FakeClock.ReachingIs | pkg/clock/fake.go:38-75 | a deadline is what the clock had moved plus the delay, and is reached by an advance, or a sleep not cancelled, that moves it that far |
| FakeClock.SplittingAnAdvance | pkg/clock/fake.go:38-52 | two advances fire the same timers in the same order as one, and leave the same clock |

## Left out

- The Postgres store, notifications, migrations, HTTP handlers, rendering and process control: foreign calls and field copies.
- The dispatcher's `Run`, its ticker and its wake channel; logging; the constructors' nil checks, which panic.
- Store calls that return errors: the in-memory store never does.
- A publisher inside a handler: `Drain` terminates only if handlers add no rows, and the model's handlers add none.
- Claim order: the written stamp is the number of rows at the time, so it can repeat after deletions and orders only the rows of one claim. No first-in-first-out property holds or is stated.
- Idempotence after delivery: `Add` is idempotent only while the row is present, and `EveryRowIsInOnePlace` counts a row written again as another.
- A negative `MaxAttempts` or `Batch`, which `withDefaults` does not replace.
- Mutexes, except in the outbox protocol, where each locked call is a step of its own: a method of the limiter, the generators or the fake clock runs as one step.
- Overflow of 64-bit instants and durations, and of the 64-bit counters other than `Sequence`'s.
- Floating point in the limiter: tokens are exact integers in units of 1/Every, so rounding near a boundary is not captured. `Wait`'s timers are left out; what it waits for is `Reserve`'s answer.
- LimitTheorems.RateIsBounded: for keys the second phase never drops; a dropped key starts again from a full bucket.
- UnmarshalText and JSON of identifiers, which wrap Parse and String.
- IdGenerator.V7.NewID: entropy is a parameter of eight bytes; a failing entropy source panics in the code.
- Neighborhood.RecordKindMatches: a record is found or not found; a lookup that fails otherwise ends the request, and is left out.
- The neighborhood's per-call page limits: the reads are fixed lists while one request runs. Its later stages (the records' bodies, the citations and their cap of one hundred, which can also set the truncated flag) are left out.
- Coverage.RecordStatusMeans: for distinct citations and one relation a pair.
- That the joined text of a change's identifier is unique: subjects may hold colons.
- Changes.AddedSays: for a subject that is not empty; so is `ChangedSays`. `LabelIsKey` has the other case.
- Changes.SnapshotIsWellFormed: for subjects without NUL, on which the keys rely.
- JSON beyond string literals: `AcceptsExactly` says what the scan accepts of any bytes, and nothing of the rest of the grammar.
- argon2, constant-time comparison and the validation of configured costs. In the scan of the costs, white space outside ASCII and line ends are not modelled; no such string is accepted, since the segment must be what encode prints.
- Several base64 texts decode to one hash, since the decoder ignores spare bits and line ends: `Password.DecodeSymbolsIs` and `Password.LineEndsDrop` say how far they may differ, and no text is singled out.
- FakeClock.Fake.Advance: the sends come after the unlock in the code, so those of two concurrent advances can interleave, and in the model they are one step with the move. A negative duration, which panics, is excluded. A channel is the sequence of values in it, and nothing models its receiver.
