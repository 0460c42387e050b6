# A verified model of the ML-Cache cluster

The project models the cache cluster written in Go: one cache node with its eviction policies, its
byte counter and its write-ahead log, and several such nodes behind a consistent-hashing router. It
proves what the parts promise each other over whole runs.

How it is laid out:

- `PolicyHistory` says what an eviction policy must answer, from nothing but the list of its calls.
  `LruPolicy` and `LfuPolicy` are the two indexes the program keeps instead, as classes updated in
  place; each names exactly that victim.
- `Breaker` is the cooldown and the circuit breaker in front of the prediction service, and
  `Policies` the objects behind the common policy interface, with the ML wrapper.
- `Decimal`, `WalCodec` and `Wal` are the log: its text format, read back in one pass, and its file.
- `CacheSpec` is a node as a value and its operations as functions. Each operation is cut into the
  atomic sections the mutex makes of it. A `World` says, at each boundary between two sections,
  which Gets run, what the prediction service answers, whether the log append reaches the disk and
  whether the store call succeeds. Every theorem holds for all worlds unless it says otherwise.
- `CacheAccounting`, `CacheFrequency`, `CacheLog`, `CacheRecovery`, `CachePolicyLaws`, `CacheChoice`,
  `CacheEffects`, `CacheSurvival`, `CacheRecency` and `CacheLosses` are the laws, and `CacheLocality`
  the fact that an operation depends only on what the world does while it runs. `CacheWitnesses` holds
  inputs at which the surprising cases happen.
- `CacheNode` is the cache as a class updated in place; each method does to its state exactly what
  the function of the same name in `CacheSpec` says, so every law holds of the class.
- `Ring` builds and searches the hash ring, `ClusterSpec` is the cluster as a value,
  `ClusterEffects` which nodes and logs an operation reaches, `ClusterHottest` which key a migration
  picks, `ClusterCoherence` what a cluster's runs keep, `ClusterWitnesses` runs that break coherence
  and `ClusterRestart` what a restart keeps; `ClusterNode` holds the cluster and node objects, each
  method again tied to the value.
- `ReuseDistance` is the pair of passes that turn the access log into training rows.

Where the program does other than its documentation or its own names suggest, the model follows the
program:

- The proactive pass computes a `target` of half the capacity (`cache/cache.go:480`), but hands the
  excess over it to a routine that expects the room *needed*. So up to three quarters of the capacity
  it evicts nothing, and above them it goes on until the bytes before and after it come to at most one
  and a half capacities: a full node is brought down to half, one just above three quarters only to
  three quarters (`SetSettlesAt`, `PassStopsAboveHalf`).
- The breaker is documented as opening after three consecutive failures, and a malformed response
  as a failure. A reply that cannot be decoded, reports an error or names no key neither counts nor
  resets the count; only a returned key or an opening does (`OpensExactlyAtThirdFailure`,
  `InterruptedFailuresOpen`, `UndecodableRepliesDoNotOpen`).
- A hot key is documented as moved. When the target takes the value but its store call then fails,
  the caller hears that nothing moved and sets no override, and the key stays where no client is
  routed (`MigrationKeeps`, `StrandedKey`). The migration's read, delete and Set and the override are
  separate steps. A Set or Delete of the key between the delete and the override is lost once the
  override sends its clients to the other node, and a Set between the read and the delete is lost at
  once (`StepKeeps`, `OvertakenKey`, `LostDelete`, `LostUpdate`).
- Overrides are documented as keeping a moved key from hashing back to its old node. They are in
  memory only, while the moved key is in the target's log: after a restart it does
  (`RestartKeeps`, `ForgottenOverride`).
- An overwrite takes the old size off the counter before it makes room. If it then evicts the old
  item, or finds no room, the counter stays behind for good (`ExactAccounting`, `CounterExact`;
  when it does: `EvictsItselfExactly`, `SetRejectedExactly`, `LossToldBefore`).
- The log receives a Set before the deletes of its own victims. An overwrite that evicts itself is
  logged as a set and then a delete of a key that stays live, and a rejected one as set though the old
  value stays (`SetAgreesExactly`, `CounterAndLogDisagree`, `RejectedOverwrite`).
- After a crash in the middle of a line the log is appended to as it is, and its first new entry is
  lost in the torn line (`AfterTornLine`).
- The limit of ten is on evictions that succeed: while every store call fails the loop evicts as many
  items as it takes (`FailingStoreEvictsOn`). While every append fails it evicts none, and makes the
  policy forget a key that is still live (`FailingLogUntracks`).
- A successful Set may evict its own key at once, under LFU and, when other keys are read meanwhile,
  under LRU (`SetKeepsExactly`, `LfuLosesFreshWrite`, `LruLosesFreshWrite`).

## Model

| member | source | states |
|---|---|---|
| PolicyHistory.RanksMeaning | eviction/lfu.go:32-86 | a key is tracked exactly when some store of it is followed by no drop; its rank is the number of touches since the inserting store and the position of its last touch |
| PolicyHistory.Victim | eviction/policy.go:3-8 | the victim is the unique tracked key of least rank for the policy, and there is none exactly when nothing is tracked |
| LruPolicy.LRU.OnGet | eviction/lru.go:32-38 | the list stays the tracked keys in decreasing order of last touch, and the history grows by the read |
| LruPolicy.LRU.OnSet | eviction/lru.go:40-49 | the same for a store of a new or a known key |
| LruPolicy.LRU.OnDelete | eviction/lru.go:51-58 | the same for a drop; dropping an unknown key changes nothing |
| LruPolicy.LRU.ChooseEviction | eviction/lru.go:60-68 | the last list entry is the least recently touched tracked key; none exactly when nothing is tracked |
| LruPolicy.Moved | eviction/lru.go:32-49 | taking a handle out and putting it in front keeps the list the keys in order of last touch |
| LfuPolicy.LFU.OnGet | eviction/lfu.go:32-39 | every tracked key stays in the bucket of its touch count, in order of last touch, with the cached minimum the true one and every node holding its own handle |
| LfuPolicy.LFU.OnSet | eviction/lfu.go:41-61 | the same for a store of a new key (bucket 1) or of a known one (next bucket) |
| LfuPolicy.LFU.OnDelete | eviction/lfu.go:63-86 | the same for a drop, including the recomputed minimum |
| LfuPolicy.LFU.ChooseEviction | eviction/lfu.go:88-98 | the back of the minimum bucket is the key least in (touches since insertion, last touch); none exactly when nothing is tracked |
| LfuPolicy.LFU.IncrementFreq | eviction/lfu.go:100-118 | one more touch moves the node to the front of the next bucket and keeps the whole index |
| LfuPolicy.LeastFrequency | eviction/lfu.go:74-84 | the recomputed minimum is the least non-empty bucket, in whatever order the map is walked |
| LfuPolicy.Promote | eviction/lfu.go:100-118 | the list surgery of a touch keeps buckets and minimum right for the new history, after the increment of the minimum too |
| LfuPolicy.Discard | eviction/lfu.go:63-86 | the list surgery of a drop keeps buckets and minimum right for the new history |
| LfuPolicy.LastOfMinIsVictim | eviction/lfu.go:88-98 | the last entry of the least bucket is the lexicographically least key |
| LfuPolicy.MinAfterMove | eviction/lfu.go:100-118 | incrementing the minimum when its bucket empties gives the true minimum, because the moved node has just gone there |
| Breaker.AttemptsSpaced | eviction/ml_policy.go:97-197 | with one caller and a clock that never goes back, calls to the service start at least the cooldown apart, over any sequence of requests |
| Breaker.OpenedMeans | eviction/ml_policy.go:199-206 | the circuit opens exactly at a recorded failure that finds the counter one below the limit, and stays open ten seconds from it |
| Breaker.CounterMeans | eviction/ml_policy.go:97-206 | between resets the counter is the number of recorded failures |
| Breaker.OpensExactlyAtThirdFailure | eviction/ml_policy.go:97-206 | the circuit opens exactly at the third recorded failure since the last returned key, the last opening or the start |
| Breaker.NoAttemptWhileOpen | eviction/ml_policy.go:97-197 | after an opening no attempt starts before the ten seconds have passed |
| Breaker.ThreeAttemptsOpen | eviction/ml_policy.go:97-206 | if every attempt fails, any three attempts have an opening among them |
| Breaker.FourthAttemptWaits | eviction/ml_policy.go:97-206 | if every attempt fails, of any four the last starts ten seconds after the first |
| Breaker.AtMostThreeAttemptsPerWindow | eviction/ml_policy.go:97-206 | if every attempt fails, any half-open ten-second window holds at most three |
| Breaker.InterruptedFailuresOpen | eviction/ml_policy.go:128-206 | three transport errors with an undecodable reply after each of the first two: the circuit opens at the third |
| Breaker.UndecodableRepliesDoNotOpen | eviction/ml_policy.go:128-206 | three undecodable replies in a row do not open it |
| Breaker.WaitingEnds | eviction/ml_policy.go:97-116 | a call is made from the moment the circuit closes and the cooldown has passed, not a nanosecond earlier, and never without keys or with the wrapper disabled |
| Policies.MLPolicy.GetMLPrediction | eviction/ml_policy.go:97-197 | returns k exactly when the gate, past its cooldown and not open, asks and the service replies k, not empty; an asked transport error or bad status is counted, the third opens the circuit for ten seconds, and a key given clears the count; it is the transition the breaker laws are about |
| Policies.MLPolicy.RecordFailure | eviction/ml_policy.go:199-206 | counts the failure, and at the third opens the circuit and starts over |
| Policies.MLPolicy.ChooseEviction | eviction/ml_policy.go:211-225 | with a state provider, the key the service replies with if it is asked and that key is not empty; in every other case the wrapped policy's true victim |
| Policies.MLPolicy.ChooseEvictionDuringRecovery | eviction/ml_policy.go:227-230 | the wrapped policy's true victim, without asking the service |
| Decimal.ParsePrint | pkg/wal/wal.go:82-86 | every 64-bit integer printed in decimal is parsed back |
| Decimal.PrintedDigits | pkg/wal/wal.go:50 | the digits come most significant first, after the sign |
| Decimal.ParseLimits | pkg/wal/wal.go:82-86 | the ends of the 64-bit range are read, one beyond either is not |
| WalCodec.EscapeRoundTrip | pkg/wal/wal.go:40-80 | a value survives the escaping if and only if it holds no backslash-n pair |
| WalCodec.LineRoundTrip | pkg/wal/wal.go:40-98 | the line of an encodable entry is read back as that entry |
| WalCodec.WrittenLine | pkg/wal/wal.go:40-55 | the line of a set whose value holds a newline, and of a delete, character by character |
| WalCodec.OtherSets | pkg/wal/wal.go:67-98 | a set line without a value is skipped; one without a TTL, or with one that cannot be read, is a set with TTL 0 |
| WalCodec.OtherDeletes | pkg/wal/wal.go:67-98 | whatever follows the key of a delete line is ignored |
| WalCodec.SkippedLines | pkg/wal/wal.go:67-98 | a line without a tab, or of any other operation, is skipped |
| WalCodec.LineLimit | pkg/wal/wal.go:57-108 | a line can be read if and only if it has fewer than 65536 characters |
| WalCodec.ParsedEncodable | pkg/wal/wal.go:67-98 | whatever a line holds, an entry read from it is one the format can carry |
| WalCodec.RoundTrip | pkg/wal/wal.go:40-108 | a log of carried entries is read back entry for entry |
| WalCodec.RoundTripExactly | pkg/wal/wal.go:40-108 | for entries within the line limit, reading back gives exactly what was written if and only if every entry is encodable |
| WalCodec.ReadEncodable | pkg/wal/wal.go:57-108 | from any bytes at all, every entry read is encodable, so writing it again would not change it |
| WalCodec.AnyPrefix | pkg/wal/wal.go:57-108 | a file cut anywhere gives back every entry written in full before the cut and at most one more, from the torn line |
| WalCodec.ReadAppended | pkg/wal/wal.go:40-108 | entries appended to a file that ends in a newline are read back after what it held, and the file ends in a newline again |
| WalCodec.AfterTornLine | pkg/wal/wal.go:40-108 | appended to a file whose last line is torn, the first entry becomes part of that line: the two are read as one entry or none, or make the line too long to read the file at all; the entries after it are read back |
| Wal.WAL.Append | pkg/wal/wal.go:40-55 | an accepted append adds exactly that entry's line; an invalid operation or a failed write adds nothing |
| Wal.WAL.ReadAll | pkg/wal/wal.go:57-108 | the one-pass scan yields the entries of the file's lines in order, and an error exactly when a line exceeds the scanner's limit |
| Wal.WAL.ReadLine | pkg/wal/wal.go:67-98 | the branches of the loop body give the line's entry, or skip it exactly when it is malformed |
| CacheSpec.ReplayIsRun | cache/cache.go:363-371 | a replay is a run of a recovering node on the Sets and Deletes the log stands for, so what holds of all runs holds of it |
| CacheAccounting.EvictSettles | cache/cache.go:271-346 | for every choice of victims and every pattern of failures, eviction only removes items, never changes a value, keeps the counter's distance from the live bytes, only appends to the log, and shows readers nothing over the limit |
| CacheAccounting.SetKeeps | cache/cache.go:166-232 | every Set, on every path, keeps the node's invariant and makes the counter lose exactly the old size if it evicted itself or was rejected, and nothing otherwise |
| CacheAccounting.DoKeeps | cache/cache.go:137-269 | the same for every operation: Sets, Gets, deletes, sweeps and the ML worker |
| CacheAccounting.ExactAccounting | cache/cache.go:185-214 | over every run the counter lags behind the live bytes by exactly the sum of those losses: never negative, never shrinking |
| CacheAccounting.CounterExact | cache/cache.go:185-214 | on a node that has replayed whatever log it found, the counter equals the live bytes if and only if no overwrite of a non-empty value evicted itself or was rejected, in the replay or since |
| CacheAccounting.FittingSetLosesNothing | cache/cache.go:184-197 | whatever the faults, victims and Gets, a Set loses nothing if the counter without the old size and with the new one is within capacity before the call |
| CacheLosses.EvictsItselfExactly | cache/cache.go:185-197 | on an LFU or LRU node an overwrite evicts the item it replaces if and only if fewer than ten keys rank before it when room is made, and the bytes without them and without the old item, and the value, do not fit; for no fault while it makes room and no Get after the first pick |
| CacheLosses.SetRejectedExactly | cache/cache.go:184-197 | on LFU and LRU nodes a Set is rejected for space if and only if the bytes without the old item and without the ten that rank first at the first pick, and the value, do not fit: no fault while it makes room and no Get after that pick |
| CacheLosses.LossToldBefore | cache/cache.go:184-197 | told before the call: whether a Set, with no fault and no Get during it, will be rejected, whether it will evict the item it replaces, and so the bytes the counter will lose |
| CacheLosses.CounterExactToldBefore | cache/cache.go:185-214 | over a replay and a run without faults and without Gets inside an operation, the counter equals the live bytes if and only if no Set, of the log or since, found a state in which it was bound to make the counter lose anything |
| CacheWitnesses.CounterAndLogDisagree | cache/cache.go:166-232 | LRU, capacity 10: setting a to 3 bytes, b to 4, a to 7 leaves 7 bytes live and 4 counted, and a log that folds to nothing while a is live |
| CacheWitnesses.RejectedOverwrite | cache/cache.go:184-197 | LRU, capacity 100: set twenty keys to one byte each, then the last of them to 95: ten items are evicted, the Set is rejected, the old item is still live, the counter has lost its byte, and the log says the key was set |
| CacheAccounting.CapacitySafe | cache/cache.go:166-269 | whatever the log the node started from, the victims, failures and interleaved Gets, no reader ever sees the counter above capacity, or the policy tracking a key that is not live |
| CacheFrequency.FrequencyCountsReads | cache/cache.go:137-214 | in the state every run ends in, whatever log it started from, and in everything readers saw on the way, the frequency of an item is one plus the number of reads of its key after its last store, as positions of the history |
| CacheChoice.DeleteMeans | cache/cache.go:241-269 | a delete is logged for any key, live or not; if the append fails nothing else happens, else the key is gone; a failed store call is reported exactly when the key was live |
| CacheChoice.SuggestedIsTried | cache/cache.go:276-333 | outside recovery, with a state provider, when a round has no room and the service is asked and replies k, the round tries k whatever the wrapped policy would pick: k is deleted if it is live and the log takes it, the loop is left if it is not live, and left with the policy forgetting k if it was tried before; only a delete without faults is counted |
| CacheChoice.VictimIsTried | cache/cache.go:276-333 | when the service is not asked or names no key, the round tries the wrapped policy's victim in that way, and the loop is left if there is none |
| CacheChoice.WorkerDeletesSuggested | cache/cache.go:396-434 | when the worker's call is answered with a key, the worker deletes that key |
| CacheChoice.WorkerAsksWrapper | cache/cache.go:435-442 | else it asks the wrapper, which with a state provider may call once more, and deletes the key named then, or else the wrapped policy's victim, if there is one |
| CacheChoice.ReplayAsksNothing | cache/cache.go:292-297 | whatever its log holds, a node that starts makes no call to the service: cooldown, counter and circuit are as they were |
| CacheChoice.MlSetRunsNoPass | cache/cache.go:457-474 | once the value is in, an ML node evicts, logs and asks nothing more |
| CacheWitnesses.ServiceOverridesPolicy | cache/cache.go:292-300 | ML over LRU, capacity 10: set a and b to five bytes each, then c to five while the service names b: LRU would evict a, and b goes |
| CacheEffects.SetReportsIt | cache/cache.go:166-232 | what a Set reports, told from the faults it meets: the append, the size, the room the loop leaves, the store call, in this order |
| CacheEffects.RefusedSet | cache/cache.go:166-182 | a Set refused by the log, or too large, leaves items and counter alone; the second kind is in the log all the same |
| CacheEffects.SetLogsFirst | cache/cache.go:166-179 | what a logged Set adds to the log begins with its own entry, with its TTL, before any eviction of its own |
| CacheEffects.StoreFailedSet | cache/cache.go:199-222 | a Set whose store call fails has put the value in, leaves it there, and runs no pass |
| CacheEffects.SetShows | cache/cache.go:184-222 | before a Set returns, readers have seen the counter without the old value while its item was still there, and have seen the new value, even if the pass or a failing store call follows |
| CacheEffects.WorkerIsAskAndDelete | cache/cache.go:431-434 | a turn in which the service names a key is the call and then a delete of that key |
| CacheEffects.FailingLogUntracks | cache/cache.go:303-330 | on an LFU or LRU node, while every append fails, a loop without room evicts nothing and ends when it comes back to a key; the policy forgets that key, which stays live |
| CacheEffects.FailingStoreEvictsOn | cache/cache.go:276-330 | while the log works and every store call fails nothing counts towards the ten, and the loop goes on until there is room, however many items that takes |
| CacheLog.EvictLogged | cache/cache.go:271-346 | eviction removes from the fold of the log exactly the keys it removes from the items |
| CacheLog.SetAgreesElsewhere | cache/cache.go:166-232 | a Set keeps log and items agreeing on every other key, whatever it evicts |
| CacheLog.SetAgreesExactly | cache/cache.go:166-232 | when log and items agree on the Set's own key afterwards, as an if-and-only-if for each outcome |
| CacheLog.DeleteAgrees | cache/cache.go:234-269 | a delete keeps log and items agreeing on every key, failed appends and stores included |
| CacheLog.WorkerAgrees | cache/cache.go:396-446 | so does every turn of the ML worker |
| CacheLog.LogAgreesOverRun | cache/cache.go:166-269 | over every run, a key on which log and cache agree at the start, and none of whose Sets was rejected for space or evicted itself, reads the same in the log as in the cache |
| CacheLog.LogIsFold | cache/cache.go:166-269 | when that holds of every key, the live key-to-value map is the fold of the log |
| CacheRecovery.RecoverySound | cache/cache.go:351-373 | from any log, every recovered key and value comes from a logged set with no later delete of that key, and the recovered bytes fit the capacity, whatever the replay evicts or rejects |
| CacheRecovery.RoomySet | cache/cache.go:166-232 | a Set that leaves the live bytes at most three quarters of capacity evicts nothing and stores its value |
| CacheRecovery.StartedPlain | cache/cache.go:351-373 | if that holds after every entry of the log a node finds, its replay evicts nothing: its items are the fold of the log and its counter is exact |
| CacheRecovery.LogIsFoldSinceStart | cache/cache.go:166-269 | started in front of such a log, whatever is evicted later, the live key-to-value map is the fold of what was found and what has been appended, unless a Set was rejected or evicted itself |
| CacheRecovery.LightRunPlain | cache/cache.go:166-232 | while it holds after every entry, found or appended since, nothing is ever evicted: the items are the fold of the whole log and the counter is exact |
| CacheRecovery.Restart | cache/cache.go:351-373 | end to end: such a node, started in front of a whole file; a new node, under any policy and with any Gets in between, that decodes and replays what the file has become rebuilds exactly its key-to-value map and byte counter; the file is whole again, so this goes for every further restart |
| CachePolicyLaws.PolicyInStep | cache/cache.go:199-217 | in every run during which no append fails, of a node that has replayed whatever log it found, the policy tracks exactly the live keys, in the final state and in everything readers saw since the node was made: for LFU, LRU and the ML wrapper, whatever the service answers and the store does |
| CachePolicyLaws.Reachable | cache/cache.go:104-269 | every state a node reaches, from whatever log it started, satisfies what the next laws ask of a state if no append fails |
| CacheLocality.SetLocal | cache/cache.go:166-232 | a Set depends on nothing the world does before its first section or after its last, so the next laws need no more than a Set without faults |
| CacheLocality.RunLocal | cache/cache.go:137-269 | a run depends only on what the world has done by its end |
| CachePolicyLaws.EvictExits | cache/cache.go:271-346 | on an LFU or LRU node a loop during which no fault occurs leaves only because there is room or after exactly ten evictions, each counted; the other four exits are unreachable even when the counter has drifted |
| CachePolicyLaws.SetFailsOnlyAfterTen | cache/cache.go:166-232 | there a Set during which no fault occurs fails only for a value above capacity, or after exactly ten evictions that freed too little |
| CachePolicyLaws.SetSettlesAt | cache/cache.go:457-485 | there the pass of a successful Set during which no fault occurs evicts something if and only if twice the bytes, once the value is in, exceed C + floor(C/2); it then stops, and no eviction later than it has to, when the bytes before and after it come to at most C + floor(C/2), or with exactly ten evictions |
| CacheWitnesses.PassStopsAboveHalf | cache/cache.go:457-485 | LRU, capacity 8: set a to two bytes, b to five: the pass evicts a and stops at five bytes, above its target of four |
| CacheSurvival.SparesExactly | cache/cache.go:276-333 | the loop spares a live key if and only if at least ten keys rank before it at the first pick, or the bytes without those keys, and the need, fit into the capacity: LFU and LRU, with drift or without, no fault during the loop and no Get after its first pick |
| CacheSurvival.FreesExactly | cache/cache.go:276-333 | under the same conditions the loop makes room if and only if the bytes without the ten keys that rank first at the first pick, and the need, fit |
| CacheRecency.SetKeepsExactly | cache/cache.go:166-232 | the same for a Set: its key survives the proactive pass of a successful Set, with the value set, if and only if that holds at the pass's first pick of the excess over half the capacity |
| CacheRecency.FittingWriteKeptExactly | eviction/lru.go:32-68 | told before the call: a fitting Set, with no fault and no Get during it, keeps its key if and only if ten other keys rank before it (LRU: any; LFU: those touched no oftener), or the bytes without those, and the excess, fit |
| CacheRecency.EvictKeepsRecent | cache/cache.go:271-346 | with Gets at any point of the loop, LRU spares a key that, with the keys read since it was written, leaves room for the need |
| CacheRecency.LruKeepsRecentWrite | eviction/lru.go:32-68 | with Gets at any point of the Set, the key of a successful Set stays live with its value on an LRU node if the value and the other keys read during it fit into half the capacity |
| CacheRecency.LruKeepsRecentWriteUndisturbed | eviction/lru.go:32-68 | with no other key read during the Set, a value of at most half the capacity is kept |
| CacheRecency.LruDropsOvertakenWrite | cache/cache.go:457-485 | on an LRU node a fitting new key that brings the bytes above three quarters is evicted by its own Set's pass if every other live key, and not the new one, is read between insertion and first pick, whatever is read later |
| CacheRecency.LfuDropsFreshWrite | eviction/lfu.go:41-98 | on an LFU node the same happens if the others have all been touched again and the new one is not read before the first pick, whatever is read later |
| CacheWitnesses.LfuLosesFreshWrite | eviction/lfu.go:41-98 | LFU, capacity 8: set a to 4 bytes, read it, set b to 3: the Set succeeds and b is gone |
| CacheWitnesses.LruLosesFreshWrite | cache/cache.go:457-485 | LRU, capacity 8, while a is being read: set a to 4 bytes, set b to 3: the Set succeeds and b is gone |
| CacheNode.Cache.Get | cache/cache.go:137-160 | for a live key returns its value, adds one to its frequency and reports the read to the policy, and touches no other item; for any other key changes nothing |
| CacheNode.Cache.DeleteLocked | cache/cache.go:241-269 | new state and outcome are those of the specified delete |
| CacheNode.Cache.AttemptOne | cache/cache.go:288-333 | one round of the loop either leaves it as specified or attempts a live key not attempted before |
| CacheNode.Cache.EvictRounds | cache/cache.go:276-333 | the loop does what the specified eviction does, and terminates for all victims and failures: each round that does not leave it shrinks the live keys not yet attempted |
| CacheNode.Cache.EvictToMakeSpace | cache/cache.go:271-346 | the same, and reports success exactly when there is room |
| CacheNode.Cache.SetWithTTL | cache/cache.go:166-232 | new state and outcome are those of the specified Set, on every path |
| CacheNode.Cache.TriggerMLEvictionIfNeeded | cache/cache.go:457-485 | new state is that of the specified proactive pass; an ML node only wakes its worker |
| CacheNode.Cache.WorkerTurn | cache/cache.go:396-446 | new state is that of the specified worker turn |
| CacheNode.Cache.LoadFromWAL | cache/cache.go:351-373 | new state is the specified replay of what the file decodes to; a scan error changes nothing and is reported |
| CacheNode.Cache.NewCache | cache/cache.go:104-132 | a new cache has replayed what its log file decodes to, on an empty node, and fails exactly when the file cannot be scanned |
| Ring.BuildRing | cluster/cluster.go:58-66 | the ring is exactly the points of all nodes, as a multiset, sorted by hash |
| Ring.RingPoints | cluster/cluster.go:58-63 | a point is on the ring exactly when it is the hash of "node-ID-i" for one of the nodes and some i below the number of replicas, and there are as many points as nodes times replicas |
| Ring.PointNameInjective | cluster/cluster.go:59 | no two points are hashes of the same name |
| Ring.Search | cluster/cluster.go:98-101 | bisection finds the first point whose hash is not below the key's |
| Ring.SuccessorNearest | cluster/cluster.go:97-105 | with wrap-around that point is the nearest clockwise, and the first on the ring of those with its hash |
| Ring.MinimalDisruption | cluster/cluster.go:46-105 | when no hash is shared between nodes, building the ring with one more node changes a key's owner only to that node, and does so exactly when one of its points is nearer than every old one |
| ClusterSpec.RouteIsSentTo | cluster/cluster.go:83-106 | a key goes to the first node with the ID its override names, if there is one; else, unless the ring is empty, to the owner of the point nearest clockwise to its hash, the first among equals; and to no other node |
| ClusterSpec.JoiningKeepsOverrides | cluster/cluster.go:83-95 | when a node joins, a key with an override that names an old node keeps its node |
| ClusterSpec.JoiningMovesFew | cluster/cluster.go:46-106 | any other key keeps its node or goes to the new one, and goes there exactly when one of the new points is nearer than every old one |
| ClusterSpec.TwoPoints | cluster/cluster.go:83-106 | a ring with a point of the first node at 10 and of the second at 20: hash 15 goes to the second, 25 and 10 to the first; an override names a node by ID, and one that names none does nothing |
| ClusterSpec.HottestIs | cluster/node.go:279-288 | the key picked is the first, in the order walked, of those no other key is hotter than |
| ClusterHottest.HottestIsMostRead | cluster/node.go:279-288 | on a node that counts its reads it is the first in that order of the keys read most since they were last set |
| ClusterHottest.RunsCounted | cluster/node.go:273-310 | in every run of a cluster, through clients, sweeps and the steps of migrations, every node counts its reads |
| ClusterHottest.MigrationMovesMostRead | cluster/node.go:279-310 | the key a migration reports to have moved is that one |
| ClusterHottest.OftenReadMoves | cluster/node.go:279-310 | set a and b, read b three times, migrate: of the keys walked as a, b it is b that moves |
| ClusterEffects.ServedWhereSent | cluster/cluster.go:109-144 | a client's Set, Get or Delete reaches the node its key is sent to, said without the route, and leaves every other node and the overrides alone; a Get only counts the read; a key sent nowhere changes nothing |
| ClusterEffects.LookedUpWhereSent | cluster/cluster.go:129-136 | a cluster Get returns the value live at the node the key is sent to, and nothing otherwise |
| ClusterEffects.MoveIsLogged | cluster/node.go:294-307 | the source logs its delete, and then, unless that was reported to have failed, the target logs a set of the value the source held, without a TTL |
| ClusterEffects.MoveIsReported | cluster/node.go:290-309 | a migration reports its key exactly when its delete and its Set meet no fault and the target has room |
| ClusterEffects.MoveIsFollowed | main_cluster.go:366-369 | after a reported migration the key's clients are sent to the target |
| ClusterCoherence.SetWithin | cache/cache.go:166-232 | after a Set only its key can be new, and that key holds the new value exactly when the Set was accepted |
| ClusterCoherence.StepKeeps | cluster/node.go:273-310 | every client operation, every background delete, and each of the four steps of a migration (read the value, delete at the source, Set at the target, override) keeps the cluster sound (every key where it was last moved to or else where it is routed to, with the value last accepted and not deleted since) if and only if it does not break it; what breaks it is told by the guards of the code in the state before |
| ClusterCoherence.RunCoherent | cluster/node.go:273-310 | in every run from a sound state, with clients and any number of migrations in between any two of those steps, every state is sound if and only if no step breaks it |
| ClusterCoherence.MigrationKeeps | main_cluster.go:366-369 | a migration nothing interrupts keeps every key where it is routed to, with its current value, if and only if it is not the case that the source lets go of the key, the target takes it, and the target's store call then fails |
| ClusterCoherence.MigrateIsSteps | cluster/node.go:294-309 | such a migration is exactly the four steps, one after the other |
| ClusterCoherence.CarefulBreaksNothing | cluster/node.go:273-310 | no step breaks anything if the target's store call right after inserting does not fail, and nobody sets, deletes or migrates a key while a migration of it is under way |
| ClusterCoherence.GetReturnsLatest | cluster/cluster.go:129-136 | in a run whose steps break nothing a hit returns the most recent accepted Set, not deleted since, and a miss of a key with no redirection under way means no node holds it |
| ClusterCoherence.DeleteIsFinal | cluster/cluster.go:138-144 | in such a run, once a Delete has been logged by the node it is routed to, Gets miss until the next accepted Set of the key |
| ClusterCoherence.GetReturnsLatestWhenCareful | cluster/cluster.go:129-136 | all that from what callers can see to, over whole runs from a fresh cluster: every state is sound and no step breaks anything |
| ClusterWitnesses.StrandedKey | cluster/node.go:300-307 | two nodes, the second's store failing: set a key and migrate it; the second node holds it, no redirection is under way, and a Get misses |
| ClusterWitnesses.OvertakenKey | main_cluster.go:366-369 | two nodes without faults: set a key, migrate it, set it again before the override; a Get then returns the value of the first Set |
| ClusterWitnesses.LostDelete | main_cluster.go:366-369 | the same run with a Delete: it is reported done, and after the override a Get returns the value deleted |
| ClusterWitnesses.LostUpdate | cluster/node.go:294-307 | a Set between the migration's read and its delete: it is accepted, the source then deletes it, and from the override on a Get returns the value read before |
| ClusterRestart.RestartKeeps | cluster/cluster.go:46-80 | a cluster of nodes with light logs comes back from a restart, which loses the overrides, with every key and value where it was; it comes back sound if and only if every key was at its owner on the ring |
| ClusterRestart.ForgottenOverride | cluster/cluster.go:76-106 | two nodes without faults: set a key, migrate it, redirect its clients, so that a Get returns its value; restart: the second node holds it and a Get misses |
| ClusterNode.Node.Move | cluster/node.go:294-309 | the source's delete and the target's Set leave both caches as specified, and the rest is not undone on a failure |
| ClusterNode.Node.MigrateHotKey | cluster/node.go:273-310 | the scan picks the specified key, and both caches and the report are those of the specified handover |
| ClusterNode.Cluster.constructor | cluster/cluster.go:46-74 | the ring is that of the nodes, no overrides, and the caches are as they were |
| ClusterNode.Cluster.SetKeyOverride | cluster/cluster.go:76-80 | exactly that override is added, and no cache changes |
| ClusterNode.Cluster.GetNodeForKey | cluster/cluster.go:83-106 | the first node with the ID the key's override names, if any node has it; else none exactly when the ring is empty, and otherwise the node of the ring's point nearest clockwise to the key's hash, the first among equals |
| ClusterNode.Cluster.Set | cluster/cluster.go:109-126 | only the routed node changes, as the coherence laws' client step says, and its outcome is reported |
| ClusterNode.Cluster.Get | cluster/cluster.go:129-135 | the result is what the routed node holds, and only that node changes |
| ClusterNode.Cluster.Delete | cluster/cluster.go:138-144 | only the routed node changes, and its outcome is reported |
| ClusterNode.Cluster.MigrateBetween | cluster/node.go:273-310 | the migration alone, without the override: the nodes and the report are those of the specified one |
| ClusterNode.Cluster.Rebalance | main_cluster.go:366-369 | migration and override, uninterrupted, are the migration MigrationKeeps is about |
| ClusterNode.Cluster.LeastUsedNode | cluster/cluster.go:243-254 | the first of the nodes with the least bytes used, and none when no node is below the largest 64-bit integer |
| ReuseDistance.NextDistances | ml_files/build_training_data.py:14-28 | the one backward pass gives each row the distance to the nearest strictly later GET of its key, or infinity when there is none |
| ReuseDistance.DistancesDetermined | ml_files/build_training_data.py:14-28 | the rows leave the pass no choice: there is one such array |
| ReuseDistance.OneMoreRow | ml_files/build_training_data.py:14-28 | appending a row changes exactly the infinite distances of its key, if it is a GET |
| ReuseDistance.BuildExamples | ml_files/build_training_data.py:30-54 | one example for each GET that hit, in order: its frequency counts the hits of the key up to it, its gap is the time since the latest earlier row that wrote or hit the key, or 0, its size that of the latest earlier write, or 0, its TTL and cache use the row's own, its distance the row's |
| ReuseDistance.ReadFiveLater | ml_files/build_training_data.py:33-52 | a key set at 100 and read at 105 gives one example, with gap 5 and frequency 1 |
| ReuseDistance.FeaturesAreCausal | ml_files/build_training_data.py:30-51 | the features of the rows up to any point are the same in all logs that agree up to that point |
| ReuseDistance.FrequencyCounts | ml_files/build_training_data.py:38-43 | the k-th example of a key has frequency k, so neither writes nor misses are counted |

## Left out

- HTTP, JSON and the Python prediction service: an answer is any transport error, bad status,
  undecodable body, reported error, or key, live or not.
- The store (BadgerDB) and snapshots: a store call succeeds or fails after the in-memory change; the
  in-memory state is never rebuilt from the store.
- Metrics, access logging, printing, callbacks, status endpoints, load simulation, signal handling
  and tickers.
- Wall-clock TTL: expiry is extra Delete operations at any time. The logged TTL is carried as an
  integer, in whole seconds; `Get` does not look at it, as in the program. Soundness of a cluster is
  about Sets and clients' Deletes: a key that expires while it is being migrated comes back.
- The package-level variables for the chosen victim are locals of each call; the race between nodes
  that the repository's own README lists is not part of the model.
- The ML worker's call to the service is not interleaved with a writer's: an `AskOp` or `WorkerOp`
  runs between writes, and the breaker laws assume one caller at a time. The worker's delete is
  covered at any later point as a `DeleteOp`.
- SetEnabled: whether the ML wrapper is enabled is fixed when it is made.
- Item is a value in the map rather than a pointer to a record, and its time stamps are left out.
- The lists of `container/list` are sequences of element handles: the order and the handles are
  kept, the links between elements are not.
- Mutexes are not objects. `writeMu` is held from start to end of every writer, and at each point
  where the read-write mutex is free the world says which Gets run and readers see the state.
- Floating point: the thresholds of 0.5 and 0.05 are exact (twice the bytes against the capacity,
  and the capacity over twenty), and a capacity of zero, where the program divides by it, is given
  the same comparison.
- Byte counts are unbounded integers and capacities are not negative; wrap-around at 64 bits and
  negative capacities are not modelled.
- A log write either reaches the file whole or not at all; a torn last line is `AnyPrefix`
  and `AfterTornLine`. Text is a sequence of characters, so the line limit counts characters.
- CRC-32 is any function to 32-bit values, and the library's sort is an insertion sort on a sequence.
- Hot-key replication: copies on a neighbour are not updated by later Sets, and coherence is about
  the cluster without them.
- DetectSkewedNodes and AdaptiveRebalance choose nodes by floating-point ratios. What they then do
  is up to five of the steps of `Rebalance`, which `RunCoherent` allows in any number.
- Within one client operation, and within one step of a migration, a cluster lets in only the Gets its
  nodes' worlds let in.
- In a run of the cluster any key may be migrated, whatever is hottest at that moment: a superset of
  what the program does, as its scan and its read are separate too. `MigrateIsSteps` and the methods
  are about the hottest key.
- Quantile labelling and model training are library calls.
- SetKeepsExactly: asks that no Get runs after the first pick of the proactive pass. With such Gets
  the outcome depends on their order against each later pick; LruKeepsRecentWrite,
  LruDropsOvertakenWrite and LfuDropsFreshWrite cover runs with them in one direction each.
- SetRejectedExactly: asks the same of the loop that makes room; so do EvictsItselfExactly and what is
  told before the call. For Gets at any point, SetFailsOnlyAfterTen covers one direction.
- LogAgreesOverRun: asks that log and cache agree at the start, as they do on a new node and on one
  that started in front of a light log (`StartedPlain`). A replay logs nothing, so one that evicts
  leaves keys in the log that are not live.
- Restart: its condition is on the live bytes after each log entry, as the program offers no promise
  once something is evicted; what holds then is `RecoverySound`. RestartKeeps asks the same of every
  node.
