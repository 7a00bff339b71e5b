# fluxcache core in Dafny

This is a verified model of the two-tier cache in `fluxcache`. The memory tier is a bounded key/value store with least-recently-used eviction. The durable tier is a Redis server reached through a client that retries every command except the SCAN pages, making at most three attempts. The FluxCache facade decides which tier each operation touches and in which order. A reconciliation sweep scans the remote keys and loads them into memory.

The parts are modelled as follows:

- **Memory tier** (`Cache`). `MemoryCache` is a class with the index (`store`) and the recency list (`order`, most recent first) as fields. Each method's new state is tied to a specification function on the abstract `CacheState`: `Put`, `Touch`, `Remove` and `Evict`. The invariant `Wf` says three things: the list has no duplicates, the list and the index hold the same keys, and the size is at most `max(capacity, 1)`. Lemmas describe single operations (eviction of the back, promotion, deletion) and series of Set calls (`PutMany`): the recency list formula, the value each key holds, residency when the keys fit, and idempotence.
- **Durable tier** (`Redis`). The server and the network are an oracle, the class `Server`:
  - `data` is a map from key to stored bytes;
  - `log` holds one entry per client call: each call of withRetry's function and each SCAN page. Attempts the network refuses are logged too. The client library's own resends are not modelled;
  - `links` is a fixed schedule of what the network does with attempt number i. An attempt is delivered, refused, or delivered with its reply lost.
  - `pages` is a fixed SCAN page table.

  Redis command semantics are the function `Execute`, with strict decimal parsing for INCRBY. `WithRetry` is the counted loop of `withRetry`, proved against the recursive specification `Retry`. `ScanKeys` is the cursor loop, proved against `ScanFrom`.
- **Values** (`Values`, `Decimal`). `encode` is a function over a closed tagged datatype. The base-10 text of integers is `FormatInt`, and the Redis parser `ParseInt` is proved to accept exactly its output.
- **Facade** (`Flux`). `FluxCache` has `Set`, `Get`, `IncrInt`, `SetProto`, `GetProto` and `Delete`. Each contract states the new memory state, the new remote data and the requests sent, for every outcome of the remote call.
- **Sweep** (`Syncer`). `SyncFromRedis` is the loop over the scanned keys, proved against `SweepSpec`. Lemmas cover a sweep over a healthy network: it loads exactly the stored keys, every scanned key that the server stores is resident when the scanned keys fit, and a second sweep changes nothing.

Two behaviours of the source follow from the model and are proved as lemmas:

- go-redis reports a GET of a missing key as an error, so `withRetry` asks three times before the miss is returned (`Redis.GetMissRetried`).
- A lost INCRBY reply makes the retry of withRetry apply the increment twice (`Redis.IncrByReplyLost`). This is the least number of applications: the client library may also resend a command within one call.

## Model

| member | source | states |
|---|---|---|
| Cache.Bound | internal/cache/memory.go:38-44 | The size bound is max(capacity, 1): the capacity when that is positive, and 1 otherwise, since eviction on an empty list does nothing and the insert still happens |
| Cache.Put | internal/cache/memory.go:28-45 | After Set(k, v) a lookup of k returns v; every other key still resident kept its old value and no key appears that was not there |
| Cache.Lookup | internal/cache/memory.go:51-55 | What Get returns: the stored value exactly when the key is in the index, nothing otherwise |
| Cache.Promote | internal/cache/memory.go:32-36 | MoveToFront keeps every value, puts the key first and keeps the same keys in the list |
| Cache.Touch | internal/cache/memory.go:47-56 | Get never changes a value; a hit puts the key first; a miss changes nothing; no key leaves the list |
| Cache.Unlink | internal/cache/memory.go:74-78 | removeElement takes the key out of the index and the list and leaves every other key's value and presence as they were |
| Cache.Evict | internal/cache/memory.go:67-72 | removeOldest does nothing on an empty list, and otherwise takes the back key out of both structures without changing any remaining value |
| Cache.Remove | internal/cache/memory.go:58-65 | After Delete the key is gone, every other key looks up as before, and an absent key changes nothing |
| Cache.MemoryCache.constructor | internal/cache/memory.go:20-26 | A new cache is empty, satisfies the invariant and keeps the configured capacity |
| Cache.MemoryCache.Set | internal/cache/memory.go:28-45 | Set keeps the invariant and its new state is Put of the old one |
| Cache.MemoryCache.Get | internal/cache/memory.go:47-56 | Get returns the stored value on a hit and None on a miss; a hit promotes the key to the front, a miss leaves the state as it was; the invariant is kept |
| Cache.MemoryCache.Delete | internal/cache/memory.go:58-65 | Delete keeps the invariant; a resident key is unlinked from index and list, an absent key changes nothing |
| Cache.MemoryCache.RemoveOldest | internal/cache/memory.go:67-72 | removeOldest unlinks the back of the list when there is one and does nothing on an empty list |
| Cache.MemoryCache.RemoveElement | internal/cache/memory.go:74-78 | removeElement deletes the key from the index and removes it from the list, keeping the invariant |
| Cache.UnlinkWf | internal/cache/memory.go:74-78 | Unlinking a key keeps the invariant |
| Cache.PromoteWf | internal/cache/memory.go:32-36 | Moving a resident key to the front keeps the invariant |
| Cache.EvictBack | internal/cache/memory.go:67-72 | Eviction drops exactly the last key of the list, from the index and from the list, and nothing else |
| Cache.PutWf | internal/cache/memory.go:28-45 | Set keeps the invariant, so the size never exceeds max(capacity, 1) |
| Cache.PutOrderNew | internal/cache/memory.go:38-44 | Set of a new key puts it in front of the list, which is then cut to the size bound |
| Cache.PutOrder | internal/cache/memory.go:28-45 | The list after Set is the key in front of the rest of the old list, cut to the size bound |
| Cache.PutResident | internal/cache/memory.go:32-36 | Set on a resident key replaces its value and moves it to the front; the other keys keep their relative order, the size stays the same and nothing is evicted |
| Cache.PutEvicts | internal/cache/memory.go:38-44 | Set on a new key when the cache is full removes exactly the back entry and puts the new key in front; the size stays the same |
| Cache.PutInserts | internal/cache/memory.go:38-44 | Set on a new key when there is room adds it in front and evicts nothing |
| Cache.PutWithoutCapacity | internal/cache/memory.go:38-44 | With a capacity of zero or less the cache holds exactly the entry of the latest Set |
| Cache.TouchHit | internal/cache/memory.go:51-54 | A Get hit returns the stored value and moves the key to the front; the other keys keep their relative order and every value is unchanged |
| Cache.TouchWf | internal/cache/memory.go:47-56 | Get keeps the invariant, hit or miss |
| Cache.RemoveAt | internal/cache/memory.go:58-65 | Delete of a resident key removes it from index and list; every other key keeps its value and the others keep their order |
| Cache.RemoveAbsent | internal/cache/memory.go:62-64 | Delete of an absent key changes nothing |
| Cache.PutManyWf | internal/cache/memory.go:28-45 | Any series of Set calls keeps the invariant |
| Cache.PutManyOrder | internal/cache/memory.go:28-45 | After a series of Set calls the list holds the distinct written keys, most recent first, then the old keys not written in their old order, cut to the size bound |
| Cache.PutManyValues | internal/cache/memory.go:28-45 | After a series of Set calls each resident key holds the value of its latest Set, or its old value if it was not written |
| Cache.PutManyResident | internal/cache/memory.go:28-56 | When the distinct keys written are no more than the capacity, each of them is then found by Get with the value of its latest Set |
| Cache.FreshCacheKeepsMostRecent | internal/cache/memory.go:38-44 | A cache that starts empty holds exactly the max(capacity, 1) most recently written keys, most recent first |
| Cache.PutManyOrderIdempotent | internal/cache/memory.go:32-36 | Replaying a series of Set calls leaves the recency list as the first run left it |
| Cache.PutManyIdempotent | internal/cache/memory.go:32-36 | Replaying a series of Set calls changes neither values nor order |
| Cache.EvictionFirstTwo | internal/cache/memory.go:38-44 | Two Sets of distinct keys into an empty cache of capacity 2 hold both keys, the second one in front |
| Cache.EvictionTrace | internal/cache/memory.go:28-56 | With capacity 2, the sequence Set a, Set b, Get a, Set c evicts b and keeps a and c, with c in front |
| Cache.EvictionExample | internal/cache/memory.go:28-56 | The same sequence on a MemoryCache, followed by Gets of c, b and a, returns 3, nothing and 1 |
| Decimal.Digits | pkg/fluxcache/fluxcache.go:60 | The base-10 digits of a number are a non-empty digit string with no leading zero unless the number is 0 |
| Decimal.ValueOfDigits | pkg/fluxcache/fluxcache.go:60 | Reading back the digits of n gives n |
| Decimal.DigitsOfValue | pkg/fluxcache/fluxcache.go:60 | Every canonical digit string is the digits of the number it denotes |
| Decimal.ParseOfFormat | pkg/fluxcache/fluxcache.go:59-62 | Parsing the decimal text of an integer gives back that integer |
| Decimal.FormatOfParse | pkg/fluxcache/fluxcache.go:59-62 | Any text the parser accepts is the decimal text of the number it parses to |
| Decimal.ParseFormat | pkg/fluxcache/fluxcache.go:59-62 | The parser returns i exactly for the decimal text of i, in both directions |
| Values.Encode | pkg/fluxcache/fluxcache.go:53-73 | encode fails exactly when the serialization fallback fails; integer encodings parse back as the integer |
| Values.Decode | pkg/fluxcache/fluxcache.go:53-73 | The reference reading of an encoding yields only values of the kind it is asked for |
| Values.DecodeEncode | pkg/fluxcache/fluxcache.go:53-73 | Whatever encode writes reads back as the value it came from: bytes and strings as themselves, integers in base 10, booleans as "1" and "0" |
| Values.EncodeDecode | pkg/fluxcache/fluxcache.go:53-73 | Every text that reads back as a value of a kind is exactly what encode writes for that value |
| Values.EncodeInjective | pkg/fluxcache/fluxcache.go:53-73 | Two values of the same kind with the same encoding are equal |
| Redis.Counter | internal/redis/redis.go:51 | The counter INCRBY starts from is 0 for a missing key, the parsed stored text when that is an int64, and none exactly when the stored text is not a decimal int64 |
| Redis.IncrStep | internal/redis/redis.go:51 | A successful INCRBY answers a number; a failed one changes no data |
| Redis.Execute | internal/redis/redis.go:23-59 | A delivered command answers the reply of its kind on success, and a failure changes no data; GET and SCAN never change data |
| Redis.Retry | internal/redis/redis.go:79-89 | The retry loop makes at most the attempts left and at least one, and stops early only on success |
| Redis.Serve | internal/redis/redis.go:82 | One go-redis call: the server executes the request unless the attempt is refused, and the reply arrives only over a healthy link; otherwise the attempt reports the link's error |
| Redis.WithRetrySpec | internal/redis/redis.go:79-89 | withRetry makes between one and three attempts, and a failure is returned only after all three |
| Redis.WithRetryLastError | internal/redis/redis.go:80-88 | Whatever the fault schedule, a failed withRetry returns the error of the third attempt and the data that attempt left |
| Redis.RetryLastError | internal/redis/redis.go:80-88 | For any fault schedule and any number of attempts left, a failed retry loop reports its last attempt's error and the data it left |
| Redis.ErrorOf | internal/redis/redis.go:23-27 | The error reported is nil exactly for a successful result and is its error otherwise |
| Redis.Server.constructor | internal/redis/redis.go:14-21 | A new server holds the given data, has received nothing, and executes commands by the Redis semantics |
| Redis.Server.Attempt | internal/redis/redis.go:82 | One call of the command is logged and served according to the link of its attempt number |
| Redis.RetryAfter | internal/redis/redis.go:81-85 | After one attempt the retry loop returns at once on success and otherwise continues with one attempt fewer and the error of this one |
| Redis.WithRetry | internal/redis/redis.go:79-89 | withRetry returns the outcome of the retry specification, with the data it leaves and exactly its number of attempts logged |
| Redis.RetryAnswers | internal/redis/redis.go:48-59 | Every successful reply of a retried command has the shape its command calls for |
| Redis.RetryAllRefused | internal/redis/redis.go:80-88 | When every attempt is refused, all of them are made and the error of the last one is returned; the data is unchanged |
| Redis.RetryHealthy | internal/redis/redis.go:79-89 | Over a network that delivers every attempt, a success is returned after one attempt and a failure is repeated until the attempts run out |
| Redis.RetryGet | internal/redis/redis.go:29-40 | A retried GET changes no data; success returns the stored bytes, failure is a miss or an unavailable server |
| Redis.GetMissRetried | internal/redis/redis.go:29-40 | A GET of a missing key over a healthy network takes all three attempts and returns the miss |
| Redis.IncrByAdds | internal/redis/redis.go:48-59 | A delivered INCRBY within range answers the sum and stores text that reads back as the new counter |
| Redis.RetryReplyLost | internal/redis/redis.go:79-89 | A command whose first reply is lost and whose second attempt succeeds is executed twice |
| Redis.IncrByTwice | internal/redis/redis.go:48-59 | Two deliveries of the same INCRBY add the increment twice |
| Redis.IncrByReplyLost | internal/redis/redis.go:48-59 | A retried INCRBY whose first reply is lost applies the increment twice and returns the doubled sum after two attempts |
| Redis.ScanFrom | internal/redis/redis.go:61-77 | A SCAN iteration always sends at least one request, the first one at the starting cursor |
| Redis.ScanAfter | internal/redis/redis.go:64-75 | One page changes no data; a failed page ends the iteration with its error, discarding the keys; a page with cursor 0 ends it with the batches; otherwise it goes on from the new cursor |
| Redis.ScanChain | internal/redis/redis.go:61-77 | The requests follow the cursor chain; the iteration fails exactly when its last attempt did not get through, with that attempt's error, and otherwise stops at the first page with cursor 0 |
| Redis.ScanCollects | internal/redis/redis.go:71 | A successful iteration returns the batches of all pages requested, in page order |
| Redis.ScanHealthy | internal/redis/redis.go:61-77 | Over a network that delivers every page the iteration returns the keys of the whole cursor chain |
| Redis.RedisClient.constructor | internal/redis/redis.go:14-21 | The client talks to the given server |
| Redis.RedisClient.Set | internal/redis/redis.go:23-27 | SET is retried; the error is the retried outcome's and the data and log are what the retries leave |
| Redis.RedisClient.Get | internal/redis/redis.go:29-40 | GET returns the bytes of the successful attempt or the last error; it never changes data, success means the key is stored with those bytes, failure is a miss or unavailable |
| Redis.RedisClient.Delete | internal/redis/redis.go:42-46 | DEL is retried; the error is the retried outcome's and the data and log are what the retries leave |
| Redis.RedisClient.IncrBy | internal/redis/redis.go:48-59 | INCRBY returns the number of the successful attempt or the last error, with the data and log the retries leave |
| Redis.RedisClient.ScanKeys | internal/redis/redis.go:61-77 | ScanKeys returns the SCAN iteration's outcome from cursor 0, changes no data and logs exactly the pages requested |
| Redis.RetryRecovers | internal/redis/redis.go:79-89 | Two refused connections then a delivered one: SET succeeds on the third attempt and the value is stored |
| Redis.RetryGivesUp | internal/redis/redis.go:79-89 | Three refused connections: GET gives up after three attempts with the third error |
| Flux.FluxCache.constructor | pkg/fluxcache/fluxcache.go:32-36 | The facade holds the given memory tier and client |
| Flux.FluxCache.Set | pkg/fluxcache/fluxcache.go:76-90 | The value goes into memory first, whatever follows; an encode failure returns its error and never reaches the remote; otherwise the encoding is written with retries and the remote error is returned |
| Flux.FluxCache.Get | pkg/fluxcache/fluxcache.go:93-113 | A memory hit is returned without any remote request; on a miss a remote success stores the raw bytes in memory and returns them, a remote failure returns the error and leaves memory unchanged |
| Flux.FluxCache.IncrInt | pkg/fluxcache/fluxcache.go:115-124 | The remote counter is incremented first; on failure the error is returned and memory is unchanged, on success memory holds the new integer |
| Flux.FluxCache.SetProto | pkg/fluxcache/fluxcache.go:127-134 | A failed marshal touches neither tier; a successful one is a Set of the marshalled bytes |
| Flux.FluxCache.GetProto | pkg/fluxcache/fluxcache.go:137-150 | The payload is the bytes Get returns; the not-bytes error arises exactly from a memory hit on a value not stored as bytes |
| Flux.FluxCache.Delete | pkg/fluxcache/fluxcache.go:153-164 | The key leaves memory whatever the remote answers, and the remote error is returned |
| Flux.CounterOfEncoded | pkg/fluxcache/fluxcache.go:115-124 | After Set of an Int, INCRBY counts from that integer; a Bool counts from 0 or 1; a Uint above the int64 range is not a counter |
| Syncer.FetchStep | internal/syncer/syncer.go:16 | One more retried GET adds exactly one reply |
| Syncer.FetchAll | internal/syncer/syncer.go:15-19 | The retried GETs of the sweep give one reply per scanned key |
| Syncer.FetchSends | internal/syncer/syncer.go:15-19 | Every attempt the fetches send is a GET of one of the scanned keys |
| Syncer.FetchNext | internal/syncer/syncer.go:15-20 | Fetching one more key extends the replies, data and attempts by that key's retried GET, and the Set calls by its entry |
| Syncer.Entry | internal/syncer/syncer.go:16-20 | A fetched key gives one Set call, of that key and the exact bytes its GET returned, when the GET answered, and none otherwise |
| Syncer.Loaded | internal/syncer/syncer.go:15-21 | The sweep makes at most one Set call per scanned key, each of a scanned key and raw bytes |
| Syncer.Positions | internal/syncer/syncer.go:15-19 | The positions of the answered GETs: increasing, each one answered, and every answered position included |
| Syncer.LoadedAt | internal/syncer/syncer.go:15-21 | The Set calls are exactly one per answered GET, in scan order, each of that position's key and the bytes its GET returned |
| Syncer.SweepAfter | internal/syncer/syncer.go:11-21 | After a failed scan nothing changes in memory or data and only the scan was sent; otherwise the scan's requests come first |
| Syncer.SweepAfterSends | internal/syncer/syncer.go:11-21 | After a successful scan, every request the sweep sends after the scan's own is a GET of a scanned key |
| Syncer.SweepSpec | internal/syncer/syncer.go:10-22 | A sweep always starts with a SCAN at cursor 0, and one whose scan fails leaves memory and data as they were |
| Syncer.SyncFromRedis | internal/syncer/syncer.go:10-22 | A failed scan changes no memory; otherwise a key whose GET fails is skipped and each fetched value is set in memory as raw bytes, in scan order; memory, data and log are those of the sweep specification |
| Syncer.FetchHealthy | internal/syncer/syncer.go:15-19 | Over a healthy network the GETs change no data and each reports exactly what the server holds for its key |
| Syncer.LoadedPresent | internal/syncer/syncer.go:15-21 | When each GET reports the stored bytes or a miss, the Set calls are the stored keys among the scanned ones with their bytes |
| Syncer.PresentEntries | internal/syncer/syncer.go:15-21 | Every Set call of a healthy sweep is a scanned, stored key with its bytes, and every scanned stored key has one |
| Syncer.SweepHealthy | internal/syncer/syncer.go:10-22 | A sweep over a healthy network sets exactly the stored keys among those scanned, in scan order, and leaves the data as it was |
| Syncer.SweepAfterHealthy | internal/syncer/syncer.go:15-21 | When the scan found its keys and the network is healthy, the fetch-and-load part of the sweep sets exactly the stored keys among them with their bytes and leaves the data as it was |
| Syncer.PresentResident | internal/syncer/syncer.go:15-21 | Setting the stored keys among at most capacity distinct keys leaves each of them in memory with its bytes |
| Syncer.SweepLoadsStored | internal/syncer/syncer.go:15-21 | After a healthy sweep over at most capacity distinct keys, every scanned key the server stores is in memory with the server's bytes |
| Syncer.SweepTwice | internal/syncer/syncer.go:10-22 | Over a healthy network a second sweep leaves memory, keys, values and order, and the data as the first left them |

## Left out

- Locking with `sync.RWMutex`: each operation is modelled as atomic. Concurrency is outside the model.
- `PeriodicSync` is left out because it is a ticker loop in a goroutine with context cancellation. The `SyncAtStart` and periodic-sync wiring in `NewFluxCache` is left out with it.
- The `time.Sleep` backoff in `withRetry` is left out: only attempt counts are modelled, never elapsed time.
- `InjectRedisOutage` is not modelled: it swaps the client on a timer. A period of outage can be expressed as refused links in the fault schedule.
- All zerolog logging calls are dropped.
- Redis.Server.Attempt: the go-redis client's own per-call retries are not modelled. `NewRedisClient` keeps the library's default retry setting, so one call of withRetry's function may send its command more than once. `log` counts those calls, not wire requests. Redis.IncrByReplyLost gives the least number of times a retried INCRBY is applied.
- The real go-redis client and the network are left out. They are the oracle `Server`:
  - a per-attempt fault schedule that is delivered after its end;
  - Redis command semantics as the function `Execute`.
- SCAN pages come from a fixed table indexed by cursor and pattern, independent of the data. The count hint of 100 only shapes the pages and is not modelled.
- Redis.RedisClient.ScanKeys requires the cursor chain to reach 0 within the server's `depth` pages (`Ends`). A server whose chain never ends would keep the Go loop running forever, and that case is not modelled.
- `encode` has two branches that are not modelled:
  - The float branch (`FormatFloat`) is out because it is floating-point formatting.
  - The `json.Marshal` fallback is a foreign library. The `Other` case carries its outcome as data.
- Values.Value, Flux.FluxCache.Set, Flux.FluxCache.Get, Syncer.SyncFromRedis: Go slices and objects are shared, not copied, and the model does not capture this aliasing:
  - `Set` stores the caller's slice in memory, and `encode` returns that same slice.
  - `Get` and the sweep store in memory the slice the remote call returned, and `Get` hands that slice to its caller.
  - So in Go a caller who mutates such a slice changes what later memory hits return. Here `Bytes` and `Str` hold immutable byte sequences.
  - For any other type the memory tier holds the Go object itself, but the model keeps only its serialization outcome in `Other`. Two distinct objects with the same serialization are therefore one value here.
- Go's narrower integer types fold into `Int` and `Uint`.
- A Go string is modelled by its bytes, because strings and `[]byte` encode alike.
- The gzip and protobuf helpers in `internal/protohelper/protohelper.go` are left out:
  - `SetProto` takes the outcome of marshalling as a parameter;
  - `GetProto` stops at the bytes that would be handed to unmarshalling.
- `pkg/fluxcache/options.go` is a configuration struct with no logic.
- `NewFluxCache` is the facade's constructor, given its two tiers.
- `NewRedisClient`'s connection options are not modelled.
- `internal/syncer/syncer.go` imports the cache and redis packages under a different module path than the rest of the repository. The model ignores this; it is a build matter, not behaviour.
- Syncer.SweepLoadsStored: stated for a network that delivers every attempt, not for every run in which each fetch happens to succeed. A fetch that succeeds only after retries over a faulty network is covered by Syncer.SyncFromRedis and the sweep specification, not by this lemma.
- Syncer.SweepTwice: stated for a network that delivers every attempt, matching "no failures". Runs with faults are not compared.
