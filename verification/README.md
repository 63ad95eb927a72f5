# Redis basics: instrumented cache and expiring page cache

This project models the decorator and cache logic of `0x02-redis_basic`. Two files make up
that logic.

- `exercise.py`: a `Cache` class whose `store` method saves data under a fresh uuid key.
  Two decorators instrument `store`:
  - `count_calls` increments `<qualname>:calls` before each call;
  - `call_history` appends `str(args)` to `<qualname>:inputs` before the call and
    `str(result)` to `<qualname>:outputs` after it.

  `get`, `get_str` and `get_int` read data back, with an optional conversion. `replay`
  pairs the two history lists into a numbered transcript.
- `web.py`: `get_page(url)`, decorated in this order:
  - `cache_with_expiration(10)` is outermost. It returns a truthy cached page under
    `cache:<url>`, and otherwise calls through and stores the result with SETEX.
  - `count_accesses` is inside it and increments `count:<url>`.

  Because of this order, only cache misses are counted.

The Redis database is an explicit value, `KeyValue.Store`, threaded through every call. It
has:
- strings, each with an optional expiry time;
- counters;
- lists;
- a clock that only moves when a caller advances it.

A decorated callable is an `Op`: it takes a store and an argument, and reports the commands
it issues, in order, and its result. Decorators are higher-order functions over `Op`s, so
`Cache.store` and `get_page` are built by the same composition the source uses.

- `uuid.uuid4()` becomes a key oracle, `keySource`. The only thing asked of it is what the
  code relies on: the key is not yet in use and has no colon.
- `requests.get` becomes an uninterpreted `fetch`. Each call of it is an `Invoke` event in
  the trace.

Files:
- `decimal.dfy`: `str(int)` and `int(str)` on ASCII decimals, and their round trip.
- `key_value.dfy`: the abstract Redis store, its commands and FLUSHDB.
- `exercise.dfy`: the two decorators, `Cache.__init__`, `store`, `get*` and `replay`.
- `web.dfy`: the two `web.py` decorators, `get_page`, and runs of requests over time.

The docstrings of `web.py` and its decorator order say different things, and the model
follows the code. The docstring of `count_accesses` (web.py:36) says it counts how often a
URL is accessed. The docstring of `get_page` (web.py:57-58) says its decorators track the
number of accesses. But `get_page` wears `cache_with_expiration(10)` outside
`count_accesses` (web.py:51-52), so a cache hit returns before the counter is reached and
`count:<url>` counts fetches, not accesses.
- `Web.CountTracksFetches` proves that, as written, the counter rises by the number of
  fetches. `Web.ThreeRequestsOneFetch` shows three quick requests counted once.
- `Web.CountOutsideTracksRequests` proves that the other order, counter outside, gives what
  the docstrings describe: one count per request, hits included.

## Model

| member | source | states |
|---|---|---|
| Exercise.KeysIdentifyMethod | 0x02-redis_basic/exercise.py:20-53 | The calls, inputs and outputs keys built from a qualified name determine the name. Distinct methods never share a counter or a list, and no inputs list is an outputs list. |
| Exercise.CountCallsCounts | 0x02-redis_basic/exercise.py:20-38 | For any wrapped method that does not write the counter itself, `count_calls` issues the INCR first. The method then runs on the incremented store, the counter rises by exactly one, and the method's result passes through unchanged. |
| Exercise.CallHistoryRecords | 0x02-redis_basic/exercise.py:52-73 | For any wrapped method that does not touch the history lists, `call_history` pushes `str(args)` to the inputs list before the method runs and `str(result)` to the outputs list after it. Each list grows by exactly that one element. |
| Exercise.StoreStep | 0x02-redis_basic/exercise.py:91-105 | The decorated `store` issues exactly four commands in this order: INCR the calls counter, push the printed argument tuple, SET the data under the new key, push the key. The key it returns was unused and has no colon. |
| Exercise.CacheStore | 0x02-redis_basic/exercise.py:91-105 | After one `store` call, the returned key holds the data and was not in use before. The calls counter is one higher, and the inputs and outputs lists have gained the printed argument and the key. No other string, counter or list changes. |
| Exercise.StoreHistoryStep | 0x02-redis_basic/exercise.py:91-93 | One `store` call advances `Cache.store:calls` by one. The inputs list gains the printed argument and the outputs list gains the returned key. |
| Exercise.StoreFrame | 0x02-redis_basic/exercise.py:91-105 | A `store` call leaves untouched every key that has no colon and is not the key it returned. |
| Exercise.GetWith | 0x02-redis_basic/exercise.py:107-123 | `get(key, fn)` is absent exactly when GET finds nothing, in which case `fn` is never applied. Otherwise it is `fn` of the stored value. |
| Exercise.Get | 0x02-redis_basic/exercise.py:118-123 | `get(key)` with no conversion returns exactly what GET finds: absent when no live string is stored, otherwise the stored value itself. |
| Exercise.GetStr | 0x02-redis_basic/exercise.py:125-135 | `get_str` is absent exactly when GET finds nothing, and otherwise returns the same text as `get`. |
| Exercise.GetInt | 0x02-redis_basic/exercise.py:137-147 | `get_int` is absent exactly when GET finds no live string under the key. Otherwise it is a ValueError exactly when the stored text is not a signed decimal numeral. |
| Exercise.StoreThenGet | 0x02-redis_basic/exercise.py:103-123 | The key `store` returns reads back, through `get`, exactly the text written for the data. Through `get(key, fn)` it reads back `fn` applied to that text, for any conversion `fn`. |
| Exercise.StoreThenGetTyped | 0x02-redis_basic/exercise.py:107-147 | A str saved by `store` reads back unchanged through `get_str`, and bytes through `get`. An int saved by `store` reads back as the same int through `get_int`. |
| Exercise.NewCache | 0x02-redis_basic/exercise.py:84-89 | `Cache()` flushes the database. Afterwards no key is in use, and every method's counter and history lists agree (all zero). |
| Exercise.StorePreservesLockstep | 0x02-redis_basic/exercise.py:91-93 | If a method's counter and its two history lengths agree before a `store` call, they still agree after it. |
| Exercise.StoreAllHistory | 0x02-redis_basic/exercise.py:91-105 | After n `store` calls, the counter has risen by n. The inputs list has gained the n printed arguments and the outputs list the n returned keys, in call order. |
| Exercise.StoreAllKeys | 0x02-redis_basic/exercise.py:103 | The keys returned by successive `store` calls are pairwise distinct and were all unused before the first call. |
| Exercise.StoreAllFrame | 0x02-redis_basic/exercise.py:103-104 | Successive `store` calls leave alone every key that has no colon and was not returned. |
| Exercise.StoreAllReadBack | 0x02-redis_basic/exercise.py:103-104 | After successive `store` calls, each returned key still reads back the data of its own call. Later calls never overwrite earlier data. |
| Exercise.HistoryAfterConstruction | 0x02-redis_basic/exercise.py:84-105 | Straight after `Cache()`, n `store` calls leave the counter at n, the inputs list equal to the printed arguments, and the outputs list equal to the returned keys. Counter and lists stay in lockstep. |
| Exercise.Replay | 0x02-redis_basic/exercise.py:149-165 | `replay` pairs the inputs and outputs lists by position and numbers the pairs from 1. The transcript is as long as the shorter list, so an absent history gives an empty transcript. |
| Exercise.ReplayAfterStores | 0x02-redis_basic/exercise.py:84-165 | After `Cache()` and n `store` calls, `replay(store)` shows exactly n calls. The keys are exactly those the `store` calls returned. Call i pairs the i-th printed argument with the i-th returned key, and that key reads back the i-th data. |
| Decimal.NatToDecimal | 0x02-redis_basic/exercise.py:104 | The decimal form of a natural number is a non-empty string of digits with no leading zero. |
| Decimal.IntToDecimal | 0x02-redis_basic/exercise.py:68 | The text `str(n)` writes for an int is non-empty and starts with a minus sign exactly when the int is negative. |
| Decimal.ParseInt | 0x02-redis_basic/exercise.py:147 | `int(text)` succeeds exactly on an optional sign followed by one or more digits. A negative result needs a leading minus. |
| Decimal.IntRoundTrip | 0x02-redis_basic/exercise.py:147 | Parsing the decimal text the client writes for an int gives back the same int. |
| KeyValue.Exec | 0x02-redis_basic/exercise.py:35 | A single Redis command changes nothing except the key it names, never removes a key and never moves the clock. |
| KeyValue.Flush | 0x02-redis_basic/exercise.py:89 | FLUSHDB leaves no key in use: every GET is absent, every counter reads 0 and every list is empty. |
| Web.UrlKeysDistinct | 0x02-redis_basic/web.py:24 | Distinct URLs never share a cache entry or an access counter, and no cache key is a count key. |
| Web.PageStep | 0x02-redis_basic/web.py:23-30 | For the order in the code, a truthy cached page issues no command and returns the page. A miss issues INCR, the fetch, and SETEX for 10 units, in that order, and returns the fetched page. With the counter outside, a hit still issues the INCR. |
| Web.GetPage | 0x02-redis_basic/web.py:23-30 | A hit returns the cached page and changes nothing. A miss fetches once, caches the page until now+10, adds one to `count:<url>` and returns the page. No other key changes. |
| Web.OtherUrlsUntouched | 0x02-redis_basic/web.py:24 | A request for one URL leaves every other URL's cache entry and counter unchanged. |
| Web.ExpiredEntryRefetched | 0x02-redis_basic/web.py:25-30 | An expired entry reads as absent, so the next request fetches again and caches the page for another full 10 units. |
| Web.Browse | 0x02-redis_basic/web.py:51-53 | A run of requests returns one page per request and advances the clock by the sum of the delays. |
| Web.StepCountsFetches | 0x02-redis_basic/web.py:45-48 | One request raises `count:<url>` by exactly the number of times it fetched `url`. |
| Web.CountTracksFetches | 0x02-redis_basic/web.py:51-52 | As `get_page` is decorated, over any run the access counter of a URL rises by exactly the number of times its page was fetched. |
| Web.CountOutsideTracksRequests | 0x02-redis_basic/web.py:34-49 | With `count_accesses` outermost instead, the counter rises by the number of requests for the URL, hits included. |
| Web.NoRefetchWithinTtl | 0x02-redis_basic/web.py:25-27 | While a non-empty page is cached and unexpired, no request fetches it, and every request for the URL gets the cached page. |
| Web.FetchAtMostOncePerWindow | 0x02-redis_basic/web.py:25-30 | For any run of requests, other URLs interleaved included, made within 10 units of the start, a non-empty page is fetched at most once. This holds even if a cached entry expires during the run. It is fetched exactly once if it is requested and no live, non-empty page for it was cached at the start. |
| Web.OneFetchPerWindow | 0x02-redis_basic/web.py:51-52 | Requests all for one URL that fall within 10 units of a first request that misses fetch the page once and count one access. Every request gets the fetched page. |
| Web.EmptyPageAlwaysRefetched | 0x02-redis_basic/web.py:26 | An empty page is falsy and never served from the cache, so every request for it fetches again. |
| Web.ThreeRequestsOneFetch | 0x02-redis_basic/web.py:51-52 | Three requests for one URL within a second, starting uncached: `get_page` fetches once and counts once. The reversed decorator order would count three. |

## Left out

- The Redis server and client, including connections and network errors. The database is a
  value passed in and returned.
- Redis's single keyspace. Strings, counters and lists live in separate maps, so WRONGTYPE
  errors, such as RPUSH to a string key, cannot arise. The code never uses one key for two
  types.
- Exercise.GetInt: the model's GET sees only strings, not counters. In Redis, INCR keeps a
  counter as a decimal string. So GET on `Cache.store:calls` returns the count, and
  `get_int("Cache.store:calls")` returns it as an int. In the model, `GetWith`, `Get`,
  `GetStr` and `GetInt` answer absent for a key that holds only a counter.
- KeyValue.Exec: INCR's 64-bit limit is not modelled. Redis answers an error past 2^63-1,
  but `Count` is an unbounded integer.
- The randomness of `uuid.uuid4()`. The model asks only that the key is unused and has no
  colon, and does not require the uuid text format.
- `requests.get` and `raise_for_status` (web.py:66-68). The fetch is an arbitrary function
  of the URL that always succeeds.
- Exceptions in general. A method that raises inside `call_history` would leave an input
  without an output, which breaks the lockstep between counter and lists. Every modelled
  call returns normally.
- Character encoding. A bytes value is modelled by its octets read as characters, so UTF-8
  decoding is the identity and `get_str` returns what `get` returns. A str and bytes with the
  same characters are stored alike, as the Redis client does for ASCII. The model therefore
  cannot show the UnicodeDecodeError that `get_str` raises on stored bytes that are not valid
  UTF-8, such as the value saved by `store(b'\xff')`.
- Floats passed to `store`, and `str(float)`. `Data` holds a str, bytes or an int only.
- Exercise.ArgsRepr: does not model Python's `repr` escaping in general. It omits quotes,
  backslashes, control characters such as a newline (printed as `\n`), and bytes of 0x7f and
  above (printed as `\xNN`). It also omits Python's switch to double quotes for a value that
  holds a single quote. Calls of `store` are positional only: a keyword call `store(data=...)`
  would record `"()"`, because only the positional `args` are printed (exercise.py:68).
- Decimal.ParseInt: accepts only an optional sign and ASCII digits, and does not model
  the whitespace, underscores and non-ASCII digits that `int()` also accepts.
- Wall-clock time. Expiry uses an integer clock that callers advance between requests. An
  entry set at time t with ttl d reads back at times t to t+d-1.
- SETEX rejecting a non-positive ttl. The only ttl used is 10.
- The printing in `replay`. The transcript records the number, input and output of each
  call, not the exact text layout.
- Concurrency and atomicity between clients, and the module-level `redis_client` of
  `web.py` sharing database 0 with `Cache`.
- The NoSQL exercises elsewhere in the repository. They are not part of this model.
