# Decorator examples, modelled in Dafny

The repository is four small, independent decorator examples. Each keeps some
in-memory state with a precise rule, and each is modelled here as its own module:

- `Cache` (cache.dfy) models `cache_decorator` in cache/cache.py. It memoizes a
  one-argument function in a global store. An entry is `{data, time}` and is used
  while it is strictly less than 10 clock units old. The class `Memoizer` holds the
  store and a count of `compute` calls, and `Fetch` is the wrapper. The pure
  functions `Step` and `Run` give the same behaviour as values, for lemmas that
  relate several fetches.
- `DelayDownload` (delay_download.dfy) models `delay_decorator` in
  delay_download/download.py. It is per-user exponential backoff over the global
  `user_delay` map. Each call waits the stored delay (0 by default) and stores
  `max(1, 2 * delay)`. The class `UserDelay` keeps a ghost per-user call count.
  Its invariant ties each stored delay to the closed form 0, 1, 2, 4, ...
- `Authd` (authd.dfy) models authd/authd.py. The login gate (`authd.wrapper`)
  guards `upvote` and `add_to_roster`, which act on the roster (`ROSTER`) and
  the authenticated set (`AUTHD_USER`). `view_roster` shows a stable sort by votes,
  highest first.
- `Lotto` (lotto.dfy) models `repeat(num_times)` in lotto/lotto.py. It calls the
  wrapped function `num_times` times and returns the results sorted ascending.
  `lotto_draw` does this with seven `randint(start, end)` draws.
- `Outcomes` (outcomes.dfy) holds the shared `Option` and `Result` types.

Randomness, input and the clock become parameters. The wrapped `get_weather` is the
oracle `compute(key, n)`, where `n` is the number of calls made before. It returns
`Ok(value)` or `Err(exception)`. The `randint` draws are the oracle `draw(i)`. The
typed credentials and names are method parameters. The clock is an integer.
`Fetch` takes two clock readings as parameters. `now` stands for the reading of the
freshness test at line 26, which is taken only when the key is present. `after`
stands for the reading at line 34, which is taken only on a miss, after `compute`
has returned; it is the one stored with the new entry. Only a stale entry uses both.
The wrapped function of `repeat` is an oracle `func(i)` that returns a value or
raises.

Two details of the code are easy to misread, and the model keeps both:
- The stored timestamp is the reading taken after `compute`, not the one used for
  the freshness test.
- The store's key set grows by `key` only when `compute` returns. If `compute`
  raises for an absent key, the key set is unchanged.

`kwargs.get("user_id")` is modelled as `Option<U>`. A call with no `user_id`
keyword uses the key `None`, even when the id is passed by position. All such calls
share one delay entry.

## Model

| member | source | states |
|---|---|---|
| `Cache.Memoizer.Fetch` | cache/cache.py:24-37 | A hit needs the key present and `now - time < 10`. It returns the stored data and changes neither the store nor the call count. Otherwise `compute` is called exactly once. Its value is stored as `{data, after}` and returned, overwriting any stale entry. A raised error leaves the store unchanged. No other key's entry changes. On success the key set is the old one plus `key`. With `now <= after`, the key's timestamp never decreases. |
| `Cache.Memoizer.constructor` | cache/cache.py:6 | The store starts empty and no `compute` call has been made. |
| `Cache.RefetchWithinTtlHits` | cache/cache.py:26-35 | After a successful miss, a refetch less than 10 units past the stored time returns the same value. The state is unchanged and `compute` is not called. |
| `Cache.RefetchAfterTtlRecomputes` | cache/cache.py:26-35 | An entry 10 or more units old is stale, because the comparison is strict. The refetch calls `compute` again and returns the new value. |
| `Cache.OtherKeyLeavesEntry` | cache/cache.py:26-35 | Fetching `a`, then `b`, then `a` within the window returns the first value for `a` without recomputing it. |
| `Cache.FailureIsNotCached` | cache/cache.py:31-35 | A failed `compute` writes nothing. A later fetch of the same key calls `compute` again. |
| `Cache.RunNeverForgets` | cache/cache.py:32-35 | Over any run of fetches, no key ever leaves the store. |
| `Cache.RunTimesNeverDecrease` | cache/cache.py:26-35 | Over a run where each fetch's second clock reading is not earlier than its first, no entry's timestamp decreases. |
| `Cache.RunCallsBounded` | cache/cache.py:26-31 | A run calls `compute` at most once per fetch. |
| `Cache.CounterScenario` | cache/cache.py:24-37 | Take a `compute` returning 1, 2, 3, ... on successive calls. Fetching "paris", refetching at once, then fetching after the window gives 1, 1, 2. |
| `DelayDownload.NextDelay` | delay_download/download.py:24 | The stored next delay is at least 1. It is twice the used delay when that was positive, and 1 otherwise. |
| `DelayDownload.DelayDoubles` | delay_download/download.py:21-24 | A fresh user's n-th call waits 0 when n = 1, and 2^(n-2) when n >= 2. |
| `DelayDownload.UserDelay.Call` | delay_download/download.py:19-28 | The delay used is the stored value, or 0 if none is stored. It equals the closed form for the user's call count. The user's entry becomes `max(1, 2 * delay)`, so it is at least 1. Other users' entries are untouched. The notice is printed exactly when the delay is positive. |
| `DelayDownload.UserDelay.constructor` | delay_download/download.py:4 | `user_delay` starts empty. |
| `Authd.AfterGate` | authd/authd.py:32-40 | The authenticated set never shrinks and gains at most `"admin"`. After the gate, `"admin"` is in the set exactly when the gate admitted the call. |
| `Authd.AuthenticationPersists` | authd/authd.py:32-42 | Once the gate has admitted a call, every later call is admitted whatever is typed, and leaves the set unchanged. |
| `Authd.App.Gate` | authd/authd.py:31-42 | With `"admin"` already authenticated, the gate admits without prompting and leaves the set unchanged. Otherwise it admits exactly when both typed credentials match, and then adds the username. On refusal both the set and the roster are unchanged. |
| `Authd.App.constructor` | authd/authd.py:4-14 | The initial roster is Alice 12, Tyler 9, Andrew 10, and nobody is authenticated. |
| `Authd.FirstMatch` | authd/authd.py:92-93 | Returns the first index whose lower-cased name equals the lower-cased input. It returns none exactly when no entry matches. |
| `Authd.Upvoted` | authd/authd.py:90-98 | The first match gets exactly one more vote. Every other entry and the length are unchanged. No match means no change. |
| `Authd.App.VoteFor` | authd/authd.py:90-98 | The in-place scan returns whether a match was found, and the roster becomes `Upvoted` of the old roster. |
| `Authd.App.Upvote` | authd/authd.py:82-98 | `upvote` behind the gate. It runs only if admitted, and otherwise leaves the roster as it was. |
| `Authd.App.AddToRoster` | authd/authd.py:100-108 | Behind the gate, it appends `{name, votes: 0}` and keeps the existing prefix. A refused call leaves the roster unchanged. |
| `Authd.ByVotes` | authd/authd.py:77 | The ordering is a permutation of the roster, with votes non-increasing. |
| `Authd.ByVotesStable` | authd/authd.py:77 | The sort is stable: entries with equal votes keep their roster order. |
| `Authd.App.ViewRoster` | authd/authd.py:71-77 | Returns the display order, a non-increasing permutation of the roster. The roster itself is not modified. |
| `Lotto.Sort` | lotto/lotto.py:23 | `sorted` returns an ascending permutation of its input, having the same length. |
| `Lotto.SortKeepsBounds` | lotto/lotto.py:23 | If every input lies in `[lo, hi]`, so does every element of the sorted list. |
| `Lotto.Repeat` | lotto/lotto.py:16-23 | Calls the wrapped function at most `num_times` times, and not at all when `num_times <= 0`. It returns a list exactly when none of those calls raises. The list has `num_times` elements, is ascending and, as a multiset, equals the values the calls produced. Otherwise it raises the first call's exception, right after that call, with every earlier call having returned. |
| `Lotto.RandInt` | lotto/lotto.py:42 | `randint(start, end)` raises exactly when the range is empty. |
| `Lotto.LottoDraw` | lotto/lotto.py:28-42 | With `start > end`, `randint` raises. Otherwise there are seven draws, returned ascending as a permutation of the draws. If every draw lies in `[start, end]`, so does every element of the result. |

## Left out

- timer/timer.py: it only does float arithmetic on `perf_counter`, rounds and prints.
- The interactive `menu` loop in authd/authd.py: it only reads an option and dispatches to the operations modelled above.
- `print` output: what a message reports is returned instead (found or not, admitted or not, notice or not). The message text is not modelled.
- `time.sleep`: the delay is returned, not waited for. `time.time()` is an integer parameter, not a float wall clock.
- `randint` and `uuid4`: draws and weather data come from oracles. The download URL and the wrapped `download`'s return value are not modelled; the wrapper passes that value through unchanged.
- Python's Unicode `str.lower()`: the model lower-cases ASCII letters only.
- `functools.wraps` metadata and the `*args`/`**kwargs` plumbing beyond the `user_id` lookup.
- Lotto.Repeat: results are integers and are compared as integers. The source's `repeat` and `sorted` accept any mutually comparable values.
- The global stores `cache` (cache/cache.py:6) and `user_delay` (delay_download/download.py:4) would be shared by every function decorated with the same decorator. Each `Memoizer` and each `UserDelay` owns its store instead. Each file decorates a single function, so the behaviour is the same.
- Concurrency: the source neither guards against nor uses it.
- Aliasing between `view_roster`'s sorted list and the roster's dicts: the model works on values, and only `upvote` changes a dict.
