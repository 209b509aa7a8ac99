# Bot traffic simulator — Dafny model

This project models the deterministic core of `scripts/bot_simulator.py`, a
tool that sends HTTP GET requests to a target URL, each carrying a
User-Agent string typical of some bot category (search engines, scraping
frameworks, HTTP libraries, AI crawlers, monitoring probes, social-media
preview bots, SEO tools, browsers, malicious clients), and summarises how the
target answered.

The model covers five pieces:

1. **Profile pool** (`Pool`): the requested category names become a flat
   sequence of (category, User-Agent) profiles taken from the category table
   (`Catalog.BotUserAgents`). Unknown names are skipped and a repeated name
   contributes its profiles again. `PoolOf` is the functional definition and
   `BuildPool` is the source's nested loop, proved equal to it.
2. **Request construction** (`Request`): the URL is the base with its
   trailing slashes stripped, followed by one of the endpoint paths. The
   header map is empty for an empty User-Agent and otherwise holds exactly
   one `User-Agent` entry with the full string. The User-Agent stored in the
   record is cut to 50 characters plus `"..."` when it is longer than 50.
3. **Outcome records** (`Request.Record`, `Request.MakeRequest`): a success
   record carries the response status, `elapsed_ms` and no error. A failure
   record carries status 0, an error and no `elapsed_ms`.
4. **Result assembly** (`Simulation`): requests 0 to count-1 are issued,
   and their records come back in request-number order, as `asyncio.gather`
   returns them. An empty pool yields an empty result without any request.
5. **Summary tallies** (`Summary`, `Tally`): the successful and failed
   counts, the per-category and per-status counters, and the average latency
   over the successful records.

Randomness and the network are parameters. For request `i`, `draws[i]`
(a `Simulation.Draw`) gives the index of the profile picked from the pool,
the index of the endpoint picked from `Catalog.Endpoints`, and the
transport's answer (`Request.Reply`: `Response(status, elapsedMs)` or
`TransportError(message)`). The dispatcher functions take the category table
as a parameter `table`. The source always uses its global table, which is
`Catalog.BotUserAgents`, and `Simulation.SimulateNoKnownCategory` is stated
for that table. Python dictionaries used as counters are modelled as
insertion-ordered lists of (key, count) entries (`Tally.Counter`). `Bump`
mirrors `d[k] = d.get(k, 0) + 1`.

Behaviour of the code worth knowing, which the model follows:

- An empty pool makes the run return an empty list after printing a notice.
  It raises no error.
- A negative `count` gives an empty result through `range(count)`. It is not
  rejected.
- Results are in request-number order, not completion order, because
  `asyncio.gather` keeps task order.
- The error text of a failure is whatever the exception's `str` gives. This
  can be empty, for example for a timeout. So the model does not promise a
  non-empty error message.

## Model

| member | source | states |
|---|---|---|
| Catalog.BotUserAgents | scripts/bot_simulator.py:16-86 | the category table: the nine categories with their User-Agent strings, in the source's order |
| Catalog.Endpoints | scripts/bot_simulator.py:88 | the six endpoint paths, in the source's order |
| Catalog.LookupIn | scripts/bot_simulator.py:146-147 | definition of the membership test and lookup of a category name in the table (first entry with that name); what it returns is stated by `Catalog.LookupInSpec` |
| Catalog.LookupInSpec | scripts/bot_simulator.py:146-147 | a dictionary lookup finds a list exactly when some table entry has that name, and the list it returns is that entry's list |
| Catalog.IsKnownIn | scripts/bot_simulator.py:146 | definition of the membership test `category in BOT_USER_AGENTS`: the lookup finds the name; by `Catalog.LookupInSpec` this holds exactly when some table entry carries that name |
| Catalog.KnownCategoryNonEmpty | scripts/bot_simulator.py:16-86 | in a table with no empty category, a known name yields a non-empty User-Agent list |
| Catalog.BotUserAgentsNoEmptyCategory | scripts/bot_simulator.py:16-86 | every category of the simulator's table lists at least one User-Agent (the empty User-Agent of `malicious` counts as one) |
| Catalog.BotUserAgentsDistinctNames | scripts/bot_simulator.py:16-86 | the category names of the simulator's table are pairwise distinct, as the keys of a dictionary are, so the first entry with a name is the only one |
| Catalog.EndpointsStartWithSlash | scripts/bot_simulator.py:88 | every endpoint path is non-empty and starts with `/` |
| Request.RStrip | scripts/bot_simulator.py:99 | `rstrip('/')` yields a prefix of the input that does not end in `/`, and everything it removed is `/` |
| Request.RStripUnique | scripts/bot_simulator.py:99 | any prefix with those three properties is the result of `rstrip`, so they characterise it |
| Request.RStripIdempotent | scripts/bot_simulator.py:99 | stripping an already stripped URL changes nothing |
| Request.RStripTrailing | scripts/bot_simulator.py:99 | any number of extra trailing slashes on the base URL make no difference |
| Request.JoinUrl | scripts/bot_simulator.py:99 | definition of the full URL: the stripped base followed by the endpoint; its shape is stated by `Request.JoinUrlShape` |
| Request.JoinUrlShape | scripts/bot_simulator.py:88-99 | the full URL ends with the chosen endpoint, has a single `/` at the junction, and the part before the endpoint is the base URL with only slashes removed |
| Request.Headers | scripts/bot_simulator.py:101 | the `User-Agent` header is present iff the User-Agent is non-empty, it is the only possible key, and it holds the full untruncated string |
| Request.DisplayUserAgent | scripts/bot_simulator.py:112-114 | a User-Agent of at most 50 characters is shown unchanged; a longer one as its first 50 characters followed by `...`, 53 characters in all |
| Request.DisplayUserAgentBounds | scripts/bot_simulator.py:125-127 | the shown string has at most 53 characters and always begins with the original's first (up to) 50 characters |
| Request.DisplayUserAgentIdempotent | scripts/bot_simulator.py:112-114 | truncating an already shown User-Agent gives it back unchanged |
| Request.DisplayUserAgentForgetsTail | scripts/bot_simulator.py:112-114 | two long User-Agents that share their first 50 characters are shown identically |
| Request.SuccessShape | scripts/bot_simulator.py:107-118 | definition of the success record: `success` is true, `elapsed_ms` is present and there is no `error` key |
| Request.FailureShape | scripts/bot_simulator.py:120-131 | definition of the failure record: `success` is false, `status` is 0, `error` is present and there is no `elapsed_ms` key |
| Request.WellFormed | scripts/bot_simulator.py:107-131 | definition of a well-formed record: it has one of the two shapes; `Request.ShapesExclusive` shows it cannot have both and `Request.MakeRequest` ensures every record it builds is well formed |
| Request.ShapesExclusive | scripts/bot_simulator.py:107-131 | no record has both the success shape and the failure shape |
| Request.MakeRequest | scripts/bot_simulator.py:91-131 | the request goes to the joined URL with the header map above; the record keeps request id, URL and category, shows the truncated User-Agent, is success-shaped with the response's status and elapsed time iff a response arrived, and is failure-shaped with status 0 and the error text otherwise |
| Pool.ProfilesOf | scripts/bot_simulator.py:146-148 | definition of the profiles one requested name contributes, in table order; its contents are stated by `Pool.ProfilesOfMembership` |
| Pool.ProfilesOfMembership | scripts/bot_simulator.py:146-148 | a requested name contributes exactly the profiles (name, ua) for the ua listed under it, and nothing when it is not a key |
| Pool.PoolOf | scripts/bot_simulator.py:144-148 | definition of the pool: the profiles of each requested name, in request order; its properties are stated by `Pool.PoolOfAppend`, `Pool.PoolMembership`, `Pool.PoolEmptyIff` and `Pool.PoolIgnoresUnknown`, and `Pool.BuildPool` proves the source's loop equal to it |
| Pool.PoolOfAppend | scripts/bot_simulator.py:144-148 | the pool of a concatenated request is the concatenation of the pools, so a repeated name contributes again and order follows the request |
| Pool.PoolMembership | scripts/bot_simulator.py:144-148 | a profile is in the pool iff its category was requested, is a key of the table, and lists its User-Agent |
| Pool.PoolEmptyIff | scripts/bot_simulator.py:144-152 | for a table with no empty category, which the simulator's table is (`Catalog.BotUserAgentsNoEmptyCategory`), the pool is empty iff none of the requested names is a key of the table |
| Pool.KnownOnly | scripts/bot_simulator.py:145-146 | the filtered request holds exactly the requested names that are keys of the table |
| Pool.PoolIgnoresUnknown | scripts/bot_simulator.py:144-148 | removing the unknown names from the request leaves the pool unchanged |
| Pool.BuildPool | scripts/bot_simulator.py:144-148 | the nested loop builds exactly the pool `PoolOf` defines |
| Simulation.Iterations | scripts/bot_simulator.py:164 | definition of the number of requests `range(count)` yields: `count`, or 0 when `count` is negative |
| Simulation.BoundedRequest | scripts/bot_simulator.py:154-160 | the record of one request carries its request id, is well formed, uses the drawn profile's category and displayed User-Agent and the drawn endpoint, and succeeds iff the transport answered |
| Simulation.Simulate | scripts/bot_simulator.py:141-167 | a run yields no records for an empty pool and `max(count, 0)` records otherwise; record `i` has request id `i` and is well formed |
| Simulation.SimulateNoKnownCategory | scripts/bot_simulator.py:150-152 | with the simulator's table, if no requested name is a key, the run returns the empty list whatever the other arguments |
| Simulation.SimulateIdsDense | scripts/bot_simulator.py:164-165 | the request ids of a run are exactly 0 to count-1, each held by one record |
| Simulation.SimulateProfilesFromPool | scripts/bot_simulator.py:156-157 | every record's category was requested and is a key, and its shown User-Agent is the truncation of one listed under that category |
| Simulation.SimulateReplies | scripts/bot_simulator.py:157 | record `i` succeeded iff the transport answered request `i`; then it carries that answer's status and elapsed time, otherwise status 0 and the error text |
| Simulation.RunBotSimulation | scripts/bot_simulator.py:134-167 | the source's loop (build the pool, return early when empty, gather the requests in order) yields exactly the records `Simulate` defines |
| Tally.Get | scripts/bot_simulator.py:188 | definition of reading a key's count with a default of 0; its values are stated by `Tally.BumpGet` and `Tally.CountGet` |
| Tally.ValidDistinct | scripts/bot_simulator.py:183-191 | a valid counter has pairwise distinct keys, like a dictionary |
| Tally.Bump | scripts/bot_simulator.py:188 | definition of one dictionary increment: an existing key's count goes up in place, a new key is appended with count 1; its effect is stated by `Tally.BumpGet`, `Tally.BumpTotal` and `Tally.BumpKeys` |
| Tally.BumpGet | scripts/bot_simulator.py:188 | `d[k] = d.get(k, 0) + 1` raises the count of `k` by one and leaves every other count unchanged |
| Tally.BumpTotal | scripts/bot_simulator.py:188 | one increment raises the sum of all counts by exactly one |
| Tally.BumpKeys | scripts/bot_simulator.py:188 | an increment adds its key to the key set and keeps keys distinct and counts positive |
| Tally.Count | scripts/bot_simulator.py:186-191 | definition of the counter built by incrementing once per key, left to right; its contents are stated by `Tally.CountTotal`, `Tally.CountGet` and `Tally.CountKeys` |
| Tally.CountTotal | scripts/bot_simulator.py:183-191 | the counts of a counter built from a key sequence add up to the sequence's length |
| Tally.CountGet | scripts/bot_simulator.py:183-191 | each key's count equals its number of occurrences in the sequence |
| Tally.CountKeys | scripts/bot_simulator.py:183-191 | the counter is valid and its keys are exactly the values occurring in the sequence |
| Tally.CountConstant | scripts/bot_simulator.py:190-191 | `n > 0` copies of one key give a counter with the single entry (key, n) |
| Summary.CountSuccessful | scripts/bot_simulator.py:176 | definition of the successful count: one per record whose `success` is true; its meaning is stated by `Summary.AllSuccessfulIff`, `Summary.NoneSuccessfulIff` and `Summary.SuccessFailedSplit` |
| Summary.CountFailed | scripts/bot_simulator.py:177 | an independent count of the records whose `success` is false, which `Summary.SuccessFailedSplit` and `Summary.Summarize` prove equal to total minus successful |
| Summary.Categories | scripts/bot_simulator.py:186-187 | definition of the category read of each record, in record order; every record built by `Request.MakeRequest` has a `category` key, so the default `"unknown"` never applies |
| Summary.Statuses | scripts/bot_simulator.py:190 | definition of the status read of each record, in record order; every record has a `status` key (0 on failure), so the default 0 never applies |
| Summary.SuccessFailedSplit | scripts/bot_simulator.py:175-177 | the successful count plus the directly counted failures equals the number of records |
| Summary.AllSuccessfulIff | scripts/bot_simulator.py:176 | the successful count equals the number of records iff every record succeeded |
| Summary.NoneSuccessfulIff | scripts/bot_simulator.py:176 | the successful count is zero iff no record succeeded |
| Summary.ElapsedOrZero | scripts/bot_simulator.py:205 | definition of a record's elapsed time, read as 0 when absent |
| Summary.LatencySamples | scripts/bot_simulator.py:205 | definition of the latency samples: the elapsed times of the successful records, in record order; pinned down by `Summary.LatencySamplesFromSuccesses` and `Summary.LatencySamplesAppend` |
| Summary.LatencySamplesFromSuccesses | scripts/bot_simulator.py:205 | there are as many samples as successful records; every sample is the elapsed time of a successful record, and every successful record's elapsed time is among the samples |
| Summary.LatencySamplesAppend | scripts/bot_simulator.py:205 | the samples of two consecutive record lists are the concatenation of their samples, so each successful record contributes exactly its own sample, in order |
| Summary.SumReal | scripts/bot_simulator.py:207 | definition of the sum of the latency samples; bounded by `Summary.SumRealBounds` |
| Summary.SumRealBounds | scripts/bot_simulator.py:207 | a sum of `n` values that each lie in `[lo, hi]` lies between `n * lo` and `n * hi` |
| Summary.AverageLatency | scripts/bot_simulator.py:204-207 | an average is reported iff there is a latency sample (one per successful record, see above), and then it times the number of samples equals their sum |
| Summary.AverageLatencyBounds | scripts/bot_simulator.py:205-207 | the average lies between any lower and upper bound of the latency samples |
| Summary.Summarize | scripts/bot_simulator.py:175-208 | total is the number of records; successful + failed = total, with failed the number of failure records; the per-category and per-status counters each sum to the total, hold each value's number of occurrences, and have as keys exactly the values that occur; an average is present iff some record succeeded, and it is the average of the latency samples (`Summary.AverageLatency`) |
| Summary.UniformResponseSummary | scripts/bot_simulator.py:175-191 | when all records succeeded with one status, the successful count is the length, failed is 0, the status counter is the single entry (status, n) and an average is reported |
| Summary.AllFailedSummary | scripts/bot_simulator.py:175-207 | when all records failed with status 0, failed is the length, the status counter is the single entry (0, n) and no average is reported |
| Summary.AllRespondSummary | scripts/bot_simulator.py:105-118 | when the transport answers every request with one status, even a non-2xx one, all records count as successful and the status counter is the single entry (status, count) |
| Summary.AllFailSummary | scripts/bot_simulator.py:119-131 | when every request fails in transport, all records count as failed, the status counter is the single entry (0, count), and no average is reported |

## Left out

- The aiohttp session, its connector with `limit=concurrency`, the GET itself, the 10-second timeout and the exception capture (scripts/bot_simulator.py:105, 162-163) are network I/O. The transport's answer is the `Reply` part of each draw.
- The `asyncio.Semaphore` that bounds concurrent requests (scripts/bot_simulator.py:142, 155) is about concurrency. It does not change any record, so it is not modelled. A non-positive concurrency is therefore not treated either: `Semaphore(0)` would block every task forever, and a negative value would raise.
- The jittered `asyncio.sleep` pacing with `random.uniform` (scripts/bot_simulator.py:158-159) is about timing and floats.
- The `time.time()` measurement and `round(..., 2)` of `elapsed_ms` (scripts/bot_simulator.py:103, 106, 116) are a clock and floats. The elapsed time is an opaque value given by the transport's answer.
- Headers the HTTP client adds on its own are not modelled. For example, aiohttp sends a default User-Agent when none is passed. The model states only the header map handed to the client (scripts/bot_simulator.py:101, 105).
- The `datetime.utcnow()` timestamps (scripts/bot_simulator.py:109, 122) read the clock. The record has no timestamp field.
- The unseeded `random.choice` calls (scripts/bot_simulator.py:98, 156) are replaced by the index oracles in `Draw`. These are required to be in range.
- Summary.AverageLatency: the division uses exact real arithmetic, not Python floats, so float rounding of the sum and quotient is not modelled.
- Summary.AverageLatencyBounds: the bound holds for the exact-real average. With Python floats the computed mean can lie one rounding step outside the smallest or largest sample; for example, three samples of 0.1 average to 0.10000000000000002.
- The console output of `print_summary` is not modelled. This covers the sorted listing of the counters, the status-name table and the formatting (scripts/bot_simulator.py:171-173, 179-181, 193-202, 208-210). So is the "No valid categories" notice (scripts/bot_simulator.py:151).
- The argparse command line, verbose listing and JSON file output in `main` (scripts/bot_simulator.py:213-316) are I/O and formatting.
- lib/cloudfront-stack.ts, lib/waf-stack.ts and bin/app.ts are declarative infrastructure definitions over a library that is not part of this model. They have no algorithmic behaviour.
