# A verified model of the private LLM gateway

The gateway sits between tenants and model backends. For every request it finds out who asks, decides which backend
serves it, holds the tenant to its quota, redacts the body if the policy says so, forwards it and counts it. This
project models those decisions in Dafny and proves what they guarantee over every input, every run and every
interleaving. `dafny verify dfyconfig.toml` checks all of it.

| files | what they model |
|---|---|
| `RateLimit`, `RateLimitHistory`, `RateLimitOptimality`, `RateLimitWaste` | the two sliding windows per tenant; a reference that keeps the whole history; which limits admit as much as possible |
| `RateLimitThreads`, `RateLimitRaces`, `RateLimitRaceRuns`, `RateLimitAllowRaces`, `RateLimitAlone` | handlers interleaving without a lock: on one deque, how long it gets and how many requests get into a window; on both, how many requests `allow` lets through; and that a handler which nobody interrupts is the sequential limiter |
| `Base64Url`, `Base64Reference`, `PyText`, `ApiKeys`, `Jwt` | unpadded base64url (RFC 4648 sections 4 and 5) and what its lenient decoder makes of any text, the string operations that the gateway relies on, the stored hash of a key, searching a key list, JWS compact tokens with HS256 (RFC 7515 section 7.1, RFC 7519 section 4.1) |
| `KeyLifecycle`, `KeyRaces`, `KeyStore`, `KeyCache`, `KeyService` | issue, update, rotate and revoke on the key file, also from several threads; the cache keyed on its mtime, against any history of the file; the two together, step by step |
| `Config`, `Policy`, `PolicyTheorems` | load-time validation of the routing policy, the per-request resolver, and what the first buys the second |
| `Metrics` | the request counters |
| `Server`, `Requests`, `ServerTheorems`, `GatewayRuns`, `Locality`, `GatewayKeys`, `SmallGateway`, `TokenGateway` | the request pipeline over all of these, what it reads off a request, what it then does, whole runs of it, which gateways keep confidential requests on local backends, runs in which key operations take turns with requests, and three small gateways |

State that the program changes in place is modelled by classes (`TenantRateLimiter`, `KeyFile`, `APIKeyStore`,
`MetricsRegistry`, `Gateway`) and loops by methods with loops; each is proved against a function of its old state, and
the theorems are about those functions. Library code enters as parameters about which nothing is known: PBKDF2 and
HMAC, JSON, URL parsing, the redactor, the Unicode database, clocks, random tokens and salts, and the outcome of reading
the body and the key file, reloading the token keys, calling the backend, writing the response and writing the two logs.

## What came out of it

Some results are not what one would expect from the code or its documentation.

- A request that the day window refuses has already taken a minute slot. So with both limits on, the limiter admits as
  many requests as any choice that respects both windows only if the day limit cannot bind: `OptimalIff` says exactly
  which limits those are.
- Without a lock, k handlers can leave `limit + k - 1` entries in a deque, and no more. That is no bound on admissions: a
  handler with a stale view of the head pops entries that have not expired. On a clock that does not go back, k handlers
  get at most `limit + (k - 1) * (k + 2)` requests into a window, and some schedule reaches that for every k and positive
  limit. With both windows on, each bounds what `allow` lets through in this way, although calls reach the day deque out
  of clock order. Two handlers are enough for pruning to raise an IndexError.
- Whether every authentication answers from a version of the key file that was current during the call depends on the
  file's history alone, and `AnswersOfTheirTime` says how: no deletion, unless no static key takes the secret, and equal
  mtimes only where the answers are equal. A file deleted between the stat and the read, or a broken one deleted after
  it was read, closes the gateway, static keys included, until a file that loads takes its place.
- A key operation empties the file before it writes it (gateway/auth.py:237-240). An authentication that reads in between
  denies everyone, static keys included. If the records are then written with the mtime of the emptied file, as within
  one tick of the file system's clock, the gateway stays closed to everyone after the operation is over, until the file
  gets another mtime: `WriteLeavesClosed`, from every quiet state and for every mtime that the cache does not hold.
  Those are the only answers out of their time as long as no mtime is given to more than two successive versions of the
  file. Where requests and operations take turns, nothing reads in between, and only versions with records need
  different mtimes for every request to meet the keys in force.
- Operations of different threads keep each other's updates exactly if none finishes during another.
- A key file that is not UTF-8 is not taken for a broken one: the error leaves the store, with the cache and its stamp as
  they were, so that every later call that finds the file's stamp new raises again.
- The documentation says that `restricted` requires a local backend and `sensitive` never leaves for an external one
  (README.md:111-112, docs/configuration.md:163). The code checks locality only when a policy is configured
  (gateway/policy.py:45-51). `LeaksIff` says exactly which gateways send confidential requests out,
  `LeaksByConfiguration` reads it off routes and key for a gateway with one key, and `RestrictedLeavesWithoutPolicy`
  gives one that the loader accepts. The model follows the code.
- With a validated policy the checks at gateway/policy.py:63-68 cannot fire.
- Where the response to a refusal cannot be written, what is recorded depends on where the refusal was answered: a missing
  or invalid credential, an endpoint or model that is not allowed, the rate limit and the request limits become 502 or
  504; a body that is too long or no JSON, and a denial by the policy, keep their status. A backend's answer with a
  number that is no HTTP status is recorded as 500.
- A request whose access log or audit entry cannot be written is not counted.

## Model

| member | source | states |
|---|---|---|
| RateLimit.Prune | gateway/rate_limit.py:24-26 | what is left of a deque starts after the cutoff |
| RateLimit.AllowWindow | gateway/rate_limit.py:22-30 | the loop's new deque and verdict; refusal exactly when the pruned length has reached the limit; a deque within its limit stays within it |
| RateLimit.TenantRateLimiter.constructor | gateway/rate_limit.py:8-12 | a fresh limiter has no logs |
| RateLimit.TenantRateLimiter.Allow | gateway/rate_limit.py:14-20 | the state and verdict of one step, minute window first; no other tenant's logs change |
| RateLimitHistory.WindowRefinement | gateway/rate_limit.py:14-30 | on a non-decreasing clock, every verdict is that of counting the full history inside each window, the minute history being the admitted and day-refused requests and the day history the admitted ones; and each deque, pruned, is its history filtered |
| RateLimitHistory.AnyClock | gateway/rate_limit.py:22-30 | on any clock, each deque is a suffix of its recorded history and no longer than its limit |
| RateLimitHistory.WindowBound | gateway/rate_limit.py:22-30 | no interval of a window's length, wherever it lies, holds more than the limit |
| RateLimitHistory.LongHorizon | gateway/rate_limit.py:14-30 | no interval of k minutes holds more than k times the minute limit |
| RateLimitHistory.TenantQuota | gateway/rate_limit.py:14-30 | one tenant's admissions: k * per_minute in k minutes, min(per_day, 1440 * per_minute) in a day |
| RateLimitHistory.EveryTenantQuota | gateway/rate_limit.py:14-20 | the same for every tenant of every interleaved run |
| RateLimitHistory.Projection | gateway/rate_limit.py:11-20 | seen from one tenant, an interleaved run is that tenant's own run |
| RateLimitHistory.NonInterference | gateway/rate_limit.py:11-20 | a tenant's verdicts and logs are those of the run without the others' requests, on any clock |
| RateLimitOptimality.AheadAtEveryPrefix | gateway/rate_limit.py:14-30 | where no minute slot was wasted, after no prefix has any choice that respects the windows picked more than the limiter admitted |
| RateLimitOptimality.OneWindowWastesNothing | gateway/rate_limit.py:16-19 | with exactly one limit on, no slot is ever wasted |
| RateLimitOptimality.DayNeverRefuses | gateway/rate_limit.py:18-19 | a day limit of at least 1440 minute limits never refuses |
| RateLimitWaste.BurstCompetitor | gateway/rate_limit.py:14-20 | a choice that sits a burst out respects both windows and takes the day quota and more after midnight |
| RateLimitWaste.BurstLoses | gateway/rate_limit.py:16-19 | the limiter admits strictly fewer of the same requests |
| RateLimitWaste.OptimalIff | gateway/rate_limit.py:14-30 | the limiter admits as many requests as any choice with hindsight, on every sorted sequence, if and only if a limit is off or negative or per_day >= 1440 * per_minute |
| RateLimitThreads.ThreadBound | gateway/rate_limit.py:22-30 | in every interleaving of k handlers, with any clock readings, a deque has at most limit + k - 1 entries |
| RateLimitThreads.ThreadBoundIsMet | gateway/rate_limit.py:27-29 | for every k and positive limit some interleaving reaches that bound |
| RateLimitThreads.RaisesIff | gateway/rate_limit.py:25-26 | some interleaving raises an IndexError if and only if there are two handlers and a positive limit |
| RateLimitRaces.RaceBound | gateway/rate_limit.py:22-30 | in every interleaving of k handlers whose clock readings do not decrease, at most limit + (k - 1) * (k + 2) requests are recorded in any window |
| RateLimitRaceRuns.RaceBoundIsMet | gateway/rate_limit.py:24-29 | for every k and positive limit some interleaving records that many |
| RateLimitAllowRaces.AllowRaceBound | gateway/rate_limit.py:14-30 | in every interleaving of k handlers on a tenant's two deques, their clock readings not decreasing, `allow` lets at most per_minute + (k - 1) * (k + 2) requests through in any minute and per_day + (k - 1) * (k + 2) in any day, and none where a limit is negative |
| RateLimitAllowRaces.AllowRaceBoundIsMet | gateway/rate_limit.py:14-30 | for every k and positive limit, with the other limit off, some interleaving lets that many through |
| RateLimitAlone.AloneIsSequential | gateway/rate_limit.py:22-30 | from every state, a handler that is called and then moves alone leaves its deque and returns as the sequential `_allow_window` would |
| RateLimitAlone.AloneIsAllow | gateway/rate_limit.py:14-30 | after every schedule, a call of `allow` whose handler then moves alone leaves both deques, and lets the request through or not, as one step of the sequential limiter |
| Base64Url.EncodeShape | gateway/auth.py:253-259 | the printed text is URL-safe, never of length 1 modulo 4, and restoring padding by length restores exactly what was stripped |
| Base64Url.RoundTrip | gateway/auth.py:253-259 | decoding what was printed gives every byte string back |
| Base64Url.DecodeExact | gateway/auth.py:257-259 | of the texts over the alphabet, exactly those of length 1 modulo 4 do not decode, and exactly those without spare bits print back |
| Base64Url.AlphabetExact | gateway/auth.py:253-259 | the 64 characters in their order, `+` and `/` read as 62 and 63, and no other character having a value (RFC 4648 section 5) |
| Base64Url.SameBits | gateway/auth.py:253-254 | the four groups of three bytes are their 24 bits in order |
| Base64Reference.DecodeMeans | gateway/auth.py:257-259 | every text: characters of neither alphabet are skipped, nothing is read after the first complete padding, and what is left decodes to its bits in groups of eight, or not at all if its last group is short; text that is not ASCII does not decode |
| PyText.SpaceTable | gateway/server.py:385 | the characters that count as white space |
| PyText.StripExact | gateway/server.py:382-398 | stripping takes off the white space around a text, all of it and nothing else |
| PyText.IntOfText | gateway/server.py:215-219 | `int` gives back every integer that was printed |
| PyText.UnderscoresIgnored | gateway/auth.py:206 | underscores between digits do not change the number |
| PyText.IntExact | gateway/server.py:216 | `int` has a value exactly for digits with single underscores between them, signed or not, between white space |
| PyText.LowerExact | gateway/policy.py:39 | each upper-case letter becomes its counterpart and no other character changes |
| ApiKeys.HashSplits | gateway/auth.py:129-132 | the printed hash splits into algorithm, rounds, salt and digest |
| ApiKeys.HashRoundTrip | gateway/auth.py:195-207 | a key stored as a printed hash accepts exactly the secrets with the same digest under the recorded salt, and never raises |
| ApiKeys.MatchesExact | gateway/auth.py:195-207 | every key and text: they match exactly if both are ASCII, or the key has no plain text, and the text is the key's plain text or has the digest that the stored hash records under its own salt and rounds; comparing raises exactly if a plain text cannot be compared, or a hash that has to be used has no positive rounds or does not decode |
| ApiKeys.FindExact | gateway/auth.py:38-43 | a search grants exactly the first live key that accepts the text, with no key before it that raises; and nobody exactly if every key is revoked or declines |
| ApiKeys.PlaintextExact | gateway/auth.py:38-43 | among keys in plain text, an ASCII text is granted as the first live key that it is, and otherwise to nobody |
| ApiKeys.GrantedHoldsKey | gateway/auth.py:38-43 | whoever is granted holds a live key of the list whose plain text or stored digest is that of the supplied text |
| Jwt.CompactSplits | gateway/auth.py:148 | a compact token splits into the segments it was printed from |
| Jwt.ClaimsExact | gateway/auth.py:162-175 | claims are accepted for exactly the principal they entitle: issuer, audience, expiry, non-empty tenant |
| Jwt.TokenExact | gateway/auth.py:143-175 | every token: accepted for exactly the principal that its three segments prove, and raising exactly if they are readable and the signature does not decode |
| Jwt.TokenAccepted | gateway/auth.py:143-175 | a printed token never raises, and is accepted exactly when enabled, HS256, of a known key, with that key's MAC over the printed segments, and with claims that entitle the principal |
| KeyLifecycle.KeyFile.constructor | gateway/auth.py:226-229 | a missing key file has no records |
| KeyLifecycle.KeyFile.IssueApiKey | gateway/auth.py:70-91 | the new records; a plaintext exactly if the id was free |
| KeyLifecycle.KeyFile.UpdateApiKey | gateway/auth.py:94-113 | the edited record; success exactly if the id was there |
| KeyLifecycle.KeyFile.RotateApiKey | gateway/auth.py:116-126 | the new hash, revocation cleared; a plaintext exactly if the id was there |
| KeyLifecycle.RunRepresents | gateway/auth.py:70-126 | after every sequence of operations ids are distinct and the list stands for a map from id to current token, tenant, models and revocation |
| KeyLifecycle.RecordExact | gateway/auth.py:210-223 | every record: it becomes a key exactly if id, tenant and hash are not blank, and then one with these, stripped, its models and its revocation, and no plain text |
| KeyLifecycle.LoadsIffNamed | gateway/auth.py:210-223 | the file loads exactly if every key has an id and a tenant that are not blank |
| KeyLifecycle.LifecycleRefinement | gateway/auth.py:34-43 | after every sequence of operations with fresh tokens and no colliding digests, a secret is granted exactly as the live key whose latest plaintext it is, with its current tenant and models |
| KeyRaces.WritesWhatItRead | gateway/auth.py:86-126 | in every schedule, the file changes only where an operation finishes and succeeds, and is then what that operation makes of the file as it was when the operation started |
| KeyRaces.SerialIffNoOverlap | gateway/auth.py:86-126 | a schedule of operations in several threads leaves the file that the finished operations make one after another, whatever the operations, if and only if none finishes during another |
| KeyRaces.OverlapLoses | gateway/auth.py:86-91 | where one does, issuing different keys leaves fewer records than finished issues, all of which returned a plaintext |
| KeyStore.APIKeyStore.constructor | gateway/auth.py:26-32 | the first, forced load |
| KeyStore.APIKeyStore.ParseKeys | gateway/auth.py:59 | all records parsed, or none |
| KeyStore.APIKeyStore.LoadDynamicKeys | gateway/auth.py:45-67 | the cache after a refresh, for any observed stat and any text read after it, and the exception that leaves it: of the stat, or of text that is not UTF-8 |
| KeyStore.APIKeyStore.Authenticate | gateway/auth.py:34-43 | the refreshed cache, and the first live match of static and cached keys unless the last load failed; the refresh's exception if it raised |
| KeyCache.FlagIsLastRead | gateway/auth.py:50-67 | in every interleaving, the error flag is set exactly if the last read that did not raise failed, of a version that does not load or of a file that had gone |
| KeyCache.AnswersOfTheirTime | gateway/auth.py:34-67 | for every history of the file: every call to a started gateway, in every interleaving, answers or raises as a start on some version current during the call would, if and only if the file is never deleted or no static key takes the secret, and equal stamps tell of equal answers |
| KeyCache.StampMisleads | gateway/auth.py:54-55 | two versions with one mtime between which the answer read changes: some run answers of no time |
| KeyCache.DeletedBetween | gateway/auth.py:49-64 | a version deleted between the stat and the read of a start: the gateway denies what a version in order and its absence would grant |
| KeyCache.BrokenThenDeleted | gateway/auth.py:50-63 | a version that does not load, read once and deleted: the next call denies what a static key grants |
| KeyCache.RaisesIff | gateway/auth.py:56-63 | the next undisturbed call raises exactly if the file is not UTF-8 and its stamp is new, and the cache is then as before |
| KeyCache.MissingFileAnswers | gateway/auth.py:50-53 | in every reachable state with the file missing, the next undisturbed call answers as a fresh gateway exactly if the last read was in order or no static key takes the secret |
| KeyService.EveryAnswerCurrent | gateway/auth.py:34-126 | in every interleaving of the two steps of key operations with the two of an authentication, with no mtime on more than two successive versions, the answer is a ledger's of the call exactly unless it was read from an emptied file, and then it is a denial, due only if some ledger of the call denies too |
| KeyService.OpenFileCloses | gateway/auth.py:237-240 | from every quiet state, a call while an operation has the file open denies everyone, if the cache does not know the stamp |
| KeyService.OpenFileDenies | gateway/auth.py:237-240 | so it denies a key that the only ledger of the call grants |
| KeyService.WriteLeavesClosed | gateway/auth.py:237-240 | from every quiet state, an operation that writes the records with the emptied file's mtime, new to the cache, a call having read in between, leaves the file in order and the next call denying everyone |
| KeyService.WriteLeavesDenied | gateway/auth.py:54-55 | so a call after the operation denies a key that the only ledger of the call grants |
| KeyService.StaysStuck | gateway/auth.py:54-55 | so does every later call, until the file changes |
| KeyService.NextCallExact | gateway/auth.py:45-67 | after every interleaving that leaves the service quiet, the next undisturbed call answers as the current ledger exactly unless the last load read an emptied file whose stamp is the current one; then it denies, due only if the ledger denies too |
| Config.DictSize | gateway/config.py:474-475 | a last-wins dictionary is as long as its list exactly if no key repeats |
| Config.DictIs | gateway/config.py:468-471 | looking a key up gives the last entry with it, if any |
| Config.CheckTenant | gateway/config.py:483-496 | passes exactly the tenants whose models, backends and classes all exist; an error names one of their faults |
| Config.CheckRedaction | gateway/config.py:497-505 | passes exactly if every listed tenant, route and class exists |
| Config.CheckRule | gateway/config.py:513-526 | passes exactly the rules their tenant and backend fit, with a local backend for `sensitive` and `restricted` |
| Config.CheckRules | gateway/config.py:507-526 | passes exactly if no two rules share a key and each fits; the growing set finds exactly the repeated keys |
| Config.ValidatePolicy | gateway/config.py:467-526 | accepts exactly the well-formed policies, stated by positions in the lists; an error is a true fault |
| Config.ParsePolicy | gateway/config.py:386-413 | a policy comes out if and only if it is loadable, with every field as written, enabled, and the three classes without overrides where none are listed; no section means the disabled policy, whose default class is `standard` |
| PolicyTheorems.RedactionMeaning | gateway/policy.py:118-143 | the most specific override that is set decides, otherwise whether anything lists the request or the default is on |
| PolicyTheorems.SearchExact | gateway/policy.py:110-116 | the chosen backend is the first eligible one in the tenant's list, and there is none exactly if none is eligible |
| PolicyTheorems.ResolveExact | gateway/policy.py:44-74 | with a validated policy, a decision is returned if and only if it is the one a declarative reading of the configuration gives |
| PolicyTheorems.SafeUnvalidated | gateway/policy.py:53-74 | with any policy at all, validated or not, a decision keeps to lists of its tenant and a `sensitive` or `restricted` one to local routes; the check at gateway/policy.py:67-68 never fires |
| PolicyTheorems.RulesStayLocal | gateway/config.py:525-526 | no rule of a loadable policy sends `sensitive` or `restricted` requests to an external backend |
| PolicyTheorems.StandardServed | gateway/policy.py:101-116 | a `standard` request without a rule goes to the first of the tenant's backends that serves its model, local or not, and is denied exactly if none does |
| PolicyTheorems.LegacyExact | gateway/policy.py:44-51 | without a policy: a decision is returned exactly for a model that some route lists, for the first such route, with that route's own redaction setting if it has one and the default otherwise; the only denial is that no route lists it; the models endpoint always gets the first route and the default |
| PolicyTheorems.DenialExact | gateway/policy.py:53-68 | with a validated policy, each of four denials is given exactly when its reason holds, and no missing key or late check ever stops a request |
| PolicyTheorems.EveryRuleReachable | gateway/policy.py:61-62 | every validated rule's triple is served by its backend |
| PolicyTheorems.DecisionSound | gateway/policy.py:53-93 | a decision's route serves the model, is among the tenant's backends, carries an allowed class, and is local for `sensitive` and `restricted` |
| PolicyTheorems.ModelsEndpointExact | gateway/policy.py:76-93 | the models endpoint gets the first backend that may carry the class, a local one for `sensitive` and `restricted`, or one of three denials exactly when it holds |
| PolicyTheorems.AppendStable | gateway/policy.py:110-116 | appended backends matter only where nothing before them is eligible |
| PolicyTheorems.ConfidentialImpliesOpen | gateway/policy.py:101-116 | where a confidential class is served without a rule, an open one is too, by a backend no later in the list |
| PolicyTheorems.LocalityIff | gateway/policy.py:44-99 | confidential requests are only decided to go to local backends if and only if a policy is configured, or every route that comes first for some model, and the first route, are local |
| PolicyTheorems.ClassOfRequest | gateway/policy.py:37-42 | the class of a request is its first non-empty source, normalised; it passes exactly if it is one of the three, which are all configured; a request that names none passes with the default |
| Metrics.MetricsRegistry.constructor | gateway/metrics.py:7-9 | no counters at first |
| Metrics.MetricsRegistry.Observe | gateway/metrics.py:11-15 | one key's count and latency grow, the others stay |
| Metrics.LabelsExact | gateway/metrics.py:11-54 | an observation is counted under its path if that is one of six and else under `other`; under its backend, cut to 64 characters and cleaned, or under `none`; and under the hundreds of its status |
| Metrics.FamilyReads | gateway/metrics.py:12 | the family of any status but 0 is the number of its hundreds, rounded down, before `xx` |
| Metrics.KeysObserved | gateway/metrics.py:13-15 | a key is present exactly if it was observed, in both dictionaries |
| Metrics.CountersExact | gateway/metrics.py:14-15 | a key holds how often it was observed, and for how long in all |
| Metrics.Conservation | gateway/metrics.py:11-15 | the counts sum to the number of observations and the latencies to their total |
| Metrics.BoundedKeys | gateway/metrics.py:39-54 | at most 7 * (n + 1) * 5 keys for n backends, whatever the paths |
| Server.Gateway.constructor | gateway/server.py:70-81 | one store, limiter and registry, all fresh |
| Server.Gateway.Identify | gateway/server.py:236-245 | a key of the refreshed store, or else a token |
| Server.Gateway.Prepare | gateway/server.py:125-137 | who asks and the route decided, or how the request ends without |
| Server.Gateway.Relay | gateway/server.py:139-163 | the checks after the decision, in their order, the limiter's new logs and what is forwarded |
| Server.Gateway.Attempt | gateway/server.py:108-163 | the `try` block: status, exception, backend name, forwarding and new state |
| Server.Gateway.Handle | gateway/server.py:95-213 | a whole request, its `except` clauses and its `finally` block |
| Requests.BearerExact | gateway/server.py:382-398 | a header's bearer token is what follows the scheme `bearer`, in any case, and a gap; any other header has none |
| Requests.BearerReads | gateway/server.py:382-398 | a token written behind `Bearer ` is read back |
| Requests.SuppliedKeyExact | gateway/server.py:382-389 | the key of a request is its bearer token or, only where it has none, what `X-Api-Key` holds between white space; an empty text is none |
| Requests.OwnExact | gateway/server.py:107-119 | which requests the gateway answers itself, the status recorded for each of them, and that they consult neither keys nor limiter nor backend |
| Requests.ReceiveExact | gateway/server.py:215-231 | a request is received exactly as its path, the bytes that its declared length leaves of the stream, and the object that those bytes hold, or the empty one for GET and for no body |
| Requests.LimitsExact | gateway/server.py:297-307 | the limits are exceeded exactly if the body is too long, `max_tokens` is above its limit, or `n` is and `max_tokens` can be read; they hold exactly if all three do |
| Requests.AuthenticateExact | gateway/server.py:236-245 | a request comes from a principal exactly if the store grants it the supplied key or, where the store has no such key or none is supplied, its bearer token proves the principal; from nobody exactly if neither says anything and verifying does not raise |
| Requests.IdentityFaultExact | gateway/server.py:236-245 | identifying the client times out or fails exactly if the key file's stat fails, or the token keys cannot be had for a request that no key identifies |
| ServerTheorems.DecideExact | gateway/server.py:131-135 | which decision or denial a request gets: by the class that the header names, or else the body, or else the default, and at the models endpoint without a model |
| ServerTheorems.DecidedExact | gateway/server.py:121-137 | what is decided on and for whom, by the bytes read, the keys of the store and the segments of the token |
| ServerTheorems.ForwardedIff | gateway/server.py:121-160 | a request is forwarded if and only if it is received, authenticated, routed, permitted, admitted and within limits; and then what is sent, for whom and where, its body redacted exactly if the decision says so |
| ServerTheorems.LimiterUse | gateway/server.py:125-151 | the limiter is consulted exactly for requests that pass authentication, routing, endpoint and model; any other leaves its logs unchanged |
| ServerTheorems.KnownIsCredentialed | gateway/server.py:236-245 | a principal is known if and only if it comes with the first live key that accepts what is supplied or, where there is none, with a token that proves it |
| ServerTheorems.OverLimitRefused | gateway/server.py:153-157 | a body whose `max_tokens` or `n` is above its limit is never forwarded; if it got past everything before the limits, the status is 400, or that of the failed write of the response |
| ServerTheorems.ForwardingSafe | gateway/server.py:121-160 | with a validated policy, whatever is forwarded is an authenticated tenant's request to a backend, class and model it may use, and never to an external backend if `sensitive` or `restricted` |
| ServerTheorems.RefusalStatus | gateway/server.py:108-178 | a request that reached no backend is never counted as a success, and 429 only if the limiter refused it |
| ServerTheorems.StatusExact | gateway/server.py:121-178 | whatever becomes of the response, each of the statuses 400, 401, 403, 413, 429, 502 and 504 is recorded for a refused request exactly for its reasons; a refusal answered inside the `try` block becomes 502 or 504 where its write fails, a denial by an `except` clause does not |
| ServerTheorems.StatusTable | gateway/server.py:161 | the numbers that are an HTTP status |
| ServerTheorems.SuccessExact | gateway/server.py:157-178 | a status below 400 is recorded for a request that is not the gateway's own to answer if and only if it was forwarded and the backend answered with that status, which is one, and nothing went wrong with the answer |
| ServerTheorems.ForwardedStatus | gateway/server.py:157-178 | the status recorded for a forwarded request, for every outcome of the backend call and of the response's write |
| ServerTheorems.BackendRegular | gateway/server.py:99-137 | requests are counted under the backend decided on, a configured one, or none where none was |
| GatewayRuns.LogsAreTheLimiters | gateway/server.py:148-151 | a run leaves the logs of a limiter that saw only its calls |
| GatewayRuns.ForwardQuota | gateway/server.py:148-160 | in every run on a non-decreasing limiter clock, each tenant's forwarded requests keep both window limits over every horizon |
| GatewayRuns.EveryForwardAllowed | gateway/server.py:121-160 | in every run, from any state, whatever is forwarded is credentialed, cleared, admitted, within limits and lawful in the state it found |
| GatewayRuns.LoggedAreCounted | gateway/server.py:179-213 | the counters of a run sum to the number, and the total latency, of the requests whose log and audit writes returned |
| GatewayRuns.NothingUncounted | gateway/server.py:179-213 | every request of a run is counted if and only if no log or audit write fails |
| GatewayRuns.BoundedCounters | gateway/server.py:213 | a run has at most 7 * (n + 1) * 5 counters for n configured routes |
| Locality.LeaksIff | gateway/server.py:121-160 | some run forwards a confidential request to an external backend if and only if there is no policy and some request leads to an external route that allows its endpoint: the first route, for a models request, or the first to list its model |
| Locality.LeaksByConfiguration | gateway/policy.py:44-51 | with one key that can be presented and a library that can express the listed paths and models, that is so if and only if there is no policy and an external route lists an endpoint, not the gateway's own, that leads to it: the models endpoint of the first route, or one with a model that it is the first to list and the key is allowed |
| Locality.CanAskExact | gateway/server.py:121-157 | with one key, some run has a request for a path, by a command, with a model, get past authentication, limiter and limits if and only if some request within the limits can be read so and the key is allowed the model |
| Locality.FreshCanAsk | gateway/server.py:121-157 | a fresh gateway whose first static key can be presented can be asked, by GET or POST, for whatever can be read within the limits and the key is allowed |
| GatewayKeys.KeyAsRead | gateway/auth.py:45-67 | requests and key operations taking turns, whatever the mtimes: a request is authenticated by a key if and only if its secret is the latest plaintext of a key not revoked, by the ledger of the version last read where the file has the cache's stamp and by the current one where not, and then as that key's tenant and models |
| GatewayKeys.KeyInForce | gateway/server.py:236-245 | requests and key operations taking turns: if no two versions with records share an mtime, a request is authenticated by a key if and only if its secret is, at that moment, the latest plaintext of a key not revoked, and then as that key's current tenant and models |
| SmallGateway.ForwardsRestricted | gateway/server.py:121-163 | a gateway with a policy starts and forwards a restricted request, redacted, by its rule |
| SmallGateway.RestrictedLeavesWithoutPolicy | gateway/policy.py:45-51 | a gateway that the loader accepts, without a policy, forwards a restricted request to its external backend |
| TokenGateway.ForwardsOnToken | gateway/server.py:242-245 | a gateway with a policy and no keys starts and forwards a request that carries a printed token, for the tenant of its claims |
| GatewayKeys.ForwardedKeyInForce | gateway/server.py:125-160 | nothing is forwarded on a key that was revoked, rotated away or never issued |

## Left out

- Server.Gateway.Handle: the key administration endpoint (gateway/server.py:247-295) is an arbitrary status or exception
  there; the operations behind it are modelled in `KeyLifecycle` and take turns with requests in `GatewayKeys`.
- Server.Gateway.Attempt: headers and response bodies are not part of this model.
- Server.Gateway.constructor: a start at which the key file's stat, its decoding or the token keys raise makes no gateway.
- Config.ValidatePolicy: which of several faults is reported first is not stated, only that the reported one is real.
- Config.ParsePolicy: the coercions of single fields and their one-branch checks; the model starts from typed records.
- KeyLifecycle.LifecycleRefinement: needs tokens never drawn twice and digests that do not collide; both are hypotheses.
- KeyLifecycle.KeyFile.IssueApiKey: the timestamps `created_at` and `rotated_at`, which nothing reads.
- KeyRaces.SerialIffNoOverlap: writing the file is one step there. An operation that reads a file which another has
  emptied raises, and two overlapping writes can leave text that does not load.
- KeyService.EveryAnswerCurrent: key operations come one at a time; `SerialIffNoOverlap` says when those of several
  threads amount to that. A file that is partly written is as malformed as an emptied one. Where three versions, or two
  that are not successive, share an mtime, `AnswersOfTheirTime` says what then happens.
- GatewayKeys.KeyInForce: needs different mtimes on versions with records; `KeyAsRead` says what holds without.
- KeyStore.APIKeyStore.ParseKeys: a record without a tenant, which takes its id as tenant, is written out as such.
- Jwt.TokenExact: header and claims are well-typed once parsed; how the key set is reloaded is not modelled, only that a
  reload gives keys or raises.
- RateLimitThreads.ThreadBound: each operation on a deque is one atomic step; the dictionary lookup before it is not a step.
- RateLimit.AllowWindow: timestamps are real numbers, not floats.
- GatewayRuns.BoundedCounters: assumes the statuses the administration endpoint has in the source.
- GatewayRuns.ForwardQuota: requests run one after another. `AllowRaceBound` says what handlers without a lock let
  through.
- PyText: `str.lower` only as far as comparisons with ASCII words need it, and `int` only for ASCII digits.
- Concurrent reloads of the key cache by several handlers, whose fields are written without a lock.
- Regex redaction, the contents of the logs, tracing, TLS contexts, header filtering and backend path joining, the
  Prometheus rendering, the command line and the deployment files.
