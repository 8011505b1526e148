# Verified model of the notification service

A Dafny model of the in-memory state machines of the notification service: template substitution, the
offline queue, the rate limiter, the connection manager with tenant channels, the dispatcher, the tracker of
acknowledgements, cluster routing, batch sending, and the circuit breaker and backoff in front of Redis.
`dafny verify dfyconfig.toml` checks the project.

Conventions:

- Objects whose methods update their fields are classes with those fields. Each method is proved against a
  function of the old state, and the theorems about runs are lemmas about those functions.
- The clock is a parameter `now` (milliseconds; a connection remembers its activity in whole seconds, and its
  cleanup reads the clock in nanoseconds). Sends, publications and enqueue attempts succeed or fail as an
  arbitrary function of their number says. Fresh UUIDs are parameters.
- A public operation is one atomic step, except for the acknowledgement tracker (every access to shared data
  is a step of some thread) and cluster routing (local sends, lookup with publication, and receipt are steps).
- Rust's fixed-width arithmetic is written out where it can matter: the wrapping products and sums of the
  token bucket, the casts of 64-bit settings to signed integers, and truncating division of durations.

| file | component |
|---|---|
| `Template.dfy`, `Strings.dfy` | `{{name}}` substitution in JSON trees; the order of strings |
| `OfflineQueue.dfy` | bounded drop-oldest queue with expiry |
| `TokenBucket.dfy`, `RateLimiter.dfy` | token bucket, and the limiter that creates and evicts buckets |
| `ConnectionManager.dfy`, `Tenancy.dfy` | connections and their indexes; tenant channels and subscription requests |
| `Dispatcher.dfy` | sending to users, channels and everyone |
| `Replay.dfy` | what a connection that opens is replayed of the messages queued for its tenant and user |
| `AckTracker.dfy` | acknowledgements, with interleaved calls |
| `Cluster.dfy`, `ClusterRuns.dfy` | session registry and router; all runs of a cluster |
| `CircuitBreaker.dfy`, `Backoff.dfy` | circuit breaker and reconnection backoff |
| `Batch.dfy` | batch sending with deduplication |
| `MachineInts.dfy` | fixed-width arithmetic |

Where the code does something other than its description suggests, the model follows the code:

- A queue bound of zero works as a bound of one (`OfflineQueues.DrainReturnsNewestLive`).
- A success or failure threshold of zero works as one (`CircuitBreakers.OpensAtThreshold`).
- `ws_connections_per_minute` connections per minute and IP is kept only by a limit of zero: a burst of the
  limit, followed by the tokens of a single second, exceeds it (`RateLimiters.PerMinuteIff`). The limit plus
  sixty times the rounded-up rate bounds a minute if and only if IP buckets refill within the eviction time, as
  they do for any of a minute or more, and a client that keeps asking gets just that; with a shorter eviction
  time every cleanup can hand out a new full bucket (`RateLimiters.AdmissionsBoundedIff`,
  `RateLimiters.MinuteHidesIpEviction`, `RateLimiters.SteadyChecksAttain`).
- The answer of `retry_after` fails if the refill rate or the capacity is zero, and it holds only until the
  tokens earned wrap around at 32 bits (`TokenBuckets.RetryAfterHonest`, `TokenBuckets.RetryAfterHonestUntil`,
  `TokenBuckets.RetryAfterHonestExactly`, `TokenBuckets.RetryAfterDishonestOnWrap`).
- A notification tracked for two connections overwrites its own entry, so the totals of the tracker fall short
  (`AckTrackers.QuiescentTotals`, `AckTrackers.UndividedTotals`, `AckTrackers.TwoConnectionsOverwrite`).
- A backoff that starts at one millisecond can stay there, and one that starts at zero has no next delay
  (`Backoffs.CapReachedIff`, `Backoffs.ZeroHasNoNext`).
- A variable text that opens a placeholder with a name is itself substituted in some templates, by variables
  later in key order; the nameless `{{}}` in a text is left alone (`Templates.FilledExactlyWhenInert`).
- A send to a channel stays within its tenant unless its name, which the sending endpoints do not validate,
  looks like a namespaced channel (`Tenancy.ReachesOthersExactly`).
- Two recipients of different tenants share an offline queue when a user id spells out the tenant of the other
  after a colon or before one (`Replays.QueueKeyExactly`).
- The deduplication key of an item can be that of a different item: of every list of two or more ids, and of
  ids or event types with a colon (`Batches.OwnKeyExactly`).
- The results of a batch may be fewer than its items (`Batches.ResultsFallShort`, `Batches.ShortBatch`).

## Model

| member | source | states |
|---|---|---|
| `Templates.SubstituteString` | src/domain/template/substitution.rs:49-70 | the loop over the variables carries out one left-to-right replacement per variable, in the order visited |
| `Templates.SubstituteTree` | src/domain/template/substitution.rs:22-47 | the recursion renders every string and key of the tree and inserts rendered entries into an ordered map |
| `Templates.SubstituteVariables` | src/domain/template/substitution.rs:6-20 | anything but an object as variables is an error |
| `Templates.ReplaceNowhere` | src/domain/template/substitution.rs:66 | a text in which a pattern does not occur is left as it is |
| `Templates.ReplaceAtFirst` | src/domain/template/substitution.rs:66 | a text changes at the first occurrence of the pattern, and goes on after it |
| `Templates.OneHole` | src/domain/template/substitution.rs:57-66 | what a placeholder becomes for a string, a number, each boolean, null, an array and an object |
| `Templates.ReplaceFillsOne` | src/domain/template/substitution.rs:57-66 | on a template of inert literals and holes, replacing a placeholder fills exactly the holes of that name |
| `Templates.SubstituteFills` | src/domain/template/substitution.rs:49-70 | the loop gives the template with bound holes filled and unbound holes left verbatim, for every visiting order, if no text opens a placeholder that a variable could fill; the result is again such a template |
| `Templates.KeyOrderFills` | src/domain/template/substitution.rs:56-67 | in key order the same holds for texts with nameless placeholders, since the variable without a name is visited first |
| `Templates.FilledExactlyWhenInert` | src/domain/template/substitution.rs:56-67 | with the map visited in key order, a variable text is handled as hole filling for all templates and all other such variables if and only if it cannot open a placeholder that has a name |
| `Templates.VisitOrderUnobservable` | src/domain/template/substitution.rs:22-70 | two visiting orders of the same variables render every template tree alike |
| `Templates.RenderingIdempotent` | src/domain/template/substitution.rs:22-47 | rendering a rendered tree changes nothing |
| `Templates.NoVariablesIdentity` | src/domain/template/substitution.rs:22-47 | without variables every JSON tree renders to itself |
| `Templates.SettledIsFixed` | src/domain/template/substitution.rs:22-47 | a tree whose strings the substitution leaves alone is rebuilt exactly, objects included |
| `Templates.RenderingOrdered` | src/domain/template/substitution.rs:35-43 | every rendered object lists distinct keys in order |
| `Templates.ObjectRendering` | src/domain/template/substitution.rs:35-43 | a rendered object has one entry for each rendered key, and where keys merge the last one written wins |
| `Templates.ItemsPointwise` | src/domain/template/substitution.rs:30-34 | arrays keep their length and are rendered item by item |
| `Templates.ScalarsStay` | src/domain/template/substitution.rs:44-46 | numbers, booleans and null stay, whatever the variables |
| `OfflineQueues.MemoryQueueBackend.Enqueue` | src/domain/queue/memory_backend.rs:51-83 | refuses when disabled; else drops the oldest message of a full queue and appends the new one, other users untouched |
| `OfflineQueues.MemoryQueueBackend.Drain` | src/domain/queue/memory_backend.rs:85-130 | takes the user's queue away and returns its unexpired messages in order, counting the rest |
| `OfflineQueues.MemoryQueueBackend.CleanupExpired` | src/domain/queue/memory_backend.rs:150-187 | every queue keeps its unexpired messages, empty queues go, and the count is the difference of the totals |
| `OfflineQueues.MemoryQueueBackend.ClearUserQueue` | src/domain/queue/memory_backend.rs:189-191 | removes the queue and reports its size |
| `OfflineQueues.MemoryQueueBackend.GetStats` | src/domain/queue/memory_backend.rs:193-214 | total and largest size over all users, each attained |
| `OfflineQueues.LiveIsSuffix` | src/domain/queue/backend.rs:79-83 | in a queue in order of arrival the expired messages are those at the front |
| `OfflineQueues.QueueHoldsNewest` | src/domain/queue/memory_backend.rs:51-187 | at any point of any run a queue is the newest messages it was sent, up to the bound, less expired ones from its front |
| `OfflineQueues.DrainReturnsNewestLive` | src/domain/queue/memory_backend.rs:51-187 | a drain returns the unexpired among the newest messages sent since the last drain or clear, whatever cleanups ran |
| `OfflineQueues.DrainedExactly` | src/domain/queue/backend.rs:79-83 | for a time to live of at least a second a message is drained if and only if it is one of the newest up to the bound and its age in milliseconds is less than a thousand times the time to live |
| `OfflineQueues.DrainedFrom` | src/domain/queue/memory_backend.rs:85-130 | a drain is the end of the newest messages, in order: those before are too old, those in it are not |
| `OfflineQueues.CastTtlDrainsNothing` | src/domain/queue/backend.rs:82 | with a time to live of zero or one that the cast makes negative, nothing is ever drained |
| `OfflineQueues.CleanedExactly` | src/domain/queue/memory_backend.rs:150-187 | a cleanup keeps a message if and only if its age in milliseconds is less than a thousand times the time to live, and a queue if it keeps a message of it |
| `OfflineQueues.CleanupUnobservable` | src/domain/queue/memory_backend.rs:83-187 | leaving out all cleanups of a run changes no drain |
| `TokenBuckets.TokenBucket.TryConsumeN` | src/domain/ratelimit/token_bucket.rs:49-80 | grants exactly when enough tokens are available, then takes them and moves the refill time; a refusal changes nothing; spurious compare-and-swap failures do not show |
| `TokenBuckets.TokenBucket.Available` | src/domain/ratelimit/token_bucket.rs:83-90 | the tokens a call at this time could take |
| `TokenBuckets.TokenBucket.RetryAfter` | src/domain/ratelimit/token_bucket.rs:93-100 | the seconds answered |
| `TokenBuckets.RunsStayReached` | src/domain/ratelimit/token_bucket.rs:24-80 | no run leaves the capacity or gets ahead of the clock |
| `TokenBuckets.GrantedSinceRefill` | src/domain/ratelimit/token_bucket.rs:49-80 | from its last refill on a bucket grants at most what it holds and what the time earns |
| `TokenBuckets.WindowBound` | src/domain/ratelimit/token_bucket.rs:49-80 | in any window of any run at most the capacity and what the window earns is granted, even where the arithmetic wraps |
| `TokenBuckets.WindowBoundAttained` | src/domain/ratelimit/token_bucket.rs:49-80 | the window bound is met by a run of the bucket in every window, if the bucket holds what a second earns or what the window earns |
| `TokenBuckets.RefusalsLeaveNoTrace` | src/domain/ratelimit/token_bucket.rs:63-65 | refused calls, any number of them, do not delay later refill |
| `TokenBuckets.RetryAfterHonest` | src/domain/ratelimit/token_bucket.rs:93-100 | after waiting as told, with only refused calls since, a call succeeds if and only if a token was there or rate and capacity are at least one, when nothing wraps |
| `TokenBuckets.RetryAfterHonestUntil` | src/domain/ratelimit/token_bucket.rs:55-100 | for rates up to a thousand per second the answer stays right up to a time if and only if the tokens held and earned by then stay below 2^32 |
| `TokenBuckets.RetryAfterHonestExactly` | src/domain/ratelimit/token_bucket.rs:55-100 | for every rate: the answer stays right up to a time if and only if, at each multiple of 2^32 that held and earned tokens reach by then, the first millisecond to reach it goes past it |
| `TokenBuckets.RetryAfterDishonestOnWrap` | src/domain/ratelimit/token_bucket.rs:55-61 | a bucket whose earnings wrap to zero, against the answer of `retry_after` |
| `TokenBuckets.ProductWraps` | src/domain/ratelimit/token_bucket.rs:55 | a bucket whose product of time and rate wraps at 64 bits |
| `TokenBuckets.AvailableGrows` | src/domain/ratelimit/token_bucket.rs:83-90 | without wrap-around waiting never loses tokens |
| `RateLimiters.RateLimiter.CheckIp` | src/domain/ratelimit/limiter.rs:88-122 | the verdict and the one bucket changed; unlimited when disabled |
| `RateLimiters.RateLimiter.CheckKey` | src/domain/ratelimit/limiter.rs:126-160 | the verdict and the one bucket changed; unlimited when disabled |
| `RateLimiters.BurstAdmitsExactly` | src/domain/ratelimit/limiter.rs:88-160 | of n checks made at once a new key is allowed min(n, `http_burst_size`) and a new IP min(n, `ws_connections_per_minute`) |
| `RateLimiters.BurstVerdicts` | src/domain/ratelimit/limiter.rs:106-160 | what the check after n others is told: the tokens left, the limit, the reset time, and the seconds to wait |
| `RateLimiters.RateLimiter.CleanupStale` | src/domain/ratelimit/limiter.rs:171-208 | exactly the buckets idle for the eviction time go, and are counted |
| `RateLimiters.FreshExactly` | src/domain/ratelimit/limiter.rs:171-196 | a cleanup keeps a bucket if and only if its last grant is less than `bucket_ttl_seconds` ago |
| `RateLimiters.RetainFresh` | src/domain/ratelimit/limiter.rs:177-185 | keeps the fresh buckets unchanged and counts the others |
| `RateLimiters.RelatedRunsAgree` | src/domain/ratelimit/limiter.rs:88-208 | two limiters, one evicting, that agree up to full idle buckets of some kinds show the callers of these kinds of checks the same verdicts from then on, whatever happens to the other kind |
| `RateLimiters.EvictionUnobservableIff` | src/domain/ratelimit/limiter.rs:88-208 | eviction goes unnoticed (reset times aside) by checks of the given kinds in all runs if and only if buckets of these kinds refill within the eviction time |
| `RateLimiters.MinuteHidesIpEviction` | src/domain/ratelimit/limiter.rs:88-208 | with an eviction time of a minute, whatever the settings for keys, no verdict of an IP check shows eviction, and admissions per IP are bounded |
| `RateLimiters.KeyEvictionIff` | src/domain/ratelimit/limiter.rs:126-208 | eviction goes unnoticed by key checks if and only if `http_requests_per_second` over `bucket_ttl_seconds` makes up `http_burst_size` |
| `RateLimiters.IpRateLeast` | src/domain/ratelimit/limiter.rs:97-104 | the rate of IP buckets is the least positive one that makes up the limit in a minute |
| `RateLimiters.AdmittedIsGranted` | src/domain/ratelimit/limiter.rs:88-160 | without eviction the admissions of an id are the grants of one bucket |
| `RateLimiters.AdmissionsBoundedIff` | src/domain/ratelimit/limiter.rs:88-208 | a limiter that evicts admits per id, in every window of every run, at most the capacity and what the window earns, if and only if buckets of the kind refill within the eviction time; also where the arithmetic wraps |
| `RateLimiters.KeyBoundIff` | src/domain/ratelimit/limiter.rs:126-208 | in every window a key is allowed at most `http_burst_size` and `http_requests_per_second` times the window, if and only if the burst refills within the eviction time |
| `RateLimiters.SteadyChecksAttain` | src/domain/ratelimit/limiter.rs:88-122 | for every positive limit a run of single checks of one IP gets, in any number of seconds, the whole limit and the rounded-up rate of each second |
| `RateLimiters.SteadyKeyChecksAttain` | src/domain/ratelimit/limiter.rs:126-160 | a run of single checks of one key gets all of that in any number of seconds, if the burst size is no less than the rate |
| `RateLimiters.PerMinuteIff` | src/domain/ratelimit/limiter.rs:94-118 | no run admits more than the limit in less than a minute if and only if the limit is zero |
| `ConnectionManagers.ConnectionManager.RegisterWithLimits` | src/domain/connection/manager.rs:60-135 | which limit refuses, with its numbers; else the connection is added and the indexes stay exact |
| `ConnectionManagers.ConnectionManager.Register` | src/domain/connection/manager.rs:49-57 | succeeds exactly within both limits, counted on the connections themselves |
| `ConnectionManagers.ConnectionManager.Unregister` | src/domain/connection/manager.rs:138-177 | the connection goes from the map and from every index, nothing else does |
| `ConnectionManagers.ConnectionManager.SubscribeToChannel` | src/domain/connection/manager.rs:180-215 | unknown connection, limit reached, or subscribed with exact indexes |
| `ConnectionManagers.ConnectionManager.UnsubscribeFromChannel` | src/domain/connection/manager.rs:218-234 | removes the one subscription with exact indexes |
| `ConnectionManagers.ConnectionManager.CleanupStaleConnections` | src/domain/connection/manager.rs:309-319 | exactly the connections idle beyond the timeout go, and are counted |
| `ConnectionManagers.ConnectionManager.FindStaleConnections` | src/domain/connection/manager.rs:293-306 | lists once each the connections whose remembered second lies further back than the timeout, cast to a signed integer, by a clock finer than a second |
| `ConnectionManagers.StaleExactly` | src/domain/connection/manager.rs:293-306 | the idle seconds after which a connection is stale, to the nanosecond, and the timeouts that the cast makes negative |
| `ConnectionManagers.ConnectionManager.GetUserConnections` | src/domain/connection/manager.rs:237-247 | exactly the user's connections, once each, in the order of registration that the index keeps |
| `ConnectionManagers.ConnectionManager.GetChannelConnections` | src/domain/connection/manager.rs:250-260 | exactly the subscribed connections, once each |
| `ConnectionManagers.ConnectionManager.GetTenantConnections` | src/domain/connection/manager.rs:375-385 | exactly the tenant's connections, once each |
| `ConnectionManagers.ConnectionManager.TotalSubscriptions` | src/domain/connection/manager.rs:287-289 | the sum over channels equals the sum of the connections' subscription counts |
| `ConnectionManagers.IndexesDetermined` | src/domain/connection/manager.rs:19-31 | two valid managers with the same connections have the same indexes, up to the order of a user's connections |
| `ConnectionManagers.SubscriptionsCountedTwice` | src/domain/connection/manager.rs:287-289 | counting subscriptions by channel or by connection gives the same number |
| `ConnectionManagers.TenantCountsAddUp` | src/domain/connection/manager.rs:403-408 | the tenants' counts add up to the number of connections |
| `Tenancy.NamespacingInjective` | src/domain/tenant/mod.rs:135-141 | tenant and channel can be read off a namespaced channel, for all tenant ids, when the channel has no colon |
| `Tenancy.ValidNameHasNoColon` | src/domain/realtime/websocket/handler.rs:530-540 | valid channel names have no colon, whatever counts as alphanumeric beyond ASCII |
| `Tenancy.ValidAsciiName` | src/domain/realtime/websocket/handler.rs:530-540 | an ASCII name is valid if and only if it has 1 to 64 letters, digits, dashes, underscores and dots |
| `Tenancy.Utf8Lengths` | src/domain/realtime/websocket/handler.rs:531 | other names are as long as their UTF-8 form |
| `Tenancy.ExtractInverts` | src/domain/tenant/mod.rs:147-165 | extraction undoes namespacing if and only if the tenant is not the default one or the channel has no colon |
| `Tenancy.ExtractForeign` | src/domain/tenant/mod.rs:147-165 | a tenant takes a foreign channel for its own if and only if the other's id continues its own after a colon |
| `Tenancy.HandleSubscribe` | src/domain/realtime/websocket/handler.rs:405-476 | invalid names and refusals are reported in order, the others are subscribed under the tenant's namespace |
| `Tenancy.SubscribeReply` | src/domain/realtime/websocket/handler.rs:405-476 | every name asked for is confirmed, invalid or refused; the invalid are reported as such; a refusal names the limit and that it is reached; what is confirmed is followed from then on |
| `Tenancy.HandleUnsubscribe` | src/domain/realtime/websocket/handler.rs:487-527 | all listed channels are unsubscribed under the tenant's namespace |
| `Tenancy.RunImplementsClients` | src/domain/realtime/websocket/handler.rs:405-527 | in every run each connection holds exactly the namespaced forms of what its client follows in its own names |
| `Tenancy.ChannelReachesOwnFollowers` | src/domain/realtime/websocket/handler.rs:405-540 | with tenancy on, a send to a tenant's channel with a valid name reaches exactly that tenant's followers of the name |
| `Tenancy.ReachesOthersExactly` | src/domain/notification/triggers/http/handlers.rs:198-201 | for every name, valid or not: some run lets a tenant's send reach a connection of another tenant if and only if the name ends in a valid channel name after a colon, and what stands before is not `default` written by the default tenant |
| `Tenancy.DisabledTenancyShares` | src/domain/tenant/mod.rs:211-217 | with tenancy off a run in which one tenant's channel reaches another tenant's connection |
| `Dispatchers.SendSequentially` | src/domain/notification/dispatcher.rs:528-544 | small sends: the connections are sent to one at a time, in order and once each; counts and tracker calls are those of the sends that succeeded |
| `Dispatchers.SendWindowed` | src/domain/notification/dispatcher.rs:561-610 | for every completion order: the sends start in the order of the list, once each, every send comes back once, never more than 100 are in flight, and counts and tracker calls are those of sending one by one |
| `Dispatchers.NeverBeyondLimit` | src/domain/notification/dispatcher.rs:578-592 | in every prefix of a legal log of starts and completions at most the limit are in flight |
| `Dispatchers.FinishedOnce` | src/domain/notification/dispatcher.rs:578-607 | in a legal log every send that was started and is not in flight has come back exactly once, and no other has |
| `Dispatchers.CompletionOrderUnobservable` | src/domain/notification/dispatcher.rs:578-607 | two completion orders track the same connections equally often |
| `Dispatchers.DeliveriesExactly` | src/domain/notification/dispatcher.rs:578-607 | the tracker calls are one for each connection to which the send succeeds |
| `Dispatchers.NotificationDispatcher.SendToConnections` | src/domain/notification/dispatcher.rs:516-611 | the sends that start are those of the list in order, each entry once, with exact counts and tracker calls, at most one or at most a hundred in flight |
| `Dispatchers.NotificationDispatcher.GetUserConnectionsFiltered` | src/domain/notification/dispatcher.rs:497-510 | the user's connections within the tenant, in index order |
| `Dispatchers.UserConnsExactly` | src/domain/notification/dispatcher.rs:497-510 | without a tenant all of the user's connections, with one those of the tenant, once each |
| `Dispatchers.NotificationDispatcher.SendToUser` | src/domain/notification/dispatcher.rs:202-264 | sends to the user's connections, or makes one enqueue attempt, under the key of tenant and user, if there are none; counters stay settled |
| `Dispatchers.NotificationDispatcher.SendToUsers` | src/domain/notification/dispatcher.rs:283-354 | batches of a hundred do what one pass over the list does: same attempts in order, one enqueue attempt per offline occurrence |
| `Dispatchers.UsersOneByOne` | src/domain/notification/dispatcher.rs:297-331 | a list of users attempts and queues what its users one after the other would |
| `Replays.QueueKeyExactly` | src/infrastructure/auth/claims.rs:9-15 | two recipients share a queue if and only if they are the same or the user id of one spells out the tenant of the other; no tenant means the default one |
| `Replays.ReplayedOnOpening` | src/domain/realtime/websocket/handler.rs:156-175 | a connection that opens is replayed, in order, the newest messages queued for its tenant and user since one last opened, up to the bound, that are younger than the time to live |
| `Replays.ReplayStaysWithin` | src/domain/realtime/websocket/handler.rs:156-175 | with user ids free of colons, whatever the tenant ids, only messages queued for the same tenant and user are replayed |
| `Dispatchers.ConcatSplit` | src/domain/notification/dispatcher.rs:297-331 | the parts of a batch continue the concatenation of those before |
| `Dispatchers.NotificationDispatcher.BroadcastForTenant` | src/domain/notification/dispatcher.rs:368-401 | attempts every connection, or every connection of the tenant, once, and counts one sent notification |
| `Dispatchers.NotificationDispatcher.SendToChannels` | src/domain/notification/dispatcher.rs:448-486 | attempts every connection subscribed to one of the channels once |
| `AckTrackers.MemoryAckBackend.Track` | src/domain/ack/ack_memory_backend.rs:67-83 | the entry replaces any of the same id and is counted |
| `AckTrackers.MemoryAckBackend.Acknowledge` | src/domain/ack/ack_memory_backend.rs:85-128 | succeeds exactly for the tracked user; otherwise nothing changes |
| `AckTrackers.MemoryAckBackend.CleanupExpired` | src/domain/ack/ack_memory_backend.rs:134-161 | exactly the expired entries go, and are counted |
| `AckTrackers.SweptExactly` | src/domain/ack/ack_memory_backend.rs:134-161 | an entry is swept if and only if it is as old as the timeout, in milliseconds |
| `AckTrackers.MemoryAckBackend.GetStats` | src/domain/ack/ack_memory_backend.rs:167-184 | the rate is the acknowledged share of the completed, one if there are none; the average latency is rounded down, zero without acknowledgements |
| `AckTrackers.RunsConserve` | src/domain/ack/ack_memory_backend.rs:67-161 | in every interleaving each insertion is pending, held, acknowledged, swept or overwritten, and each counter lags by what threads have yet to add |
| `AckTrackers.QuiescentTotals` | src/domain/ack/ack_memory_backend.rs:67-161 | with no call under way acked + expired + pending falls short of tracked by the overwritten entries; equality if and only if none was, which holds when no id was tracked twice |
| `AckTrackers.UndividedTotals` | src/domain/ack/ack_memory_backend.rs:67-161 | with one call at a time the totals agree if and only if every `track` found its id not pending |
| `AckTrackers.LatencyIsWaited` | src/domain/ack/ack_memory_backend.rs:105-112 | the latency total is the time from the last tracking of each acknowledged id to its acknowledgement, summed |
| `AckTrackers.TrackedOnceSettledOnce` | src/domain/ack/ack_memory_backend.rs:85-161 | an id tracked once is in exactly one place at any moment, so it is acknowledged or expired at most once |
| `AckTrackers.OnlyTrackedUserAcknowledges` | src/domain/ack/ack_memory_backend.rs:90-103 | in every interleaving only a user tracked for an id acknowledges it |
| `AckTrackers.AcknowledgeSteps` | src/domain/ack/ack_memory_backend.rs:85-128 | the separate accesses of an undisturbed call amount to the call |
| `AckTrackers.SweepManySteps` | src/domain/ack/ack_memory_backend.rs:142-153 | the separate removals of an undisturbed cleanup amount to one sweep |
| `AckTrackers.TwoConnectionsOverwrite` | src/domain/ack/ack_memory_backend.rs:72-74 | a run in which the totals fall short |
| `Cluster.SessionStore.RegisterSession` | src/domain/cluster/redis_store.rs:105-161 | the session, the user's server set, the count and the local memory after registration |
| `Cluster.SessionStore.UnregisterSession` | src/domain/cluster/redis_store.rs:163-229 | the server leaves the user's set only with its last connection of the user; without a session nothing shared changes |
| `Cluster.SessionStore.FindUserServers` | src/domain/cluster/redis_store.rs:337-348 | the user's server set, or none if the store does not answer |
| `Cluster.OnlyTargetListens` | src/domain/cluster/router.rs:266-272 | an addressed message is heard by its target alone, whatever the channel prefix |
| `Cluster.UserConnsMatch` | src/domain/cluster/router.rs:52-57 | the filtered lookup yields each connection of user and tenant once |
| `Cluster.ClusterRouter.RouteToUser` | src/domain/cluster/router.rs:46-127 | every matching local connection is attempted once; if the store answers, for each other server of the user one copy is tried to be published, once, and is published exactly if that attempt succeeds; if it does not answer, no server is addressed |
| `Cluster.KeptExactly` | src/domain/cluster/router.rs:83-104 | of different copies tried one after the other exactly those whose own attempt succeeds are published, once each |
| `Cluster.ClusterRouter.HandleRoutedMessage` | src/domain/cluster/router.rs:130-177 | messages of the server itself and those addressed to another are ignored; else every matching local connection is attempted once |
| `ClusterRuns.RegistryRightInEveryRun` | src/domain/cluster/redis_store.rs:105-229 | in every run a server is listed for a user exactly when it holds an announced session of the user, and the counts are right |
| `ClusterRuns.CopiesReachTargets` | src/domain/cluster/redis_store.rs:374-385 | when a published copy goes to every server listening to its channel, each target gets its copy and no other server any |
| `ClusterRuns.TrafficRightInEveryRun` | src/domain/cluster/router.rs:46-177 | in every run copies in transit are unique and unhandled, attempts are accounted for, and every due connection is served, under way, lost or closed |
| `ClusterRuns.DeliveredAtMostOnce` | src/domain/cluster/router.rs:130-177 | one routing call attempts each connection at most once, only for its user and tenant, and its origin handles none of its copies |
| `ClusterRuns.DeliveredExactlyOnce` | src/domain/cluster/router.rs:70-105 | when no copy is left in transit and none was lost, every due connection still open was attempted exactly once |
| `CircuitBreakers.CircuitBreaker.AllowRequest` | src/infrastructure/redis/circuit_breaker.rs:86-98 | half-opens an open breaker after the timeout, and refuses only while open |
| `CircuitBreakers.RefusedExactly` | src/infrastructure/redis/circuit_breaker.rs:86-177 | in every run a request is refused if and only if the breaker is open and less than the timeout has passed since the last failure that opened it or found it open |
| `CircuitBreakers.HalfOpensAfterWait` | src/infrastructure/redis/circuit_breaker.rs:151-177 | when the wait is over the next request half-opens the breaker |
| `CircuitBreakers.CircuitBreaker.RecordSuccess` | src/infrastructure/redis/circuit_breaker.rs:101-120 | the state after a success |
| `CircuitBreakers.CircuitBreaker.RecordFailure` | src/infrastructure/redis/circuit_breaker.rs:123-148 | the state after a failure |
| `CircuitBreakers.CircuitBreaker.TransitionTo` | src/infrastructure/redis/circuit_breaker.rs:180-197 | which counters a transition resets |
| `CircuitBreakers.OpenWaits` | src/infrastructure/redis/circuit_breaker.rs:151-177 | an open breaker does not open again before the timeout |
| `CircuitBreakers.OpeningsApart` | src/infrastructure/redis/circuit_breaker.rs:101-197 | in every run, n openings span at least n - 1 timeouts |
| `CircuitBreakers.CountersAreRuns` | src/infrastructure/redis/circuit_breaker.rs:101-148 | the counters are the lengths of the current runs of failures and successes and stay below the thresholds |
| `CircuitBreakers.OpensAtThreshold` | src/infrastructure/redis/circuit_breaker.rs:123-133 | from closed it opens exactly when the run of failures since the last success or closing reaches the threshold |
| `CircuitBreakers.ClosesAtThreshold` | src/infrastructure/redis/circuit_breaker.rs:101-120 | it closes exactly when the run of half-open successes reaches its threshold, and a half-open failure opens it |
| `Backoffs.ExponentialBackoff.NextDelay` | src/infrastructure/redis/backoff.rs:55-74 | the delay for the jitter drawn, remembered as the base of the next |
| `Backoffs.ExponentialBackoff.Reset` | src/infrastructure/redis/backoff.rs:77-80 | back to the initial delay |
| `Backoffs.DelayBounds` | src/infrastructure/redis/backoff.rs:59-69 | every delay is at least one and at most the maximum stretched by the jitter |
| `Backoffs.FollowsExactly` | src/infrastructure/redis/backoff.rs:59-69 | which delays can come next: the whole numbers between the capped delay less and plus the jitter factor, at least one |
| `Backoffs.FollowsWithoutJitter` | src/infrastructure/redis/backoff.rs:67-69 | without jitter the capped delay, cut down, and at least one |
| `Backoffs.GrowsIff` | src/infrastructure/redis/backoff.rs:59-69 | below the cap every possible next delay is longer if and only if the lowest jitter still leaves growth by a millisecond, for every growth factor and jitter |
| `Backoffs.GrowsByDefault` | src/infrastructure/redis/backoff.rs:59-69 | at the default factors: if and only if the delay is at least two |
| `Backoffs.ZeroHasNoNext` | src/infrastructure/redis/backoff.rs:63-66 | from a delay of zero no next delay can be drawn |
| `Backoffs.ClimbsIff` | src/infrastructure/redis/backoff.rs:55-74 | in every run the delays strictly increase until the cap first applies, if and only if the start is at least two or already at the cap |
| `Backoffs.DoublesEveryTwo` | src/infrastructure/redis/backoff.rs:55-74 | below the cap any two delays double the delay |
| `Backoffs.StaysNearCap` | src/infrastructure/redis/backoff.rs:55-74 | from then on each delay is at least nine tenths of the maximum |
| `Backoffs.CapReachedIff` | src/infrastructure/redis/backoff.rs:55-74 | every run is at the cap from some delay on if and only if the start is at least two or already at the cap; then twice the binary logarithm of the maximum is enough |
| `Batches.SortedOrdered` | src/domain/notification/triggers/http/batch.rs:74-76 | the sorted list is ordered and a permutation |
| `Batches.OrderedUnique` | src/domain/notification/triggers/http/batch.rs:74-76 | a multiset of strings has one ordered listing |
| `Batches.JoinInjective` | src/domain/notification/triggers/http/batch.rs:76 | joining with commas loses nothing for ids free of commas, the empty list aside |
| `Batches.KeyExact` | src/domain/notification/triggers/http/batch.rs:70-86 | between targets free of colons, their lists also free of commas and not one empty id, keys are equal if and only if target (up to order) and event type are |
| `Batches.OwnKeyExactly` | src/domain/notification/triggers/http/batch.rs:70-86 | for every item: no different item at all has its key if and only if it is a broadcast, or neither id nor event type has a colon and the target is a single id or a list of one nonempty id that no two ids in order join to |
| `Batches.ColonCollides` | src/domain/notification/triggers/http/batch.rs:72 | different items with a colon in an id share a key |
| `Batches.CommaCollides` | src/domain/notification/triggers/http/batch.rs:76 | different items with a comma in an id share a key |
| `Batches.EmptyIdCollides` | src/domain/notification/triggers/http/batch.rs:76 | one empty id and no id share a key |
| `Batches.BatchSend` | src/domain/notification/triggers/http/batch.rs:192-326 | size errors; the result of every item up to the stop; how the results end after a content error or a failed delivery; the summary; what is dispatched and in which order |
| `Batches.BatchReaches` | src/domain/notification/triggers/http/batch.rs:45-67 | with tenancy on, in every run, a dispatch for a tenant reaches exactly that tenant's followers of the item's valid names, for one channel and for several; other targets pass unchanged, with the item's event type |
| `Batches.NoTenantUnchanged` | src/domain/notification/triggers/http/batch.rs:45-67 | without a tenant every target passes unchanged |
| `Batches.ResultsTell` | src/domain/notification/triggers/http/batch.rs:218-326 | every result told by its item and delivery: success, skipped, counts, error, and the marks of items not reached |
| `Batches.SummaryTells` | src/domain/notification/triggers/http/batch.rs:328-339 | the summary told by the items and deliveries, and where processing stops |
| `Batches.SkippedExactly` | src/domain/notification/triggers/http/batch.rs:250-266 | with deduplication, between resolved items with targets as in `KeyExact`, an item is passed over exactly when an earlier one has the same target and event type |
| `Batches.ResultsFallShort` | src/domain/notification/triggers/http/batch.rs:217-249 | there are fewer results than items if and only if the first item that ends the processing failed to resolve and is not the last |
| `Batches.ShortBatch` | src/domain/notification/triggers/http/batch.rs:217-249 | a batch whose first item does not resolve has one result, if it stops on errors |
| `Batches.SummaryAddsUp` | src/domain/notification/triggers/http/batch.rs:328-339 | succeeded, failed and skipped add up to the number of results |

## Left out

- Redis, PostgreSQL, HTTP, WebSocket and SSE transport, serialization, JWT, metrics, tracing and logging are
  outside the model; a serialized message is assumed to parse back to itself.
- Interleavings within one operation of the connection manager, the session store, the queue and the token
  bucket: concurrent callers can pass a limit check together or credit the same time twice. Only the
  acknowledgement tracker is modelled access by access.
- RateLimiters.EvictionUnobservableIff: assumes that no bucket of the kinds observed wraps within the time span
  considered (`NoWrap`), since a bucket left alone long enough loses tokens to wrap-around and an evicted one does not.
- OfflineQueues.CleanupUnobservable: speaks of drains; `peek`, `queue_size` and `stats` count expired messages
  and do show a cleanup.
- Backoffs.StaysNearCap and DoublesEveryTwo are stated for the default growth factor 2 and jitter 0.1, the latter
  from a start of two; floating-point rounding is left out, and the panic of an empty jitter range appears as a
  precondition.
- Batches.KeyExact: compares targets that both meet its condition, and some pairs outside it have different keys
  too; `Batches.OwnKeyExactly` is the condition on a single item against all others.
- TokenBuckets.RetryAfterHonestUntil: is for rates up to a thousand per second; `TokenBuckets.RetryAfterHonestExactly`
  is for every rate, until the product of time and rate wraps at 64 bits.
- TokenBuckets.WindowBoundAttained: for a bucket that holds less than a second earns, a longer window may grant
  less than the bound, since fractions of a token are lost at each grant.
- RateLimiters.PerMinuteIff: needs a span of at least a second.
- Backoffs.ClimbsIff and CapReachedIff are stated for the default growth factor 2 and jitter 0.1, and for starts of
  at least one.
- Failing writes to the session store, after which the registry and the servers' memories disagree.
- A timeout too large for the duration type, which makes the stale-connection search panic.
- ClusterRuns.DeliveredExactlyOnce: counts send attempts; whether an attempt reaches the client is the
  transport's affair.
- Session expiry, refresh, and the channel index of the cluster store; the session store that is disabled.
- The Redis and PostgreSQL backends of queue and tracker, the distributed rate limiter, template storage, the
  listing endpoints, health, heartbeat and shutdown.
- Expired notifications, the single-channel send (`SendToChannels` with one channel attempts the same
  connections) and the choice of operation by target type in the dispatcher.
- Roles, connection times and the outgoing channel of a connection; the tenant manager's own statistics.
- The Unicode table behind `is_alphanumeric`, and the JSON text of array and object variables, are parameters.
