# Gateway model

A Dafny model of the gateway of this repository and of the owner's tamper watchdog, with proofs about whole runs
of requests. The aim is that every guarantee the platform relies on is stated once, for all inputs, next to the
state it is about.

Check it with `dafny verify dfyconfig.toml`.

## What is modelled

**Placement ledger and GPU scheduler.** `Scheduler` decides where a notebook goes; `Accounting` adds up GPU hours
and picks the next waiter; `Ledger` is the state machine of launches, stops, boosts, quotas, drains, registrations
and heartbeats; `Notebooks` holds the same handlers as methods over tables. `LedgerRuns`, `LedgerOwnership`,
`LedgerUsage`, `LedgerGrants`, `LedgerNotices`, `LedgerNodes` and `LedgerBalance` prove what every reachable ledger
keeps; `LedgerCharges`, `LedgerLandings` and `LedgerBeats` say in terms of rows, times and messages alone what a launch
is charged, where it lands and which hosts it may use; `LedgerWitness` holds two concrete runs. A request is one step;
the Hub call in it succeeds or fails.

**Rate limiter, nonces and signed requests.** `SlidingWindow` and `NonceCache` compare the deque and the ordered
dictionary with the plain history; `SharedStore` and `Fleet` put R gateway replicas in front of one Redis that may
fail before or after executing a command; `FleetAnswers` gives each answer from the history of calls; `RateStore` is the
store as objects. `Signing` and `Middleware` add the canonical string, the checks in their order and the replay bounds;
`FleetWitness` and `SigningFleet` show that the bounds are exact; `SigningSessions` ties the check to the session table.
Redis is taken to lose no keys before their expiry. One clock reading is used per request, and clocks do not run
backwards within a run.

**Audit log.** `Json` is the text that `json.dumps` writes (compact, sorted, ASCII-escaped) and a reader that gets it
back, `AuditChain` the hash chain over it, `Audit` the table with `record` and `verify_chain`. SHA-256 is any function to
64 hex characters; where a result needs it not to collide, the finitely many texts it must not collide on are named.

**Accounts and sessions.** `Sessions` is the state machine of login, refresh, logout, password change, administration,
single-use tokens and the sweep; `Accounts` holds the handlers as methods. `SessionAnswers` says when each request is
granted and what it changes; `SessionRules`, `SessionLineage`, `SessionLockout`, `SessionReturns` and `SessionCleanup`
prove the properties of whole runs. JWT signatures are ideal: a token verifies
exactly when the gateway issued it. Session ids and single-use tokens are drawn fresh.

**Tamper watchdog.** `Watchdog` models the ticks of the script, reboots (which clear the mark, kept under `/run`) and
redeployments.

Runs are values of `Prelude.Trace`: the events so far, the latest outermost. `After(run)` is the state they lead to.

## What the proofs brought to light

Each of these is a lemma, with the input or the exact condition.

- The skew check lets a timestamp header that parses as not-a-number through at every time
  (`gateway/app/middleware/request_signing.py:96-101`). Such a request is the only kind that one nonce holder can accept
  twice (`Signing.RepeatableExactly`).
- Nonces recorded in Redis are not known to a replica's own memory, so a failover lets an envelope through once more per
  holder. `SigningFleet.FleetRepeatsExactly` says for which deployments an envelope can be accepted twice at all;
  `SigningFleet.ReplayBoundIsReached` reaches the bound 1 + R for every R; while Redis answers, once is the most
  (`SigningFleet.AtMostOnceWithRedis`). The rate limit likewise becomes (2 + R) * limit, exactly
  (`Fleet.FailoverRateBound`, `FleetWitness.RateBoundIsReached`), and 2 * limit while Redis answers
  (`Fleet.RateBoundWithRedis`, `FleetWitness.TwiceLimitIsReached`).
- Refresh tokens carry the 15-minute access lifetime (`gateway/app/routers/auth.py:86-88` with
  `gateway/app/security.py:82`), so a chain left idle for longer ends, although its session row is kept for seven days
  (`SessionLineage.RefreshWindowExactly`).
- A boost that finds every eligible host busy is placed on a busy one (`gateway/app/scheduler.py:100`). That is the only
  way to two GPU reservations on one host (`LedgerOwnership.NoDoubleReservation`); `LedgerOwnership.SecondReservationExactly`
  says when it makes one, and it happens (`LedgerWitness.FallbackReservesTwice`).
- With no eligible node a placement names no host (`gateway/app/scheduler.py:87-91`, `Scheduler.PlanNamesHosts`); such
  runs share only the empty name, which the disjointness result sets apart.
- Registering a node again ends a drain; a heartbeat does not (`LedgerNodes.DrainEndsExactly`). The free-node notice looks
  only at runs, so it may name a drained or silent host: exactly when its user stops or relaunches, nobody is left on it
  and somebody waits (`LedgerNodes.UnavailableHostNamedExactly`, `LedgerWitness.DrainedHostAnnounced`,
  `LedgerWitness.DrainedHostAnnouncedOnRelaunch`).
- An account whose expiry date has passed can still log in; its first authenticated request suspends it
  (`gateway/app/deps.py:55-60`), not the login as `gateway/app/routers/admin.py:633` says
  (`SessionReturns.LoginIgnoresExpiry`, `SessionReturns.LapsedFoundOutAtOnce`).
- Rejecting an account, or its expiry, leaves its sessions unrevoked: after a reinstatement they work again
  (`SessionReturns.ReinstatedExactly`, `SessionReturns.RefreshWorksExactly`, `SessionReturns.RejectedComesBack`).
  `SessionLineage.ChainCutExactly` lists what does cut a chain.
- The Hub's credential check (`gateway/app/routers/internal.py:50-73`) neither counts failures nor looks at the lock
  (`SessionLockout.HubCheckIgnoresLock`, `SessionLockout.HubChecksUncounted`), so the lockout bound is about the gateway's
  own login.
- After a seal the database is gone and the owner check passes (`owner-setup/watchdog.sh:31`), so the next tick removes the
  mark: with a positive grace and prompt ticks, owner removal alone never escalates, contrary to the script's introduction
  (`Watchdog.OwnerRemovalWipesExactly`).

One difference is between the code and its own words only: the scheduler's introduction says that an exclusive placement
reserves all GPU slices; the code asks for one (`gateway/app/scheduler.py:110`), and so does the model.

## Model

| member | source | states |
|---|---|---|
| Scheduler.OnlineNodes | gateway/app/scheduler.py:47-60 | The loop returns exactly the hosts of the specification `OnlineHosts`, in table order, leaving out stale, draining and (when asked) GPU-less nodes. |
| Scheduler.OnlineHostsExactly | gateway/app/scheduler.py:47-60 | A host is listed if and only if some node row of that name shows a heartbeat at most 90.0 seconds old, is not draining and, when a GPU is wanted, is labelled for it. |
| Scheduler.OnlineHostsDistinct | gateway/app/scheduler.py:47-60 | With unique hostnames the eligible hosts are distinct. |
| Scheduler.CountRun | gateway/app/scheduler.py:73-78 | The inner loop adds to every counted host exactly what the run weighs there: once at its node, and once per boost peer that is not its node. |
| Scheduler.Occupancy | gateway/app/scheduler.py:69-79 | The counting loop covers exactly the listed hosts and arrives at the specified tally for each. |
| Scheduler.TallyIsLoad | gateway/app/scheduler.py:69-79 | With distinct peers, the tally of a host is the number of runs whose footprint contains it: nobody is counted twice or missed. |
| Scheduler.TallyZero | gateway/app/scheduler.py:98-107 | A host counts zero if and only if no run's footprint contains it. |
| Scheduler.OccupancyConserved | gateway/app/scheduler.py:69-79 | Conservation: over any distinct hosts the tallies add up to the sizes of the runs' footprints restricted to those hosts. |
| Scheduler.PlanPlacement | gateway/app/scheduler.py:82-116 | The decision procedure, with its loops, computes the placement `Plan` for the eligible hosts and the other users' active runs, on every input including the empty cluster. What a plan comes to in the tables, hosts, size and GPUs charged, is stated without it by LedgerLandings.LandsExactly and LedgerCharges.ChargedExactly. |
| Scheduler.OtherRuns | gateway/app/scheduler.py:93 | The user's own active run is left out of the count, everybody else's active runs are kept. |
| Scheduler.EmptyHosts | gateway/app/scheduler.py:98-107 | Exactly the hosts counted zero, in order. |
| Scheduler.QuietestHost | gateway/app/scheduler.py:100-113 | The first host with the smallest count, as `min(occ, key=occ.get)` picks it. |
| Scheduler.Colocated | gateway/app/scheduler.py:114 | The runs whose own node is the target. |
| Scheduler.LeastLoadedIsLeast | gateway/app/scheduler.py:100-113 | The chosen busy host is eligible and no eligible host has a smaller count. |
| Scheduler.FreeHostsExactly | gateway/app/scheduler.py:98-107 | The free list holds exactly the eligible hosts that count zero. |
| Scheduler.PlanNamesHosts | gateway/app/scheduler.py:82-116 | A placement names a node if and only if some host is eligible; every host it names is eligible; a boost's hosts are distinct and start with its node. |
| Scheduler.BoostTakesIdle | gateway/app/scheduler.py:96-104 | A boost gets as many idle hosts as were granted (at least one), or all of them when there are fewer; with none idle, one least-loaded host; and its size is the number of its hosts. |
| Scheduler.PlanTouchesExactly | gateway/app/scheduler.py:93-116 | A pinned placement meets another active run's footprint if and only if no eligible host was free; exclusive placements never do, shared ones always do. |
| Scheduler.LandsOnLeastLoaded | gateway/app/scheduler.py:106-116 | A normal launch lands on a least-loaded eligible host and leaves it with at most floor(L/N)+1 runs; it is exclusive if and only if some eligible host is idle. |
| Scheduler.PlanTakesFirst | gateway/app/scheduler.py:96-116 | A placement starts on the first idle eligible host in table order, or, with none idle, on the first of the least loaded; a boost takes the idle hosts from the front. |
| Scheduler.FreeHostsInOrder | gateway/app/scheduler.py:98-107 | The free list is exactly the eligible hosts that no run is on, in table order. |
| Scheduler.OnlineHostsInOrder | gateway/app/scheduler.py:47-60 | The eligible hosts come in the order of the node table. |
| LedgerLandings.LandsExactly | gateway/app/scheduler.py:82-116 | In every reachable ledger, from the rows alone: a launch with no usable host names none; a boost granted n takes max(1, n) usable hosts that nobody else's active run holds, or all of them, or else one usable host; any other launch gets such a host to itself if there is one and shares a usable one if not. |
| LedgerLandings.GivenSizeIsLaunched | gateway/app/routers/admin.py:444-464 | The launch that uses a grant, however much later, takes as many hosts as the administrator gave, or as were asked for when the administrator gave none or zero. |
| LedgerCharges.ChargedExactly | gateway/app/routers/notebooks.py:133-138 | In every reachable ledger a run on a named node has gpus > 0 if and only if its profile is gpu or it is a boost; a boost has one per host, anything else one; only a boost has a rendezvous point, on its node. |
| LedgerCharges.SeesWhatItIsChargedFor | jupyterhub/jupyterhub_config.py:105-145 | In every reachable ledger the notebook of a run on a named node sees a GPU exactly when the run is charged for one: reserved when it does not share, all devices when it shares, none otherwise; and it is pinned to that node. |
| LedgerBalance.Pigeonhole | gateway/app/scheduler.py:4-15 | From any idle reachable ledger, after any number of successful launches without boost by different users onto the same N eligible hosts, with any other requests in between that start or stop no run (heartbeats, failed launches, boosts, quotas), the loads add up to the number of launches, differ by at most 1, and the k-th launch is exclusive exactly when k <= N. |
| LedgerBalance.OneLaunch | gateway/app/scheduler.py:106-116 | One planned launch keeps loads within 1 of each other, adds 1 to the total, and is exclusive exactly when there were fewer runs than hosts. |
| LedgerBalance.IdleHostExactly | gateway/app/scheduler.py:107-113 | With loads within 1, some host is idle exactly when there are fewer runs than hosts. |
| Accounting.GpuHoursUsed | gateway/app/scheduler.py:119-129 | The summing loop returns the rounded sum of the specified per-run hours, counting running notebooks up to now and never a negative duration. What the sum and the rounding come to is LedgerCharges.UsageIsTimeOn and LedgerCharges.Round2Nearest. |
| Accounting.Round2Monotone | gateway/app/scheduler.py:129 | Rounding to two decimals (halves to even) never reverses an order. |
| LedgerCharges.UsageIsTimeOn | gateway/app/scheduler.py:119-129 | In every run, at every time, a user's unrounded GPU hours are exactly the seconds, over 3600.0, during which that user has had an active run with gpus > 0, added up event by event. |
| LedgerCharges.UsageRate | gateway/app/scheduler.py:119-129 | With no event in between, usage grows by exactly the elapsed time while such a run is on, and not at all otherwise. |
| LedgerCharges.RequestKeepsUsage | gateway/app/scheduler.py:119-129 | No request changes anybody's usage at its own time. |
| LedgerCharges.GpuRunIsCharged | gateway/app/routers/notebooks.py:133-138 | In every reachable ledger, while a run with the GPU profile, or a boost, is active on a named node, its user's usage grows by an hour an hour. |
| LedgerCharges.Round2Nearest | gateway/app/scheduler.py:129 | The rounded figure is a whole number of hundredths at most 0.005 away, an even one when two are equally near. |
| LedgerCharges.DemotedExactly | gateway/app/routers/notebooks.py:73-95 | In every reachable ledger a launch loses its GPU and keeps its grant if and only if it would use a GPU and the hours during which the user had a GPU run on, to the nearest hundredth, have reached the quota; any other launch gets the profile asked for, medium for an unknown one, and the newest grant. |
| LedgerCharges.QuotaNoticeExactly | gateway/app/routers/notebooks.py:86-95 | The quota notice is sent exactly to the demoted, also when the Hub then fails. |
| LedgerUsage.UsageFitsInTime | gateway/app/scheduler.py:119-129 | In every reachable ledger the unrounded usage of a user is at most the time since that user's first GPU run. |
| LedgerUsage.UsageMonotone | gateway/app/scheduler.py:119-129 | A user's usage never falls along any continuation of any run of requests. |
| LedgerUsage.OverQuotaPlan | gateway/app/routers/notebooks.py:86-95 | A launch whose user has reached the quota is planned without GPU, without boost and without touching a grant. |
| LedgerUsage.QuotaSticks | gateway/app/routers/notebooks.py:86-95 | Once rounded usage has reached the quota, the user stays over quota and every later launch has gpus = 0 and is not a boost, until the quota is changed. |
| Accounting.NextWaiterExactly | gateway/app/scheduler.py:145-148 | Nobody is picked if and only if nobody active is waiting; otherwise the earliest-started active waiter is, the earlier row winning a tie. |
| Accounting.FindPromoted | gateway/app/scheduler.py:136-148 | The search returns nobody when some active footprint contains the freed host, and the specified next waiter otherwise. |
| LedgerNotices.StepTells | gateway/app/routers/notebooks.py:157-160 | Every request sends at most one free-node notice, which names the host the step freed, and clears exactly the waiting flag of the run it tells. |
| LedgerNotices.NoticesMatchCleared | gateway/app/scheduler.py:136-152 | In every reachable ledger the free-node notices, in order, went to the users of a list of runs, and named the hosts freed, where the list holds exactly the shared-mode runs whose waiting flag has been cleared, each once. |
| LedgerNotices.LongestWaiterTold | gateway/app/scheduler.py:136-152 | In a reachable ledger a step tells somebody if and only if it frees a named host that no active run's footprint contains while somebody waits; the one told has waited longest and is the first waiting row; the one notice names that host; nothing else changes. |
| LedgerNotices.AnnouncedHostWasHeld | gateway/app/routers/notebooks.py:97-103 | Whenever a step adds a free-node notice, it is one notice, and it names the node of a run of the requesting user that this very step stopped. |
| LedgerNotices.SharersTold | gateway/app/routers/notebooks.py:140-145 | A launch that shares warns exactly the other users with an active run on the chosen node; a launch that does not share warns nobody. |
| LedgerLandings.LaunchTellsExactly | gateway/app/routers/notebooks.py:86-160 | The notices of a launch that goes through, in order and without any other: the quota, the sharers, the boost with the size recorded, the freed host. |
| LedgerNotices.RowsAge | gateway/app/routers/notebooks.py:97-138 | Along every continuation a stopped run's row never changes, a cleared waiting flag is never set again, and node, mode, size, peers and grant of a run are fixed. |
| LedgerRuns.ActiveRunExactly | gateway/app/routers/notebooks.py:53-58 | The look-up finds nothing if and only if the user has no active run, and otherwise an active run of that user. |
| LedgerRuns.FindNodeExactly | gateway/app/routers/nodes.py:39-42 | The look-up finds nothing if and only if no node has that hostname. |
| LedgerRuns.StepNodes | gateway/app/routers/nodes.py:32-66 | Registering, heartbeats, draining and activating keep hostnames unique. |
| LedgerBeats.UsableExactly | gateway/app/routers/nodes.py:32-88 | In every run a host may be used at a time if and only if its last registration or heartbeat is at most 90.0 seconds old, no drain has followed its last registration or activation and, for GPU work, the last labels sent say so: told from the messages host by host, without the table. |
| LedgerBeats.HeartbeatKeepsUsable | gateway/app/routers/nodes.py:68-88 | A heartbeat of a host that is not drained keeps it usable for 90 seconds, unless it is drained in the meantime. |
| LedgerRuns.Reachable | gateway/app/routers/notebooks.py:61-176 | Every reachable ledger has unique hostnames, runs named by their accounts, consistent start and stop times, each user's runs one after the other, and boost peers that are distinct and start with the node. |
| LedgerRuns.OneActiveRun | gateway/app/routers/notebooks.py:97-103 | In every reachable ledger a user has at most one active run, and an earlier run of a user has ended when a later one starts. |
| LedgerOwnership.CountsAreTrue | gateway/app/scheduler.py:69-79 | In every reachable ledger the planner's counts are right: each host counts exactly the runs whose footprint contains it, and the counts of distinct hosts add up to those footprints. |
| LedgerOwnership.OwnersDisjoint | gateway/app/scheduler.py:96-110 | In every reachable ledger the footprints of active runs placed exclusively, or boosted onto free hosts, are pairwise disjoint. |
| LedgerOwnership.NoDoubleReservation | jupyterhub/jupyterhub_config.py:112-145 | Two active runs pinned to one host that both reserve its GPU can only be reached when one of them is a boost that found no free host. |
| LedgerOwnership.SecondReservationExactly | gateway/app/scheduler.py:96-104 | In every reachable ledger a launch puts a second GPU reservation on a host if and only if it is a boost that finds every eligible host busy and somebody else's active run reserves the least-loaded one. |
| LedgerWitness.FallbackReservesTwice | gateway/app/scheduler.py:100 | A concrete run in which a boost that found no free host and the run already there both reserve the one GPU. |
| LedgerNodes.DrainEndsExactly | gateway/app/routers/nodes.py:59-84 | A drained node stays drained through every request if and only if that request neither registers nor activates it. |
| LedgerNodes.DrainLasts | gateway/app/routers/nodes.py:80-84 | Along every run that neither registers nor activates it, heartbeats included, a drained node stays drained. |
| LedgerNodes.DrainedGetsNothing | gateway/app/scheduler.py:53-58 | As long as a drain lasts, no launch adds a run whose footprint contains the drained host. |
| LedgerNodes.NoticeIgnoresNodes | gateway/app/scheduler.py:136-152 | What a stop announces, to whom and which host, does not depend on the nodes at all. |
| LedgerNodes.NoticeNamesExactly | gateway/app/scheduler.py:136-152 | For every event and every named host: the step sends a notice naming it if and only if it frees that host, no active run's footprint contains it, and somebody waits. |
| LedgerNodes.UnavailableHostNamedExactly | gateway/app/routers/notebooks.py:157-160 | In every reachable ledger a host that no launch may use, drained, stale or unregistered, is announced as free if and only if its user stops or relaunches, no active run is left on it, and somebody waits. |
| LedgerNodes.StopNamesExactly | gateway/app/routers/notebooks.py:179-190 | Stopping announces the user's host as free if and only if nobody else's active run holds it and somebody else waits, whatever has become of the node. |
| LedgerNodes.PromiseKept | gateway/app/scheduler.py:150-152 | Until somebody launches, the user who was told gets a host to themselves by a relaunch without a boost, as long as the announced host is eligible for it. |
| LedgerNodes.FreeMeansExclusive | gateway/app/scheduler.py:106-110 | Whoever launches without a boost while some eligible host is on no active run's footprint is placed exclusively. |
| LedgerWitness.DrainedHostAnnounced | gateway/app/scheduler.py:136-152 | A concrete run in which a user stops on a drained host and a waiting user is told that it is free. |
| LedgerWitness.DrainedHostAnnouncedOnRelaunch | gateway/app/routers/notebooks.py:157-160 | A concrete run in which a user relaunches off a drained host and a waiting user is told that it is free. |
| LedgerGrants.LatestGrantExactly | gateway/app/routers/notebooks.py:78-84 | A launch finds a grant if and only if the user has an approved one, and then the one approved for that user with the latest creation time, the earlier row winning a tie. |
| LedgerGrants.GrantsSpentOnce | gateway/app/routers/notebooks.py:97-155 | In every reachable ledger boosted runs and consumed grants correspond one to one with the same user, and nobody has two pending requests. |
| LedgerGrants.FinalForever | gateway/app/routers/admin.py:444-485 | A denied, consumed or expired request never changes again, whatever follows. |
| LedgerGrants.RequestBoostExactly | gateway/app/routers/notebooks.py:296-313 | A boost request adds one pending row of the size asked for and withdraws exactly what the same user still had pending. |
| LedgerGrants.DecisionsExactly | gateway/app/routers/admin.py:444-485 | A decision changes exactly the one pending request and tells its user, an approval with the size given: the administrator's, unless left out or zero, and then the one asked for; a decided request is left alone. |
| LedgerGrants.DealStays | gateway/app/routers/admin.py:444-485 | Whose a decided request is and how big never changes again, whatever follows. |
| LedgerLandings.AccountsChangeExactly | gateway/app/routers/admin.py:649-663 | Accounts change only by a new one, whose id and name are free and which has no quota, and by a quota set, which becomes the one given. |
| LedgerGrants.ApprovalsConserved | gateway/app/routers/admin.py:444-464 | Approvals that took effect equal grants still approved plus grants consumed. |
| LedgerGrants.FailedLaunchesInvisible | gateway/app/routers/notebooks.py:123-131 | Taking every launch that fails at the Hub out of a run changes no run, waiting flag, grant, node or account of the ledger it leads to. |
| Notebooks.Tables.ActiveRun | gateway/app/routers/notebooks.py:53-58 | The query returns the first active row of the user. |
| Notebooks.Tables.LatestGrant | gateway/app/routers/notebooks.py:78-84 | The query returns the newest approved grant of the user. |
| Notebooks.Tables.FindNode | gateway/app/routers/nodes.py:39-42 | The query returns the node with that hostname. |
| Notebooks.Tables.OnRunStopped | gateway/app/scheduler.py:136-152 | The method clears one flag and adds one notice exactly as the ledger's announcement does. |
| Notebooks.Tables.Admit | gateway/app/routers/notebooks.py:78-95 | The grant look-up and quota check; the tables change only by the quota notice. |
| Notebooks.Tables.TellSharers | gateway/app/routers/notebooks.py:140-145 | The loop appends exactly the specified sharing notices. |
| Notebooks.Tables.Commit | gateway/app/routers/notebooks.py:133-155 | The rows committed after the Hub call: halted old run, new run, sharing notices, consumed grant. |
| Notebooks.Tables.Launch | gateway/app/routers/notebooks.py:61-160 | Maintenance turns everybody but staff away with nothing changed (503), an unknown account is refused (401); otherwise the handler takes the ledger step `Launch`: the plan is made on the table that still shows the old run, and a Hub failure (502) leaves nothing behind but the quota notice. |
| Notebooks.Tables.Stop | gateway/app/routers/notebooks.py:179-193 | The handler takes the ledger step `Stop`. |
| Notebooks.Tables.RequestBoost | gateway/app/routers/notebooks.py:296-313 | The loop expires the user's pending requests and nothing else, then one request is added. |
| Notebooks.Tables.ApproveBoost | gateway/app/routers/admin.py:444-464 | Takes the ledger step `Approve`, where no size or a size of zero keeps what was asked for; refused if and only if the request is unknown or already decided. |
| Notebooks.Tables.DenyBoost | gateway/app/routers/admin.py:467-485 | Takes the ledger step `Deny`; refused if and only if the request is unknown or already decided. |
| Notebooks.Tables.SetQuota | gateway/app/routers/admin.py:649-663 | Unknown accounts are answered 404 and the owner's 403 with nothing changed; otherwise the step `SetQuota`, clearing the cap when asked to. |
| Notebooks.Tables.Register | gateway/app/routers/nodes.py:32-66 | Takes the ledger step `Register`: a new node is added, a known one comes back online even if it was draining, empty labels keep the old ones. |
| Notebooks.Tables.Heartbeat | gateway/app/routers/nodes.py:68-88 | Takes the ledger step `Heartbeat`: a drain survives it; an unknown node is refused. |
| Notebooks.Tables.DrainNode | gateway/app/routers/admin.py:400-414 | Takes the ledger step that sets a node draining; an unknown node is refused. |
| Notebooks.Tables.ActivateNode | gateway/app/routers/admin.py:416-429 | Takes the ledger step that sets a node online; an unknown node is refused. |
| SlidingWindow.AllowsWhenRoomLeft | gateway/app/ratestore.py:29-37 | In every run with a monotone clock a call is allowed if and only if fewer than `limit` earlier allowed calls of its key lie in (now - window, now]. |
| SlidingWindow.LimiterRefinesReference | gateway/app/ratestore.py:29-37 | The trimmed deque lets through exactly the calls that a reference limiter keeping the whole history lets through. |
| SlidingWindow.WindowNeverOverfull | gateway/app/ratestore.py:29-37 | No half-open window of any run holds more than `limit` allowed calls of a key. |
| SlidingWindow.SpacedBounds | gateway/app/ratestore.py:32-37 | Events `limit` places apart being a window apart bounds every half-open window, wherever it starts. |
| NonceCache.SeenExactly | gateway/app/ratestore.py:39-48 | With no assumption on load: the cache answers "seen" if and only if the nonce is among the last 100,000 recorded and was recorded within the time to live. |
| NonceCache.SeenWithinCapacity | gateway/app/ratestore.py:39-48 | While at most 100,000 nonces were recorded within the time to live, it answers "seen" if and only if the nonce was recorded within it. |
| NonceCache.CacheWellFormed | gateway/app/ratestore.py:39-48 | The cache never holds more than 100,000 entries and holds each nonce once. |
| NonceCache.NeverFalseAlarm | gateway/app/ratestore.py:39-48 | A nonce that was never presented is never reported as seen. |
| Fleet.IntervalMeetsTwoBuckets | gateway/app/ratestore.py:85 | Any half-open interval one window long meets only two aligned Redis buckets. |
| Fleet.RedisBound | gateway/app/ratestore.py:85-90 | Whatever replies are lost, one Redis bucket lets at most `limit` calls of a key through. |
| FleetAnswers.RedisAnswersExactly | gateway/app/ratestore.py:60-104 | Redis answers a call if and only if the replica has an open client, or its back-off is over and a ping works, and nothing is lost: the command, or the expiry after the first call of a window. |
| FleetAnswers.BackOffExactly | gateway/app/ratestore.py:60-79 | After a call that Redis answered the replica has a client; after any other it has none, and an attempt that failed puts the next one off by 5.0 seconds. |
| FleetAnswers.FailureKeepsOff | gateway/app/ratestore.py:66-79 | For five seconds after a failed attempt every call of the replica is answered from memory, however well the network does, in every continuation. |
| FleetAnswers.RedisAllowsExactly | gateway/app/ratestore.py:85-90 | In every run Redis lets a call through if and only if fewer than `limit` calls of its key have reached it in the aligned window. |
| FleetAnswers.RedisSeesExactly | gateway/app/ratestore.py:99-101 | In every run Redis calls a nonce seen if and only if it last took it as new less than its lifetime, rounded up to a whole second, ago. |
| FleetAnswers.MemoryAllowsExactly | gateway/app/ratestore.py:29-37 | In every run a replica that falls back lets a call through if and only if fewer than `limit` of those it has let through from memory lie in the window. |
| FleetAnswers.MemorySeesExactly | gateway/app/ratestore.py:39-48 | In every run a replica that falls back calls a nonce seen if and only if it is among the last 100,000 it took as new and was taken within the time to live. |
| Fleet.MemoryBound | gateway/app/ratestore.py:81-93 | Each replica's fallback memory stays a sound sliding window over the calls it let through, however it alternates with Redis. |
| Fleet.FailoverRateBound | gateway/app/ratestore.py:60-93 | With R replicas and any pattern of failures, lost replies and reconnects, any half-open interval of one window holds at most (2 + R) * limit allowed calls per key, and at most R * limit without Redis. |
| FleetWitness.RateBoundIsReached | gateway/app/ratestore.py:81-93 | For every fleet that uses Redis, every window and every positive limit, a run that lets (2 + R) * limit calls through in one window: the bound is exact. |
| FleetWitness.RateBoundWithoutRedis | gateway/app/ratestore.py:81-93 | Without Redis every fleet reaches R * limit. |
| Fleet.RateBoundByRedis | gateway/app/ratestore.py:85-90 | As long as Redis lets every call for a key through, any half-open window holds at most 2 * limit of them, for any number of replicas. |
| Fleet.RateBoundWithRedis | gateway/app/ratestore.py:81-93 | The deployment as intended: while Redis answers every call, any half-open window holds at most 2 * limit allowed calls per key. |
| FleetWitness.TwiceLimitIsReached | gateway/app/ratestore.py:85-90 | While Redis answers every call, a run that lets 2 * limit calls through in one window, for every window and positive limit. |
| Fleet.CacheMirrors | gateway/app/ratestore.py:95-104 | Each replica's memory mirrors the nonces it has called new, however it alternates with Redis. |
| Fleet.RedisHolds | gateway/app/ratestore.py:99-101 | Redis keeps every nonce it has called new for longer than its time to live. |
| Fleet.NewOncePerHolder | gateway/app/ratestore.py:95-104 | No holder (the shared Redis, or one replica's memory) calls a nonce new twice within the time to live, whatever fails in between. |
| RateStore.Memory.Allow | gateway/app/ratestore.py:29-37 | The popping loop and append take exactly the sliding-window step of that key and leave other keys and nonces alone. |
| RateStore.Memory.SeenNonce | gateway/app/ratestore.py:39-48 | The purge loop, look-up, insertion and eviction take exactly the nonce-cache step. |
| RateStore.RedisServer.Incr | gateway/app/ratestore.py:87 | INCR as a client sees it, including a lost command and a lost reply. |
| RateStore.RedisServer.Expire | gateway/app/ratestore.py:89 | EXPIRE as a client sees it. |
| RateStore.RedisServer.SetIfAbsent | gateway/app/ratestore.py:100 | SET NX EX as a client sees it. |
| RateStore.Store.GetRedis | gateway/app/ratestore.py:60-75 | The client is kept, not retried before its time, or connected; a failed ping backs off for 5 seconds. |
| RateStore.Store.DropClient | gateway/app/ratestore.py:77-79 | The client is forgotten and not retried for 5 seconds. |
| RateStore.Store.Allow | gateway/app/ratestore.py:81-93 | Takes exactly the Redis-first step with fallback that the fleet theorems are about. |
| RateStore.Store.SeenNonce | gateway/app/ratestore.py:95-104 | Takes exactly the Redis-first nonce step with fallback that the fleet theorems are about. |
| Signing.CanonicalDetermines | gateway/app/security.py:138-140 | The canonical string of one-line fields determines method (up to case), path, timestamp, nonce and body digest, even when the path contains newlines. |
| Signing.CanonicalLines | gateway/app/security.py:138-140 | The lines of the canonical string of one-line fields are the method in capitals, the path, the timestamp, the nonce and the body digest, in this order. |
| Signing.UpperExactly | gateway/app/security.py:140 | Upper-casing turns each of the 26 letters into its capital and leaves every other character. |
| Signing.AcceptedExactly | gateway/app/middleware/request_signing.py:60-124 | After every run a signed request is let in if and only if signing is on, the method is protected, no exempt prefix starts the path, timestamp, nonce and signature are there, the timestamp is within the skew or not-a-number, the holder that answers does not know the nonce, the bearer's session has a row that is not revoked, and the MAC with that row's key is the signature. |
| Signing.NonceLookedUpExactly | gateway/app/middleware/request_signing.py:94-103 | The store is asked about a nonce exactly for a covered, complete request whose timestamp is in time. |
| Signing.ScreenedExactly | gateway/app/middleware/request_signing.py:94-101 | Each refusal before the nonce look-up is given exactly for its reason, with its status. |
| Signing.RefusalsAreTrue | gateway/app/middleware/request_signing.py:102-124 | Each refusal after the nonce look-up is a 401 given exactly for its reason, in the order of the checks. |
| Signing.RevokedSessionIsOut | gateway/app/middleware/request_signing.py:113-121 | Once the row of a session is revoked or gone, no signed request that claims the session is let in again, in any run. |
| SigningSessions.EndedSessionSignsNothing | gateway/app/middleware/request_signing.py:113-121 | Against the session table of any run: a session that is revoked or gone gets no signed request in, whatever logins, refreshes and requests follow. |
| SigningSessions.LogoutEndsSigning | gateway/app/routers/auth.py:190-222 | After a granted logout with a session, and after a granted refresh of it, no signed request of that session is let in. |
| Signing.SameSignatureSameEnvelope | gateway/app/security.py:138-152 | Where the MAC does not collide on the two messages, two accepted requests with one signature agree on method, path, timestamp, nonce and body digest. |
| Signing.AcceptedAtMostOncePerHolder | gateway/app/middleware/request_signing.py:90-124 | In every run of any number of replicas a signed envelope with an ordinary timestamp is accepted at most once on the word of each holder of nonces. |
| Signing.ReplayBound | gateway/app/middleware/request_signing.py:90-124 | With R replicas behind one Redis a signed envelope is accepted at most 1 + R times, and at most R times without Redis. |
| Signing.AtMostOnce | gateway/app/middleware/request_signing.py:90-124 | A single gateway with the in-process store never accepts a signed envelope twice. |
| Signing.RepeatableExactly | gateway/app/middleware/request_signing.py:96-101 | A properly signed request can be accepted twice by one holder if and only if its timestamp header reads as not-a-number. |
| Signing.RepeatNotANumber | gateway/app/middleware/request_signing.py:96-101 | A concrete run, within every assumption, that accepts such a request twice. |
| SigningFleet.ReplayBoundIsReached | gateway/app/ratestore.py:95-104 | For every number of replicas, with or without Redis, a run within every assumption of the bound that accepts a timely request as often as the bound allows: 1 + R times with Redis, R times without. |
| SigningFleet.FleetRepeatsExactly | gateway/app/middleware/request_signing.py:90-124 | Over all deployments and timestamps: a properly signed request can be accepted twice if and only if its timestamp is not-a-number and there is a gateway, or it is an ordinary time and there are two replicas or one that uses Redis. |
| SigningFleet.OnceWhileRedisVouches | gateway/app/ratestore.py:99-101 | As long as every acceptance of an envelope rested on the shared Redis, it is accepted at most once, by however many replicas. |
| SigningFleet.AtMostOnceWithRedis | gateway/app/middleware/request_signing.py:90-124 | The deployment as intended: while Redis answers, no number of replicas accepts an envelope twice. |
| SigningFleet.OutOfTime | gateway/app/middleware/request_signing.py:96-101 | A request whose timestamp is malformed or infinite is never accepted. |
| Middleware.DrainBody | gateway/app/middleware/request_signing.py:78-88 | The draining loop returns the specified request body for every sequence of deliveries, disconnects included. |
| Middleware.BodyExactly | gateway/app/middleware/request_signing.py:78-88 | The body is the parts up to and including the first delivery that is a last part or a disconnect, in order; deliveries of other kinds are passed over. |
| Middleware.BodyIsConcatenation | gateway/app/middleware/request_signing.py:78-88 | A body sent in parts is the concatenation of the parts, and nothing after the last part is read. |
| Middleware.SigningMiddleware.Serve | gateway/app/middleware/request_signing.py:67-136 | The handler gives the verdict and effect of `Judge`. A covered request is forwarded only if complete, in time, of a session whose row is there and not revoked, and signed with its key, and then with exactly the body that was verified; an uncovered one is handed on untouched; a rejected one is not handed on. |
| Middleware.SigningMiddleware.ServeNext | gateway/app/middleware/request_signing.py:67-136 | As the next request of a run of the fleet, the handler forwards it if and only if it is not covered or meets each condition of Signing.AcceptedExactly, and leaves store and Redis where the run does. |
| Middleware.ReplayIsRefused | gateway/app/middleware/request_signing.py:102-103 | A served request whose envelope its nonce holder has let in before is not accepted. |
| Json.DecodeEncode | gateway/app/audit.py:23-34 | A reader by the JSON grammar gets back from the compact text exactly the value that was written, for every value. |
| AuditChain.CanonicalReads | gateway/app/audit.py:21-34 | Whoever reads the canonical text of a row as JSON finds there exactly the keys action, actor, detail, ip, target, ts, in this order, each with its field. |
| Json.EscapeReads | gateway/app/audit.py:23-34 | An escaped character, followed by anything, determines the character. |
| Json.QuoteReads | gateway/app/audit.py:23-34 | A quoted string, followed by anything, determines the string and the rest. |
| Json.EncodeReads | gateway/app/audit.py:23-34 | The compact JSON text of a value, followed by anything a number cannot swallow, determines the value and the rest. |
| Json.EncodeInjective | gateway/app/audit.py:23-34 | Two values with the same JSON text are equal. |
| AuditChain.CanonicalInjective | gateway/app/audit.py:21-34 | The canonical text of a row determines every covered field. |
| AuditChain.InputSplits | gateway/app/audit.py:68 | The hashed text `prev_hash + canonical` splits uniquely: prev_hash is empty or 64 hex characters and the JSON text starts with a brace. |
| AuditChain.VerifierAcceptsChained | gateway/app/audit.py:73-81 | The verifier accepts a log if and only if every row's hash fits its predecessor and fields. |
| AuditChain.VerifierFindsFirst | gateway/app/audit.py:73-81 | Otherwise it reports the id of the first row that does not fit. |
| AuditChain.TailHashFixesLog | gateway/app/audit.py:65-81 | Two logs that verify and end in the same hash have the same length and the same covered fields in the same order, as long as SHA-256 does not collide on their inputs. |
| AuditChain.HashesDistinct | gateway/app/audit.py:65-81 | No two rows of an intact log have the same hash. |
| AuditChain.RewriteIsLocated | gateway/app/audit.py:73-81 | After rewriting any covered field or the hash of row k the verifier answers exactly row k, or row k + 1 when k's hash was recomputed, or nothing when k was the last row and was recomputed. |
| AuditChain.DeletionIsLocated | gateway/app/audit.py:73-81 | After deleting a row that is not the last the verifier answers exactly the row after it. |
| AuditChain.TruncationVerifies | gateway/app/audit.py:73-81 | Dropping any number of rows from the end leaves a log that verifies: truncation is not detected. |
| AuditChain.PruningIsReported | gateway/app/maintenance.py:36-44 | Retention: after dropping the oldest k rows the verifier answers the first row kept, unless nothing or everything was dropped. |
| Audit.AuditTrail.Append | gateway/app/audit.py:54-70 | The insertion appends exactly the specified row, chained to the last one, and keeps the table intact. |
| Audit.AuditTrail.Record | gateway/app/audit.py:37-70 | The owner's actions are never recorded; every other call appends exactly one chained row and keeps the table intact. |
| Audit.AuditTrail.VerifyChain | gateway/app/audit.py:73-81 | The verification loop answers the first row that does not fit, and true if and only if the log is chained. |
| Audit.AppendKeepsTable | gateway/app/audit.py:54-70 | Appending keeps the chain, the storability of rows and the strict order of ids. |
| Audit.RecordedLogVerifies | gateway/app/audit.py:37-81 | Every log built by serialised `record` calls verifies. |
| SessionAnswers.LoginAnsweredExactly | gateway/app/routers/auth.py:147-187 | In every state a login is granted if and only if the account exists, is not locked at that time, the password is right, the status is approved, and the code is right if the second factor is on; each refusal is given exactly for its reason. |
| SessionAnswers.LoginChangesExactly | gateway/app/routers/auth.py:53-94 | A granted login adds one session for the refresh lifetime and two tokens for the access lifetime and clears the counter; a wrong password or code counts, and the fifth locks for 900.0 seconds; any other login changes nothing. |
| SessionAnswers.RefreshAnsweredExactly | gateway/app/routers/auth.py:190-212 | A refresh is granted if and only if the token is the gateway's, unexpired and a refresh token, its session is there, unrevoked and not over, and its account approved; then the old session is revoked and one new one issued. |
| SessionAnswers.RequestAnsweredExactly | gateway/app/deps.py:31-67 | A request is granted if and only if the token is the gateway's, unexpired and an access token, its session is there, unrevoked and not over, the account is approved, not past its date unless staff, owes no password change unless the path is exempt, and what the handler asks for is right. |
| SessionAnswers.RequestChangesExactly | gateway/app/routers/auth.py:215-301 | What a request changes, and that nothing else does: a logout its session, a password change the duty and the user's other sessions, the second factor its flag, a lapse the status. |
| SessionAnswers.RedeemAnsweredExactly | gateway/app/routers/internal.py:22-47 | A single-use token is accepted if and only if it was minted, is unused and not over, and an approved account has its name; it is spent in any case. |
| SessionAnswers.HubCheckAnsweredExactly | gateway/app/routers/internal.py:50-73 | The Hub's check is granted if and only if the password is right and the account approved, and changes nothing. |
| SessionAnswers.AddUserChangesExactly | gateway/app/routers/admin.py:318-345 | A new account has no end, second factor, failure or lock; an account id already taken keeps its row. |
| SessionAnswers.AdminAnsweredExactly | gateway/app/routers/admin.py:82-86 | An administrator's action is granted if and only if the account exists and is not an owner's, it is not one's own suspension, deletion or change of role, and it does not hand out the owner role. |
| SessionAnswers.AdminChangesExactly | gateway/app/routers/admin.py:134-310 | What a granted action changes, field by field, and that no other account, token or single-use token changes. |
| SessionRules.OwnerStays | gateway/app/routers/admin.py:82-86 | In every continuation of every run the owner's account keeps its row, name, role, status and end. |
| SessionRules.OwnersWereAdded | gateway/app/routers/admin.py:134-163 | Whoever is an owner was added as one: no request makes an owner of anybody. |
| SessionRules.ResetForcesChange | gateway/app/deps.py:62-65 | After an administrator's password reset, until the password is changed, the user's requests get nothing done but looking at the account, logging out and that change, in every continuation. |
| SessionRules.RedeemedExactly | gateway/app/routers/internal.py:34-47 | Over every run, sweeps included: a minted token gets its bearer in if and only if it is presented within its lifetime, for the first time, and an approved account has the name it was minted for. |
| SessionRules.SweepLeavesExactly | gateway/app/maintenance.py:27-35 | A sweep leaves exactly the single-use tokens that can still be redeemed and the sessions issued no more than two refresh lifetimes ago, unchanged. |
| SessionLineage.Lineages | gateway/app/routers/auth.py:66-94 | In every run with fresh ids each login's chain has at most one unrevoked session, and every token belongs to its session's owner and carries the access lifetime. |
| SessionLineage.RotatedOnce | gateway/app/routers/auth.py:190-212 | A refresh token yields at most one successor, and once it has, its session is never live again. |
| SessionLineage.RevokedForever | gateway/app/deps.py:40-44 | A session that is revoked or gone is never live again, whatever follows. |
| SessionLineage.EndedForever | gateway/app/routers/auth.py:205-212 | A chain without an unrevoked session never has one again, whatever follows. |
| SessionLineage.ExpelledStayOut | gateway/app/routers/admin.py:184-208 | After a granted suspension, administrator's password reset or deletion, any token that works for that user later, reinstatement included, descends from a login made after it. |
| SessionLineage.RootIsLogin | gateway/app/routers/auth.py:147-187 | Every chain starts at a login by the owner of all its sessions which deserved one at that point of the run: account known, not locked, password right, status approved, and the code right if the second factor was on. |
| SessionLineage.PasswordChangeEndsOthers | gateway/app/routers/auth.py:230-250 | A successful password change cuts every other chain of the user for good and leaves the session that made it live. |
| SessionLineage.ChainCutExactly | gateway/app/deps.py:40-44 | In every reachable state an event ends a chain that has a live session if and only if it is a logout with that session, a password change with another session of the user, a granted suspension, password reset or deletion, or a sweep once the session is a refresh lifetime past its end. |
| SessionReturns.InterruptedIsOut | gateway/app/deps.py:49-60 | From a rejection or a lapse until the account is approved again, whatever else happens, none of its tokens opens anything. |
| SessionReturns.ReinstatedExactly | gateway/app/routers/admin.py:211-230 | After a rejection, or a suspension by expiry, and a reinstatement, a refresh token works again if and only if its session is unrevoked and unexpired; a request also needs the account not to have lapsed and no password change to be due. |
| SessionReturns.LivesExactly | gateway/app/deps.py:40-44 | A live session is still live at a later point of any run if and only if no event in between has cut its chain or traded it for a successor. |
| SessionReturns.RefreshWorksExactly | gateway/app/routers/auth.py:190-212 | Whatever rejections, lapses and reinstatements lie between, a refresh token of a live session works at a later time if and only if its session has been spared since, the access lifetime has not run out, and the account is approved then. |
| SessionReturns.RejectedComesBack | gateway/app/routers/admin.py:166-181 | A concrete run: the session of a user who was rejected and reinstated works again. |
| SessionReturns.LoginIgnoresExpiry | gateway/app/routers/auth.py:147-187 | A login is answered the same whatever the account's expiry date is. |
| SessionReturns.LapsedFoundOutAtOnce | gateway/app/deps.py:55-60 | The first request after a login is refused as expired, and the account suspended with its session left live, if and only if the date has passed for an account that is not staff. |
| SessionLineage.RefreshWindowExactly | gateway/app/routers/auth.py:86-88 | While its session is live and its account approved, a refresh token works exactly until the access lifetime, not the refresh lifetime, is over. |
| SessionLockout.LockoutBound | gateway/app/routers/auth.py:53-63 | Between resets any half-open 15 minutes hold at most 5 failed password or OTP checks of an account, and the stored counter stays below 5. |
| SessionLockout.WindowBound | gateway/app/routers/auth.py:53-63 | Across resets: with r sessions issued to the account inside a 15-minute window and no password reset or deletion from its start on, the window holds at most 4 * r + 5 failed checks. |
| SessionLockout.LockedOut | gateway/app/routers/auth.py:163-164 | For 15 minutes after a fifth failure each login is answered 423, its password right or wrong, and changes nothing, whatever else happens meanwhile (refreshes and issued sessions included) short of an administrator's password reset or the account's deletion. |
| SessionLockout.LockLasts | gateway/app/routers/auth.py:53-63 | No event but a password reset or deletion moves or lifts a standing lock before its time. |
| SessionLockout.NextIsFifth | gateway/app/routers/auth.py:57-60 | The stored counter reaches its limit exactly at every fifth failed check since the last reset. |
| SessionLockout.HubCheckIgnoresLock | gateway/app/routers/internal.py:50-73 | While the login of a locked account is refused, the Hub's credential check grants exactly a right password for an approved account. |
| SessionLockout.HubChecksUncounted | gateway/app/routers/internal.py:50-73 | Taking every Hub check, failed ones included, out of a run leaves the same state: nothing counts them. |
| SessionLockout.OneMoreFailure | gateway/app/routers/auth.py:53-63 | The counter is the failure streak modulo five and the lock is set by each full five; one more failure, made while not locked, keeps failures five apart at least 15 minutes apart. |
| SessionCleanup.CleanupUnobservable | gateway/app/maintenance.py:23-51 | Taking every sweep out of a run changes no later decision: session look-ups get the same status code, refresh, redemption and login the same answer. |
| SessionCleanup.CleanupKeepsWording | gateway/app/maintenance.py:31-35 | When access tokens live at most two refresh lifetimes, as configured, not even the wording of a refusal changes. |
| SessionCleanup.SweptAfter | gateway/app/maintenance.py:27-35 | The swept tables are always the full ones less only sessions a refresh lifetime past their end and single-use tokens that are used or expired. |
| SessionCleanup.RedeemedOnce | gateway/app/routers/internal.py:34-49 | A single-use token is accepted at most once in any run, however often the tables are swept. |
| Accounts.Gateway.RegisterFailure | gateway/app/routers/auth.py:53-63 | Counts one failure; the fifth locks for 15 minutes and sets the counter back. |
| Accounts.Gateway.IssueSession | gateway/app/routers/auth.py:66-94 | Adds one session and its two tokens and sets the failure counter back. |
| Accounts.Gateway.Login | gateway/app/routers/auth.py:147-187 | Takes exactly the step `Login`, lock before password before status before second factor; what that step grants and changes is SessionAnswers.LoginAnsweredExactly and LoginChangesExactly. |
| Accounts.Gateway.Refresh | gateway/app/routers/auth.py:190-212 | Takes exactly the step `RefreshWith`. |
| Accounts.Gateway.CurrentSession | gateway/app/deps.py:31-67 | Gives exactly the specified answer; the only change is suspending a lapsed account. |
| Accounts.Gateway.Serve | gateway/app/routers/auth.py:215-301 | Logout, password change and the second-factor handlers take exactly the step `Request`. |
| Accounts.Gateway.RevokeSessions | gateway/app/routers/admin.py:199-200 | The loop revokes exactly the user's sessions, or all but the current one. |
| Accounts.Gateway.SuspendUser | gateway/app/routers/admin.py:184-208 | Takes exactly the step `Suspend`, the refusals for an unknown account, the owner's and one's own included. |
| Accounts.Gateway.ResetUserPassword | gateway/app/routers/admin.py:249-273 | Takes exactly the step `ResetPassword`, refusals included. |
| Accounts.Gateway.SetUserStatus | gateway/app/routers/admin.py:211-230 | Rejecting or reinstating changes the status and leaves every session as it is; refusals included. |
| Accounts.Gateway.ApproveUser | gateway/app/routers/admin.py:134-163 | Takes exactly the step `EditUser` with the role asked for, and never grants the owner role. |
| Accounts.Gateway.Check | gateway/app/routers/admin.py:82-86 | The refusals at the head of an administrator's action: unknown account, the owner's, one's own. |
| Accounts.Gateway.DeleteUser | gateway/app/routers/admin.py:276-295 | The account goes and its sessions with it; refusals included. |
| Accounts.Gateway.BulkUsers | gateway/app/routers/admin.py:348-383 | A bulk action has exactly the effect of its single actions one after another, and reports exactly how many listed ids named a known account that is neither the owner's nor one's own. |
| Accounts.BulkExactly | gateway/app/routers/admin.py:348-383 | A bulk action gives every listed account that is known, not an owner's and not one's own the status asked for, or suspends it and revokes its sessions, or deletes it with them; no other account or session changes. |
| Accounts.Gateway.RedeemOtt | gateway/app/routers/internal.py:22-49 | Without the internal secret it is refused with nothing changed; otherwise exactly the step `Redeem`: the token is spent even when the account is refused. |
| Accounts.Gateway.Authenticate | gateway/app/routers/internal.py:50-73 | The Hub's credential check answers by secret, password and status, and changes nothing. |
| Accounts.Gateway.CleanupOnce | gateway/app/maintenance.py:27-35 | Deletes exactly the tokens and sessions the step `Cleanup` deletes and counts them. |
| Watchdog.Machine.Run | owner-setup/watchdog.sh:39-66 | One run of the script takes exactly the specified tick; what it does to mark, seals and wipes is Watchdog.MarkExactly, SealsExactly and WipesExactly, from the observations alone. |
| Watchdog.MarkExactly | owner-setup/watchdog.sh:39-52 | After every run, a tick leaves no mark if and only if it finds the tunnel up and does not find a database without an owner. |
| Watchdog.TunnelLostExactly | owner-setup/watchdog.sh:27-66 | With the tunnel down at every tick and no reboot, the platform is sealed exactly once, at the first tick, and the keys are erased exactly at the armed ticks that come the grace minutes (60 seconds each) or more after it. |
| Watchdog.WipesExactly | owner-setup/watchdog.sh:59-66 | A tick wipes if and only if auto-wipe is armed, the tick finds the tunnel down or no owner in the database, and the grace minutes have passed since the first tick of an episode that no tick with both intact and no reboot has broken since. |
| Watchdog.GraceIsKept | owner-setup/watchdog.sh:61-65 | With a grace of at least a minute, a wipe comes at least that many minutes after the tick that opened, and sealed, its episode. |
| Watchdog.EpisodeSealsOnce | owner-setup/watchdog.sh:47-57 | Throughout an unbroken episode the mark holds the time of its first tick, and the episode has sealed exactly once. |
| Watchdog.SealsExactly | owner-setup/watchdog.sh:47-57 | A tick seals if and only if it opens an episode. |
| Watchdog.OwnerRemovalWipesExactly | owner-setup/watchdog.sh:27-66 | With the tunnel up and the database gone while the mark stands, the wipes are exactly the armed ticks that find no owner and outlast their own grace period, which with a grace of zero is every such tick. |
| Watchdog.OwnerRemovalNeverWipes | owner-setup/watchdog.sh:27-66 | With the tunnel up and the database gone while the mark stands, removing the owner account never leads to a wipe if and only if no armed tick that finds no owner outlasts its own grace; so never with a grace of at least a minute and prompt ticks. |
| Watchdog.RedeployedTooSoon | owner-setup/watchdog.sh:47-66 | A concrete run in which it does: the platform is redeployed before the next tick, so it stays up unsealed and the clock runs on. |

## Left out

- Interleaved requests: the launch handler waits for the Hub between planning and committing; the model takes each request as one step, so the ownership results are for serialised launches.
- Containers: logout and suspension stop the user's server but leave the run row active; the results are about the ledger.
- Accounts.Gateway.DeleteUser: the cascade covers sessions only; the ledger's runs, boosts and notices of a deleted account stay in the model.
- Row objects that SQLAlchemy hands out twice (aliasing) and its flush order: tables are sequences and maps that the methods reassign.
- The order in which the database returns rows that nothing orders: table order is taken.
- Floating-point rounding of timestamps and GPU hours: times are real numbers, hours are rounded to two decimals as reals.
- Fleet.FailoverRateBound: `limit` and `window` of a key are fixed during a run, and all replicas share one clock.
- Signing.AcceptedAtMostOncePerHolder: the memory of each replica is assumed to record at most 100,000 nonces per time to live; beyond that the cache forgets by design.
- Signing.ReplayBound: counts acceptances by the signing layer; the session check of the handler behind it is in the session model.
- How a login names its account (username or e-mail): the model starts from the account found.
- The clock is read once per request; a launch reads it when it halts the old run and again when it records the new one.
- A log file that cannot be written, which under `set -e` would end a watchdog tick before it marks and seals.
- Header parsing in the middleware (decoding, duplicate names): a request arrives as its fields.
- The HMAC, SHA-256, bcrypt, TOTP and JWT internals, and the `nbf`, `iat` and `iss` claims, which hold for every token the gateway issued while the clock does not run backwards.
- AuditChain.TailHashFixesLog: covers the hashed fields only; actor_label, user_agent and the stored prev_hash column are not hashed by the code.
- Key order of `detail`: the encoder writes members in the order given; sorting happens before it and is not modelled. The text of a float is given, not computed.
- Accounts.Gateway.CleanupOnce: audit retention is off, as it is by default; what pruning does to the verifier is in AuditChain.
- AuditChain.PruningIsReported: the rows pruned are a prefix, which is what an age limit selects when timestamps grow with ids.
- Audit.RecordedLogVerifies: a stored timestamp is taken to read back as the text that was hashed; the code tags naive values but does not convert aware ones to UTC (`gateway/app/timeutil.py:15-20`), so this depends on the time zone of the database session.
- SessionCleanup.CleanupUnobservable: compares answers, not the sweep's own row counts.
- SessionLineage.ExpelledStayOut: an account that was merely rejected or expired is not covered, because its sessions are not revoked.
- Who may act as administrator, invitations, tags, announcements and the cluster view: each is settled by reading one branch.
- What seal and wipe do to disks and containers: they are counted, not carried out.
- Watchdog.OwnerRemovalNeverWipes: assumes that the seal does take the database down.
- Hub, Docker, Swarm, Redis and PostgreSQL themselves, the web and terminal interfaces, installation, backup and monitoring scripts.
