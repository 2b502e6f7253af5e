# reMazarin, verified model

reMazarin is a self-hosted reverse proxy for HTTP, TCP and UDP. This project models the parts of it that
keep state and proves what they promise, for all inputs, all runs and all interleavings:

- **the per-IP limiter** (`Throttle`, `Limiter`, `Admission`, `AutoBan`, `Eviction`, `BanMirror`, `History`): token
  buckets, the failure window that bans, tiers, the idle sweep, the ban set mirrored to a table, and the limiter's
  state and laws read off the history of a run that starts with nothing;
- **the UDP relay** (`UdpRelay`, `UdpSafety`, `UdpAdmission`, `UdpPumps`, `UdpDrain`): read loop, reply pumps and
  idle reaper as interleaved steps over one shared session map;
- **sessions and access** (`Text`, `Groups`, `Sessions`, `SessionRuns`, `SessionHistory`, `AuthGate`,
  `AccessDecisions`): the session table, its lookups, renewal and cleanup, and the three ways group membership is
  checked;
- **the gates together** (`Gate`, `GateRuns`, `GateReplies`, `GateHistory`, `GateBans`, `RateGate`, `Refusals`,
  `Tiers`): ban, route, rate limit and access control in the order a visit meets them, and runs that mix visits with
  the five-minute upkeep and the admin's acts; each is a run of the limiter and a run of the session store at once,
  so what holds over those runs holds at the gates;
- **the route registry** (`HostPort`, `RouteTable`, `Registry`, `StartupExact`, `LiveRouting`, `Registrations`,
  `Router`, `FrontDoor`, `RangeCreate`, `RangeLive`): the route table, which configurations start, the live
  listeners, what a request's Host header finds in them, and the creation of a port range with its rollback;
- **the event log** (`Metrics`): the ring of recent events and the counters.

`Prelude` holds the shared vocabulary. Each class does what the program does, in place and with its early
returns and loops. Its methods are proved equal to a step function on values, or state row by row what they
change and keep; `ParseProxies`, `InitProxies` and `StartProxy` say of a failing start only that it fails. The
lemmas are about runs of the step functions, and state in terms of the inputs and the history what those functions
come to. Time is a real number of seconds that each operation reads once.

`dafny verify dfyconfig.toml` checks everything. No proof relies on automatic induction: each lemma that Dafny
would otherwise induct on by itself carries `{:induction false}`, and an inductive proof calls itself.

## What the proofs found

- **The failure window does not slide.** `docs/concepts.md:188` says `ban_threshold` failures within a
  sliding `ban_window_sec` ban an address. The code keeps one window that restarts at the first failure
  after it lapses, so only `max(T, 2T - 2)` failures in a window's length are sure to ban, and for every
  `T >= 3` some run with `2T - 3` does not (`AutoBan.BanCompleteness`, `AutoBan.BanBoundIsTight`). The
  documented rule holds if and only if `T <= 2` (`AutoBan.WindowSlidesExactly`).
- **Not every policy keeps an address in check.** An address that does not log in is refused at most
  `max(T, 2T - 2)` times within one ban window if and only if the window is at most the half hour after which
  buckets are swept, or the threshold is one, and bans outlast the window (`Refusals.RefusalsAreBoundedExactly`).
- **A visitor can shorten a ban.** A failed TLS handshake is counted without asking for the ban, and the
  auto-ban it trips replaces the entry, also one without an end. Exactly which visits and which other acts
  end a ban early is `GateBans.VisitShortensBanExactly` and `GateBans.ActEndsBanExactly`.
- **Eviction is observable under slow policies.** It goes unnoticed exactly if half an hour refills one
  capacity and outlasts the ban window, unless each failure bans on its own (`Eviction.EvictionExact`).
- **Tiers do not fall back.** `docs/concepts.md:176` says the most specific enabled policy wins, down to
  anonymous. A web login gets the documented tier if and only if one of its groups, or signed-in, has an
  enabled policy (`Tiers.WebTierExactly`); otherwise it is never throttled (`Tiers.LoginIsUnlimited`, with an
  input in `Tiers.NoFallback`). A raw login ignores group policies altogether (`Tiers.RawPolicyExactly`).
- **The rate limit does not cover all traffic.** `docs/concepts.md:178` promises a tight limit on the login page,
  on all unauthenticated traffic. A visit meets the limit if and only if it is an HTTP request of an unbanned
  address to a host with a handler that the built-in API does not answer (`RateGate.ThrottledExactly`, `RateGate.TokensExactly`). So
  raw TCP and UDP flows, requests to unknown hosts and ports, failed handshakes and `/api/` requests on the
  auth and admin hosts, the login among them, spend no token; the last also count no failure and leave no
  event (`GateRuns.ApiRequestsAreFree`). `RateGate.LoginIsAnswered` is an input.
- **Some routes are out of reach.** The router lower-cases the Host header, takes IPv6 brackets off, and puts a
  header without a port on the default port of the scheme it came in on. A route is handed some request if and
  only if its host and port are `Reachable` (`Router.RouteIsReachedExactly`). `Example.com:80` and `[::1]:8080`
  never are (`Router.NeverReached`), and `[::1]:443` is not while no listener serves TLS
  (`Router.SchemeNotServed`).
- **The number check reads more than the text check.** A list such as `01` names group 1 for lookups by
  address and for nobody else; the checks agree exactly on lists that also write each number plainly
  (`Groups.SetAndNumbersAgree`). A list without any number restricts nobody on raw routes
  (`AccessDecisions.GroupsEnforcedExactly`).
- **Removing a route can touch other listeners.** `UnregisterRoute` stops both raw listeners of a port
  without an HTTP listener, and neither of a port with one (`LiveRouting.RemovalStopsExactly`). So the
  rollback of a range gives the raw tables back exactly on restorable ports (`RangeCreate.RollbackRestoresRaw`);
  `RangeCreate.RollbackLeavesUdp` and `RangeCreate.RollbackStopsUdp` are inputs on which it does not.
- The comment on `HandleExtendSession` speaks of a route's session duration; the code uses the global one.

## Model

| member | source | states |
|---|---|---|
| Throttle.RunKeepsSound | proxy/limiter.go:112-304 | over every run, tokens and failure counts stay non-negative, no bucket is stamped in the future, and a window is open exactly while failures are counted |
| Limiter.IpBucket.SetTier | proxy/limiter.go:125-133 | a promotion changes the tier and the time last seen, nothing else |
| Limiter.IpBucket.Allow | proxy/limiter.go:141-174 | refill, clamp, take a token or compute Retry-After: the new bucket and the verdict are those of the step function, unlimited tiers included |
| Limiter.IpBucket.CountFailure | proxy/limiter.go:179-204 | window restart, count and trip: the new bucket and the policy that trips, or none |
| Limiter.BanSet.Has | proxy/limiter.go:51-70 | an entry without expiry or not yet past it bans; a lapsed entry is dropped on the way, and only that one |
| Limiter.Limiter.BucketFor | proxy/limiter.go:112-120 | finds the bucket of the address or makes an anonymous, unfilled one; every address keeps a bucket of its own |
| Limiter.Limiter.SetTier | proxy/limiter.go:125-133 | the whole limiter after a promotion is the step function's |
| Limiter.Limiter.IsBanned | proxy/limiter.go:136-136 | the answer and the lazy deletion are the step function's |
| Limiter.Limiter.Allow | proxy/limiter.go:141-174 | the answer and the whole limiter after it are the step function's, with no other address touched |
| Limiter.Limiter.RecordFailure | proxy/limiter.go:179-210 | a failure is counted and, on a trip, banned in memory and table under the policy and tier that tripped |
| Limiter.Limiter.Ban | proxy/limiter.go:214-228 | a ban enters memory and table with one expiry, none for durations of zero or less |
| Limiter.Limiter.Unban | proxy/limiter.go:231-237 | lifting a ban clears memory and table |
| Limiter.Limiter.ReloadThrottle | proxy/limiter.go:259-288 | a reload replaces the policies by those stored, and the ban set by the active rows of the table; `History.PoliciesAreLastLoaded` says so over runs |
| Limiter.Limiter.SweepBuckets | proxy/limiter.go:292-304 | deleting while ranging removes exactly the buckets idle for over half an hour |
| Limiter.Limiter.CleanupExpiredBans | storage/throttle.go:144-147 | exactly the rows past their expiry go, every other stays as it was, and the table bans the same addresses now |
| Admission.LevelIsLeastSlack | proxy/limiter.go:141-174 | on an unswept bucket under one policy, the lazily refilled, clamped counter equals the minimum, over the whole history of calls, of capacity plus refill since that call less the calls admitted since |
| Admission.AdmissionLaw | proxy/limiter.go:141-174 | on an unswept bucket under one policy, a call is admitted if and only if no earlier-or-equal call `i` sees more than `B + r * (t_j - t_i)` admissions from `i` on, the present one included |
| Admission.RateBound | proxy/limiter.go:125-174 | on an unswept bucket, across tier changes and reloads, the calls admitted between two calls number at most `B + R * (t_j - t_i)` for bounds on the policies met |
| Admission.RetryAfterIsRight | proxy/limiter.go:156-173 | on an unswept bucket under one policy, after a denial answered `k`, a call `k` seconds later is admitted and one more than a second sooner is denied, with only denied calls between |
| Admission.DeniedCallsAreInvisible | proxy/limiter.go:156-173 | with no later sweep and one rate met from there on, leaving a denied call out of a run changes no later answer of any operation for any address |
| AutoBan.BanSoundness | proxy/limiter.go:179-210 | a trip at `t` is backed by at least the threshold's number of failures in `[t - W, t]` since the previous trip, whatever tiers, policies and sweeps came before |
| AutoBan.BanCompleteness | proxy/limiter.go:190-204 | a closed interval of length `W` that holds `max(T, 2T - 2)` failures contains a trip, if inside the interval nothing sweeps the bucket and the policies met have threshold `T` and window `W` |
| AutoBan.BanBoundIsTight | proxy/limiter.go:190-204 | for every `T >= 3` and `W` some run has `2T - 3` failures in such an interval and bans nobody |
| AutoBan.WindowSlidesExactly | proxy/limiter.go:190-204 | `T` failures in any such interval are sure to trip, as documented, if and only if `T <= 2` |
| Eviction.EvictionUnobservable | proxy/limiter.go:112-304 | with policies that half an hour forgets, sweeps anywhere in a run change no answer, Retry-After or ban of an address never promoted |
| Eviction.EvictionExact | proxy/limiter.go:292-304 | under one anonymous policy eviction is unobservable if and only if half an hour forgets that policy |
| Eviction.SlowRefillShows | proxy/limiter.go:292-304 | a refill slower than a capacity in half an hour shows: the sweep grants a second full burst |
| Eviction.LongWindowShows | proxy/limiter.go:292-304 | a ban window over half an hour, or one that never lapses, shows: the sweep forgets failures that would have tripped |
| BanMirror.ReloadMirrors | proxy/limiter.go:275-287 | loading the table makes memory mirror it, whatever memory held |
| BanMirror.MirrorAgreement | proxy/limiter.go:51-88 | after any run, memory and table disagree about an address at `t` exactly when `t` is the instant its entry expires |
| BanMirror.HousekeepingIsInvisible | storage/throttle.go:95-147 | lazy deletion, reload and table cleanup change no answer away from an instant of expiry |
| History.PoliciesAreLastLoaded | proxy/limiter.go:259-270 | over every run the policies in force are the argument of the last reload, or those it began with if there was none |
| History.TierIsLastSet | proxy/limiter.go:112-133 | the tier of an address that no sweep took is the one it was last promoted to, or anonymous |
| History.BucketsAreRecent | proxy/limiter.go:292-304 | an address has a bucket if and only if something touched it and no sweep since came more than half an hour after the last touch |
| History.GoverningIsPoliced | proxy/limiter.go:92-133 | from an empty start, the policy that governs an address is the one loaded last for the tier it was given last |
| History.AdmissionFromStart | proxy/limiter.go:141-174 | the admission law for a program that starts with nothing and loads its policies by reloads, with hypotheses on the history alone |
| History.FreeFromStart | proxy/limiter.go:141-149 | a call whose history puts its address under no enabled, positive rate is admitted and takes no token |
| History.BanFromStart | proxy/limiter.go:179-210 | from an empty start, `max(T, 2T - 2)` failures in a window length under loaded policies of threshold `T` and window `W` contain a trip |
| History.TripIsWatched | proxy/limiter.go:179-189 | only a failure under a policy that bans, with a positive threshold, ever trips |
| History.BanStep | proxy/limiter.go:202-228 | what a ban by hand or by a trip writes to memory and table: expiry, reason and tier |
| History.BannedExactly | proxy/limiter.go:51-288 | over every run from an empty start, a lookup finds a ban if and only if the last ruling on the address is a ban that has not ended, or ends at this instant with no reload at it in between; the table bans exactly until then |
| UdpSafety.RunInv | proxy/udp.go:99-216 | the invariant of map, sockets, pumps, reader and wait count holds in every state of every interleaving; who is dialled for, and what becomes of each datagram, are the rows of `UdpAdmission` |
| UdpSafety.MapSafety | proxy/udp.go:99-167 | each entry is a flow of its own client, every open target socket is its client's entry or was only just dialled, and no client has two |
| UdpSafety.InsertNeverOverwrites | proxy/udp.go:111-144 | although the map is unlocked between lookup and insert, the client is still unmapped at the insert and every other entry stays |
| UdpSafety.RemovalIsClean | proxy/udp.go:150-160 | whatever removes an entry has its socket closed by then, and a pump's cleanup removes only its own flow |
| UdpSafety.ReapedWereIdle | proxy/udp.go:198-217 | a flow is reaped only after a whole timeout without a datagram in either direction |
| UdpAdmission.FlowsAreAdmitted | proxy/udp.go:99-144 | in every interleaving each flow was dialled for its own client by a dial whose last steps of the read loop before it are that client's datagram, its lookup and its admission |
| UdpAdmission.RefusedAddsNothing | proxy/udp.go:124-131 | after a refusal no flow and no entry is added before the next lookup |
| UdpAdmission.SentOnOwnFlow | proxy/udp.go:107-167 | a datagram that is sent on goes to a flow of its own client, the mapped one if there was one at its lookup |
| UdpAdmission.SentOrDropped | proxy/udp.go:99-167 | a datagram is done with in one of three ways: sent on, dropped exactly because it was refused, or dropped exactly because the dial failed |
| UdpPumps.RepliesInOrder | proxy/udp.go:181-196 | a reply pump reads only when it has just started or delivered, and what it delivers is what it read last, its flow marked active in between |
| UdpPumps.FlowsCloseForCause | proxy/udp.go:150-217 | a flow's socket closes only with the relay, to a reaper that found it idle for two minutes, or by its own pump after a failed read or delivery |
| UdpDrain.CloseAllClosesEverything | proxy/udp.go:169-176 | once the loop has exited, closing the mapped sockets leaves no target socket open |
| UdpDrain.DrainStep | proxy/udp.go:150-204 | after that, every own step of a pump, the reaper or the reader lowers the measure of remaining work |
| UdpDrain.NeverStuck | proxy/udp.go:92-176 | until the relay has stopped, some goroutine can take a step |
| UdpDrain.StoppedIsEmpty | proxy/udp.go:169-176 | a stopped relay has count zero, an empty map and no open socket |
| UdpDrain.ShutdownDrains | proxy/udp.go:92-204 | from the close on, the goroutines take no more own steps than the measure and the reaper's ticks allow, so the wait ends |
| Text.SplitThenJoin | proxy/auth.go:106-106 | joining what splitting at commas gave restores the text |
| Text.JoinThenSplit | storage/sessions.go:209-209 | splitting undoes joining for parts without commas |
| Text.ItoaThenAtoi | storage/sessions.go:212-212 | reading back a printed 64-bit number gives the number |
| Text.ItoaInjective | proxy/auth.go:354-354 | no two numbers print alike |
| Text.AtoiExactly | storage/sessions.go:212-212 | a text is read as a number if and only if it is an optional sign, zeros and that number's plain digits |
| Text.TrimSpaceCuts | proxy/auth.go:107-107 | trimming cuts white space from both ends, all of it and nothing else |
| Groups.ParseGroupIDs | storage/sessions.go:205-217 | the loop yields the numbers among the trimmed entries, in order, skipping what is no number |
| Groups.ParseAllowedGroups | proxy/auth.go:102-114 | the loop yields the set of trimmed non-empty entries and the numbers among them |
| Groups.GroupsAllow | proxy/auth.go:352-359 | true exactly if the decimal form of some group is in the set |
| Groups.RouteAllows | storage/routes.go:316-333 | true exactly for an empty list, or one with an entry that trims to the decimal form of some group |
| Groups.TextAndSetAgree | storage/routes.go:316-333 | `RouteAllows` on the text and `groupsAllow` on its parsed set answer alike, for every text and every group list |
| Groups.SetAndNumbersAgree | proxy/auth.go:102-114 | set check and number check agree for every user if and only if each number of the list is also written plainly |
| Groups.LeadingZeroDisagrees | proxy/auth.go:102-114 | the list `01` names group 1 by number, and not by set or text |
| Groups.ParseUndoesPrint | storage/sessions.go:205-217 | `parseGroupIDs` undoes comma-joined printing of every list of ids |
| Groups.ThreeChecksAgree | storage/routes.go:316-333 | on comma-joined ids all three checks are the same intersection |
| Sessions.SessionDur | storage/settings.go:13-19 | a session lasts the hours set, or the default week when the setting is not positive |
| Sessions.LookupByIp | storage/sessions.go:136-175 | a session is found exactly when some live row on the address belongs to an existing user in an allowed group, however rows of others share the address; it is one that expires last |
| Sessions.StepKeepsConsistent | storage/sessions.go:37-264 | every request keeps tokens unique and ids in order |
| SessionRuns.CleanupUnobservable | storage/sessions.go:256-264 | cleaning up expired sessions anywhere in a run changes the answer of no request, because no renewal revives an expired row |
| SessionRuns.NoSessionIsShortened | storage/sessions.go:225-254 | with a fixed duration every expiry stays within it, so no operation shortens a session |
| SessionRuns.AccessRenewsInLockstep | proxy/auth.go:156-167 | with renewal on, an access authorised by address sets all live sessions of that user on that address to one fresh expiry, and touches no other row |
| SessionRuns.KeepAlive | storage/sessions.go:238-254 | with renewal on and fixed settings, while such accesses come less than the duration apart, no session the user held there at the first lapses, unless deleted on purpose |
| SessionHistory.LoginExactly | storage/sessions.go:37-51 | a login succeeds if and only if the user exists and no row holds the token, and adds one row, a full duration long |
| SessionHistory.RowsGoExactly | storage/sessions.go:219-264 | a row goes if and only if its token logs out, its owner or an admin revokes it, its user is deleted, or it has expired and is cleaned up |
| SessionHistory.RowsComeByLogin | storage/sessions.go:37-51 | nothing but a successful login adds a row |
| SessionHistory.SettingsAreLastSet | storage/settings.go:13-19 | over every run, duration, renewal, users and their groups are those set last |
| SessionHistory.LoginOpens | storage/sessions.go:37-118 | after a login, until its duration has passed and unless it is taken away on purpose, the token names that session of that user, with the groups the user then has |
| SessionHistory.LogoutCloses | storage/sessions.go:219-223 | after a logout, until a new login succeeds with the token, it names no session and nobody is behind it |
| AuthGate.ParseCachedRoute | proxy/auth.go:102-114 | a cached route carries the parsed form of its own group list |
| AuthGate.Storage.CreateSession | storage/sessions.go:37-51 | one row is added with the duration asked for, or none if the token is taken or the user missing |
| AuthGate.Storage.DeleteSession | storage/sessions.go:219-223 | exactly the rows of the token go and the others stay as they were; from then on the token opens nothing and every other token what it opened before |
| AuthGate.Storage.ExtendSession | storage/sessions.go:225-229 | the rows of the token get the new expiry and keep all else, every other row stays as it was |
| AuthGate.Storage.ExtendSessionByID | storage/sessions.go:233-236 | the row of the id gets the new expiry if it exists, every other row stays as it was |
| AuthGate.Storage.ExtendUserSessionsByIP | storage/sessions.go:246-254 | the live rows of the user on the address get the new expiry; lapsed rows, other users' and other addresses' stay as they were |
| AuthGate.Storage.CleanupExpiredSessions | storage/sessions.go:256-264 | exactly the rows past their expiry go and the others stay as they were |
| AuthGate.Storage.ValidateSessionAndGroups | storage/sessions.go:99-118 | the lookup by token, with the user's groups read back from their text |
| AuthGate.Storage.ValidateSessionByIPInGroups | storage/sessions.go:136-175 | the lookup by address and groups |
| AuthGate.Storage.CookieAuth | proxy/auth.go:275-332 | the cookie checks in order, and the renewal on success |
| AuthGate.Storage.WithAuth | proxy/auth.go:219-332 | the access decision for an HTTP request and the renewal it makes are the step function's |
| AuthGate.Storage.AuthorizeIP | proxy/auth.go:149-174 | the access decision for a raw flow and the renewal it makes are the step function's |
| AuthGate.Storage.HandleExtendSession | api/auth.go:306-347 | the answer and the store after it are those of the request step, of which `AccessDecisions.ExtendGrantedExactly` says who may extend |
| AccessDecisions.CookieGrantedExactly | proxy/auth.go:275-332 | a cookie gets through exactly if the route takes cookies, it names a live session, and the route takes any login or lists one of the user's groups |
| AccessDecisions.HttpGrantedExactly | proxy/auth.go:219-332 | exactly which HTTP requests get through, free of the order of the checks |
| AccessDecisions.RawGrantedExactly | proxy/auth.go:149-174 | exactly which raw flows get through |
| AccessDecisions.HttpAnswersExactly | proxy/auth.go:204-335 | every answer to an HTTP request and when it is given: open, by address, listed, by cookie, 403 or 407 |
| AccessDecisions.RawAnswersExactly | proxy/auth.go:149-176 | every answer to a raw flow and when it is given |
| AccessDecisions.CookieRefusedExactly | proxy/auth.go:275-319 | a cookie is refused with 403 exactly if it names a live session and the route takes cookies and names groups; every other refusal is a 407 |
| AccessDecisions.CookieRenewsItsRow | proxy/auth.go:320-322 | a granted cookie sets its own row to one duration from now and no other, if renewal is on, and else nothing |
| AccessDecisions.OnlySessionsRenew | proxy/auth.go:156-332 | an access that no session authorised, or any with renewal off, leaves the sessions alone |
| AccessDecisions.ExtendGrantedExactly | api/auth.go:306-347 | an extension is granted if and only if it is a POST, the cookie names a live session of an existing user, and the route is known and its list empty or holding an entry that trims to one of the user's groups; the exact condition of 405, 401, 400, 404 and 403; the row extended, and that nothing else changes |
| AccessDecisions.HttpAndRawAgree | proxy/auth.go:149-261 | where addresses authorise, HTTP and raw traffic pick the same session and renew the same rows, and HTTP admits whatever raw traffic does |
| AccessDecisions.GroupsEnforcedExactly | proxy/auth.go:156-167 | a raw route that names groups admits by session only their members if and only if its list holds a number |
| Gate.Gateway.ResolvedTier | proxy/limiter.go:101-110 | the loop finds the tier of the step function |
| Gate.Gateway.CheckAccess | proxy/auth.go:204-341 | access control with its event, its promotion or its counted failure |
| Gate.Gateway.ServeWithAuth | proxy/auth.go:178-333 | ban, token, access control: reply, limiter, sessions and events after the request |
| Gate.Gateway.HandleFlow | proxy/tcp.go:85-117 | reply, limiter, sessions and events after a raw connection, or the first datagram of a flow (proxy/udp.go), with a backend that cannot be dialled |
| Gate.Gateway.ServeHTTP | proxy/router.go:24-53 | the same from the router on, with missing listeners and hosts, and the built-in API behind the ban |
| Gate.Gateway.TlsHandshakeError | proxy/listeners.go:22-40 | a failed handshake leaves an event and a counted failure |
| GateRuns.EventsTellReplies | proxy/auth.go:178-341 | the events of a visit tell what became of it, which is answered by the built-in API or finds no backend under exactly the stated conditions |
| GateRuns.OneEventExactly | proxy/proxy.go:381-403 | a visit leaves exactly one event, unless the built-in API answers it, which leaves none, or it is a TCP connection let in whose backend cannot be dialled, which leaves two |
| GateRuns.ApiRequestsAreFree | proxy/proxy.go:389-403 | a request that the built-in API answers spends no token and counts no failure |
| GateReplies.AnsweredExactly | proxy/proxy.go:381-403 | the built-in API answers a visit if and only if it is unbanned and asks a host that takes API requests for `/api/` and the name of a handler |
| GateReplies.RefusedExactly | proxy/router.go:26-53 | exactly which visits are refused with 503, 404, 407 and 403, and that there is no other status |
| GateReplies.PassedExactly | proxy/auth.go:178-333 | exactly which visits get through to a backend, and which find it unreachable |
| GateHistory.LimiterRefines | proxy/auth.go:178-341 | over every run at the gates, the limiter is the limiter after exactly the bans asked for, tokens, failures, promotions, upkeep and admin acts that the moments and their replies tell of, in order |
| GateHistory.StoreRefines | proxy/auth.go:149-335 | over the same runs, the sessions are those after exactly the access checks of visits that get that far and the other requests, in order |
| GateHistory.BlockedExactly | proxy/limiter.go:51-288 | from an empty limiter, a visit is answered with the ban if and only if it is no failed handshake and the last ruling on its address is a ban not ended, or ending at this instant with no reload at it in between |
| RateGate.ThrottledExactly | proxy/auth.go:187-200 | a visit is throttled if and only if it is an unbanned HTTP request to a host with a handler, not answered by the built-in API, whose address has no token left; the wait is the bucket's |
| RateGate.TokensExactly | proxy/limiter.go:141-174 | exactly which visits touch the tokens of their address, and what they leave of them |
| RateGate.LoginIsAnswered | proxy/proxy.go:389-403 | an input: with its token spent, an address is throttled on a page and answered by the login API |
| GateRuns.OtherVisit | proxy/limiter.go:112-210 | a visit leaves bucket, ban and policies of every other address alone |
| GateRuns.RunKeepsSound | proxy/auth.go:56-67 | visits, upkeep and the admin's acts keep the limiter sound over every run |
| GateBans.ActEndsBanExactly | proxy/limiter.go:51-88 | which act ends a standing ban before `t`: an unban, a shorter manual ban, a reload of a table without such a ban, or a failed handshake that trips a shorter auto-ban, and no other |
| GateBans.VisitShortensBanExactly | proxy/listeners.go:22-40 | a visit ends a ban earlier if and only if it is a failed handshake of that address whose counted failure trips an auto-ban that ends sooner |
| GateBans.BanStandsExactly | proxy/limiter.go:214-288 | over runs of visits, upkeep and admin acts, a ban stands to `t` if and only if no act of the run ends it before |
| GateBans.BanHolds | proxy/router.go:26-31 | as long as no act ends it, every visit of a banned address is answered with the ban, failed handshakes aside |
| GateBans.ReloadKeepsMirroredBan | proxy/limiter.go:275-287 | while the table mirrors the entry, a reload ends a ban at the instant it expires and at no other |
| GateBans.TlsErrorShortensBan | proxy/listeners.go:35-36 | an input: a ban without end, a failed handshake, and a minute later the address is let in |
| Refusals.RefusalsAreBounded | proxy/auth.go:187-341 | under a policy that contains, an address that no session promotes is refused or throttled at most `max(T, 2T - 2)` times within the ban window, however visits of others and upkeep interleave |
| Refusals.RefusalsAreBoundedExactly | proxy/limiter.go:179-304 | that bound holds over all such runs if and only if the window is at most half an hour or the threshold is one, and bans outlast the window |
| Tiers.TierIsMostSpecific | proxy/limiter.go:98-110 | a web login gets the tier of the first of its groups with an enabled policy, and the signed-in tier exactly if there is none |
| Tiers.WebTierExactly | proxy/limiter.go:98-110 | a web login gets the documented tier if and only if one of its groups, or signed-in, has an enabled policy |
| Tiers.WebPolicyExactly | proxy/limiter.go:98-110 | it is governed as documented if and only if that holds or no anonymous policy is enabled |
| Tiers.RawPolicyExactly | proxy/tcp.go:105-107 | a raw login is governed as documented if and only if none of the user's groups has an enabled policy, and signed-in has one or anonymous has none |
| Tiers.LoginIsUnlimited | proxy/limiter.go:141-149 | a login without an enabled policy for its groups or for signed-in is never throttled |
| Tiers.NoFallback | proxy/limiter.go:98-110 | an input: anonymous alone has a policy, it throttles the address, and the login is unlimited |
| Tiers.SessionsPromote | proxy/auth.go:262-262 | a visit that gets through on a session leaves its address in the user's tier on the web, in the signed-in tier for a raw flow |
| HostPort.ParseIsInverse | proxy/proxy.go:405-415 | `parseHostPort` splits a URL at its last colon: it is the inverse of joining host and colon-free port |
| HostPort.JoinThenSplitHostPort | api/auth.go:732-742 | splitting undoes joining for hosts and ports without brackets, IPv6 hosts included |
| HostPort.NumberedRoundTrip | api/auth.go:732-742 | a host and number joined into an address are read back from it |
| HostPort.SplitExactly | proxy/router.go:13-13 | a text splits into host and port if and only if it is a host without colons or a bracketed host, a colon, and a port, with no other bracket |
| RouteTable.Routes.SyncRoutes | storage/routes.go:45-95 | upserting entry by entry, then deleting what the file no longer names, makes the synced table |
| RouteTable.Routes.CreateRoute | storage/routes.go:163-179 | one open row for a free URL, and a failure that changes nothing for a taken one |
| RouteTable.Routes.DeleteRouteGroup | storage/routes.go:218-241 | exactly the admin-made rows of the group go, and their URLs are returned; an empty or unknown group fails |
| RouteTable.SyncReconciles | storage/routes.go:45-95 | config rows are exactly the file's URLs with the fields of the last entry of each, surviving rows keep their access control, and other admin-made rows are untouched |
| RouteTable.SyncIsIdempotent | storage/routes.go:45-95 | a second sync with the same file changes nothing |
| Registry.Proxy.ValidateRoute | proxy/proxy.go:114-147 | exactly the conflicts of the step function refuse a route |
| Registry.Proxy.ParseProxies | proxy/proxy.go:149-238 | the loop accepts or refuses the route list, and groups it into listeners, as the parse function does; which lists those are is `StartupExact.ParseAllExactly` |
| Registry.Proxy.InitProxies | proxy/proxy.go:240-256 | every listener gets a handler for each of its routes, or startup fails |
| Registry.Proxy.StartProxy | proxy/proxy.go:52-94 | parse, initialise, then start the raw listeners: whether it starts, and the live tables if it does, of which the rows of `StartupExact` say what they are |
| Registry.Proxy.RegisterRoute | proxy/proxy.go:285-346 | the live tables and the success after a registration, a listener left behind by a failing handler included |
| Registry.Proxy.UnregisterRoute | proxy/proxy.go:349-377 | the live tables after a removal, with its early return |
| Registry.Proxy.StopTcp | proxy/tcp.go:38-48 | a TCP listener is forgotten |
| StartupExact.ParseAllExactly | proxy/proxy.go:149-238 | a route list parses if and only if no two of its routes clash and each is readable |
| StartupExact.StartsExactly | proxy/proxy.go:149-283 | a configuration starts if and only if every URL has a colon and none comes twice, no two routes share a TCP or a UDP port, none is HTTP and TCP, HTTP routes on one port are all TLS or all not, TLS routes name a certificate and a key that exist, and every HTTP route is of a kind whose handler can be made |
| StartupExact.StartedServes | proxy/proxy.go:52-94 | a started proxy serves each configured route: raw ports forward to its target, and HTTP routes have their handler under host and port on a listener with the same tls |
| StartupExact.StartedServesOnly | proxy/proxy.go:52-94 | a started proxy listens on the ports of its routes and on no other |
| StartupExact.StartedListenerIsFirsts | proxy/proxy.go:204-229 | each listener has the certificate and key of the first HTTP route on its port |
| LiveRouting.StartupIsSound | proxy/proxy.go:149-256 | after startup each port's handlers name exactly its routes, no port is HTTP and TCP at once, and the handlers are exactly those of the configured HTTP routes |
| LiveRouting.AddRoutes | proxy/proxy.go:285-346 | a registration changes the handler of its own host and port only, and only if it succeeds |
| LiveRouting.RemoveRoutes | proxy/proxy.go:349-377 | after a removal that URL has no handler and every other the one it had |
| LiveRouting.LiveRefinesMap | proxy/proxy.go:114-387 | after startup and any validated registrations and removals, each with its own luck, the handler under a host and port is that of the HTTP route last registered and not removed since, under the key host:port, and no port is HTTP and TCP at once |
| LiveRouting.RawRefinesMap | proxy/proxy.go:285-377 | over the same runs, a port's raw listeners are those last started on it and not stopped since |
| LiveRouting.RunKeepsOwnPorts | proxy/proxy.go:285-377 | over the same runs, every raw listener stands on the port of its own route |
| LiveRouting.RemovalStopsExactly | proxy/proxy.go:349-377 | when a removal stops its own raw listener, and when another route's |
| Registrations.ValidatesExactly | proxy/proxy.go:114-147 | a route validates if and only if its URL has a colon, its kind is known, and its port has room: no TCP for TCP and HTTP routes, no HTTP for TCP routes, no UDP for UDP routes |
| Registrations.HttpRegistersExactly | proxy/proxy.go:304-346 | an HTTP route goes live if and only if its port listens or can and its handler can be made; its host gets it, every other keeps its own, and the listener keeps or gets its certificate |
| Registrations.RawRegisters | proxy/proxy.go:285-302 | a raw route always goes live on the tables of its kind and touches nothing else |
| Registrations.AddSucceedsExactly | proxy/proxy.go:114-346 | over runs, adding a route succeeds if and only if, by the history of additions and removals, its port has room, can listen and has a handler |
| Router.RequestableExactly | proxy/router.go:13-22 | exactly which hosts and ports some valid Host header reads as, on some live listener |
| Router.JoinedHeaderPicks | proxy/router.go:13-46 | the header built from a host and port picks the handler of the lower-cased host on that port |
| Router.RequestsRefineMap | proxy/router.go:13-46 | over runs of registrations and removals, a request is handed to the HTTP route last added for what its Host header reads as and not removed since |
| Router.RouteIsReachedExactly | proxy/router.go:13-46 | a live HTTP route is handed some request if and only if its host is lower case, of valid bytes and without brackets, or does not split and is on the default port of a scheme that some listener serves |
| Router.BracketedReachable | proxy/router.go:13-22 | the bracketed host of an IPv6 range is reachable on port 80 if some listener is without TLS, on port 443 if some listener has TLS, and nowhere else |
| Router.NeverReached | proxy/router.go:13-22 | inputs out of reach on every proxy: `Example.com:80`, `[::1]:8080` and a host with a slash |
| Router.SchemeNotServed | proxy/router.go:15-21 | an input: `[::1]:443` registered without TLS on an empty proxy is live and out of reach |
| FrontDoor.ListenersOpened | proxy/proxy.go:285-346 | over runs, a port has an HTTP listener exactly if a configured or registered HTTP route opened one; none is ever closed |
| FrontDoor.RequestsMeetExactly | proxy/router.go:13-53 | over runs, which requests find no listener, no handler or a route, which route, and that access is checked and events recorded under host:port as the header reads |
| RangeCreate.CreateRouteRange | api/auth.go:749-807 | each answer tells what was checked and leaves the state it should: grown by the whole range, rolled back, or untouched; what a made range serves are the rows of `RangeLive` |
| RangeCreate.ValidatePorts | api/auth.go:768-777 | the first port that does not validate, if any |
| RangeCreate.RollBack | api/auth.go:787-793 | the rows of the group and the live routes they name are taken back |
| RangeCreate.RollbackTable | api/auth.go:787-793 | after any number of ports the rollback leaves exactly the table before |
| RangeCreate.SuccessAddsOneRowPerPort | api/auth.go:779-799 | a range that succeeds adds exactly one row per port and changes no other |
| RangeCreate.OffsetWalks | api/auth.go:757-786 | with an offset, port `start + k` forwards to the base's host at its port plus `k`, read back through the address parser |
| RangeCreate.RollbackRestoresRouting | proxy/proxy.go:349-377 | after a rollback every host and port has the handler it had before |
| RangeCreate.RollbackRestoresRaw | proxy/proxy.go:355-375 | after a rollback the raw listeners are those of before if and only if every port made was restorable |
| RangeCreate.RollbackLeavesUdp | proxy/proxy.go:355-375 | an input: a validated UDP range on a port that serves HTTP conflicts at its second port, and the rollback leaves its UDP listener running |
| RangeCreate.RollbackStopsUdp | proxy/proxy.go:355-375 | an input: a validated TCP range on a port with another route's UDP listener conflicts, and the rollback stops that listener |
| RangeCreate.RollbackKeepsListeners | proxy/proxy.go:349-377 | a rollback keeps every HTTP listener of before, and those that the range itself started |
| RangeCreate.AllOrNothing | api/auth.go:749-807 | a range is made whole or leaves table and handlers as they were, whatever the answer, and live routes keep having rows |
| RangeLive.MadeIsServed | api/auth.go:779-807 | each port of a made range has a row as asked, and what serves the port is what the row says: a raw port forwards to the row's target, an HTTP port has a handler for the row's route, or else the answer warns |
| RangeLive.NotAllLive | api/auth.go:794-799 | the answer warns only if some port did not go live |
| RangeLive.MadeElsewhere | api/auth.go:779-807 | ports outside a made range keep every listener, route and handler they had |
| RangeLive.AnsweredExactly | api/auth.go:749-793 | exactly which answer a request for a range gets, and for which port: over 256 ports, no port to walk from, the first that does not validate, the first that is taken |
| Metrics.EventLog.constructor | proxy/metrics.go:40-44 | an empty ring describes an empty history |
| Metrics.EventLog.RecordEvent | proxy/metrics.go:49-65 | an event is appended to the history that ring and counters describe |
| Metrics.EventLog.GetRecentEvents | proxy/metrics.go:92-102 | exactly the last `min(n, 500)` events, newest first |
| Metrics.CountersAreExact | proxy/metrics.go:49-65 | each counter holds exactly the number of its events, and exists only if there was one |
| Metrics.CountersAreConserved | proxy/metrics.go:49-65 | the outcome counters add up to all events, and the route counters to the served ones |

## Left out

- Floating-point rounding: tokens and rates are reals, and a Retry-After too large for an `int` is not cut off.
- Clock jumps and separate clock readings inside one request: the clock never runs back, and an operation reads it once.
- Concurrent goroutines in the limiter: each operation is one step; so is `reloadThrottle`, and the check and delete of each bucket in `sweepBuckets`.
- The UDP relay in imperative form: its endless loops and goroutines are steps of a transition system, because that is what interleaves; when a tick comes, what a client sends and whether a socket call fails are chosen freely.
- The bytes that flow through TCP and UDP relays.
- What the built-in API handlers do is no part of the visit that asks for one; their requests to the session store and the admin's bans are acts of their own in a run.
- UpdateRouteAccess and the other edits of single rows: they would add only easy members.
- Time texts and BLOB casts of SQLite, failing database calls, and the order in which SQLite lists rows of equal expiry, which is by id here.
- Normalising addresses and matching them against allowlists (`normalizeIP`, `net.ParseCIDR`): addresses are canonical, and whether the list matches is an input.
- Lower-casing in the router outside ASCII; hosts that a client puts into the request target or an HTTP/2 pseudo-header, which `net/http` checks by other rules than the Host header; redirects by `http.ServeMux` of paths that are not clean.
- Listeners whose port cannot be bound, which end the proxy.
- Hashes and random ids: a token stands for its hash, generated tokens and range ids are new.
- Sessions.SessionDur: does not model the wrap-around of Go's 64-bit nanoseconds beyond about 2.5 million hours; nor do ban windows and durations beyond about 9 billion seconds.
- Listening on ports near the end of the 64-bit range: the span of a port range is computed without wrap-around, while the target port wraps.
- 64-bit wrap-around of event counters and failure counts.
- The mode without a session store (`authStore == nil`), in which every request is forwarded.
- Listener objects are values in the map of listeners, so aliasing between two names for one listener is not captured; copy-on-write of handler maps is an assignment; that a listener started on an occupied TCP or UDP port first stops the old one shows as the replaced entry only.
- TLS, telemetry, logging, cookies, JSON, static files, the reverse-proxy director and the web pages.
- Migrations, invites, users, groups and settings storage: they would add only easy members.
