# locrest-server: sessions, routing and their protocols, verified

locrest-server is a reverse-tunnel broker. A client asks for a script, registers a public key under the setup
token in it, answers a challenge with a signature, and then owns a subdomain that is forwarded through its tunnel.
A cleaner takes sessions away again. This project models that life cycle in Dafny 4.11, together with the parts of
the server with state or arithmetic of their own, and proves properties over every run of them.
`dafny verify dfyconfig.toml` checks everything.

## Reading order

| file | what it holds |
|---|---|
| `Common`, `Hex`, `Labels` | shared vocabulary; hexadecimal keys; subdomain labels, requested and generated |
| `SessionStore` | the session database as three buckets, its transactions, and what every sequence of them keeps |
| `Rules` | the decisions: who may activate, which sessions the cleaner removes |
| `SessionDb` | the database and the handlers' private session copies as objects changed in place |
| `Hosts` | from the Host header to a registered subdomain |
| `World` | handlers, cleaner passes and restarts as atomic steps; agreement of memory with the store |
| `Ports` | the arithmetic of the port counter |
| `Frontend` | the server object: handlers, cleaner, reload, proxy guards, each tied to its step in `World` |
| `Protocol` | the same server with database transactions as the steps: interleaved handlers, crashes anywhere |
| `Isolation` | the fine steps of `Protocol`, undisturbed, are the atomic steps of `World`; what two of them can do to each other |
| `Guarantees` | what users may rely on, over whole runs, in terms of requests, records, times and tunnels alone |
| `RateLimiter`, `Users`, `UdpDemux`, `ShellEscape`, `BinaryCache` | one component each |

Two granularities are used on purpose. Facts about the store (identity, indexes, where an activation or a deletion
comes from, admission, crash recovery) are proved for every interleaving of transactions. Exact agreement of routes
and credentials with the store is proved for atomic handlers: at transaction granularity it does not hold, because
a verification adds its credential and its route before it activates (`Isolation.MidVerifyDisagrees`). What does hold
there is that no credential and no route is ever there that some handler had not earned (`Protocol.CredentialsEarned`).

Entities that the source changes in place are classes; each method's contract gives its whole new state through a
function of the old one, and the lemmas are about those functions. What such a function decides is stated a second time
without it: when a session is removed (`Guarantees.RemovedIff`), when a request is granted (`Guarantees.ActivatedIff`), what a
record holds (`SessionStore.CreateKeepsRequest`), which requests a limiter accepts (`RateLimiter.AcceptedIff`), and so on.
`Guarantees.Onboarded` follows one session from its script request to its route through any run of the server.

## Assumptions

- A database transaction is atomic and commits unless it stores an entry under an empty or oversized key. Record
  encoding is the identity. Buckets are walked in an arbitrary order.
- Setup tokens are fresh; user tokens are fresh and seed hashes of different phrases differ. Where an operation's
  behaviour without that assumption is of interest it is stated as an if-and-only-if.
- Ed25519 verification, SHA-256 and the address test of the IP guard are parameters: the results hold for any function.
- Time is an integer of nanoseconds and does not run backwards; an atomic handler or pass reads it once, an interleaved
  one where the source does. A cleaner scan reads configuration, time and the list of sessions in one step.
- The connected tunnels are an input that may change at any time, in `Protocol` also between two looks of one scan.
- Subdomains drawn at random come from a stream of bytes that may end, which stands for a failing random source.

## Where the code differs from what it says or what one would expect

The model follows the code. For each point a run or an input that shows it is proved, and the exact condition.

- `internal/db/session.go:97-98` says that consuming a nonce prevents reuse. It clears a private copy only
  (`SessionDb.SessionCopy.ConsumeNonce`). Whenever a verification would be granted, two handlers can both accept the
  nonce and both activate, and the second moves the activation time (`Isolation.TwoActivations`); a second activation
  requires that its handler had looked the session up before the first (`Protocol.SecondActivation`). For handlers that
  do not overlap, the nonce stays stored exactly as long as requests are refused (`World.NonceKeptIff`).
- The public-key index is exact only while keys are registered in lower case and no key is used for two sessions
  (`SessionStore.RegisterExactIff`); otherwise an entry can outlive its session (`SessionStore.StaleEntry`). The index is
  sound always (`SessionStore.InvRun`).
- `internal/server/routes.go:10` promises a unique port. Only routes and open listeners are consulted: a port can be
  given out again, its listeners being closed, exactly while no activated http session has it (`World.PortReusableIff`), so two sessions can be stored
  with one port (`World.PortGivenTwice`).
- A pass of the limiter's cleanup followed by a configuration with a wider window can admit requests that the full
  history would refuse (`RateLimiter.WideningAfterCleanup`), exactly when a request undercuts the cleanup
  (`RateLimiter.CleanupHarmlessIff`); without a widening it never does (`RateLimiter.NarrowingHidesCleanups`).
- Shell escaping loses line feeds and turns a carriage return into two characters (`ShellEscape.RoundTripIff`).
- `internal/binary/cache.go:53-55` says that every checksum is validated. Only recorded binaries are. When the copy of an
  up-to-date binary from the old cache breaks off, the platform is skipped, but the partial file, which
  `internal/binary/download.go:63-78` does not remove, is swapped in and listed (`BinaryCache.UnverifiedBinary`). A download
  that breaks off is removed, and stays only if that fails too, or if closing the file is what failed
  (`BinaryCache.ListedRecordedIff`).
- A set left at the `.old` path by a swap that failed twice is deleted by the next swap; if that one fails, the set
  survives only an unsuccessful deletion (`BinaryCache.StrandedSetIff`).
- UDP sources beyond the limit get no reader, and are not removed from the map while the channel is up. No reader can
  start any more exactly when there are 100 of them (`UdpDemux.StartableIff`), which 200 unanswered sources bring about
  (`UdpDemux.FloodBlocks`).

## Model

| member | source | states |
|---|---|---|
| Labels.ValidateSubdomain | internal/db/session_create.go:14-30 | the character loop with its hyphen tests decides the declarative predicate on all positions |
| Labels.ValidIffGrammar | internal/db/session_create.go:14-30 | the accepted names are exactly the labels of RFC 1035 section 2.3.1, as relaxed by RFC 1123 section 2.1, of 3 to 63 characters |
| Labels.RandString | internal/db/session_create.go:118-136 | filling a buffer with redraws consumes the byte stream as the recursive definition does, failing exactly when the stream ends early |
| Labels.Drawn | internal/db/session_create.go:118-136 | a generated name has the requested length and only lower-case letters and digits |
| Labels.DrawnIs | internal/db/session_create.go:118-136 | the generated name is the first n bytes below 252, each as the letter at its remainder by 36 in the literal alphabet; there is none iff the stream holds fewer |
| Labels.Unbiased | internal/db/session_create.go:118-136 | each of the 36 characters is the image of exactly 7 of the 252 accepted byte values |
| Hex.DecodeEncode | internal/db/session_update.go:55-74 | a key survives encoding and decoding, and its text is lower case and twice as long |
| Hex.EncodeDecode | internal/db/session_update.go:15-52 | re-encoding a decodable text gives that text if and only if it is lower case |
| SessionStore.CreateEffect | internal/db/session_create.go:34-108 | creation succeeds only under a plain, free subdomain and adds exactly one pending, keyless session; failure changes nothing |
| SessionStore.CreateKeepsRequest | internal/db/session_create.go:73-95 | the stored record holds every requested field, the creation time, the expiry it implies and the default host, and nothing that was not asked for |
| SessionStore.CreatePreferredIff | internal/db/session_create.go:48-108 | a request for a name succeeds iff it is a label of 3 to 63 characters that no session has, and each error is given in exactly its own case |
| SessionStore.FirstAttempt | internal/db/session_create.go:60-71 | among 100 attempts the first that draws no name in use decides: a free name, or a failure of the random source; an error of its own iff all clash |
| SessionStore.SubExactStep | internal/db/session_update.go:15-126 | every transaction keeps the bijection between stored sessions and subdomain entries |
| SessionStore.InvStep | internal/db/session_update.go:15-126 | every transaction with a fresh token keeps the subdomain bijection, plain labels, key-index soundness and issued tokens together |
| SessionStore.InvRun | internal/db/session_update.go:15-126 | all of that holds after every sequence of transactions, in mixed case and with repeated keys too |
| SessionStore.LookupAgreesWithScan | internal/db/session_query.go:57-89 | a look-up by subdomain finds s if and only if a scan of all sessions does; the existence test agrees with both |
| SessionStore.PubkeyLookupSound | internal/db/session_query.go:32-54 | in every reachable store a session found under a key text carries the key that text decodes to |
| SessionStore.PubkeyLookupIsScan | internal/db/session_query.go:32-54 | in an exact index a look-up by key finds s iff a scan of all sessions does |
| SessionStore.RegisterIff | internal/db/session_update.go:15-52 | a registration succeeds iff the session is stored, pending and keyless and the text is decodable and storable; the key then finds the session, every other session and look-up stays |
| SessionStore.WritesOneSession | internal/db/session_update.go:84-126 | storing a nonce and activating change exactly those fields of that session, and no other session or index |
| SessionStore.EvolvesStep | internal/db/session_update.go:15-126 | one transaction never brings an issued token back, rewrites a key, undoes an activation or changes a creation-time field |
| SessionStore.EvolvesRun | internal/db/session_update.go:15-126 | the same between any two points of any interleaving of transactions |
| SessionStore.RegisterExactIff | internal/db/session_update.go:15-52 | a registration keeps the key index exact if and only if it is refused, or its text is lower case and unused |
| SessionStore.StaleEntry | internal/db/session_update.go:15-74 | a concrete run of creation, mixed-case registration and deletion that leaves the index with an entry and the store without a session |
| SessionStore.DeleteExact | internal/db/session_update.go:55-74 | deletion keeps an exact key index exact and leaves no entry for the deleted session |
| SessionStore.DeleteLookups | internal/db/session_update.go:55-74 | after a deletion the session is found by token, name and key no more, and every other session still is by all three |
| SessionStore.PubkeyExactRun | internal/db/session_update.go:15-74 | with pairwise distinct lower-case keys the key index is exact after every run |
| SessionDb.SessionCopy.ConsumeNonce | internal/db/session.go:99-107 | accepts exactly the current, non-empty, young enough nonce, and clears it in the copy only |
| SessionDb.Database.GenerateSubdomain | internal/db/session_create.go:60-71 | the loop yields the first of at most 100 drawn names that is not in use, or the right error |
| SessionDb.Database.CreateSession | internal/db/session_create.go:34-108 | all three buckets and the result after success and after each failure |
| SessionDb.Database.RegisterPubkey | internal/db/session_update.go:15-52 | all three buckets and the answer, for absent, activated, already keyed and undecodable cases |
| SessionDb.Database.DeleteSession | internal/db/session_update.go:55-74 | all three buckets after a deletion; an absent token writes nothing |
| SessionDb.Database.UpdateSessionNonce | internal/db/session_update.go:84-103 | a nonce is stored only for a session that exists |
| SessionDb.Database.ActivateSession | internal/db/session_update.go:106-126 | a session that exists becomes activated with its nonce cleared; an absent one stays absent |
| SessionDb.Database.GetByPubkey | internal/db/session_query.go:32-54 | a fresh copy of the session the index names, or none when entry or session is missing |
| SessionDb.Database.AllSessions | internal/db/session_query.go:102-117 | the accumulated slice lists every stored session exactly once |
| Rules.SparedUntilDeadline | internal/server/cleanup.go:45-78 | a finite activated session spared by a scan has not passed the later of its expiry and the end of its grace period |
| Hosts.HostRoundTrip | internal/server/routes.go:91-109 | under any colon-free domain, with or without a port, a host resolves to the registration of its first label, and to nothing iff there is none |
| Hosts.BareLabel | internal/server/routes.go:91-109 | a host without a domain resolves to the registration of that label |
| World.MemoryDetermined | internal/server/server.go:276-291 | exact routes and credentials are unique for a store |
| World.ReloadExact | internal/server/server.go:276-291 | reloading from empty memory in any session order yields exactly the routes and credentials of the activated sessions |
| World.RemoveTwice | internal/server/cleanup.go:86-115 | the two deletion loops compose to one removal of the union, for all three buckets and the credentials |
| World.RemoveOne | internal/server/cleanup.go:86-115 | deleting one session is the bulk removal of that session alone, in all three buckets |
| World.CleanExact | internal/server/cleanup.go:38-120 | a pass removes exactly the activated sessions out of grace that are disconnected or expired, with route and credential; every other session, route and credential is unchanged |
| World.PlanMembers | internal/server/cleanup.go:45-78 | the scan collects the tokens of exactly the doomed sessions, disconnection coming before expiry, and the routes of exactly the http ones among them |
| World.PlanComplete | internal/server/cleanup.go:45-84 | over any listing of all sessions the two token slices together are the doomed sessions, the route slice their http routes |
| World.QuietTx | internal/server/handlers_auth.go:40-170 | creations, registrations, and nonces or deletions of pending sessions keep memory in agreement with the store |
| World.VerifyAgreement | internal/server/handlers_auth.go:174-272 | refused, denied and granted verifications all keep memory in agreement with the store |
| World.CleanAgreement | internal/server/cleanup.go:38-120 | a cleaner pass keeps memory in agreement with the store |
| World.AgreementStep | internal/server/server.go:188-291 | every atomic step, restart and reconfiguration included, keeps the agreement |
| World.AgreementRun | internal/server/server.go:276-291 | in every run, routes are exactly those of the activated http sessions and credentials exactly those of the activated sessions |
| World.DeniedVerifyLeavesMemory | internal/server/handlers_auth.go:239-256 | a refused verification changes nothing; a denied one deletes its own pending session, frees its subdomain, and leaves routes and credentials alone |
| World.NonceKeptIff | internal/server/handlers_auth.go:193-272 | a presented current nonce is still stored afterwards if and only if one of the checks, each named, refuses the request |
| World.AliveSincePass | internal/server/cleanup.go:38-120 | after a pass, through any later reconfigurations and restarts, every finite activated session has its deadline, by that pass's grace period, at or after the pass |
| World.BoundedLifetime | internal/server/cleanup.go:38-120 | with a pass at most delta ago, no finite activated session is more than delta past the later of its expiry and the end of its grace period at that pass; the configuration may change at any point |
| World.PortReusableIff | internal/server/routes.go:44-58 | a port is in no route if and only if no activated http session has it: pending and raw sessions do not keep theirs |
| World.PortGivenTwice | internal/server/handlers.go:118-131 | a concrete run in which two sessions are stored with one server port |
| World.ResolvedHasSession | internal/server/proxy_helpers.go:75-92 | a resolved host always has an activated http session on that port, so neither guard meets a missing session |
| World.RouteOf | internal/server/routes.go:91-109 | a stored session has a route, to its own port, if and only if it is an activated http session |
| World.ForwardIff | internal/server/proxy_tunnel.go:179-206 | a request for a stored subdomain is forwarded to a port iff its session is activated http on that port, its password matches, its address list admits the client, and the TCP tunnel is seen at a look |
| World.AnswerIff | internal/server/proxy_tunnel.go:179-206 | each other answer for a stored subdomain is given in exactly its case, the guards taken in order |
| World.UnroutedAnswer | internal/server/proxy_tunnel.go:183-191 | any other host gets the root page iff that is on and the host, without its port, is the domain; otherwise not-found |
| Ports.Covered | internal/server/routes.go:11-25 | every port of 20000..59999 is tried within 47296 attempts from any counter value, across the 32-bit wrap |
| Ports.BoundTight | internal/server/routes.go:11-25 | 47296 attempts are needed from one counter value |
| Ports.DistinctIff | internal/server/routes.go:11-25 | n consecutive candidates are pairwise distinct iff n is at most 40000, or 7296 across the wrap |
| Ports.DistinctInNumbers | internal/server/routes.go:11-25 | the same in plain numbers |
| Ports.PlainNumbers | internal/server/routes.go:11-25 | candidate i is the counter plus i, modulo 2^32, then modulo 40000, from 20000 up; and the window lengths are 40000 and 7296 |
| Frontend.Frontend.NextServerPort | internal/server/routes.go:11-25 | within 47296 attempts the first candidate of 20000..59999 that is bindable and in neither the route table nor a listener table; in agreement with the store, no activated http session has it |
| Frontend.Frontend.ResolveRoute | internal/server/routes.go:91-109 | agrees with the resolution function of the round trip |
| Frontend.Frontend.HandleScript | internal/server/handlers.go:41-140 | each outcome in exactly its case: rate limit, full store, parameter checks, requested port in a route or listener table, creation on a port that is in none; one call at a time never lifts the session count above the maximum |
| Frontend.Frontend.HandleRegister | internal/server/handlers_auth.go:40-70 | empty fields change nothing; otherwise the registration transaction and its answer |
| Frontend.Frontend.HandleChallenge | internal/server/handlers_auth.go:126-172 | succeeds iff the key names a pending session, whose nonce alone changes |
| Frontend.Frontend.HandleVerify | internal/server/handlers_auth.go:174-272 | the statement sequence over a private copy has the verdict and the whole new state of the atomic verification |
| Frontend.Frontend.Scan | internal/server/cleanup.go:45-78 | the loop with its early exits collects, in order, the specified plan |
| Frontend.Frontend.CleanStaleRoutesAndSessions | internal/server/cleanup.go:38-120 | the two-phase pass is the set specification; of the raw listeners it closes exactly those of removed sessions, by mode |
| Frontend.Frontend.DeleteRoutes | internal/server/cleanup.go:80-84 | exactly the listed routes go |
| Frontend.Frontend.ApplyPlan | internal/server/cleanup.go:80-115 | exactly the planned routes, sessions, credentials and listeners go, the two deletion loops together |
| Frontend.Frontend.DropSessions | internal/server/cleanup.go:86-115 | the re-reading loop, repeats and missing sessions included, removes exactly the named sessions, credentials and listeners |
| Frontend.Frontend.DropSession | internal/server/cleanup.go:86-100 | one re-read session goes with credential and listeners; a missing one leaves all alone |
| Frontend.DroppedListeners | internal/server/cleanup.go:92-97 | a listener is closed iff a removed session had its port in a mode that uses it |
| Frontend.DroppedTwice | internal/server/cleanup.go:86-115 | two removals one after the other are one removal of the union, in the store, the credentials and both listener tables |
| Frontend.Frontend.ReloadChiselUsers | internal/server/server.go:276-291 | the loop adds exactly the routes and credentials of the listed activated sessions |
| Frontend.Restart | internal/server/server.go:276-291 | a process that starts over any stored sessions ends in agreement, with the store untouched |
| Frontend.Frontend.ReloadConfig | internal/server/server.go:188-206 | a bad configuration changes nothing; a good one replaces the old and reconfigures both limiters without forgetting counted requests |
| Frontend.Frontend.WaitProxyPipe | internal/server/proxy_tunnel.go:21-29 | finds the tunnel iff it was registered at one of ten looks |
| Frontend.Frontend.ProxyTunnel | internal/server/proxy_tunnel.go:179-206 | resolve, password, address and tunnel are tested in that order with the outcome of the specification |
| Protocol.StepTx | internal/server/handlers_auth.go:139-272 | every fine step changes the store by its own transaction and by nothing else |
| Protocol.HistRun | internal/db/session_update.go:15-126 | the store invariants hold in every state of every interleaved run |
| Protocol.CrashRecovers | internal/server/server.go:276-291 | a crash between any two sub-steps and the restart after it leave the store as it was and memory in agreement |
| Protocol.NonceOrigin | internal/server/handlers_auth.go:139-158 | a stored nonce was there before the step or was written by a challenge for that session |
| Protocol.ActivationOrigin | internal/server/handlers_auth.go:262-272 | an activated session was so before the step or was activated by a handler that went through all checks |
| Protocol.DeletionOrigin | internal/server/cleanup.go:86-115 | a step deletes a session only as a denied verification of it or as a cleaner at its token |
| Protocol.Provenance | internal/server/handlers_auth.go:174-272 | in every reachable state every nonce, every running handler and every activation has its full history in the run |
| Protocol.ActivationCorrespondence | internal/server/handlers_auth.go:193-272 | an activated session had a challenge store its nonce (c); then a handler, holding a request that names its stored key with that nonce at most five minutes old and a valid signature, accept it for its copy of that session (k); then a configuration permitting the session's mode and infinity flag (g); then that handler activate that session (m); from k to m the handler kept running with that one copy |
| Protocol.DeletionCorrespondence | internal/server/cleanup.go:45-115 | a deleted session was found doomed by an earlier pass, by its record and the configuration at the start of the scan and the tunnels at the look, or its own client had proved its key and was then denied |
| Protocol.CredentialsEarned | internal/server/handlers_auth.go:258-262 | between any two sub-steps and after any crashes, every credential belongs to a session for which some handler had passed all checks, and every route to the port of such an http session |
| Protocol.SecondActivation | internal/server/handlers_auth.go:193-272 | a handler can activate an already activated session only if it had looked it up before the first activation |
| Protocol.BoundedStep | internal/server/handlers.go:51-55 | stored plus in-flight sessions stay within the maximum plus k - 1 in one step |
| Protocol.AdmissionBound | internal/server/handlers.go:51-131 | with at most k script requests between check and creation the session count stays within the maximum plus k - 1 over whole runs |
| Isolation.VerifyAlone | internal/server/handlers_auth.go:174-272 | the fine steps of a granted or denied verification, undisturbed, reach exactly the atomic result |
| Isolation.ChallengeAlone | internal/server/handlers_auth.go:126-172 | the fine steps of a challenge, undisturbed, reach exactly the atomic result |
| Isolation.ScriptAlone | internal/server/handlers.go:51-131 | check and creation of a script request, undisturbed, reach exactly the atomic result |
| Isolation.CleanAlone | internal/server/cleanup.go:38-120 | the fine steps of a cleaner pass, undisturbed, reach exactly the atomic result |
| Isolation.MidVerifyDisagrees | internal/server/handlers_auth.go:258-272 | from any state in agreement, a verification about to be granted passes through a state in which memory disagrees with the store |
| Isolation.TwoActivations | internal/db/session.go:97-107 | whenever one verification would be granted, a run of thirteen steps has two handlers accept the same nonce and activate the session twice, the second moving the activation time |
| Guarantees.RemovedIff | internal/server/cleanup.go:45-115 | a pass removes a session iff it is activated, out of its grace period, and lacks the tunnels of its mode or is finite and past its expiry, each spelled out |
| Guarantees.SparedIffForwards | internal/server/cleanup.go:53-62 | the tunnel the cleaner looks for is the one traffic needs: a pass spares a live http session iff an authorised request is forwarded over the tunnels it saw |
| Guarantees.ActivatedIff | internal/server/handlers_auth.go:193-262 | a request is granted iff it proves possession of a pending session's key and the permissions of that session's role cover its mode and infinity flag |
| Guarantees.RefusedIff | internal/server/handlers_auth.go:193-256 | a request is refused, changing nothing, iff it proves no possession; one that does is granted or its session is removed |
| Guarantees.RefusalReasons | internal/server/handlers_auth.go:193-229 | each refusal is given iff its check is the first to fail, the checks taken in order |
| Guarantees.ChallengeStores | internal/server/handlers_auth.go:152-158 | a challenge stores the nonce and its instant in the session the key names, and changes nothing else |
| Guarantees.NoChallenge | internal/server/handlers_auth.go:133-148 | an empty or unknown key and an activated session get no challenge, and nothing changes |
| Guarantees.AnswerAccepted | internal/server/handlers_auth.go:139-229 | a challenge answered within five minutes with a valid signature is not refused |
| Guarantees.StandsStep | internal/server/handlers_auth.go:40-272 | no script, registration, challenge or verification of others, no cleaner pass, restart or reconfiguration disturbs a pending session |
| Guarantees.Onboarded | internal/server/handlers_auth.go:40-272 | a served script request, a registration with a new 32-byte key, a challenge and its timely answer, anywhere in a run among the operations of others, end with exactly the record asked for activated with its route and credential, or removed if its role lacks the permission |
| Guarantees.FourRequests | internal/server/handlers_auth.go:40-272 | from an empty server four requests in a row are such a run, for every key, nonce and accepted signature |
| Guarantees.RequestHonoured | internal/server/proxy_tunnel.go:179-206 | as long as a session is there, traffic to its subdomain is forwarded exactly as its script request asked: port, password, addresses |
| Guarantees.LifetimeFromRequest | internal/server/cleanup.go:38-120 | with a pass at most delta ago, a finite activated session is at most delta past the lifetime its request gave it, or past its grace period |
| Guarantees.Reconfigured | internal/server/server.go:188-206 | a reload puts the new configuration in force and changes nothing else; a restart also keeps the store and ends in agreement |
| Guarantees.ServedIff | internal/server/handlers.go:51-131 | a request for a name is served iff there is room and the name is a free label |
| RateLimiter.RateLimiter.AllowRequest | internal/server/middleware.go:36-54 | decision and whole new state, the list of a refused request included |
| RateLimiter.RateLimiter.CleanupLists | internal/server/middleware.go:56-73 | every list is pruned and the empty ones are dropped, whatever the map order |
| RateLimiter.CleanupForgets | internal/server/middleware.go:56-73 | a cleanup forgets exactly the requests a window old or older, and every address left without one |
| RateLimiter.RateLimiter.Recent | internal/server/middleware.go:41-47 | keeps, in order, exactly the entries after the cutoff |
| RateLimiter.TrackIsExec | internal/server/middleware.go:36-73 | the history kept for one address is a faithful view of the limiter's own state and decisions |
| RateLimiter.AcceptsIff | internal/server/middleware.go:36-54 | in any run, a request is accepted iff fewer than limit accepted ones lie after both the window's cutoff and the largest pruning cutoff |
| RateLimiter.CaughtUp | internal/server/middleware.go:29-54 | once the window's cutoff has reached every cutoff used for pruning, decisions match the full history again, after any reconfigurations |
| RateLimiter.RefinesIdeal | internal/server/middleware.go:36-54 | while no request is judged below an earlier cutoff, the limiter accepts exactly what one that never forgets accepts |
| RateLimiter.FixedDecision | internal/server/middleware.go:36-54 | under fixed settings a request is accepted iff fewer than limit accepted requests of its address lie in the window ending now |
| RateLimiter.AcceptedIff | internal/server/middleware.go:36-54 | under fixed settings a request is accepted iff fewer than limit earlier requests of its address were accepted and are less than a window old, counted over the operations of the run |
| RateLimiter.AcceptedAgainIff | internal/server/middleware.go:29-54 | the same with the settings in force after any reconfigurations, once the window reaches back no further than any earlier pruning |
| RateLimiter.NarrowingIsSteady | internal/server/middleware.go:29-54 | while no reconfiguration widens the window, no request is judged below a cutoff already used to prune its list |
| RateLimiter.CleanupsInvisible | internal/server/middleware.go:56-73 | in every steady run, reconfigurations included, cleanups anywhere change neither the accepted requests nor the next decision |
| RateLimiter.NarrowingHidesCleanups | internal/server/middleware.go:29-73 | the same for every run without a widening reconfiguration, with no further condition |
| RateLimiter.Spacing | internal/server/middleware.go:36-54 | the i-th and the (i + limit)-th accepted request are at least a window apart |
| RateLimiter.ListBound | internal/server/middleware.go:36-54 | no list ever exceeds limit entries |
| RateLimiter.OthersUntouched | internal/server/middleware.go:36-54 | a request affects no list and no decision of another address |
| RateLimiter.CleanupHarmlessIff | internal/server/middleware.go:56-73 | a cleanup before a run of operations changes none of the run's decisions about an address, whatever the lists, iff no request of the run is judged, under a limit that admits anything, below the cleanup's cutoff before some pruning has reached it |
| RateLimiter.ListReached | internal/server/middleware.go:36-54 | the list by which an undercutting request tells a cleanup from none is held by a limiter started empty |
| RateLimiter.WideningAfterCleanup | internal/server/server.go:199-202 | a concrete run in which a cleanup before a widening changes a decision |
| Users.UserDatabase.CreateUser | internal/db/users.go:73-104 | all three buckets after success and after each refusal |
| Users.UserDatabase.UpdateUserToken | internal/db/users.go:155-192 | the old token's entry goes and the new one's comes, unless refused |
| Users.UserDatabase.DeleteUser | internal/db/users.go:195-226 | the record and both its index entries go; an absent user changes nothing |
| Users.UserDatabase.InvalidateExpiredUsers | internal/db/cleanup.go:30-57 | the in-place cursor loop, in any order, is the simultaneous sweep |
| Users.LookupsAreScans | internal/db/users.go:107-152 | look-ups by token and by seed hash find u iff a scan does; the empty token finds nobody |
| Users.CreateExactIff | internal/db/users.go:73-104 | creation keeps the indexes exact iff it is refused, or token and seed hash are unused |
| Users.CreatedIsFound | internal/db/users.go:73-152 | a created user is found by its token and by its seed hash with the record as given, all others as before |
| Users.UpdateExactIff | internal/db/users.go:155-192 | a token change keeps the indexes exact iff it is refused, or no other user holds the token |
| Users.UpdatedIsFound | internal/db/users.go:107-192 | a new token finds the same user with nothing else changed, the old token finds nobody, all other tokens and seed phrases find whom they found |
| Users.DeleteExact | internal/db/users.go:195-226 | deletion keeps the indexes exact and removes that user only |
| Users.DeletedIsGone | internal/db/users.go:107-226 | a deleted user is found by neither token nor seed hash, all others as before |
| Users.SweepExact | internal/db/cleanup.go:30-57 | the sweep keeps the indexes exact |
| Users.SweepEffect | internal/db/cleanup.go:30-57 | the tokens that still find a user are exactly those of users never expiring or not expired yet; seed phrases are unaffected; a second sweep at that instant changes nothing |
| Users.ExactRun | internal/db/users.go:73-226 | the indexes agree with a scan after any sequence of create, update, delete and sweep |
| UdpDemux.UdpConns.Dial | internal/chiselvendor/tunnel/tunnel_out_ssh_udp.go:112-128 | one connection per source, dialled only when there is none; a failed dial changes nothing |
| UdpDemux.UdpConns.CloseAll | internal/chiselvendor/tunnel/tunnel_out_ssh_udp.go:143-150 | the loop closes exactly the sockets still in the map and empties it |
| UdpDemux.StartBound | internal/chiselvendor/tunnel/tunnel_out_ssh_udp.go:54-78 | when the map's size lets a reader start, fewer than 100 are running |
| UdpDemux.DemuxSafe | internal/chiselvendor/tunnel/tunnel_out_ssh_udp.go:49-104 | under any interleaving at most 100 readers run, at most one per source, and every reply carries the source whose socket it came from |
| UdpDemux.LoopEnds | internal/chiselvendor/tunnel/tunnel_out_ssh_udp.go:15-39 | an error of decoding, dialling or writing ends the loop for good with an empty map, after which no reader starts |
| UdpDemux.OrphansKept | internal/chiselvendor/tunnel/tunnel_out_ssh_udp.go:54-78 | in any run of a loop that has not ended, a source in the map without a reader stays so |
| UdpDemux.StartableIff | internal/chiselvendor/tunnel/tunnel_out_ssh_udp.go:54-78 | from any state of a running loop, some continuation starts a reader if and only if fewer than 100 sources are in the map without one |
| UdpDemux.FloodBlocks | internal/chiselvendor/tunnel/tunnel_out_ssh_udp.go:54-78 | a run of 200 distinct unanswered sources from the start reaches a state after which no reader ever starts while the loop runs |
| ShellEscape.ShellEscape | internal/script/script.go:59-69 | the builder loop produces the character-wise escaping |
| ShellEscape.ReadsAsOneString | internal/script/script.go:59-69 | whatever the value, the escaped text between double quotes reads as one closed string without expansion, and the script goes on right after it |
| ShellEscape.RoundTripIff | internal/script/script.go:59-69 | quote removal inverts escaping if and only if the value has no line feed and no carriage return |
| ShellEscape.LineBreaksAreLost | internal/script/script.go:59-69 | two values that do not survive |
| BinaryCache.SwapSafe | internal/binary/cache.go:94-107 | under every pattern of failures and at every moment the old set is whole at its path or at `.old`, or the new set is in place |
| BinaryCache.FailedSwapPlace | internal/binary/cache.go:94-107 | a failed swap ends with the old set whole, at its own path iff it was never moved out or could be moved back |
| BinaryCache.SwapInstalls | internal/binary/cache.go:94-107 | a successful swap ends with the new set in place |
| BinaryCache.StrandedSetIff | internal/binary/cache.go:94-107 | a set left at `.old` alone is whole after the next failed swap if and only if its removal failed before touching anything |
| BinaryCache.Cache.Update | internal/binary/cache.go:56-111 | the update in place leaves the file system and the outcome of its specification, under every failure pattern |
| BinaryCache.UpdateInstalls | internal/binary/cache.go:56-111 | what a successful update puts at the cache path is the prepared directory, in which something is recorded and nothing recorded fails its check |
| BinaryCache.FailedUpdateKeepsOld | internal/binary/cache.go:53-111 | a failed update, whatever fails, leaves an existing set whole at its path or at `.old`; one that fails before the swap touches no existing directory |
| BinaryCache.SuccessfulUpdate | internal/binary/cache.go:53-111 | after success every recorded binary matches its checksum, some binary is recorded, and the cache lists exactly the completed platforms and the partial files of the others |
| BinaryCache.UpdatedContents | internal/binary/cache.go:56-142 | the new cache holds, for every completed platform, exactly the checksum file and binary that arrived, and a version file only if its download completed or could not be removed |
| BinaryCache.UpdateOutcomes | internal/binary/cache.go:56-111 | each way an update ends, by which platforms completed, which recorded binaries fail their check, and the swap |
| BinaryCache.ListedRecordedIff | internal/binary/cache.go:53-55 | after success every listed binary is a recorded one iff no copy from the cache broke, no download failed on close, and no broken-off download could not be removed |
| BinaryCache.UnverifiedBinary | internal/binary/download.go:63-78 | one fault, the copy of a valid cached binary breaking off, and a successful update lists that binary although it no longer matches its checksum |
| BinaryCache.Cache.Download | internal/binary/cache.go:65-73 | the loop fills the temporary directory and records names as specified, and touches nothing else |
| BinaryCache.Cache.FetchVersion | internal/binary/cache.go:79-85 | a failed download of the version file leaves none, unless its removal fails too |
| BinaryCache.FillNames | internal/binary/cache.go:65-73 | the recorded names are the platforms that completed; the listed ones are those and the partial files of failed ones |
| BinaryCache.FirstBad | internal/binary/cache.go:87-92 | a name is reported iff some recorded binary is unreadable or mismatched, and it is the first such |
| BinaryCache.Cache.VerifyAll | internal/binary/cache.go:87-92 | the loop reports the first recorded binary that fails |
| BinaryCache.Cache.DownloadFiles | internal/binary/cache.go:113-142 | the checksum file first, then a local binary that is verified against it, else the download; a broken-off download is removed, a broken copy stays |
| BinaryCache.Cache.SwapDirs | internal/binary/cache.go:94-107 | the removes and renames in place reach the last state of the specified sequence under every failure pattern |
| BinaryCache.FetchedNames | internal/binary/cache.go:113-142 | a platform adds at most its own binary to the listed names |
| BinaryCache.ServedLocally | internal/binary/cache.go:120-136 | the old cache serves a binary iff it has it, both checksum files read alike and the file still matches; no download is then made and the old file arrives |
| BinaryCache.ParseSumIff | internal/binary/download.go:46-61 | a checksum file reads as d iff its first blank-separated field is d and has 64 characters |

## Left out

- Storage engine: pages, locking, disk errors and record encoding; a transaction whose commit fails is not modelled, except for the refused keys.
- Cryptography and randomness: Ed25519, SHA-256, base64 and the random source are parameters or inputs.
- HTTP, WebSocket, TLS, ACME, SSH, logging, the command line, HTML pages and the installer templates: plumbing over libraries.
- Requests with a wrong method or an unreadable body, which the handlers answer before anything the model describes.
- A failure of the tunnel server to add a user, which ends a verification before its route is registered and skips a session on reload.
- The binary-list, permission, reserved-name, target-host, address-list and lifetime checks of script requests between admission and port: each is a single branch that refuses without an effect; `HandleScript` takes their joint outcome as an input.
- The listening sides of raw TCP and UDP ports: listeners appear as the sets of open ports, closed by the cleaner and consulted by the port allocator; how they are opened is not modelled.
- The registry of connected tunnels: an input.
- Parsing of addresses and CIDR ranges: a predicate on list entries.
- Exact agreement of routes and credentials with the store between the transactions of concurrent handlers, and single use of a nonce there: both fail, as `Isolation.MidVerifyDisagrees` and `Isolation.TwoActivations` show.
- Frontend.Frontend.NextServerPort: requires that a free port exists, because the source loops forever otherwise, and that no other caller moves the counter meanwhile.
- Frontend.Frontend.HandleScript: takes one instant for the rate limit and for the creation time.
- Protocol.AdmissionBound: for runs under one positive limit, because lowering it does not remove sessions.
- RateLimiter.Spacing: stated for fixed settings, since it names one window; across reconfigurations the decision is that of `RateLimiter.AcceptsIff`.
- Users.UserDatabase.InvalidateExpiredUsers: visits each user once in an arbitrary order; what a storage cursor does when records change under it is not modelled.
- Fairness and liveness of goroutines: only safety is claimed.
- ShellEscape.ShellEscape: strings are sequences of valid characters; invalid UTF-8 is not modelled.
- BinaryCache.Cache.Update: the temporary directory has a fresh name, and two updates never run at once.
- Script generation, TTL selection, configuration validation and redaction: single-branch facts.
