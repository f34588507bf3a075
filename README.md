# Video-calling backend core in Dafny

This project models the core of a stranger-matching video-calling backend and proves properties of the model. The core has four parts:

- **The signaling coordinator** (`signaling-server.js`). One process keeps two in-memory maps:
  - `activeUsers`: user id to socket id;
  - `activeCalls`: call id to caller, receiver and their two socket ids.

  It runs one handler per socket event: connection, `call-init`, `offer`, `answer`, `ice-candidate`, `call-accepted`, `call-rejected`, `call-end` and `disconnect`.
  - It is modelled as the class `Signaling.Coordinator`. The class has the source's two maps as `map` fields.
  - The field `callOrder` holds the insertion order of `activeCalls`, which is the order a JavaScript `Map` iterates in.
  - Every message the handlers emit is appended to an `outbox`.
  - Each handler is a method whose postcondition gives its whole new state.
  - The invariant `Valid()` says that `callOrder` lists the keys of `activeCalls` once each.
  - The disconnect loop is proved against three functions of the state before it: `Survivors`, `SurvivingOrder` and `DisconnectNotices`. Lemmas then show that no remaining call involves the user, that every ended call's peer is told exactly once (`EachPeerToldOnce`), and that calls not involving the user are untouched.
  - `SignalingScenarios` runs whole conversations from a fresh server and states the exact message trace of each.
- **The partner search** (`services/matchmakingService.js`, `findMatch`).
  - `Matchmaking.Eligible` states eligibility directly.
  - The SQL query is modelled as a list of conditions with positional parameters, and `Satisfies` gives its meaning.
  - `BuildQuery` builds the query clause by clause, as the source does. It is proved to select exactly the eligible users.
  - `FindMatch` returns some eligible user's profile, or `None` exactly when no user is eligible or a lookup fails.
- **The access guards** (`middleware/authMiddleware.js`). `verifyToken`, `requirePremium` and `requireAdmin` are pure functions. Each returns `Next(principal)` or `Respond(status, error)`.
  - `verifyToken` and `requireAdmin` take the Authorization header, the token verifier and the rows the database returns.
  - `requirePremium` takes the user an earlier guard stored on the request, the rows and the clock. It is the only guard that reads the clock.
- **The Redis reconnect policy** (`config/redis.js`). `retry_strategy` is the function `RedisConfig.RetryStrategy`.

The token verifier, the database and the clock are parameters:

- The verifier is a function from token to `Verified(claims) | Expired | Rejected`.
- Each table is an `Option<seq<Row>>`, where `None` means the query throws.
- The time is an integer.

The code departs from what such a coordinator is often assumed to do; the model follows the code:

- **No call states.** The code keeps no call state. `call-accepted` only relays a notice and changes nothing. Any event works on any recorded call, so there is no `INITIATED`/`RINGING`/`ACTIVE` machine.
- **Disconnect is not idempotent in its messages.** A second disconnect of the same user ends no further calls (`NothingLeftToEnd`). It does broadcast `user-offline` again (`StaleTabDisconnect`).
- **Disconnect deletes by user id, not by socket.** When a user has reconnected on a newer socket, a disconnect of the older socket still deletes the user's registration. The open newer socket can then no longer be called (`StaleTabDisconnect`).
- **The disconnect reason is `'peer-disconnected'`,** with a hyphen.
- **A throwing lookup in `verifyToken`** lands in the same catch block as a bad token, so it answers 401 'Invalid token'.
- **The 3000 ms cap in the Redis policy is never reached.** Only attempts up to 10 get a delay, so every delay is at most 1000 ms (`RetryStrategy`).

## Model

| member | source | states |
|---|---|---|
| RedisConfig.RetryStrategy | config/redis.js:8-20 | A refused connection gives up with 'Redis server connection refused', whatever else holds. It gives up exactly when refused or past one hour of retrying, and past the hour it gives up with 'Redis retry time exhausted'. It stops exactly when not refused, within the hour, and past 10 attempts. Otherwise it delays `attempt * 100` ms, which is never above 1000 ms and so never above the 3000 ms cap. |
| RedisConfig.DelayMonotone | config/redis.js:19 | Among retrying cases, a later attempt never waits less. |
| RedisConfig.OtherErrorsRetry | config/redis.js:9-19 | An error other than ECONNREFUSED, within the time and attempt bounds, yields a delay and not an error. |
| RedisConfig.RefusedWins | config/redis.js:9-12 | For a refused connection, the decision does not depend on the elapsed time or the attempt count. |
| Jwt.RoleOrDefault | middleware/authMiddleware.js:31 | The role is the token's role when that role is non-empty, and 'user' otherwise. It is never empty. |
| AuthMiddleware.Split | middleware/authMiddleware.js:7 | JavaScript `split`: at least one part, and no part contains the separator. |
| AuthMiddleware.SplitWord | middleware/authMiddleware.js:7 | A word with no separator splits into itself. |
| AuthMiddleware.SplitAfterWord | middleware/authMiddleware.js:7 | A word followed by one separator splits off as the first part. |
| AuthMiddleware.BearerToken | middleware/authMiddleware.js:7 | A token found is non-empty and has no space. A missing header gives no token. |
| AuthMiddleware.BearerRoundTrip | middleware/authMiddleware.js:7 | `"<scheme> <token>"` yields exactly `<token>`. |
| AuthMiddleware.NoSpaceNoToken | middleware/authMiddleware.js:7-11 | A header without a space carries no token. |
| AuthMiddleware.SecondWord | middleware/authMiddleware.js:7-11 | A header with a space yields the word between its first space and the next space or the end. An empty word yields no token, so "Bearer " gets 401 'No token provided'. With `NoSpaceNoToken` this covers every header. |
| AuthMiddleware.RowsWithId | middleware/authMiddleware.js:16-19 | The rows returned are exactly the table's rows with that id, for `users` and, at lines 85-88, for `admin_users`. A missing id matches nothing. |
| AuthMiddleware.VerifyToken | middleware/authMiddleware.js:5-42 | No token if and only if 401 'No token provided'. Every refusal is a 401 or the 403 'Account is banned'. A verified token whose lookup throws gets 401 'Invalid token'. On success: the token is verified; the principal's id is the token's userId; its role is the token role or 'user'; and an unbanned row with that id supplies `isGuest`. |
| AuthMiddleware.MissingTokenIgnoresVerifier | middleware/authMiddleware.js:9-11 | Without a token, neither the verifier nor the database affects the answer. |
| AuthMiddleware.VerifierRefusals | middleware/authMiddleware.js:36-41 | An expired token gives 401 'Token expired'. Any other refusal gives 401 'Invalid token'. |
| AuthMiddleware.KnownUserChecks | middleware/authMiddleware.js:21-27 | A valid token for an unknown user gives 401 'User not found'. For a banned user it gives 403 'Account is banned'. |
| AuthMiddleware.ValidUserPasses | middleware/authMiddleware.js:29-35 | A valid token for an unbanned user passes with the row's id, the token role (or 'user') and the row's guest flag. |
| AuthMiddleware.RequirePremium | middleware/authMiddleware.js:45-67 | Passes the same user on exactly when the row exists, is premium and its expiry has not passed. A throwing lookup gives 500 'Server error'. No row gives 404 'User not found'. A row that is not premium or whose expiry has passed gives 403 'Premium subscription required'. |
| AuthMiddleware.PremiumWithoutExpiryAllowed | middleware/authMiddleware.js:59 | A premium user with no expiry is admitted at any time. |
| AuthMiddleware.PremiumAdmissionMonotone | middleware/authMiddleware.js:59 | A user admitted at some time is admitted at every earlier time. |
| AuthMiddleware.RequireAdmin | middleware/authMiddleware.js:70-103 | No token gives 401 'No token provided'. An expired or rejected token gives 401 'Invalid admin token'. The guard admits if and only if the token is verified, its role is 'admin' or 'super_admin', the lookup succeeds and the first row with the token's adminId is active. The principal is the token's adminId and role. Every refusal is 401 or 403. |
| AuthMiddleware.NonAdminRoleRefused | middleware/authMiddleware.js:80-82 | A non-admin role gets 403 'Admin access required', whatever the database holds. |
| AuthMiddleware.InactiveAdminRefused | middleware/authMiddleware.js:90-92 | An admin role with a missing or inactive row gets 403 'Admin access denied'. |
| AuthMiddleware.ValidAdminPasses | middleware/authMiddleware.js:94-99 | A verified admin token whose one `admin_users` row is active is admitted with the token's adminId and role. |
| AuthMiddleware.AdminLookupFailure | middleware/authMiddleware.js:100-101 | With a verified admin token, a throwing `admin_users` query gets 401 'Invalid admin token'. |
| Matchmaking.BlockedIds | services/matchmakingService.js:8-12 | The ids listed are exactly those the requester blocked. |
| Matchmaking.GenderIgnoredUnlessConstrained | services/matchmakingService.js:28-31 | Without a gender filter other than 'any', a user's gender does not affect eligibility. |
| Matchmaking.RegionIgnoredUnlessConstrained | services/matchmakingService.js:33-36 | Without a truthy region filter, a user's region does not affect eligibility. |
| Matchmaking.PlaceholdersAppend | services/matchmakingService.js:15-36 | Placeholder counts add up over concatenated clauses. |
| Matchmaking.AppendCondition | services/matchmakingService.js:24-36 | Appending a clause and pushing its parameters conjoins the clause's condition, and keeps placeholders matched to parameters. |
| Matchmaking.AppendConditionAll | services/matchmakingService.js:24-36 | The same, for every row at once. |
| Matchmaking.GenderColumnUnread | services/matchmakingService.js:28-31 | A query without the gender clause does not read the gender column. |
| Matchmaking.RegionColumnUnread | services/matchmakingService.js:33-36 | A query without the region clause does not read the region column. |
| Matchmaking.BaseQuery | services/matchmakingService.js:15-22 | The base query selects exactly the users who are not the requester, are online and are not banned. |
| Matchmaking.BuildQuery | services/matchmakingService.js:14-36 | The query's placeholders match its parameters, and it selects exactly the eligible users. The gender and region clauses are present exactly when their filters apply. The NOT IN clause is present exactly when the blocked list is non-empty. |
| Matchmaking.SelectRows | services/matchmakingService.js:40 | The answer holds exactly the table rows that satisfy the query. |
| Matchmaking.Execute | services/matchmakingService.js:40 | The model runs only queries whose parameters match their placeholders, and `BuildQuery` builds only those. The answer holds exactly the table's rows that satisfy every condition. |
| Matchmaking.FindMatch | services/matchmakingService.js:3-47 | A result is the profile of an eligible user: not the requester, online, not banned, not blocked, and matching the filters. `None` comes exactly when a lookup fails or no user is eligible. |
| Signaling.AuthenticateHandshake | signaling-server.js:19-34 | A missing or empty token if and only if 'Authentication error'. A token the verifier refuses gets 'Invalid token'. Admitted exactly when the verifier accepts the token, with its userId and its role or 'user'. |
| Signaling.Without | signaling-server.js:124 | `Map.delete` on the iteration order removes exactly that key, keeps the others without repeats, and changes nothing for an absent key. |
| Signaling.Survivors | signaling-server.js:147-161 | The calls left after a disconnect: none involves the user, every call not involving the user is kept unchanged, and no call is added. |
| Signaling.SurvivingMembers | signaling-server.js:147-161 | The surviving order holds exactly the calls that do not end, without repeats. |
| Signaling.NoticesAppend | signaling-server.js:147-161 | The notices for two stretches of the iteration order are those of each stretch, in turn. |
| Signaling.SurvivingAppend | signaling-server.js:147-161 | The same for the surviving order. |
| Signaling.NoticesGoToPeers | signaling-server.js:148-158 | Every disconnect notice goes to the other participant of one of the user's calls, with reason 'peer-disconnected'. |
| Signaling.EveryEndedCallNotified | signaling-server.js:148-158 | Every call the user was in yields a notice to its other participant. |
| Signaling.EachPeerToldOnce | signaling-server.js:148-158 | Over an order that lists each call once, the notice for each ended call occurs exactly once among the disconnect's notices. |
| Signaling.NoticesPartitionOrder | signaling-server.js:147-161 | Each visited call yields one notice or survives, never both and never neither. |
| Signaling.SurvivorsTracked | signaling-server.js:147-161 | After a disconnect the order still lists the remaining calls once each. |
| Signaling.NothingLeftToEnd | signaling-server.js:147-161 | A second disconnect of the same user ends no more calls and sends no notice. |
| Signaling.VisitStep | signaling-server.js:148-160 | One turn of the loop advances the state from n visited keys to n + 1. |
| Signaling.VisitFirstMeetsSpec | signaling-server.js:147-161 | After n turns, the calls, order and notices are those of the first n keys. |
| Signaling.SweepComplete | signaling-server.js:147-161 | The whole loop leaves `Survivors`, `SurvivingOrder` and the notices, and keeps the order consistent. |
| Signaling.Coordinator.constructor | signaling-server.js:15-16 | The server starts with no users, no calls and nothing sent. |
| Signaling.Coordinator.Connect | signaling-server.js:36-43 | The user's entry becomes the new socket, replacing any earlier one. 'user-online' is broadcast to everyone else. |
| Signaling.Coordinator.CallInit | signaling-server.js:46-66 | For a connected receiver, the call is recorded with both users and sockets, and 'incoming-call' goes only to the receiver's socket. Otherwise the calls are unchanged and the caller gets 'User is offline'. |
| Signaling.Coordinator.Offer | signaling-server.js:69-79 | Relayed only to the call's receiver socket, tagged with the sender. Nothing is sent for an unknown call. No map changes. |
| Signaling.Coordinator.Answer | signaling-server.js:82-92 | Relayed only to the call's caller socket, tagged with the sender. Nothing is sent for an unknown call. No map changes. |
| Signaling.Coordinator.IceCandidate | signaling-server.js:95-105 | Sent to the target user's socket, found in `activeUsers`, tagged with the sender. Dropped when the target is away. No map changes. |
| Signaling.Coordinator.CallAccepted | signaling-server.js:108-114 | Only tells the caller. No map changes. |
| Signaling.Coordinator.CallRejected | signaling-server.js:117-125 | Tells the caller if the call exists. Deletes the id in any case. For an unknown id nothing changes. |
| Signaling.Coordinator.CallEnd | signaling-server.js:128-138 | For an existing call, 'call-ended' goes to the caller and then the receiver, and the entry is removed. For an unknown id nothing changes. |
| Signaling.Coordinator.Disconnect | signaling-server.js:141-165 | The user's registration is removed. Exactly the calls involving the user are removed, and the rest keep their order. Each removed call's peer gets 'call-ended' with 'peer-disconnected', in iteration order. 'user-offline' is broadcast last. No remaining call involves the user. |
| SignalingScenarios.HappyPath | signaling-server.js:40-138 | The full exchange, from connect to call-end, emits exactly the listed ten messages and leaves no call. |
| SignalingScenarios.CallingOfflineUser | signaling-server.js:49-65 | Calling an absent user gives only an error to the caller. Later relays for that call are dropped. |
| SignalingScenarios.DisconnectWhileRinging | signaling-server.js:141-165 | A receiver who drops while ringing gets the caller told 'peer-disconnected', removes the call, and is announced offline. |
| SignalingScenarios.StaleTabDisconnect | signaling-server.js:36-165 | With another user online, closing an older socket deletes the user's newer registration, so a call to the user fails. Closing the newer socket announces the user offline a second time. |

## Left out

- The Socket.IO transport, CORS, port binding and the logging calls are not modelled. An emit is an appended `Delivery`, and a broadcast is one `Broadcast(exceptSocket, event)` record rather than its fan-out.
- Signature and expiry checking of JSON Web Tokens are not modelled, because they belong to a foreign library. The verifier is an abstract function.
- The database driver is not modelled. Each table is what its query reads, or `None` when the query throws. The SQL text is modelled by its meaning, not its characters. That includes the ids written into `NOT IN (...)`.
- Matchmaking.Holds: compares gender and region exactly, while a MySQL column comparison follows its collation, which is usually case-insensitive.
- `ORDER BY RAND() LIMIT 1` is a nondeterministic choice among the eligible rows. Randomness is not modelled.
- Signaling.Coordinator.Connect: the user id is a natural number. A token without a `userId` claim (`socket.userId` undefined) is not modelled past the handshake, which records the missing id as `None`.
- Signaling.AuthenticateHandshake: `socket.userRole` is returned but nothing reads it later.
- AuthMiddleware.RequirePremium: the expiry is an integer time. Invalid dates, which make the JavaScript comparison false, are not modelled.
- Concurrency is not modelled. Handlers run one at a time to completion in one process, which is also the source's behaviour. Concurrent matchmaking requests are out of scope.
- The controllers, the OTP service, the rate limiter, the routes and the server wiring are not part of this model. They hold persistence and library configuration, not core logic.
