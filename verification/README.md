# gprxy in Dafny

gprxy is a PostgreSQL proxy. A client connects, may negotiate TLS, and authenticates with a password or a
JWT. The proxy tries the resulting account on a temporary backend connection, then takes a connection from a
pool of at most five, tells the client that connection's cancel key, publishes the key in a registry shared
by all sessions, and relays messages one at a time. When the session ends it resets the connection, gives it
back and withdraws the key. This project models those parts and proves what holds over all runs.

The modules come in three kinds.

**One session, as code.** `Wire`, `Relay`, `BackendAuth`, `Authenticator`, `Token`, `Roles`, `Jwks`,
`PooledBackend`, `CancelKeys`, `ClientTls`, `Startup` and `Connection` are the source's methods over explicit message
streams: what a peer will send is any script, what it sends in answer is any function, and which sends, dials
and handshakes fail is arbitrary. Their contracts state what each side received. `Connection` also keeps a
record of its externally visible steps, and proves that the record always follows the automaton in
`SessionAutomaton` (`LoopSteps` does this for the query loop).

**All sessions, as a state machine.** `ProxySystem` runs any number of those automata, interleaved in any
order, over one registry, any number of pools and their physical connections. `ProxyInvariant` is what every
step keeps, and `ProxySteps` what a session can do next in any reachable state. `ProxyTheorems` and
`ProxyConnections` are safety over whole runs, and `ProxyWitnesses` runs that show where it ends. Cleanup is
four separate steps in the code's order: close, reset, release, unregister.

**Goroutines behind locks and channels.** `PoolManager` and `JwksCache` are the two double-checked caches,
with each lock operation and each access a step of its own. `LoginCallback` is the callback server of the
login command: any number of handlers, one receiver, unbuffered channels.

## What the proofs found

- Release comes before unregister, and unregister deletes by key whoever the entry belongs to. A session can
  therefore be in its query loop and not be found by a cancel request (`InLoopSessionCanLoseItsEntry` is such
  a run). `docs/cancel-requests.md` says that a closing connection unregisters itself; the code may
  unregister its successor. `RegisteredUnlessEvicted` says exactly when, `RegistryIsBijection` that it cannot
  happen if no connection is taken between a release and the unregister after it.
- The reset before release is complete exactly when no reply is left unread (`ResetCleansExactly`); with one
  pending it reports success, and the next session publishes a connection that is out of step
  (`NextSessionCanFindStaleReplies` is such a run).
- The relay waits for a ReadyForQuery after every message, so the first message the backend answers without
  one leaves the session waiting for good, and with it the Sync behind it (`ServedExactlyIfAnswered`). A
  Parse, Bind, Describe or Execute is such a message (`AnsweredWithoutExtended`).
- A session follows a nil pointer, apart from the walk below, exactly on two kinds of input: a GSSENCRequest
  after its SSL requests, with any message behind it, and a login that gets to the backend's ReadyForQuery
  with no key before it (`HandleConnection`; `Startup.CrashesOn` is the condition). `Crashes` has sessions of
  each kind; a backend that keeps to the protocol causes none of the second (`ConformingBackendHasKey`).
- To log it, `registerConnection` walks over the whole registry and looks into every session's pooled
  connection. One that has been released is no longer there to be looked into, so an ordinary registration
  follows a nil pointer exactly if another key is still registered for a session between its release and its
  unregister (`RegisteringMeetsReleasedExactly`; `RegisteringCanMeetReleased` is such a run).
- A session that neither crashes nor waits for ever cleans up; `HangsOn` and the loop's outcome say exactly
  when it waits.
- Loaded role names are not trimmed while claimed ones are, and the default role is not lowercased
  (`ReachableExactlyIfTrimmed`, `DefaultUsableOnlyInLowerCase`).
- A login handler that rejects its request goes on and still offers its code; that is harmless only because
  the report before it was the one receive (`RejectingHandlersComeTooLate`). A good code that comes before
  the receiver waits is lost (`OfferCountsIfAwaited`).

## Assumptions

Cancel keys of distinct backend connections are distinct over a run. A pool hands a connection to one holder
at a time, and never more than its limit of five; Exec sends one command and reads to one ReadyForQuery. A
backend's answer to a forwarded message has no ReadyForQuery but at its end. The clock does not go back. A
session's OAuth state parameter does not change while the callback server runs.

## Model

| member | source | states |
|---|---|---|
| `CancelKeys.PackInjective` | internal/proxy/server.go:21-25 | two (PID, secret) pairs have the same packed key only if they are the same pair |
| `CancelKeys.UnpackPack` | internal/proxy/server.go:23-25 | the packed key determines the pair it was made from |
| `CancelKeys.PackUnpack` | internal/proxy/server.go:23-25 | every 64-bit key is the key of some pair |
| `CancelKeys.HalvesOfPack` | internal/proxy/server.go:23-25 | the process id is the upper half of the packed key and the secret the lower |
| `CancelKeys.RegistryRefinesPairs` | internal/proxy/server.go:27-67 | over every sequence of registrations, removals and lookups the packed registry answers as one keyed by the pair |
| `CancelKeys.Server.RegisterConnection` | internal/proxy/server.go:27-32 | the pair's entry becomes this session and no other pair's entry changes |
| `CancelKeys.Server.UnregisterConnection` | internal/proxy/server.go:40-45 | the pair's entry goes, whoever's it was, and no other |
| `CancelKeys.Server.GetConnectionForCancelRequest` | internal/proxy/server.go:47-67 | finds the session registered under exactly this pair |
| `CancelKeys.CancelPacket` | internal/proxy/connection.go:97-109 | the 16 bytes are those of the protocol, one by one, and a server reads from them a CancelRequest for the very pair the proxy was given |
| `CancelKeys.CancelPacketDecodes` | internal/proxy/connection.go:97-109 | the packet's layout decodes to the pair, for every pair |
| `CancelKeys.BigEndianIs` | internal/proxy/connection.go:97-109 | numbers are written as four base-256 digits, the highest first |
| `CancelKeys.RequestCodes` | internal/proxy/connection.go:97-109 | the codes of a CancelRequest and an SSLRequest are 1234 and 5678 or 5679, two bytes each |
| `CancelKeys.CancelRoundTrip` | internal/proxy/server.go:27-67 | key issued, looked up, packed and decoded again is the identity; another pair finds only its own entry |
| `PooledBackend.PooledConn.FullResetBeforeRelease` | internal/proxy/connection.go:123-135 | a reset that nothing fails under, on a connection with nothing unread, succeeds in any transaction status and leaves nothing unread, no transaction and no trace of the session |
| `PooledBackend.ResetCleansExactly` | internal/proxy/connection.go:123-135 | succeeds and cleans if and only if no unread reply is a ReadyForQuery or an error |
| `PooledBackend.ResetMissesUnreadReplies` | internal/proxy/connection.go:123-135 | with a reply pending, success is reported and the connection is not clean |
| `PooledBackend.SwappedResetCleansExactly` | internal/proxy/connection.go:124-133 | in the other order the two commands clean only connections outside a transaction |
| `PooledBackend.NeitherCommandIsEnough` | internal/proxy/connection.go:124-133 | a ROLLBACK alone cleans exactly the connections whose session changed nothing outside the transaction, and DISCARD ALL alone exactly those outside one |
| `PooledBackend.ExecKeepsReadyReplies` | internal/proxy/connection.go:124-133 | a command leaves as many ReadyForQuerys unread as it found, so replies once left behind stay in the way |
| `SessionAutomaton.OneKeyPerSession` | internal/proxy/connection.go:37-54 | the key registered, released and unregistered by a session is that of the connection it pinned, never the temporary one |
| `SessionAutomaton.PinnedKeyOnly` | internal/proxy/connection.go:42-52 | once pinned, all later steps name the pinned key |
| `ProxyInvariant.InvAlways` | internal/proxy/connection.go:32-70 | in every reachable state of any number of sessions: connections have at most one holder, registry entries belong to sessions with that key, pools count their holders |
| `ProxyInvariant.HeldAfter` | internal/proxy/connection.go:42-49 | only acquiring, a failed ping and releasing change what a session holds |
| `ProxySteps.WhileStarting` | internal/proxy/startup.go:25-137 | in every reachable state, a session that starts up can be authenticated with any unused key or fail, and a cancel request finds a session if and only if it is registered under the pair |
| `ProxySteps.WhileConnecting` | internal/pool/manager.go:72-91 | it can take any idle connection of a pool, and a new one if and only if the pool has fewer than five |
| `ProxySteps.WhilePinging` | internal/pool/manager.go:80-91 | it can pin the connection it took if and only if that answers the ping, and can give it back undestroyed if and only if it is open and does not |
| `ProxySteps.WhileForwarding` | internal/proxy/message.go:12-67 | between messages it can forward one, whatever the answer that has a ReadyForQuery at most at its end |
| `ProxySteps.WhileRelaying` | internal/proxy/message.go:69-95 | it can pass on the next reply if there is one, and that ends the answer if and only if it is a ReadyForQuery |
| `ProxySteps.WhileResetting` | internal/proxy/connection.go:123-135 | the reset can come to whatever ROLLBACK and then, if that succeeded, DISCARD ALL come to |
| `ProxySteps.WhileReleasing` | internal/proxy/connection.go:47-49 | the connection can be kept if and only if it is not broken |
| `ProxySteps.WhatIsTaken` | internal/pool/manager.go:72-91 | a new connection has nothing unread, no transaction and no trace; an idle one is taken as it was left, and is idle no more |
| `ProxySteps.WhatIsGivenBack` | internal/proxy/connection.go:47-49 | a released connection waits in the pool it came from as it was left, unless it is destroyed |
| `ProxyTheorems.RegistryEntriesHoldOrJustReleased` | internal/proxy/connection.go:42-52 | a registry entry's session has that key and holds the connection, or is exactly between its Release and its unregister; a finished session is never in the registry |
| `ProxyTheorems.TempKeyUnregisterChangesNothing` | internal/proxy/startup.go:38-43 | a session that got no pooled connection unregisters its temporary key, which changes nothing |
| `ProxyTheorems.RegisteredUnlessEvicted` | internal/proxy/connection.go:47-52 | a session in the loop is the registry's value for its key if and only if nobody unregistered it since; everyone who did is another session that had released the same connection before this one took it |
| `ProxyTheorems.HolderTookOver` | internal/proxy/connection.go:47-52 | a holder that meets another session's window acquired the connection after that session's release |
| `ProxyTheorems.RegistryIsBijection` | internal/proxy/startup.go:84-88 | if no connection is acquired inside such a window, sessions in the loop and their keys in the registry are in bijection |
| `ProxyTheorems.CancelReachesTheSessionOrItsSuccessor` | internal/proxy/startup.go:121-137 | a cancel request that finds a session names a connection it holds, or one it has released and not unregistered, which another may hold |
| `ProxyWitnesses.InLoopSessionCanLoseItsEntry` | internal/proxy/server.go:40-45 | a run after which a session is in the query loop and its key is not in the registry |
| `ProxyTheorems.ReleasedExactlyOnce` | internal/pool/manager.go:73-91 | a session takes at most one connection, and has given it back exactly once when it is done, on every path |
| `ProxyTheorems.PoolConservation` | internal/pool/manager.go:25-91 | a pool's acquired count is the number of sessions holding one of its connections, pinging included; with the idle ones it is never above five |
| `ProxyWitnesses.NextSessionCanFindStaleReplies` | internal/proxy/connection.go:123-135 | a run in which a holder leaves because a reply could not be sent to its client, the ReadyForQuery behind it unread; its reset succeeds, and the next session is about to publish a connection that is not clean |
| `ProxyTheorems.RegisteringMeetsReleasedExactly` | internal/proxy/server.go:31-37 | a registration walks over a released connection if and only if another key is still registered for a session between its Release and its unregister |
| `ProxyWitnesses.RegisteringCanMeetReleased` | internal/proxy/server.go:31-37 | a run after which an ordinary registration does |
| `ProxyConnections.ConnsAlwaysConditioned` | internal/proxy/connection.go:42-48 | the condition of every untainted connection at every point of its holder's session, and between holders |
| `ProxyConnections.NextSessionFindsCleanConnection` | internal/proxy/connection.go:123-135 | if earlier holders left between messages and their resets succeeded, the next one finds nothing unread, no transaction and no trace of them, whatever they ran |
| `Relay.RelayBackendResponse` | internal/proxy/message.go:69-95 | passes on what the backend sends up to and including the first ReadyForQuery, in order, or stops where a receive or send does |
| `Relay.HandleMessage` | internal/proxy/message.go:12-67 | reads one message; a Terminate is not forwarded; any other is forwarded, and its answer relayed |
| `Relay.QueryLoop` | internal/proxy/connection.go:62-69 | for every client script and backend: forwarded messages = relayed ReadyForQuerys, plus one inside the relay; each side received a prefix of what the other sent, without a Terminate; nothing is forwarded before its turn |
| `RelayProgress.ServedExactlyIfAnswered` | internal/proxy/message.go:57-95 | a script of any messages ending in Terminate is served to its end, with a direct connection's output, if and only if the backend answers every message with a ReadyForQuery; else the session waits behind the first it does not |
| `RelayProgress.AnsweredWithoutExtended` | internal/proxy/message.go:21-46 | for a backend that speaks the simple and extended protocols, scripts of Query and Sync are all answered, and none with a Parse, Bind, Describe or Execute is |
| `RelayProgress.ServeScript` | internal/proxy/message.go:12-95 | the same of the loop itself on connections nothing fails on, with what each side has then |
| `RelayProgress.LeavesNothingUnread` | internal/proxy/connection.go:62-69 | a session that leaves between messages has read and passed on all the backend answered, and leaves nothing unread |
| `LoopSteps.StretchFollows` | internal/proxy/message.go:57-95 | any stretch of the query loop in lockstep is a run of the session automaton |
| `Roles.RoleMapper.LoadFromEnvironment` | internal/auth/roles.go:46-97 | the map holds exactly the last valid definition of each lowercased role, where valid is written out: `ROLE_MAPPING_`, a role without `=`, `=`, a user without `:`, `:`, a password, neither credential blank; it fails if and only if there is none |
| `Roles.EntryRoundTrip` | internal/auth/roles.go:58-86 | a variable written as documented is read as its role, user and password, where the password may contain either separator |
| `Roles.ParseEntryIs` | internal/auth/roles.go:51-86 | a variable is read if and only if it is such a mapping, and as what it says; any other is skipped |
| `Roles.LoadedIsExact` | internal/auth/roles.go:46-97 | every account in the map comes from such a variable, the last for its role, and every such variable has a role in the map |
| `Roles.NormalizeIs` | internal/auth/roles.go:105-110 | a claimed role is looked up in lower case, without the white space around it |
| `Strings.TrimSpaceIs` | internal/auth/roles.go:64-79 | trimming takes away exactly the white space at both ends, and leaves nothing if and only if there is nothing else |
| `Roles.LoadedKeysAreLower` | internal/auth/roles.go:64-65 | every loaded key is in lower case |
| `Roles.ReachableExactlyIfTrimmed` | internal/auth/roles.go:108-116 | some claimed role finds a loaded key if and only if the key has no white space at its ends |
| `Roles.DefaultUsableOnlyInLowerCase` | internal/auth/roles.go:123-135 | a default role that is ever found is in lower case |
| `Roles.RoleMapper.MapRoleToServiceAccount` | internal/auth/roles.go:99-120 | the account of the least-index matching role; the default's if none matches; an error if there is no default |
| `Roles.MapsToOneAccount` | internal/auth/roles.go:99-120 | that account is unique |
| `Roles.RoleMapper.HandleNoRoles` | internal/auth/roles.go:122-135 | the default role's account, if a default is set and mapped as written |
| `Roles.RoleMapper.AddRoleMapping` | internal/auth/roles.go:137-150 | adds or replaces one normalized role, keeps all keys in lower case, and a claim of that role then maps to it |
| `Token.ValidateJWT` | internal/auth/jwt.go:65-160 | accepts if and only if algorithm, key, signature, issuer, audience, email, subject and expiry are all in order; the result has the token's roles |
| `Token.ValidateAudience` | internal/auth/jwt.go:194-223 | the audience is the string itself or in the list |
| `Token.ExtractRoles` | internal/auth/jwt.go:161-193 | the strings of `role`, then those of `roles` |
| `Token.StringsKeepOrder` | internal/auth/jwt.go:161-193 | claimed string roles are all offered, in their order |
| `Token.RolesAre` | internal/auth/jwt.go:161-193 | the roles offered are exactly the strings of the two claims, each a list or one string, `role` before `roles` |
| `Token.NoTokenWithoutExpiry` | internal/auth/jwt.go:142-155 | an accepted token has a numeric expiry, and is not accepted after the second it names |
| `Token.AcceptableExactly` | internal/auth/jwt.go:94-155 | what is accepted, written out: issuer, audience, a non-empty email and subject, and a numeric expiry whose second, toward zero, is not past |
| `Jwks.ParseExponent` | internal/auth/jwt.go:312-318 | accepts any bytes and yields their big-endian value in a 64-bit signed integer, exact if and only if it is below 2^63 |
| `Jwks.KeyCache.FetchJWKS` | internal/auth/jwt.go:263-330 | adds every acceptable key before the first broken one; succeeds, and notes the time, if and only if there is a document and it has none broken; drops no key |
| `Jwks.AddedAre` | internal/auth/jwt.go:291-325 | only RSA keys for signatures whose numbers decode are added, and all of them from a document whose every such key decodes |
| `Jwks.NewKeysAreUsable` | internal/auth/jwt.go:291-325 | so every id a document puts in the cache is that of such a key |
| `Jwks.KeyCache.GetPublicKey` | internal/auth/jwt.go:225-261 | returns what the cache last says of the id, or an error if nothing; fetches if and only if the id is missing or the last success is at least 3600 seconds old |
| `Jwks.HoldsOn` | internal/auth/jwt.go:320-320 | storing one more key keeps the cache the last-write-wins content of all keys accepted |
| `Jwks.HoldsUnique` | internal/auth/jwt.go:320-320 | that content is determined by the keys accepted |
| `JwksCache.InvAlways` | internal/auth/jwt.go:225-330 | what holds in every interleaving of any number of calls, lock steps and single-key writes included |
| `JwksCache.AnswersAreLastSaid` | internal/auth/jwt.go:225-261 | a key returned is what the documents of all fetches ended at some moment of the call last say, failed ones included; without a fetch of its own only within the time to live; an error only if they say nothing |
| `JwksCache.ServedWithinTheHour` | internal/auth/jwt.go:225-261 | a key served without a fetch of the call's own is served, at a second within the call, less than 3600 seconds after a fetch that had succeeded by then |
| `JwksCache.CallAlone` | internal/auth/jwt.go:225-261 | from any reachable state with no lock held, a call left alone ends: at once if it has the key and the last success is less than 3600 seconds old, else after a fetch that adds what the document has, with what there is then |
| `JwksCache.CacheIsHistory` | internal/auth/jwt.go:291-325 | with no writer, the cache is the last-write-wins content of all documents ever fetched, each up to its first broken key |
| `JwksCache.DomainNeverShrinks` | internal/auth/jwt.go:225-325 | no run ever drops a key id |
| `JwksCache.FetchesExactlyWhenDue` | internal/auth/jwt.go:240-248 | under the write lock a fetch starts if and only if the id was never accepted or every success is at least 3600 seconds old |
| `JwksCache.FetchesAreSpaced` | internal/auth/jwt.go:231-248 | a fetch for a cached id starts at least 3600 seconds after every success before it, however many calls queue |
| `PoolManager.InvAlways` | internal/pool/manager.go:24-70 | readers and writer exclude each other, and what a call has seen of the map is still so |
| `PoolManager.RefinesAtomic` | internal/pool/manager.go:36-70 | every step of every interleaving is a step of an atomic get-or-create, or none; a failure leaves the map alone |
| `PoolManager.CallAlone` | internal/pool/manager.go:33-70 | from any reachable state with no lock held, a call left alone ends with the pool that is there, else with the new one, which is then there, else with the failure |
| `PoolManager.SameKeySamePool` | internal/pool/manager.go:36-70 | all successful callers of a key have the one pool the map has for it |
| `PoolManager.AtMostOnePoolPerKey` | internal/pool/manager.go:44-69 | at most one pool is ever made for a key |
| `PoolManager.EntriesStay` | internal/pool/manager.go:67-67 | no entry is replaced or removed |
| `PoolManager.PoolTable.GetOrCreatePool` | internal/pool/manager.go:24-70 | with others running between its critical sections: the pool that is there, or the new one put there, or the failure with the map as it was |
| `BackendAuth.AuthenticateWithBackend` | internal/auth/authenticator.go:128-272 | for every backend script, what it read, sent each way and kept; it ends at a message that is to be refused, at a ReadyForQuery, where the backend hangs up or says no more, or at a send that fails, and says which; it succeeds if and only if the script gets to a ReadyForQuery with every message and send before it in order; the client is sent only AuthenticationOk, ParameterStatus and errors, all of them the backend's |
| `BackendAuth.GoesOnExactly` | internal/auth/authenticator.go:139-268 | the loop goes on past a message if and only if it is neither a ReadyForQuery nor to be refused: an error, a SASL offer without SCRAM-SHA-256, a SASL message without a conversation, or one the library fails on |
| `BackendAuth.RefusesExactly` | internal/auth/authenticator.go:139-268 | and ends by refusing if and only if the last message it read is such a one, unless the error could not be passed on |
| `BackendAuth.ReplyIs` | internal/auth/authenticator.go:178-266 | the exact reply to every message: the password, its MD5 for the salt, the library's first message under SCRAM-SHA-256, its answer to the challenge's data, or none |
| `BackendAuth.ConformingLogsIn` | internal/auth/authenticator.go:128-272 | every script that keeps to the protocol, key and all, logs in if the library can follow its SASL messages and the sends succeed |
| `BackendAuth.ConformingIs` | internal/auth/authenticator.go:139-268 | those scripts are, written out: challenges, AuthenticationOk, parameters, key and notices in any order with a key among them, ReadyForQuery |
| `BackendAuth.SucceedsAtFirstReady` | internal/auth/authenticator.go:139-159 | the loop goes on past no error and no ReadyForQuery |
| `BackendAuth.AuthenticatedExactly` | internal/auth/authenticator.go:131-159 | however the loop ended, it succeeded if and only if the backend's script and the sends allow it |
| `BackendAuth.OutOfMessagesExactly` | internal/auth/authenticator.go:131-135 | it ran out of messages if and only if the backend's whole script and the sends let it go on |
| `BackendAuth.OneReplyPerChallenge` | internal/auth/authenticator.go:178-266 | exactly one reply, of the right kind and in order, to each Cleartext, MD5, SASL and SASLContinue challenge, and none to anything else |
| `BackendAuth.ResponseFollowsInitialResponse` | internal/auth/authenticator.go:201-254 | a SASLResponse comes only after a SCRAM-SHA-256 initial response to a backend that advertised it |
| `BackendAuth.ConformingBackend` | internal/auth/authenticator.go:139-176 | from a backend that keeps to section 55.2.1, the client sees AuthenticationOk and then parameters, and there is a key to return |
| `Authenticator.RequestPasswordFromClient` | internal/auth/authenticator.go:104-124 | asks for a cleartext password; has one if and only if the request was sent and a password message came next; waits for ever if and only if it was sent and an open client says nothing |
| `Authenticator.Identify` | internal/auth/authenticator.go:55-82 | the startup user for a password, the mapped account for an accepted token, and no account only if there is none |
| `Authenticator.LooksLikeTokenIs` | internal/auth/authenticator.go:55-57 | a password counts as a token if and only if it begins with `eyJ` and is three parts with two dots between them |
| `Authenticator.IdentityIsUnique` | internal/auth/authenticator.go:55-82 | a password or token identifies at most one account |
| `Authenticator.AuthenticateUser` | internal/auth/authenticator.go:38-102 | the client was sent the greeting, or a prefix and at most one error; the login gets to the backend's ReadyForQuery if and only if the dial, the client's answer, its identity, the backend's script and the sends allow it, and waits for ever if and only if the client or the backend is open and says no more; the temporary connection was opened and its challenges answered only as the identity the client proved |
| `Connection.Connection.AcquireConnection` | internal/pool/manager.go:72-91 | a connection is kept if it answers the ping, and is otherwise given back; these are the steps recorded |
| `Connection.Connection.HandleStartupMessage` | internal/proxy/startup.go:15-141 | one reply per SSL request, all alike; the Backend returned wraps the current connection; from the inputs: exactly when it falls through, waits for ever, gets to the ReadyForQuery of its login, and enters the query loop; what it has then done, registered and logged in as; a cancel request is looked up and passed on if found |
| `Connection.Connection.StartSession` | internal/proxy/startup.go:25-88 | it gets through if and only if the login had a key, the pool gives a connection that answers the ping, and two more sends succeed; it has then, in order, logged in, taken a connection of the pool for this user and database, pinned it and registered under its key, which is the key the client was sent; else the client was sent part of the welcome and at most one error |
| `Startup.EnteredOnItsOwn` | internal/proxy/startup.go:25-88 | a session that enters the query loop has logged in, taken a connection of the pool named by the user and database of its own startup message, a missing one counting as empty, pinned it and registered under its key; the login was in that user's name or, for a token, the mapped account's |
| `Startup.OrdinaryStartupEnters` | internal/proxy/startup.go:15-141 | when nothing fails, a client that sends any number of SSL requests, a startup message and a password enters the query loop of every backend that keeps to the protocol |
| `Connection.Connection.PinAndPublish` | internal/proxy/startup.go:52-88 | the key of the pinned connection is sent, then ReadyForQuery, then the registry has it for this session; if a send fails the registry is as it was |
| `Connection.Connection.Serve` | internal/proxy/connection.go:62-69 | the query loop's messages both ways, in lockstep and for the reason given, and its record as steps of the automaton |
| `Connection.Connection.AnswerSsl` | internal/proxy/startup.go:89-119 | refuses or accepts; goes on if and only if the reply was sent and the handshake, if any, succeeded |
| `Connection.Connection.CancelSession` | internal/proxy/startup.go:121-137 | forwards a packet that decodes to the pair asked for, if that pair is registered, and nothing otherwise; the session then closes |
| `Connection.Connection.Cleanup` | internal/proxy/connection.go:37-54 | exactly close, reset, release, unregister, in this order and as far as the session got; the connection has been through the reset, whose failure does not keep it from being released; no message is read or sent on the way |
| `Connection.Connection.HandleConnection` | internal/proxy/connection.go:32-70 | for every client and backend: what the client was sent and read from first packet to last, what the pooled connection was sent and read, in lockstep and for the reason given; with a backend that keeps to the protocol the startup's part is within the grammar; the walk in registerConnection aside, it crashes if and only if the inputs are of two kinds, and waits for ever if and only if the startup does or the loop is in a receive of an open peer with no more to say; in every other case it has made exactly the steps of the cleanup, and left the registry without its key |
| `Startup.OnlyThePinnedKeyIsSent` | internal/proxy/startup.go:59-82 | wherever the startup breaks off, the client was sent no key but the pinned connection's, after a login that succeeded, and no ReadyForQuery but the one after it |
| `Startup.StartupGrammar` | internal/proxy/startup.go:25-88 | with a backend that keeps to the protocol as far as it got, or sent an error: every startup, failed or not, sent a beginning of CleartextPassword, AuthenticationOk, parameters, key, ReadyForQuery, then at most one error and nothing after it |
| `Startup.WelcomeGrammar` | internal/proxy/startup.go:25-88 | and one that serves sent exactly all of it |
| `Startup.AfterSslMeans` | internal/proxy/startup.go:89-119 | the SSL requests go through if and only if every reply is sent and every handshake succeeds, and the rest of the client's messages is then next |
| `Startup.ConformingBackendHasKey` | internal/auth/authenticator.go:100-101 | a backend that keeps to the protocol has sent a key when it is ready |
| `Crashes.Session` | internal/proxy/connection.go:32-70 | on wires that never fail, a client's and a backend's scripts make the session crash if and only if they are of the two kinds |
| `Crashes.GssRequestThenAnything` | internal/proxy/startup.go:139-141 | a GSSENCRequest crashes the session with any message behind it |
| `Crashes.ReadyWithoutAKey` | internal/auth/authenticator.go:100-101 | a backend that is ready without having sent a key crashes the session |
| `ClientTls.UpgradeToTLS` | internal/tls/client-tls.go:13-52 | the 8 bytes are those of an SSLRequest, one by one; plain if and only if the reply is 'N', under TLS if and only if it is another and the handshake succeeds |
| `ClientTls.Meet` | internal/tls/client-tls.go:13-52 | UpgradeToTLS against handleStartupMessage: the bytes the client writes are the packet the proxy receives; both go on or neither does, on the same transport, for either configuration |
| `ClientTls.EveryRequestAnsweredAlike` | internal/proxy/startup.go:89-119 | any number of SSL requests get as many replies, and both ends have as many layers of TLS as there were acceptances |
| `LoginCallback.CodeComesFromAcceptableCallback` | internal/cli/login.go:250-256 | a code returned was carried by a callback with that code, not empty, no error, and the session's state |
| `LoginCallback.AcceptableCallbackIsReceived` | internal/cli/login.go:169-235 | from any reachable state in which the receiver waits: a new callback with a code, no error and the session's state can make its four checks and offer the code, and that is the outcome |
| `LoginCallback.OtherCallbackIsReported` | internal/cli/login.go:169-217 | and one without these can report what is first wrong with it, and that is |
| `LoginCallback.OtherOutcomes` | internal/cli/login.go:250-275 | so can a failing server, a timeout and a cancellation |
| `LoginCallback.AtMostOneReceive` | internal/cli/login.go:250-275 | at most one channel receive ever completes |
| `LoginCallback.RejectingHandlersComeTooLate` | internal/cli/login.go:169-235 | a handler that rejects gets to its offer only if its own report was the one receive |
| `LoginCallback.OutcomeStands` | internal/cli/login.go:250-275 | what was received first stays the outcome |
| `LoginCallback.LateReportsNeverReturn` | internal/cli/login.go:187-217 | a handler with something to report after that is blocked for ever |
| `LoginCallback.OfferCountsIfAwaited` | internal/cli/login.go:232-235 | an offered code becomes the outcome if and only if the receiver waits, and is then acceptable; otherwise it is lost |

## Left out

- Sockets, dialling, TLS handshakes, HTTP, DNS, files and the environment: each is a success or failure chosen arbitrarily, or a given script.
- pgxpool, pgproto3 framing and read-ahead, SCRAM, MD5, signature checks, base64 and JSON decoding: functions with no properties but their results' types; golang-jwt's own time checks are part of `verifies`.
- COPY IN and other traffic without a ReadyForQuery, and notices sent unasked: the relay theorems cover them, the condition of a released connection does not.
- The GSSENCRequest that falls through the startup switch is in `Connection` (it crashes or ends) and not in `ProxySystem`.
- The shutdown drain of the server: its counter covers only the wrapper goroutines, which end at once.
- The connection string and the pool's other settings: making a pool succeeds or fails.
- Logging and pool statistics. The walk in `registerConnection` is in ProxyTheorems as a property of the step; ProxySystem goes on past it, and a session in `Connection` does not see other sessions' entries.
- The token exchange, browser launch, token storage and refresh of the CLI, and its connect command: input and output with little logic.
- Liveness of the login callback: a good code can be dropped, so only safety holds.
- Unicode casing and trimming in role mapping: letters and white space are ASCII.
- The issue time of a token, which nothing reads.
- The conversion of an expiry beyond the range of int64, whose result Go does not define.
- A pooled connection is a message stream in `Relay` and `Connection` and a transaction state in `PooledBackend` and `ProxySystem`; the two views meet in the steps of the session automaton and in `LeavesNothingUnread`.
- Connection.Connection.HandleConnection: one session at a time; what other sessions do to the shared registry meanwhile is in ProxySystem.
- ClientTls.Meet: the handshake succeeds or fails at both ends at once.
