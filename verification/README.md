# Remote sessions: a verified model

The system lets a browser or phone work with an opencode server on a developer's machine. A CLI on that machine keeps one WebSocket tunnel to a gateway; an API in front of the gateway signs users in, decides who may use sessions, checks requests and forwards them. This project models the parts of it whose correctness no finite list of examples settles, and proves what they promise over every input, run or interleaving.

`dafny verify dfyconfig.toml` checks everything.

## What is modelled

- **Keys with expiry** (`Redis`, with `Wrappers` for optional values): the store semantics of the in-memory Redis, as functions on a store and as an object with its lazy purge.
- **Refresh-token rotation** (`TokenProtocol`, `TokenInvariant`, `TokenTheorems`, `TokenSessions`, `TokenService`): `rotate`, `createChain`, `revoke` and `sessionActive` as sequences of single Redis commands; any number of calls interleave, on an integer clock. `TokenService` is the same code as an object, each of whose methods is its command sequence run alone.
- **The browser half** (`AuthClient`, `AuthProgress`, `AuthTab`): tabs that share one stored token and one lock, composed with the server's interleaved commands; and the tab as an object whose methods take those steps.
- **iOS sign-in** (`SignInSpec`, `SignInOutcomes`, `SignInScreen`, `SignInObject`): a wanted view, a shown view, one transition at a time, late or missing answers and a watchdog.
- **The tunnel** (`Mux`, `MuxReuse`, `MuxProgress`, `MuxObject`, `Framing`, `TunnelCli`, `TunnelSockets`): the gateway's pump and bounded queues, the frame format, the body loop, and the CLI's tables and reassembly loop.
- **SHA-256** (`Words`, `Fips180`, `Sha256Js`): the JavaScript implementation with its number semantics, against the definition in sections 4 to 6 of FIPS 180-4.
- **Paths** (`Paths`, `PathLemmas`, `PathReadable`, `PathTheorems`, `PathRouting`): the guards' one reading of a request path against the URL parses and decodes of the hops behind them (RFC 3986, sections 2.1 and 5.2.4, in the form of the URL parsers the code uses).
- **Command arguments** (`Arguments`, `ArgumentLexer`, `ArgumentGuards`, `FileReferences`): the two patterns as scans, against what their expressions mean, and the two guards on arguments, against every template the arguments can fill.
- **Access decisions** (`Authorization`, `AuthorizationFresh`, `AuthorizationEvict`, `AccessTime`, `AccessRestored`, `EventStream`, `StreamAccess`): the cached webhook answers at Redis-command granularity, the stream that ends on a denial, and the two together: how long a stream outlives a "no".
- **The session index** (`Sessions`, `SessionRaces`, `SessionStore`): session keys and per-user sets, both with a time to live, the commands of listing and deleting interleaved, and the two loops that list.
- **Secrets in responses** (`Json`, `ProviderSecrets`, `SecretPlaces`): the strip functions as written, the declarative policies they amount to, and the places they empty.

Code that updates objects in place is modelled as classes whose methods are tied to specification functions; interleaved code is a state machine over atomic steps.

## Where the code does not do what one might expect

Each of these is a theorem with the exact condition, or a concrete run.

- One token can get two successors when two calls together take as long as the grace period (`TokenTheorems.TwoSuccessors`, exactly when in `HalfTheGraceIsExact`).
- A rotation that loses the claim may return a successor that the winner has not stored yet, for as long as a call can take (`TokenTheorems.UnstoredSuccessorReturned`, exactly how long in `StoredAfterExactly`).
- Signing out with a successor that is not stored yet, which a client can hold, leaves the session alive (`TokenSessions.SignOutMissed`, exactly when in `SignsOutExactlyWhen`).
- Reuse of a spent token is not always caught: within a second grace period that a slow call opened (`TokenTheorems.ReuseInSecondGrace`), and when the rotation straddles the end of its chain and finds the used marker expired (`ReuseAcrossTheEnd`). `ReuseCaughtExactlyWhen` gives the exact bounds on the time a call takes.
- The comment on `watch` says a revocation ends a stream within the cache lifetime. A stream lasts up to twice that less a second, and longer by whatever time passes between the check that let it in and the start of its watch, which waits for the upstream's headers (`StreamAccess.StreamsClosedExactly`).
- `evict` of one user does not make answers fresh when a check of that user is about to cache an old answer (`AuthorizationEvict.InFlightIsStale`), nor when an `evictAll` comes between its two commands (`MovedIsStale`). `EvictFreshExactlyWhen` has the exact condition.
- A list of sessions can take a live session out of the index, if it is registered again between the list's reading and its removal (`SessionRaces.RaceHidesSession`, exactly when in `CompleteExactlyWhen`).
- A slow reader stops the tunnel for everyone until its stream is closed, and only that reader can let it go on once a stream with the same id has replaced it (`MuxProgress.JamHappens`, exactly when in `FreeableExactlyWhen`).
- Request bodies are kept in one table for all tunnels, so a body that a closed tunnel left unfinished can be handed over when the next tunnel reuses the id for an upgraded stream (`TunnelCli.UnfinishedBodyRevived`, exactly when in `RevivedExactlyWhen`).
- A session list can show another user's session although registration refuses ids in use: an expired id stays in its old owner's set (`Sessions.ExpiredIdStaysInSet`, exactly when in `ListsAreExactExactlyWhen`).
- The file guard refuses arguments such as `u@` that begin a reference in no template (`ArgumentGuards.RefusedInVain`, exactly which in `RefusedExactly`).

## Model

| member | source | states |
|---|---|---|
| Redis.MockRedis.Purge | api/src/testing/mock-redis.ts:17-25 | dropping an expired entry changes nothing a client can see |
| Redis.MockRedis.Get | api/src/testing/mock-redis.ts:27-29 | answers with the live value only and leaves the visible store as it was |
| Redis.MockRedis.GetDel | api/src/testing/mock-redis.ts:31-35 | answers with the live value and leaves exactly that key invisible |
| Redis.MockRedis.Set | api/src/testing/mock-redis.ts:37-48 | with NX refuses exactly when the key is live; otherwise value and expiry are the new ones |
| Redis.MockRedis.Del | api/src/testing/mock-redis.ts:50-54 | removes exactly these keys and answers how many of them were there, expired ones that wait for the purge included |
| Redis.MockRedis.Ttl | api/src/testing/mock-redis.ts:63-68 | -2, -1 or the time left, without visible change |
| Redis.SetIsInvisible | api/src/testing/mock-redis.ts:37-48 | stores that look alike still do after a set: entries waiting for the purge never show |
| Redis.DelIsInvisible | api/src/testing/mock-redis.ts:50-54 | the same for a deletion |
| TokenInvariant.NoSecondClaim | api/src/token-store.ts:82-94 | with calls shorter than half the grace period, no call claims a token a second time while its chain is live |
| TokenInvariant.StepKeepsInv | api/src/token-store.ts:61-121 | every single Redis command of every operation keeps the invariant on keys, claims and calls |
| TokenInvariant.ReachableInv | api/src/token-store.ts:61-121 | the invariant holds in every state of every interleaving |
| TokenTheorems.OneSuccessor | api/src/token-store.ts:73-98 | in every interleaving all rotations of one token that succeed before the end of its chain return the same successor, if each call takes less than half of REFRESH_GRACE_SECONDS |
| TokenTheorems.TwoSuccessors | api/src/token-store.ts:82-97 | with longer calls there is a run in which one token gets two successors |
| TokenTheorems.HalfTheGraceIsExact | api/src/token-store.ts:73-98 | one successor in every run if and only if two calls together are shorter than the grace period, or the session is no longer than it |
| TokenTheorems.StoredAfterExactly | api/src/token-store.ts:89-97 | under the same bound on calls, more than d seconds after a claim every returned successor is stored, in all reachable states before the chain's end, if and only if no call may take longer than d |
| TokenTheorems.UnstoredSuccessorReturned | api/src/token-store.ts:91-95 | for every d up to the longest call, a run in which d seconds after the claim a returned successor is in no record yet |
| TokenTheorems.NothingLapsesBeforeTheChain | api/src/token-store.ts:61-66 | in every reachable state a chain ends a session lifetime after its creation, and the records and used markers of its tokens live while it does |
| TokenTheorems.DeadChainFailsForever | api/src/token-store.ts:68-87 | once a chain is gone or expired it never returns; every call that reads it later fails and the session is never reported active |
| TokenTheorems.ReuseCaughtExactlyWhen | api/src/token-store.ts:73-98 | every reuse begun m or more seconds before the chain's end is refused and leaves the chain dead, in every interleaving, if and only if a call takes less than half the grace period and less than m |
| TokenTheorems.ReuseInSecondGrace | api/src/token-store.ts:82-97 | with longer calls a claim is made twice, and a reuse long before the chain's end gets a successor |
| TokenTheorems.ReuseAcrossTheEnd | api/src/token-store.ts:78-97 | for every m up to the longest call, a run in which a reuse begun m seconds before the chain's end succeeds |
| TokenSessions.SignsOutExactlyWhen | api/src/token-store.ts:100-105 | for every reachable state and owned token: a sign-out begun now has left the chain dead whenever it is finished, in every continuation, if and only if the token's record is stored now or the chain is dead already |
| TokenSessions.SignOutMissed | api/src/token-store.ts:89-105 | a reachable state in which a client holds a token for which that fails |
| TokenSessions.ActiveIsTrue | api/src/token-store.ts:68-71 | asked in any reachable state and answered in any later one: no if the chain was dead when asked, yes if it is alive when answered |
| TokenSessions.IdentityKept | api/src/token-store.ts:61-98 | in every interleaving the claims that come with a rotated token, and the user named by the chain's key, are those the session was created with |
| TokenService.TokenStore.CreateChain | api/src/token-store.ts:61-66 | run alone, the method has the outcome of its command sequence |
| TokenService.TokenStore.SessionActive | api/src/token-store.ts:68-71 | true exactly when the chain key is live, as the interleaved model's command, and nothing visible changes |
| TokenService.TokenStore.Rotate | api/src/token-store.ts:73-98 | run alone, result and visible store are those of its command sequence, on every branch |
| TokenService.TokenStore.Revoke | api/src/token-store.ts:100-105 | the session of the token's record is not live afterwards and no other key shows a change; without a record nothing changes; the visible store is that of the command sequence |
| TokenService.TokenStore.Issue | api/src/token-store.ts:107-121 | the new record is stored under the new token for the given time |
| AuthClient.SignInStarts | api/src/token-store.ts:61-66 | the world right after a sign-in satisfies the composed invariant |
| AuthClient.OwnStepKeepsHead | ui/src/auth.ts:88-108 | the refresh in flight takes neither the reuse nor the lost-claim branch |
| AuthClient.RunKeepsWorld | ui/src/auth.ts:88-108 | any run of tabs, lock, other clients and server commands keeps the composed invariant |
| AuthClient.RefreshNeverLosesTheSession | ui/src/auth.ts:88-108 | whatever the timing, until the chain's fixed end the browser holds a token of the chain, unused whenever no refresh is in flight, and a refresh is refused only if the chain is read at or after its end |
| AuthProgress.EveryRefreshCanFinish | ui/src/auth.ts:88-108 | from every world a run can reach, every refresh in progress can still be finished: the lock is never lost and a call in flight always has a next command |
| AuthTab.Origin.Grant | ui/src/auth.ts:106-107 | handing the lock over is the composed model's step |
| AuthTab.Tab.Fresh | ui/src/auth.ts:71-73 | returns a token exactly when one lasts for more than the early-refresh margin |
| AuthTab.Tab.GetAccessToken | ui/src/auth.ts:122-129 | a lasting token at once; else the first caller requests the lock, which is the composed model's step, and later callers change nothing |
| AuthTab.Tab.BeginRefresh | ui/src/auth.ts:89-95 | with the lock held, takes the composed model's step: a lasting token releases the lock, else the token stored by then is posted, or without one the lock is released; the flight ends with the lock |
| AuthTab.Tab.EndRefresh | ui/src/auth.ts:96-104 | on the server's answer takes the composed model's step; a 400 or 401 forgets both tokens, another failure throws and keeps both, the stored one and the access token; how long a new token counts as lasting |
| SignInSpec.EachStartCompletesOnce | ui/ios/App/App/SignIn.swift:45-91 | in every run each start has been completed exactly once, except the pending one, which has not |
| SignInOutcomes.OutcomeExactlyWhen | ui/ios/App/App/SignIn.swift:45-120 | over all runs, which outcome a start gets at which event, as an equivalence: success with a URL if and only if one with the start's own scheme, in any letter case, is opened while it waits; cancelled if and only if the user closes its view or another start is made; failed if and only if its URL or scheme is bad or its view cannot be shown; nothing else completes it |
| SignInScreen.ShownFollowsScreen | ui/ios/App/App/SignIn.swift:78-120 | a view comes to be recorded as shown only when its presentation succeeds, and ceases to be only when it is dismissed or the user closes it; late answers are recorded |
| SignInSpec.ScreenFollows | ui/ios/App/App/SignIn.swift:85-140 | after every event with no transition in flight the view shown is the view wanted, and every other transition has been answered or given up |
| SignInSpec.SyncKeeps | ui/ios/App/App/SignIn.swift:95-120 | `sync`, including all transitions answered inside it, ends and keeps the invariant |
| SignInSpec.DismissThenPresent | ui/ios/App/App/SignIn.swift:85-140 | when every transition is answered before its watchdog, at most two begin after a user event, and two only as a dismissal then a presentation |
| SignInObject.SignIn.Start | ui/ios/App/App/SignIn.swift:45-59 | the method has the effect of the state machine's start, including the superseded sign-in |
| SignInObject.SignIn.Handle | ui/ios/App/App/SignIn.swift:61-66 | completes the pending sign-in exactly for a URL of its scheme |
| SignInObject.SignIn.ClosedByUser | ui/ios/App/App/SignIn.swift:78-83 | only the current view's closing ends the sign-in |
| SignInObject.SignIn.Finish | ui/ios/App/App/SignIn.swift:85-91 | completes at most the pending sign-in and then follows the screen |
| SignInObject.SignIn.Sync | ui/ios/App/App/SignIn.swift:93-120 | begins the transitions of the state machine and no other |
| SignInObject.SignIn.DismissAnswered | ui/ios/App/App/SignIn.swift:99-104 | a late answer records what is on screen without ending a newer transition |
| SignInObject.SignIn.PresentAnswered | ui/ios/App/App/SignIn.swift:109-119 | a failed presentation ends the sign-in only while it is the current one |
| SignInObject.SignIn.BeginMotion | ui/ios/App/App/SignIn.swift:122-133 | transitions are numbered and one is in flight |
| SignInObject.SignIn.EndMotion | ui/ios/App/App/SignIn.swift:135-140 | tells whether the watchdog had given the transition up |
| SignInObject.SignIn.WatchdogFired | ui/ios/App/App/SignIn.swift:126-131 | gives up only the transition it was set for |
| Mux.ReceivedIsAPrefix | gateway/mux.go:115-158 | in every interleaving a reader has received, in order and without gaps, a prefix of the frames looked up for its id since it was stored, and while it is in the map nothing is lost |
| MuxProgress.BlockedExactlyUntil | gateway/mux.go:151-156 | with a frame for an open stream whose queue is full the pump reads nothing for anyone, and stays so through a run if and only if the run neither takes a frame from that queue nor closes that stream |
| MuxProgress.FreeableExactlyWhen | gateway/mux.go:79-88 | the pump can get rid of its frame without that stream's reader, through removal and closing, if and only if the stream is not both full and replaced in the map |
| MuxProgress.FreeableWhileIdsLast | gateway/mux.go:67-88 | that holds in all runs of n streams if and only if n is at most 2^32 |
| MuxProgress.JamHappens | gateway/mux.go:67-77 | a run of one stream more in which it fails |
| MuxReuse.OwnFramesExactlyWhen | gateway/mux.go:130-157 | whatever the peer sends and however the run goes on, a stream's reader gets only frames read since the stream was stored, if and only if the pump was not about to look up a frame with its id at that moment |
| MuxReuse.UniqueIdsSuffice | gateway/mux.go:67-77 | of a peer that sends frames only for ids already stored: with at most 2^32 streams every reader gets only such frames |
| MuxReuse.ReusedIdGetsOldFrame | gateway/mux.go:67-77 | with one stream more, and such a peer, a frame read for the first holder of an id reaches the second |
| MuxReuse.DistinctIdsAreExact | gateway/mux.go:67-77 | with such a peer the claim holds for all runs of n streams if and only if n is at most 2^32 |
| MuxReuse.UnaskedFrameArrives | gateway/mux.go:130-157 | a peer that sends a frame for an id before it is stored can break it with the first stream |
| MuxObject.OpenedIs | gateway/mux.go:67-77 | opening without interruption puts a new, empty, open stream into the map under the next id and takes out the one that had it |
| MuxObject.MuxConn.OpenStream | gateway/mux.go:67-77 | the counter modulo 2^32 is the id of the model, and the new stream is the one in the map |
| MuxObject.MuxConn.RemoveStream | gateway/mux.go:79-88 | the id is free afterwards and the stream that had it is closed |
| MuxObject.MuxConn.Take | gateway/mux.go:130-149 | a message too short for a header changes nothing; another is decoded and looked up once |
| MuxObject.MuxConn.Deliver | gateway/mux.go:151-156 | a frame for an open stream with room is queued, one for a closed stream is queued or dropped, and one for an open full stream is kept; no other stream changes |
| MuxObject.MuxConn.ReadFrame | gateway/mux.go:270-279 | hands out the oldest queued frame, and none only when the stream or the tunnel is closed |
| MuxObject.MuxConn.Stop | gateway/mux.go:116-128 | closes every stream in the map and no other |
| Framing.DecodeEncode | cli/src/tunnel.ts:24-50 | a frame survives the wire |
| Framing.EncodeDecode | cli/src/tunnel.ts:39-50 | every message of five bytes or more is the encoding of exactly the frame read from it |
| Framing.WireFormat | cli/src/tunnel.ts:24-37 | the id in four bytes, most significant first, then the type, then the payload |
| Framing.WriteFrame | gateway/mux.go:91-112 | the gateway's bytes are the encoding, with an empty payload too |
| Framing.EncodeFrame | cli/src/tunnel.ts:24-37 | the CLI's buffer holds the same encoding |
| Framing.NonEmptyKeepsBytes | gateway/mux.go:206-217 | leaving out empty reads loses no byte, and no chunk is empty or larger than the buffer |
| Framing.SendBody | gateway/mux.go:203-222 | the data frames hold exactly the bytes read, none empty or larger than 32 KiB, then one end frame |
| TunnelCli.Cli.OnMessage | cli/src/tunnel.ts:427-448 | dispatches as the model does and ignores short messages and other frame types |
| TunnelCli.Cli.ProxyToLocal | cli/src/tunnel.ts:158-172 | an upgrade, a request with a body and one without each change their own table only |
| TunnelCli.Cli.HandleBodyFrame | cli/src/tunnel.ts:95-124 | the copying loop delivers the concatenation of the chunks; a socket has precedence over a pending body |
| TunnelCli.Cli.Reassemble | cli/src/tunnel.ts:115-121 | the buffer ends up holding the chunks one after another, every byte of it written |
| TunnelCli.EachBodyArrivesOnce | cli/src/tunnel.ts:95-172 | on a new tunnel, however the frames interleave and whatever older tunnels left pending, a request whose frames arrive whole is handed over exactly once with exactly its bytes, and an incomplete one is not |
| TunnelCli.BytesReadAreDelivered | gateway/mux.go:203-222 | from the gateway's reads to the local server's request: the same bytes, delivered once, however the frames of other streams interleave |
| TunnelCli.UnfinishedBodyRevived | cli/src/tunnel.ts:52-124 | a run over a reconnect in which an old request is handed over with half its body |
| TunnelCli.RevivedExactlyWhen | cli/src/tunnel.ts:52-124 | a new tunnel hands over only its own requests if and only if no end frame meets a body another tunnel left and no socket |
| TunnelSockets.SocketGetsPayloads | cli/src/tunnel.ts:95-106 | in every interleaving the socket of an upgraded stream is kept if and only if nothing ends the stream, and it has been sent, in order, the payloads of exactly that tunnel's data frames with that id |
| TunnelSockets.UpgradeRelays | cli/src/tunnel.ts:158-172 | from the request to upgrade on: what reaches the socket are exactly the data frames after the local side has answered, and the stream's end takes the socket out |
| TunnelSockets.SocketFirst | cli/src/tunnel.ts:95-106 | frames of an upgraded stream touch no pending request, no delivery and no other socket |
| Words.TruncateLate | ui/src/sha256.ts:39-48 | adding numbers and truncating the sum is addition modulo 2^32 |
| Fips180.ZeroBytesIsSmallest | ui/src/sha256.ts:19-21 | the padding is the smallest that section 5.1.1 allows |
| Fips180.RoundConstantsAreCubeRoots | ui/src/sha256.ts:4-13 | the 64 constants are the first 32 bits of the fractional parts of the cube roots of the first 64 primes |
| Fips180.InitialHashIsSquareRoots | ui/src/sha256.ts:26-28 | the initial words are those of the square roots of the first eight primes |
| Sha256Js.RotrIsRotation | ui/src/sha256.ts:15 | the two shifts and the signed or are, modulo 2^32, a rotation |
| Sha256Js.SmallSigmas | ui/src/sha256.ts:33-34 | the signed schedule terms equal the standard's functions modulo 2^32 |
| Sha256Js.ScheduleTruncates | ui/src/sha256.ts:32-36 | a signed sum stored into a Uint32Array is the standard's schedule word |
| Sha256Js.RoundTruncates | ui/src/sha256.ts:38-49 | a round with its late `>>> 0` is the standard's round; every intermediate stays within 2^53 |
| Sha256Js.FillSchedule | ui/src/sha256.ts:31-36 | the array holds the schedule of the block |
| Sha256Js.RunRounds | ui/src/sha256.ts:37-49 | the eight variables after 64 rounds are the standard's |
| Sha256Js.AddState | ui/src/sha256.ts:50-57 | the state words are added modulo 2^32 |
| Sha256Js.Padded | ui/src/sha256.ts:18-24 | the buffer is the padded message, with the 64-bit length split into two words |
| Sha256Js.Sha256Sync | ui/src/sha256.ts:17-63 | for every input under 2^50 bytes the result is SHA-256 as defined in FIPS 180-4 |
| PathTheorems.CanonicalForm | api/src/proxy.ts:41-53 | an accepted path becomes its decoded segments with dot segments resolved, re-encoded and lower-cased; the second collapse of slashes never finds any |
| PathTheorems.CanonicalDecoded | api/src/proxy.ts:41-53 | decoding the canonical path gives those segments back in lower case |
| PathTheorems.PlainPathsKeep | api/src/feature-guards.ts:60-69 | every plain path is accepted, and only case and repeated slashes change |
| PathTheorems.ParseSteady | api/src/proxy.ts:52-53 | a URL parser neither trims, cuts, nor takes for a host a path of steady segments |
| PathReadable.AcceptedExactly | api/src/proxy.ts:41-51 | a text with any of its bytes percent-encoded is accepted if and only if it is UTF-8, has no character a later hop would cut or rewrite, no space at its end, no segment of dots among spaces, and no structural character among the encoded; and it is read as itself |
| PathReadable.ReadExactly | api/src/proxy.ts:41-51 | exactly which texts some accepted path decodes to |
| PathReadable.CanonicalIsLower | api/src/proxy.ts:52-53 | a canonical path has no upper-case ASCII letter, and lower-casing changes nothing else |
| PathReadable.EndsUnseen | api/src/proxy.ts:31-37 | why paths that end in a space are refused: a URL parser reads them as if they did not |
| PathReadable.CutAndTurned | api/src/proxy.ts:31-37 | why question marks, number signs and backslashes are refused: a URL parser cuts at the first two and reads the third as a slash |
| PathLemmas.ResolveInside | api/src/proxy.ts:52-53 | resolving dot segments under a prefix leaves the prefix alone when the path does not climb |
| PathLemmas.ResolveClimbs | api/src/proxy.ts:52-53 | a path that climbs loses a segment of the prefix for good |
| PathLemmas.EncodeSound | api/src/proxy.ts:22-40 | what a parser encodes is undone by the next decode |
| PathLemmas.DecodedByte | api/src/proxy.ts:29-36 | an accepted path decodes to no structural character that was not there before |
| PathRouting.SegmentsDecoded | api/src/proxy.ts:41-53 | decoding neither makes nor breaks a segment of an accepted path |
| PathRouting.RoutedForm | api/src/proxy.ts:22-40 | session and path at the router, after two parses and two decodes, for every accepted path |
| PathRouting.InsideArrives | api/src/proxy.ts:22-53 | a path that never climbs reaches the router of its own session as the resolved segments |
| PathRouting.OneReading | api/src/proxy.ts:17-53 | for every forwarded path the guards accept, the router sees the decoded canonical path, up to ASCII case, if and only if its dot segments never climb above the session's root |
| PathRouting.AnotherSession | gateway/gateway_proxy.go:11-26 | for every two sessions, the climbing path that would pass from one to the other |
| PathRouting.CanonicalTwice | api/src/proxy.ts:41-53 | the canonical path of an accepted path is accepted and is its own canonical path |
| Arguments.NothingElseSkipped | api/src/command-arguments.ts:4-9 | a character in no match is white space, or a quote after which the same quote never comes again |
| Arguments.MatchesInOrder | api/src/command-arguments.ts:4-9 | matches do not overlap and keep their order |
| Arguments.TokensCut | api/src/command-arguments.ts:4-9 | a trimmed token is a stretch of the arguments that begins at the start or after white space, a quote or a bracket |
| ArgumentLexer.MatchesAreLeftmost | api/src/command-arguments.ts:4-9 | a list of spans is the scan's result if and only if it is the leftmost, non-overlapping matches of the pattern, its four alternatives tried in order and each as long as it can be |
| ArgumentLexer.TokensAre | api/src/command-arguments.ts:4-9 | a token is its match, without the quotes if it is in quotes |
| ArgumentLexer.WordsComeBack | api/src/command-arguments.ts:4-9 | a round trip: any words in quotes of either kind, bare, or as images, with blanks between them, come back as they were |
| ArgumentGuards.ShellGuardIsExact | api/src/shell-guard.ts:7-21 | the guard refuses exactly the arguments that, in some template, begin a shell command in inserted text |
| ArgumentGuards.NoShellSpelled | api/src/shell-guard.ts:7-21 | text whose "!"s are harmless whatever follows begins no shell command in any expansion |
| ArgumentGuards.ReferenceIffCandidate | api/src/download-guard.ts:29-37 | the non-overlapping scan finds a reference if and only if some "@" could begin one |
| FileReferences.FilesAreLeftmost | api/src/download-guard.ts:29-33 | a list of spans is the scan's result if and only if it is the leftmost matches of the file pattern, each with the longest path |
| ArgumentGuards.ReferencesReachable | api/src/download-guard.ts:29-47 | exactly which arguments begin a file reference in inserted text of some template |
| ArgumentGuards.FileGuardHolds | api/src/download-guard.ts:39-47 | arguments the guard lets through begin no file reference in any template |
| ArgumentGuards.RefusedExactly | api/src/download-guard.ts:43-47 | the guard refuses exactly the arguments that begin a reference in some template, and those that end, as a whole or in a token, in an at sign right after a word character or a backtick |
| ArgumentGuards.RefusedInVain | api/src/download-guard.ts:43-47 | arguments the guard refuses although no template makes them a reference |
| Authorization.KeysDiffer | api/src/authz.ts:36-40 | keys of different generations or users differ, whatever a user id holds, and from the generation's own key |
| Authorization.CacheRoundTrip | api/src/authz.ts:63-74 | a cached decision is read back as it was given, reason included |
| Authorization.Heard | api/src/authz.ts:127-155 | a decision is heard if and only if the reply has a boolean; it is that boolean, and a denial has the first 300 characters of the reason given, if that is not empty |
| Authorization.ParseString | api/src/testing/mock-redis.ts:56-61 | the counter's decimal text is read back as the number |
| AuthorizationFresh.InvHolds | api/src/authz.ts:59-125 | in every interleaving the generation counts the evictions and every cached answer was given under the generation in its key |
| AuthorizationFresh.AnswersAreFresh | api/src/authz.ts:59-76 | a check whose first command follows an `evictAll` returns what the webhook said after it, or denies because its own call failed, whatever older checks write |
| AuthorizationFresh.EvictMissesCheckInFlight | api/src/authz.ts:118-121 | `evict` of one user promises no such thing: a run in which the old answer comes back |
| AuthorizationEvict.FreshExactlyWhen | api/src/authz.ts:59-76 | from any moment of any run on, checks of a user answer with what the webhook says from then on, however the run continues, if and only if no answer about the user is cached, or about to be cached by a check, under the current generation |
| AuthorizationEvict.EvictFreshExactlyWhen | api/src/authz.ts:118-121 | right after the deletion of an `evict` that holds if and only if no check of the user holds an answer for the current generation, and nothing is cached there should the generation have moved since the `evict` read it |
| AuthorizationEvict.InFlightIsStale | api/src/authz.ts:118-121 | the first exception happens: a check in flight |
| AuthorizationEvict.MovedIsStale | api/src/authz.ts:118-125 | the second happens: an `evictAll` between the two commands of the `evict` |
| AccessTime.Authorizer.Check | api/src/authz.ts:59-76 | run alone, decision and visible store are those of its command sequence; without a webhook everyone is allowed |
| AccessTime.Authorizer.Evict | api/src/authz.ts:118-121 | run alone, the visible store is that of its command sequence |
| AccessTime.Authorizer.EvictAll | api/src/authz.ts:123-125 | run alone, the visible store is that of the increment |
| AccessTime.Authorizer.Increment | api/src/testing/mock-redis.ts:56-61 | the counter grows by one from a live value, from zero otherwise, and keeps its expiry |
| AccessTime.VerdictIs | api/src/authz.ts:59-76 | a check answers from the cache if it can and caches a webhook answer for the time its kind allows |
| AccessTime.ChecksDenyExactly | api/src/authz.ts:59-76 | from d seconds after the webhook began to deny a user every check denies, in every run, if and only if d is at least allowedTtl - 1 |
| AccessRestored.ChecksAllowExactly | api/src/authz.ts:59-76 | from d seconds after the webhook began to allow a user every check allows, in every run, if and only if d is at least deniedTtl - 1 |
| StreamAccess.OpenUntil | api/src/authz.ts:78-116 | an open stream is within 2 * allowedTtl - 1 of the first denial, or has not had its first tick; a watch begun after the first denial ends at its first tick |
| StreamAccess.StreamsClosedExactly | api/src/proxy.ts:152-191 | every stream whose watch starts at most `delay` after the check that let the user in is closed d seconds after the first denial, in every run, if and only if d is at least 2 * allowedTtl - 1 + delay |
| StreamAccess.LongestStream | api/src/authz.ts:78-82 | for every delay, a run in which the stream is open one second before that |
| EventStream.RunOrderly | api/src/proxy.ts:156-191 | in every interleaving the controller is ended at most once, by its last call, and onDenied runs at most once |
| EventStream.NothingAfterTheEnd | api/src/proxy.ts:156-191 | after an end, a cancel, an error or a denial nothing is enqueued, nothing is ended again and onDenied does not run |
| EventStream.DenialEnds | api/src/authz.ts:91-110 | a denying check closes the stream at once, whatever is under way |
| EventStream.AllowedGoesOn | api/src/authz.ts:94-109 | a check that allows or throws changes nothing but that the next tick may check |
| EventStream.ClosedExactlyWhen | api/src/proxy.ts:156-191 | over all runs, a stream is closed if and only if it was cancelled, denied, or a read under way ended or failed |
| EventStream.EndedBy | api/src/proxy.ts:156-191 | what ended it first decides whether the controller is closed, errored or left alone, and whether onDenied has run |
| EventStream.CancelledExactlyWhen | api/src/proxy.ts:167-188 | the body's reader is cancelled by a denial or with the stream, and only then |
| EventStream.ChunksPassOn | api/src/proxy.ts:172-177 | the chunks enqueued are a prefix of the chunks read, in order, and all of them while the stream is open |
| EventStream.Streamed.StopWatch | api/src/authz.ts:111-114 | stops the watch and nothing else |
| EventStream.Streamed.CloseController | api/src/proxy.ts:160-165 | closes the controller unless the stream has ended, and stops the watch |
| EventStream.Streamed.OnDenied | api/src/proxy.ts:167-170 | closes the stream and cancels the reader |
| EventStream.Streamed.BeginTick | api/src/authz.ts:91-93 | a tick does nothing while one is busy |
| EventStream.Streamed.EndTick | api/src/authz.ts:94-109 | a denial counts only while the watch runs; a failed check changes nothing |
| EventStream.Streamed.BeginPull | api/src/proxy.ts:172-174 | one more read is under way |
| EventStream.Streamed.EndPull | api/src/proxy.ts:172-183 | a chunk, the end or a failure is passed on only while the stream is open |
| EventStream.Streamed.CancelStream | api/src/proxy.ts:184-188 | the reader's cancel ends the stream without a call on the controller |
| Sessions.RunIndexed | gateway/store.go:48-91 | in every run a live session is in its owner's set, and the set lives at least as long |
| Sessions.PutAdds | gateway/store.go:48-60 | a put session is found, in its user's set, both for the whole time to live; everything else is as before |
| Sessions.DeleteRemoves | gateway/store.go:78-91 | a deleted session is not found and out of its owner's set; everything else is as before |
| Sessions.ListIsComplete | gateway/store.go:93-132 | every live session of a user is in the user's list |
| Sessions.ListsAreExactExactlyWhen | gateway/store.go:48-132 | all lists of a run are exactly their users' live sessions if and only if no session was put under an id that another user's set still held |
| Sessions.OwnersKeptListsExact | gateway/store.go:48-132 | if no id ever changed owner, every list is exactly the user's live sessions |
| Sessions.ExpiredIdStaysInSet | gateway/registry.go:20-45 | refusing ids in use is not enough: a run in which a list shows another user's session |
| SessionRaces.RemovalKeepsExactly | gateway/store.go:125-129 | removing the ids a list found stale leaves every live session listed if and only if none of them is by then a live session of that user |
| SessionRaces.CompleteExactlyWhen | gateway/store.go:48-132 | with the commands of lists and deletions interleaved with everything else, every live session would be listed at every moment of a run if and only if no removal by a list met such a session |
| SessionRaces.HarmNeedsPut | gateway/store.go:93-132 | in every run such a removal happens only if a session the list had read as gone was registered again in between |
| SessionRaces.ListAlone | gateway/store.go:93-132 | without interruption the commands of a list leave the store as the one-step list does |
| SessionRaces.DeleteAlone | gateway/store.go:78-91 | and those of a deletion as the one-step deletion does |
| SessionRaces.RaceHidesSession | gateway/store.go:93-129 | a run in which one does: a live session drops out of its owner's list |
| SessionStore.RedisStore.Put | gateway/store.go:48-60 | session key, membership and both expiries |
| SessionStore.RedisStore.Delete | gateway/store.go:78-91 | session and membership go together |
| SessionStore.RedisStore.List | gateway/store.go:93-132 | the loop returns each listed session once and nothing else, and removes exactly the stale ids |
| SessionStore.SessionReader.List | api/src/store.ts:22-49 | the API's loop returns the same list and removes the same ids |
| Json.ApplyTwice | api/src/provider-secrets.ts:15-83 | applying a policy again changes nothing |
| Json.EqualOutputs | api/src/provider-secrets.ts:15-83 | two values give equal outputs if and only if they differ only in what the policy removes |
| Json.PathOutcome | api/src/provider-secrets.ts:15-83 | at every path: the old value where the policy keeps, nothing where it drops, an empty object where it blanks, and in between the old value under the policy reached |
| Json.GoneExactly | api/src/provider-secrets.ts:15-83 | nothing is left at a path, whatever the value, if and only if the path leads into what the policy drops or blanks |
| ProviderSecrets.LegacyProviderIs | api/src/provider-secrets.ts:21-37 | the code for a provider, its models and their variants is its policy |
| ProviderSecrets.ApiItemIs | api/src/provider-secrets.ts:39-48 | the code for a newer provider or model is its policy |
| ProviderSecrets.McpServerIs | api/src/provider-secrets.ts:50-59 | the code for an MCP server is its policy |
| ProviderSecrets.AgentEntryIs | api/src/provider-secrets.ts:61-65 | the list of kept agent keys is a policy that drops all others |
| ProviderSecrets.OrderDoesNotMatter | api/src/provider-secrets.ts:72-83 | the config fields in any order strip every config alike |
| ProviderSecrets.StripConfigIs | api/src/provider-secrets.ts:75-83 | the six steps together are one policy |
| ProviderSecrets.RouteFollowsPolicy | api/src/provider-secrets.ts:85-98 | each route's response is cleaned as its policy says |
| ProviderSecrets.StripTwice | api/src/provider-secrets.ts:85-98 | cleaning is idempotent on every route and every JSON value |
| ProviderSecrets.OutputTellsOnlyKept | api/src/provider-secrets.ts:85-98 | two responses look the same after cleaning if and only if they agree outside the removed places |
| ProviderSecrets.EveryPlace | api/src/provider-secrets.ts:85-98 | place by place, what is kept is unchanged and what is removed is gone |
| SecretPlaces.NothingLeftExactly | api/src/provider-secrets.ts:21-98 | at exactly the places listed for a route nothing is ever left: of providers key, options, headers, and of their models options, headers and the contents of variants; of newer items request, API settings and variants' headers and bodies; of MCP servers environment, headers and the OAuth client secret; of agents every key not their own; of LSP and formatter entries the environment |
| SecretPlaces.OtherKindsStay | api/src/provider-secrets.ts:15-19 | a value that is not of the expected kind, such as a list where an entry should be an object, is shown unchanged with whatever it holds |

## Left out

- Tokens and hashes: random tokens are fresh values and the token hash is injective; parsing and printing of stored records is not modelled.
- Crashes and Redis errors inside a call, and calls longer than the bound in the theorems that state one.
- TokenTheorems.ReuseCaughtExactlyWhen: does not cover a claim whose call never wrote its used marker, because a call that stops half way is a crash.
- AuthClient.RefreshNeverLosesTheSession: does not cover lost answers, server errors, sign-outs or a second sign-in, and the access token's own expiry is an arbitrary choice; the browsers without the lock interface are left out.
- AuthTab.Tab.EndRefresh: a failure other than a 400 or 401 is not a step of the composed model, and the listener told of a logout is not modelled.
- SignInObject.SignIn.Start: does not model a completion callback that calls back into the object.
- Swift view code, delegates and the Android sign-in.
- Mux.ReceivedIsAPrefix: does not model WebSocket write errors or the response parsing of `readResponseHeaders`; closing a stream's `done` channel is one atomic step.
- Framing.SendBody: does not model a failed write, after which the gateway gives the request up.
- TunnelCli.EachBodyArrivesOnce: does not model the local HTTP request itself, response frames, or headers; a request-headers payload is parsed by an arbitrary function.
- Sha256Js.Sha256Sync: does not cover inputs of 2^50 bytes or more, where the length in bits is no longer an exact number.
- PathRouting.OneReading: does not model white space outside ASCII, which the code also rejects, so the model accepts more paths; UTF-8 validity and the set of encoded bytes are abstract, with the properties in `Paths.Standard`.
- Query strings, and the API's own first decode of the request, which comes before the paths here.
- Paths.PlainByte: the plain-path guard's use of the undecoded request path is not part of this model.
- ArgumentGuards.ShellGuardIsExact: does not model a placeholder inside inserted text being filled again, or what opencode runs in a template's own shell blocks.
- ArgumentGuards.FileGuardHolds: does not model the same, nor whether the path named by a reference exists.
- The guards' checks for arguments that are not text, and the request rules around them.
- StreamAccess.StreamsClosedExactly: does not model re-checks that take time or throw, or Redis being down, nor the sign-in session half of the watch.
- The webhook's HTTP call, beyond what its reply can hold.
- Sessions.ListIsComplete: takes List as one step, and `SessionRaces` takes it apart; values that are not JSON cannot occur, and the pipeline of a put or a deletion is one step.
- The gateway's registry, except its check before a put; it is not atomic with the store.
- Json.Apply: does not model the order of an object's keys.
- Which path selects which strip function; the routes are given.
- Route tables, configuration, protocol versions, logging, charts, UI components and the build.
