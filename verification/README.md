# Host-ducks fleet: a verified model of its session, pool and handshake logic

The fleet bot runs many game clients against a matchmaking service. The model covers three parts of it.

- **Session lifecycle.** Each client (`Client` in `samples/InnerSloth.cs`) walks through the states Idle, Connecting, Connected, Failed, Banned, Completed, GameDeleted and JoinFailed. It has a tick budget. It maps the server's disconnect reasons to states. It keeps the participant ids it sees in lobby messages. It raises notifications, two of which are one-shot latches: "join failed" and "became host".
- **Supervisor bookkeeping** (`samples/project-hostducks/Program.cs`).
  - An account pool. Refresh cycles pick accounts by priority. Two gates follow token counts. Accounts are reserved and released by their matchmaker token.
  - Host servers, each with a connection counter and a "bad" mark. Servers are sampled below a per-server cap.
  - A game registry with usage and join-failure counters and a permanent ban list.
  - The sweep that retires finished clients.
- **Handshake payloads** (`samples/project-hostducks/HazelConnection.cs`). The field sequence of the connection handshake, the nonce-auth payload, and the PEM certificate decoder.

## How the model is built

- **Modules follow the source.**
  - `InnerSloth` (client.dfy) holds `Client`.
  - `MessageApi` (message_api.dfy) holds the pure helpers of `InnerSloth.cs`.
  - `Accounts`, `Servers`, `Games` and `Fleet` hold the parts of `Program.cs`.
  - `Hazel` and `HazelConnection` hold the handshake code.
  - `Text` and `Ordering` hold the .NET string operations and the LINQ operators the code composes: `Where`, a stable `OrderBy`/`ThenBy`, and `Take`.
- **Objects the source updates in place are classes.** These are `Client`, `AccountPool`, `HostServer`, `GameRegistry`, `Supervisor` and Hazel's `MessageWriter`. Their methods are proved against specification functions.
  - `UpdateState` is proved against `ChangeNotifications`.
  - `RefreshTokens` is proved against `SelectForRefresh`. Its `order` parameter chooses the sort order of the two shortage branches: `AsWritten` is the order the program runs, `MissingFirst` the order its comments describe (see "Findings").
  - The reservation methods are proved against `FirstReservable`/`EarliestReservable`.
  - `CleanupCompletedClients` is proved against `ReleasedByTokens`.
  - `GetConnectionData` is proved against the reader `ReadConnectionData`.
  - `DecodePEM` is proved against `DecodeLines`.
- **Two class invariants carry the one-shot latches.**
  - `Client.Valid()` says each latch has raised its notification exactly as often as its flag says, so at most once.
  - `GameRegistry.Valid()` says a banned game is never listed.
- **Inputs stand in for effects.**
  - Every reading of `DateTime.Now` is a parameter `now`.
  - The random draws of `SelectRandomServers` are a parameter `draw`.
  - Base64 decoding is a parameter `base64`.
  - A DTLS connection is the flag `hasConnection`.
  - Raised events are appended to `notifications`.

## Model

| member | source | states |
|---|---|---|
| Text.Split | samples/InnerSloth.cs:949 | `String.Split(char)`: there is always at least one part, and no part contains the separator |
| Text.JoinSplit | samples/InnerSloth.cs:949 | splitting loses nothing: joining the parts with the separator rebuilds the input |
| Text.SplitJoin | samples/project-hostducks/HazelConnection.cs:109 | separator-free parts that are joined and split again come back unchanged |
| Text.Remove | samples/project-hostducks/HazelConnection.cs:107 | `Replace("\r", "")`: the result has no such character, keeps every other character and adds none; it is the input when the character is absent |
| Text.RemoveAppend | samples/project-hostducks/HazelConnection.cs:107 | removal distributes over concatenation |
| Text.ParseDecimalRoundTrip | samples/InnerSloth.cs:964-970 | reading back the decimal rendering of a number gives the number |
| Ordering.Where | samples/project-hostducks/Program.cs:361 | `Where`: exactly the positions whose element satisfies the predicate, in increasing order |
| Ordering.SortBy | samples/project-hostducks/Program.cs:362-363 | `OrderBy(..).ThenBy(..)`: a permutation of its input in which no later element has a smaller key |
| Ordering.SortByStable | samples/project-hostducks/Program.cs:362-363 | the sort is stable: on increasing positions, elements with equal keys keep their order |
| Ordering.Take | samples/project-hostducks/Program.cs:364 | `Take(n)`: a prefix of length min(n, length), empty for n ≤ 0 |
| Ordering.TakeBest | samples/project-hostducks/Program.cs:362-364 | the first n of the sorted list are in order, and every element left out has a key no smaller than any element taken |
| Ordering.TakeBestTies | samples/project-hostducks/Program.cs:362-364 | among elements with equal keys, the taken ones come before the left-out ones in list order |
| MessageApi.FriendcodeDuckShape | samples/InnerSloth.cs:946-957 | `isFriendcodeADuck(c)` holds iff `c` is four letters, a '#', and a non-empty tail with no further '#' (both directions) |
| MessageApi.AddressOctets | samples/InnerSloth.cs:962-971 | `AddressToString(a)` splits on '.' into exactly four fields; field i is the decimal of octet i, `(a >> 8i) mod 256`, so the lowest byte prints first |
| MessageApi.OctetsRebuild | samples/InnerSloth.cs:962-971 | the four byte casts lose no bit: the octets reassemble to the address |
| MessageApi.AddressRoundTrip | samples/InnerSloth.cs:962-971 | parsing the dotted rendering back gives the original address |
| MessageApi.PuidOf | samples/InnerSloth.cs:730-735 | `GetPuid` on the decoded token: the space-free prefix that ends at the first space or at the end of the token, so the whole token when it has no space |
| MessageApi.FriendCodeOf | samples/InnerSloth.cs:723-728 | `Getfriendcode` on the decoded token: space-free, and "" when the token has no space |
| MessageApi.TokenFields | samples/InnerSloth.cs:723-735 | for a token "puid code …" of space-free fields, the puid is the first field and the friend code the second |
| InnerSloth.Newcomers | samples/InnerSloth.cs:352-366 | the ids a `JoinedGame` list adds: every listed player that is neither the session itself nor a fleet member, and only those |
| InnerSloth.ChangeNotificationCounts | samples/InnerSloth.cs:152-168 | a real state change raises `GameJoinFailed` exactly once if it enters JoinFailed before the latch is set, and otherwise never; it never raises "became host" |
| InnerSloth.Client.constructor | samples/InnerSloth.cs:31-81 | a fresh session is Idle, without connection, with ids -1, no ticks, the vote-ban timer unarmed and no notification |
| InnerSloth.Client.UpdateState | samples/InnerSloth.cs:152-168 | the same state changes nothing and raises nothing. Otherwise the new state is set and `EndTime` is stamped exactly on entering Completed, Banned or Failed. The first entry into JoinFailed sets the latch and raises `GameJoinFailed`. `StateChanged` is raised once. Both latches keep their at-most-once invariant |
| InnerSloth.Client.BeginConnect | samples/InnerSloth.cs:83-97 | the synchronous start of `StartAsync`: start time stamped, Connecting, a connection present |
| InnerSloth.Client.ExitGame | samples/InnerSloth.cs:692-696 | the connection is gone |
| InnerSloth.Client.FixedUpdate | samples/InnerSloth.cs:134-150 | ticks rise by exactly 1. Past 330 the session fails and loses its connection. Otherwise, once the armed vote-ban timer is more than 30 ticks old, it completes and loses its connection. Otherwise nothing changes. Only the session that became host completes here |
| InnerSloth.Client.OnBanReceived | samples/InnerSloth.cs:698-712 | the connection is dropped and the session is Banned, with `EndTime` stamped on entry |
| InnerSloth.Client.OnGameDeleted | samples/InnerSloth.cs:714-721 | `GameShouldBeRemoved` is raised every time, the connection is dropped and the session is GameDeleted |
| InnerSloth.Client.OnDisconnected | samples/InnerSloth.cs:231-269 | reason Banned gives Banned. GameNotFound or GameStarted raise `GameShouldBeRemoved` and give GameDeleted. Error or GameFull give JoinFailed. Other reasons and reason-less disconnects change no state. `EndTime` is stamped only when Banned is entered, and is unchanged otherwise. The connection is gone in every case |
| InnerSloth.Client.TryBecomeHost | samples/InnerSloth.cs:292-299 | the host latch fires at most once, only when host id = own id > 0, and arms the vote-ban timer with the current tick |
| InnerSloth.Client.HandleJoinGame | samples/InnerSloth.cs:274-299 | the host id is recorded; the joining player is appended once, unless already known or a fleet member; then the host latch is tried |
| InnerSloth.Client.HandleJoinedGame | samples/InnerSloth.cs:337-373 | own id and host id are recorded, the latch is tried with the ticks before the rewind, the newcomers are appended, and ticks above 150 are wound back by 150 |
| InnerSloth.Client.RememberPlayers | samples/InnerSloth.cs:352-366 | the player loop appends exactly `Newcomers(players, own id)` |
| InnerSloth.Client.HandleRemovePlayer | samples/InnerSloth.cs:392-404 | a new host id, then the host latch |
| InnerSloth.Client.HandleKickPlayer | samples/InnerSloth.cs:376-390 | a ban aimed at the session's own id bans it and drops the connection, stamping `EndTime` and raising `StateChanged(Banned)` on entry; anything else changes no state, connection, notification or `EndTime` |
| Hazel.MessageWriter.constructor | samples/project-hostducks/HazelConnection.cs:38 | an empty writer with no open message |
| Hazel.MessageWriter.Write | samples/project-hostducks/HazelConnection.cs:53-70 | one plain field is appended and nesting is unchanged |
| Hazel.MessageWriter.StartMessage | samples/project-hostducks/HazelConnection.cs:72 | a start marker is appended and one more message is open |
| Hazel.MessageWriter.EndMessage | samples/project-hostducks/HazelConnection.cs:85 | with a message open, an end marker is appended and one fewer is open; the log stays well nested |
| HazelConnection.AuthFor | samples/project-hostducks/HazelConnection.cs:56-67 | the auth field is the token iff the token is non-empty and longer than 16 characters; otherwise the nonce if present; otherwise 0 |
| HazelConnection.TrailerFor | samples/project-hostducks/HazelConnection.cs:87-95 | the trailer is the friend code iff the token is non-empty, whatever its length |
| HazelConnection.PlatformIdFor | samples/project-hostducks/HazelConnection.cs:75-83 | a console id is written only for Xbox and Playstation, and only when present |
| HazelConnection.WriteAuth | samples/project-hostducks/HazelConnection.cs:56-67 | appends exactly the auth field that `AuthFor` chooses |
| HazelConnection.WritePlatformId | samples/project-hostducks/HazelConnection.cs:75-83 | fails iff a console platform lacks its id; otherwise appends the id for consoles and nothing for other platforms |
| HazelConnection.WriteTrailer | samples/project-hostducks/HazelConnection.cs:87-95 | appends the friend code, or "" then uint 0, as `TrailerFor` says |
| HazelConnection.LayoutRoundTrip | samples/project-hostducks/HazelConnection.cs:53-97 | every handshake record survives being laid out in the field order and read back |
| HazelConnection.ReadConnectionDataInjective | samples/project-hostducks/HazelConnection.cs:53-97 | a handshake's content fixes its field sequence: the layout is the only one with that reading |
| HazelConnection.GetConnectionData | samples/project-hostducks/HazelConnection.cs:49-98 | fails iff a console id is missing. Otherwise the payload is balanced and reads back, in order, as: version, name, the chosen auth, English, free-or-quick chat, then the platform message (tag = platform byte, its name first, closed before the trailer), then the trailer |
| HazelConnection.BuildDataForDtlsNonceAuth | samples/project-hostducks/HazelConnection.cs:36-46 | four fields that read back as version, platform byte, token (null as "") and friend code (null as "") |
| HazelConnection.DecodeLinesAppend | samples/project-hostducks/HazelConnection.cs:109-116 | decoding two runs of lines is decoding each and concatenating, in input order |
| HazelConnection.DecodeOneLine | samples/project-hostducks/HazelConnection.cs:111-115 | an armour line ("-----…") contributes nothing; any other line contributes its base64 decoding |
| HazelConnection.DecodeLinesFails | samples/project-hostducks/HazelConnection.cs:113 | decoding fails iff some non-armour line is not valid base64 |
| HazelConnection.DecodePEM | samples/project-hostducks/HazelConnection.cs:104-119 | the loop computes the decoding of the carriage-return-free input split on '\n' (`PemBytes`), and fails on the first invalid line |
| Accounts.SelectForRefresh | samples/project-hostducks/Program.cs:316-405 | with more than 45 valid matchmaker tokens nothing is selected (both directions); otherwise the first branch whose condition holds (id shortage, priority matchmaker, matchmaker shortage, routine) decides the batch. The two shortage branches sort in the given order: `AsWritten` as the code does, `MissingFirst` as its comments say |
| Accounts.RefreshBatchWellFormed | samples/project-hostducks/Program.cs:357-403 | in either order, every batch lists distinct accounts that are not in use; the routine branch takes at most 5 and the others at most 10 |
| Accounts.MmShortageUnreachable | samples/project-hostducks/Program.cs:342-392 | the third branch never runs: with at least 30 valid id tokens and fewer than 5 valid matchmaker tokens, the priority branch applies first |
| Accounts.PriorityMmSelection | samples/project-hostducks/Program.cs:370-377 | in either order, the priority branch picks free accounts with a valid id token and no valid matchmaker token; unused id tokens come first, and one is left out only if every picked account also has an unused one |
| Accounts.PriorityMmTies | samples/project-hostducks/Program.cs:373-376 | among candidates with the same id-token use, the picked ones come earlier in the account list than those left out |
| Accounts.IdTokenShortageSelection | samples/project-hostducks/Program.cs:357-364 | in the corrected order the comment at line 362 asks for, the id-shortage branch picks free accounts, missing id token first, then soonest id expiry. The batch is in that order, no free account left out sorts before a picked one, and one without an id token is left out only if no picked account has one |
| Accounts.IdTokenShortageSelectionAsWritten | samples/project-hostducks/Program.cs:357-364 | in the code's order, the id-shortage branch picks free accounts, holders of an id token first, then soonest id expiry. No free account left out sorts before a picked one, and a holder is left out only if every picked account holds one |
| Accounts.IdTokenShortageTies | samples/project-hostducks/Program.cs:360-364 | in either order, among free accounts with equal sort keys, the picked ones come earlier in the account list |
| Accounts.RoutineSelection | samples/project-hostducks/Program.cs:394-403 | the routine branch takes, in list order, the first five free accounts whose id token expires within 10 minutes or whose matchmaker token expires within 1; with fewer than five it takes all of them |
| Accounts.IdOrderAsWrittenPrefersHeldToken | samples/project-hostducks/Program.cs:360-390 | the order as written puts an account that holds an id token before one that has none |
| Accounts.AsWrittenSkipsMissingIdToken | samples/project-hostducks/Program.cs:357-364 | on ten free accounts holding an expired id token followed by one free account without any, at a time when no token is valid, the program's batch is exactly the ten holders, while the corrected batch includes the account without a token |
| Accounts.MissingIdTokenFirst | samples/project-hostducks/Program.cs:360-390 | the corrected orders put every account without an id token before every account that has one |
| Accounts.FirstReservable | samples/project-hostducks/Program.cs:638 | `FirstOrDefault(valid matchmaker token && !InUse)`: the lowest such position, or none when no account qualifies |
| Accounts.EarliestReservable | samples/project-hostducks/Program.cs:782-785 | a reservable account whose matchmaker token expires soonest, the first in list order among equals; none iff no account is reservable |
| Accounts.FirstWithMmToken | samples/project-hostducks/Program.cs:574 | `FirstOrDefault(MMToken == token)`: the lowest position holding the token, or none |
| Accounts.FirstWithMmTokenIgnoresUse | samples/project-hostducks/Program.cs:571-579 | the search by token reads only tokens, so reserving or releasing does not move it |
| Accounts.ReserveTwiceDistinct | samples/project-hostducks/Program.cs:634-644 | two reservations in a row never hand out the same account |
| Accounts.ReleaseUndoesReserve | samples/project-hostducks/Program.cs:634-644 | releasing by the token just handed out undoes the reservation exactly, when no other account holds that token |
| Accounts.AccountPool.constructor | samples/project-hostducks/Program.cs:27-29 | the token gate starts unset and the matchmaker gate starts set |
| Accounts.AccountPool.UpdateTokenGate | samples/project-hostducks/Program.cs:284-299 | afterwards the gate holds iff at least 5 valid matchmaker tokens exist; `changed` reports exactly a flip |
| Accounts.AccountPool.RefreshTokens | samples/project-hostducks/Program.cs:316-405 | returns `SelectForRefresh`'s plan in the given order. When paused, the gate is untouched. Otherwise the gate holds iff no priority refresh is needed (fewer than 60 valid matchmaker tokens, fewer than half the valid id tokens, some valid id token). `changed` reports exactly a flip |
| Accounts.AccountPool.ReserveFirst | samples/project-hostducks/Program.cs:634-644 | the first reservable account, alone, is marked in use and its non-empty token returned; with none, nothing changes and no token is returned |
| Accounts.AccountPool.GetAvailableMmToken | samples/project-hostducks/Program.cs:778-794 | as `ReserveFirst`, but the account reserved is one whose matchmaker token expires soonest |
| Accounts.AccountPool.ReleaseByToken | samples/project-hostducks/Program.cs:571-579 | the first account holding the token, alone, is freed; with none, nothing changes |
| Servers.Increment32 | samples/project-hostducks/Program.cs:79-82 | `Interlocked.Increment` on a 32-bit int: one more, and the largest value wraps to the smallest |
| Servers.Decrement32 | samples/project-hostducks/Program.cs:85-88 | `Interlocked.Decrement`: one less, and the smallest value wraps to the largest |
| Servers.IncrementDecrement | samples/project-hostducks/Program.cs:79-88 | increment and decrement undo each other, wrap-around included |
| Servers.HostServer.constructor | samples/project-hostducks/Program.cs:72-76 | a server starts with no connections and not bad |
| Servers.HostServer.IncrementConnections | samples/project-hostducks/Program.cs:79-82 | the counter is incremented (with wrap-around) and the new value returned |
| Servers.HostServer.DecrementConnections | samples/project-hostducks/Program.cs:85-88 | the counter is decremented (with wrap-around) and the new value returned |
| Servers.Sample | samples/project-hostducks/Program.cs:712-719 | with at most `count` eligible servers all of them, in order; otherwise `count` distinct eligible ones |
| Servers.SampleSmallestDraws | samples/project-hostducks/Program.cs:714-719 | no eligible server left out has a smaller random draw than a picked one |
| Servers.SelectRandomServers | samples/project-hostducks/Program.cs:699-720 | every pick is an input server with fewer than 10 connections. There are min(count, eligible) picks. All eligible servers are picked when they fit. Otherwise the picks are those with the smallest draws. Distinct input gives distinct picks |
| Games.Merge | samples/project-hostducks/Program.cs:545-554 | merging a batch never drops or overwrites an already listed game |
| Games.MergeKeys | samples/project-hostducks/Program.cs:545-554 | a game is listed after the merge iff it was listed before, or it is in the batch and not banned |
| Games.MergeKeepsFirst | samples/project-hostducks/Program.cs:552 | `TryAdd` keeps the first listing in the batch with a given id |
| Games.GameRegistry.constructor | samples/project-hostducks/Program.cs:16-43 | empty listing, ban list, usage and failure maps; zero counters; no games signalled |
| Games.GameRegistry.MergeGames | samples/project-hostducks/Program.cs:542-563 | the listing becomes `Merge` of the batch, a banned game is never listed, and `hasGames` is raised once something is listed |
| Games.GameRegistry.UpdateGameUsage | samples/project-hostducks/Program.cs:762-776 | an untracked game changes nothing. A tracked one counts one more client. On reaching 5 it leaves the listing and the usage map and one more game counts as completed |
| Games.GameRegistry.UpdateGameJoinFailCounter | samples/project-hostducks/Program.cs:938-959 | the game's failure count rises by exactly 1. On reaching 3 it leaves the listing and the counter map, is banned for good, and one more game counts as failed |
| Games.ThreeFailuresBan | samples/project-hostducks/Program.cs:938-959 | three failed joins ban a game that had none, and a later merge does not list it again |
| Fleet.CompletedIffEndTimeStamped | samples/project-hostducks/Program.cs:755-760 | `IsClientCompleted` holds exactly for the states whose entry stamps `EndTime`; JoinFailed and GameDeleted are not completed |
| Fleet.MarkedServersAreFailed | samples/project-hostducks/Program.cs:743-750 | the sweep's test for Failed or JoinFailed marks exactly the servers of Failed clients, since only completed clients reach it |
| Fleet.ReleasedByTokens | samples/project-hostducks/Program.cs:733-740 | the accounts after releasing a set of tokens: each token frees the first account holding it, and nothing else changes |
| Fleet.ReleaseOneMore | samples/project-hostducks/Program.cs:733-740 | releasing one more token after a set equals releasing the larger set, so the order of the sweep does not matter |
| Fleet.ListOf | samples/project-hostducks/Program.cs:724-726 | `ToList()`: each element of the set exactly once |
| Fleet.Supervisor.constructor | samples/project-hostducks/Program.cs:21 | no active clients, over the given pool |
| Fleet.Supervisor.CleanupCompletedClients | samples/project-hostducks/Program.cs:722-753 | exactly the completed clients are removed. Each one's account is freed by its matchmaker token. A server on which one ended Failed is marked bad. Nothing else changes |
| Fleet.Supervisor.RetireAll | samples/project-hostducks/Program.cs:728-752 | the `foreach`: after the listed ids, the table, the accounts and the server marks are those of retiring that set |
| Fleet.Supervisor.RetireClient | samples/project-hostducks/Program.cs:730-751 | one client is forgotten, the first account holding its token freed, and its server marked bad if it ended Failed or JoinFailed |

## Where the code and its comments differ

The model follows the code, with one exception: the sort order of the refresh selection's two shortage branches is a parameter. The program's order is `AsWritten`. `MissingFirst` is the order the comments describe (see "Findings").

- The code has no `Active` client state. The state list is at `samples/InnerSloth.cs:19-29`.
- `GameShouldBeRemoved` has no latch. It is raised on every GameNotFound or GameStarted disconnect.
- The pause in `RefreshTokens` tests `validMmTokens > 45`. Its comment and log message speak of 80 long-validity tokens. `HasLongValidMmToken` is only logged.
- The matchmaker-shortage branch of `RefreshTokens` (Program.cs:379-392) is dead code; `Accounts.MmShortageUnreachable` proves it. The model keeps the branch so that `SelectForRefresh` has the source's shape.
- `UpdateGameUsage` and `UpdateGameJoinFailCounter` are never called anywhere in `Program.cs`, and `_gameUsage` is never filled. They are modelled as the operations they define.

## Findings

| source | as written | input that shows it | evidently intended | confidence | as-written member | corrected member |
|---|---|---|---|---|---|---|
| samples/project-hostducks/Program.cs:362 | `OrderBy(a => string.IsNullOrEmpty(UserIdToken))` sorts `false` first, so accounts that already hold an id token are refreshed before those without one | ten free accounts holding the expired id token "t", then one free account without an id token, at time 1: the program refreshes the ten holders and skips the account without a token | accounts without an id token first, as the comment on that line says | high (not executed) | Accounts.AsWrittenSkipsMissingIdToken | Accounts.IdTokenShortageSelection |
| samples/project-hostducks/Program.cs:387 | the same key opens the matchmaker-shortage chain, so accounts holding an id token come first there too | two free accounts with id expiry 0, equal use flags and equal matchmaker expiry, one holding id token "t" and one without: the one holding "t" sorts first | empty id tokens first, as the comment on that line says | high (not executed) | Accounts.IdOrderAsWrittenPrefersHeldToken | Accounts.MissingIdTokenFirst |

`Accounts.IdKeyAsWritten` and `Accounts.BlendedKeyAsWritten` are the keys as written; `SelectForRefresh` sorts by them in `AsWritten` order. `Accounts.IdKey` and `Accounts.BlendedKey` are the corrected keys, used in `MissingFirst` order. The second row is in dead code (see above), so only its keys are compared.

## Left out

- In-lobby traffic sent to other players is not modelled. This covers the kick loops and vote messages in `HandleMessage`, `OnPlayerReceived`, `OnSetNameColor`, the `GameData` handling, and the random name and cosmetic pickers.
- InnerSloth.Client.FixedUpdate: "only the session that became host completes" holds within the model only. `OnSetNameColor` (InnerSloth.cs:687) is not modelled, and it also arms the vote-ban timer.
- The asynchronous parts of the session are not modelled: the polling in `StartAsync` and `OnConnected`, the tick rewinds by 100 and 150 in `OnConnected`/`OnGameJoined`, and `OnDataReceived`'s read loop. `BeginConnect` models only the synchronous start.
- `Task.Delay` loops, the `ManualResetEventSlim` waits, `WaitOneAsync` and the backpressure wait on the active-client count are not modelled. They are timing and concurrency.
- Locks and concurrent dictionaries become plain sequential updates. Interleavings are not modelled.
- The HTTP token exchange in `RefreshTokens` (Program.cs:407-487), `Http.cs` and the `Utils.cs` loaders are not modelled. They are network and file I/O.
- `LoadServers`, `PrintStatus`, the certificate setup in `CreateDtlsConnection` and `ConsoleLogger` are not modelled. They are I/O and setup.
- `CreateClientsWithToken`, `CreateAndStartClient`, `Client_StateChanged` and `Main` are not modelled. They are orchestration glue and counter logging over the operations above.
- Hazel's byte encoding is abstract. `MessageWriter` is a typed field log, with no byte packing, LEB128 or length patching.
- Base64 is abstract. It is a parameter of `DecodePEM`. The matchmaker token is taken as already decoded for `Getfriendcode`/`GetPuid`.
- MessageApi.FriendcodeDuckShape: a "letter" is an ASCII letter. `char.IsLetter` also accepts other Unicode letters.
- Servers.SelectRandomServers: equal random draws are not stated to be broken by list order. `random.Next()` is the parameter `draw`.
- The `long` tick counters are unbounded integers. Wrap-around at 2^63 is not modelled.
- `DateTime` values are integers of milliseconds. A refresh cycle reads one `now`, while the source reads the clock for each account.
- Accounts are values in a sequence, not shared `AccountStatus` objects. Aliasing between the pool and other holders is not modelled.
- The enumeration order of `_activeClients` in the sweep is any order. `Fleet.ReleaseOneMore` shows that the result does not depend on it.
- The numeric values of the enums are not modelled, except the platform bytes, the language and the chat mode written into the handshake.
