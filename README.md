# HyperAbyss cluster monitor — a Dafny model

HyperAbyss watches a cluster of ARK game servers. It reads a `.env` configuration into a registry of servers. It talks to each server over Source-style RCON: authenticate, `listplayers`, `GetGameLog`. A JSON API reports per-server status, player counts and cluster health. A monitoring script stores status rows and raises alerts, which go to an event log and to a Discord webhook. The browser side formats uptimes, caches API replies, keeps expiring items in localStorage and draws the navigation bar's status badge and mobile menu.

This project models that core and proves properties of the model.

| Dafny module | file | models |
|---|---|---|
| `RconCodec` | rcon_codec.dfy | the packet layout that `createPacket` writes and `readPacket` reads (classes/EnhancedArkRcon.php) |
| `RconText` | rcon_text.dfy | the `listplayers` parser and the `MaxPlayers` search (classes/EnhancedArkRcon.php) |
| `RconSession` | rcon_session.dfy | the RCON connection class: connect, authenticate, commands, the wrappers and their fallbacks |
| `Configuration` | config.dfy | classes/Config.php: `.env` loading and typing, the server registry, the getters and their defaults |
| `StatusSink` | status_sink.dfy | the uptime reference files and the `server_status` upsert that both pollers share |
| `FleetApi` | fleet_api.dfy | api/enhanced-api.php: `getServers`, `getPlayerCount`, the health check, uptime and status updates |
| `Monitoring` | monitoring.dfy | scripts/monitoring.php: the monitoring cycle, the alert rules and the dispatch of alerts |
| `ClientBase` | client_base.dfy | js/base.js: `formatUptime`, `apiRequest` with its cache, `storage`, `theme` |
| `Navigation` | navigation.dfy | js/navigation.js: the status badge, the mobile menu, the active link |
| `Wrappers`, `PhpText`, `PhpValues` | wrappers.dfy, php_text.dfy, php_values.dfy | Option/Result, and PHP's `trim`, `explode`, `is_numeric`, `(int)`, and ordered arrays, written out |

Code that changes state in place is a `class` whose methods are proved against pure specification functions. This covers the RCON session, `Config`, `EnhancedAPI`, `ServerMonitor`, the API cache, localStorage and the navigation component. Code that only computes is functions and lemmas. The network is an `Endpoint` per server: a refusal with PHP's error string and number, or a byte stream. The clock, the measured round trip and the hour of the day are parameters. So are the HTTP replies the browser receives.

A PHP string is a `seq<char>` holding one byte per character, each below 256. Text that reaches the wire (`ToBytes`) or the embed title is written byte by byte. The model's operations never build a character above 255, and a string holding one would not match what PHP sends.

## Model

| member | source | states |
|---|---|---|
| `RconCodec.UnLe32Le32` | classes/EnhancedArkRcon.php:113 | unpack('V') of pack('V', w) is w, for every 32-bit word |
| `RconCodec.Le32UnLe32` | classes/EnhancedArkRcon.php:120-121 | pack('V') of unpack('V', b) is b, for every four bytes |
| `RconCodec.EncodedSizeField` | classes/EnhancedArkRcon.php:84-89 | the size field of a created packet counts exactly the bytes after it (body + 10) |
| `RconCodec.EncodedLayout` | classes/EnhancedArkRcon.php:84-89 | a packet is LE32(size), LE32(id), LE32(type), the body, then two NULs |
| `RconCodec.RoundTrip` | classes/EnhancedArkRcon.php:84-129 | reading what createPacket wrote gives back id, type and body, and leaves what followed unread |
| `RconCodec.ReadConsumesDeclaredSize` | classes/EnhancedArkRcon.php:102-129 | readPacket yields a response exactly when a non-zero declared size has fully arrived, and consumes exactly that many bytes |
| `RconCodec.SignedMinusOne` | classes/EnhancedArkRcon.php:79 | the only word whose signed reading is -1 is 0xFFFFFFFF |
| `RconText.ParsePlayerList` | classes/EnhancedArkRcon.php:145-163 | the loop's players are the per-line parse of the trimmed output split on newlines, and the count is their number |
| `RconText.PlayersOfConcat` | classes/EnhancedArkRcon.php:152-161 | players come out in line order |
| `RconText.NameGroup` | classes/EnhancedArkRcon.php:158-159 | the name group after one blank is the name itself |
| `RconText.IdGroup` | classes/EnhancedArkRcon.php:158-159 | the id group is the whole hex run after the comma |
| `RconText.MatchAfterNumber` | classes/EnhancedArkRcon.php:158 | `^\d+\.` consumes any number and its dot |
| `RconText.MatchAtComma` | classes/EnhancedArkRcon.php:158 | the name group ends at the first comma |
| `RconText.MatchNumberedLine` | classes/EnhancedArkRcon.php:158-159 | a numbered line reads back its printable name and hex id |
| `RconText.MatchPrintedLine` | classes/EnhancedArkRcon.php:158-159 | the line the server prints for a player matches and yields that player |
| `RconText.PrintedLineKept` | classes/EnhancedArkRcon.php:152-160 | a printed player line survives trimming and the skip rules |
| `RconText.PlayersOfKept` | classes/EnhancedArkRcon.php:152-161 | lines that each yield a player give exactly those players, in order |
| `RconText.CarriedLinesSplitBack` | classes/EnhancedArkRcon.php:150 | output made of trimmed, newline-free lines splits back into those lines |
| `RconText.PlayerListRoundTrip` | classes/EnhancedArkRcon.php:145-163 | the output printed for a non-empty player list parses back to exactly that list |
| `RconText.MarkerLineSkipped` | classes/EnhancedArkRcon.php:154-156 | a line mentioning "No Players Connected" yields no player |
| `RconText.NoPlayersOutput` | classes/EnhancedArkRcon.php:150-163 | an empty server's output yields no players |
| `RconText.FindFirstMatch` | classes/EnhancedArkRcon.php:186 | the MaxPlayers search returns the leftmost match |
| `RconText.FindNoMatch` | classes/EnhancedArkRcon.php:186 | without a match anywhere the search finds nothing |
| `RconText.MaxPlayersDefault` | classes/EnhancedArkRcon.php:186-190 | the capacity is 150 when no position matches |
| `RconText.MaxPlayersPrinted` | classes/EnhancedArkRcon.php:186-187 | "MaxPlayers: n" followed by a non-digit yields n when n fits a PHP int, PHP_INT_MAX beyond that, and 0 once the figure overflows a double |
| `RconSession.EnhancedArkRcon.constructor` | classes/EnhancedArkRcon.php:46-56 | the fields are stored; the session starts at id 1 with no socket |
| `RconSession.EnhancedArkRcon.Open` | classes/EnhancedArkRcon.php:46-58 | construction succeeds exactly when connect and authenticate succeed; otherwise the error is theirs |
| `RconSession.EnhancedArkRcon.Connect` | classes/EnhancedArkRcon.php:60-70 | the new state and outcome are those of the connect specification |
| `RconSession.EnhancedArkRcon.Authenticate` | classes/EnhancedArkRcon.php:72-82 | one AUTH exchange with the password, judged by the intended -1 test |
| `RconSession.EnhancedArkRcon.CreatePacket` | classes/EnhancedArkRcon.php:84-89 | the packet carries the current id, which then advances by one |
| `RconSession.EnhancedArkRcon.SendPacket` | classes/EnhancedArkRcon.php:91-100 | without a socket "Not connected"; a failed write "Failed to send"; else the bytes are appended to what was sent |
| `RconSession.EnhancedArkRcon.ReadPacket` | classes/EnhancedArkRcon.php:102-129 | two reads, size then payload; a short read loses the packet |
| `RconSession.EnhancedArkRcon.ExecuteCommand` | classes/EnhancedArkRcon.php:131-143 | the response body, or "Failed to execute RCON command: " and the command |
| `RconSession.EnhancedArkRcon.GetPlayerList` | classes/EnhancedArkRcon.php:145-167 | the parsed `listplayers` output, or (0, []) when the command throws |
| `RconSession.EnhancedArkRcon.GetPing` | classes/EnhancedArkRcon.php:169-179 | the measured time, or 0 when `GetGameLog` throws |
| `RconSession.EnhancedArkRcon.GetMaxPlayers` | classes/EnhancedArkRcon.php:181-194 | the MaxPlayers figure, or 150 when missing or when the command throws |
| `RconSession.EnhancedArkRcon.SaveWorld` | classes/EnhancedArkRcon.php:214-221 | the reply, or the error prefixed "Failed to save world: " |
| `RconSession.EnhancedArkRcon.Broadcast` | classes/EnhancedArkRcon.php:223-230 | "Broadcast " + message is sent; an error is prefixed "Failed to broadcast message: " |
| `RconSession.EnhancedArkRcon.Disconnect` | classes/EnhancedArkRcon.php:232-238 | the socket is dropped and nothing else changes |
| `RconSession.CommandIds` | classes/EnhancedArkRcon.php:84-86 | the k-th command of a run carries the session's id plus k, whatever the replies |
| `RconSession.OpenSendsAuthFirst` | classes/EnhancedArkRcon.php:72-89 | an opened session has sent exactly the AUTH packet with id 1, and its next id is 2 |
| `RconSession.SessionPackets` | classes/EnhancedArkRcon.php:84-89 | everything a session writes: AUTH with id 1, then command k with id 2 + k; no id repeats |
| `RconSession.OpenRefused` | classes/EnhancedArkRcon.php:62-66 | a refused connection fails with "Failed to connect to RCON: errstr (errno)" |
| `RconSession.AuthenticationVerdict` | classes/EnhancedArkRcon.php:72-82 | with a whole answer to AUTH, the session opens exactly when the answer's id is not -1 |
| `RconSession.AuthenticationNeedsReply` | classes/EnhancedArkRcon.php:77-81 | without a whole answer the session fails with "RCON authentication failed" |
| `RconSession.AuthCheckAsWrittenNeverRejects` | classes/EnhancedArkRcon.php:79 | the test as written accepts every answer; the intended test rejects the server's -1 |
| `RconSession.ExecuteReturnsBody` | classes/EnhancedArkRcon.php:131-143 | a command whose whole answer has arrived returns its body and leaves the rest unread |
| `RconSession.ExecuteWithoutReply` | classes/EnhancedArkRcon.php:136-140 | a short or missing answer fails with the command's own name |
| `RconSession.DisconnectedCommandFails` | classes/EnhancedArkRcon.php:91-106 | after disconnect every command fails "Not connected", and the wrappers return their fallbacks (no players, capacity 150, ping 0 whatever was measured) |
| `RconSession.PlayerCountIsLength` | classes/EnhancedArkRcon.php:163-166 | the player count is always the list's length; a failed command gives the empty list |
| `Configuration.LoadEnvironment` | classes/Config.php:34-68 | the loop's result is the environment the file's lines define, or the not-found error |
| `Configuration.Config.constructor` | classes/Config.php:22-27 | the registry is built from the environment alone; the database handle is only stored |
| `Configuration.Config.Load` | classes/Config.php:22-38 | loading fails exactly when the file is missing, with "Environment file not found: " + path |
| `Configuration.Config.LoadServers` | classes/Config.php:70-101 | active database rows win when there are any; otherwise the environment's registry |
| `Configuration.Config.LoadServersFromEnv` | classes/Config.php:103-137 | the loop builds exactly the registry specified over the environment's keys, in order |
| `Configuration.Config.HasAllFields` | classes/Config.php:139-147 | true exactly when every `<prefix>_<field>` is set |
| `Configuration.SkippedLine` | classes/Config.php:43-51 | a line is skipped exactly when trimmed it is empty, "0", a comment, or has no '=' |
| `Configuration.SplitAtFirstEquals` | classes/Config.php:53-55 | a line is cut at its first '='; the key is trimmed and the value loses its quotes |
| `Configuration.TypedValues` | classes/Config.php:58-64 | "true"/"false" become booleans; the decimal text of an integer becomes that int, saturated by `(int)` when outside the int range; non-numeric text stays a string |
| `PhpText.SaturatingCast` | classes/Config.php:62 | `(int)` of numeric text always yields a PHP int, keeps every value that is one, and never flips the sign |
| `PhpValues.IntOfDigitRun` | classes/Config.php:62 | `(int)` of signed decimal digits is their value when it fits a PHP int, PHP_INT_MAX or PHP_INT_MIN beyond, and 0 past the double range; the text is numeric |
| `PhpValues.IntOfDecimal` | classes/Config.php:62 | `(int)` of the decimal text of a PHP int gives that int back |
| `Configuration.DecimalWithDot` | classes/Config.php:61-62 | numeric text with a dot becomes a float |
| `Configuration.LastLineWins` | classes/Config.php:58 | the last line that sets a key decides its value |
| `Configuration.KeyNeverSet` | classes/Config.php:40-67 | a key no line sets is absent |
| `Configuration.ExistingFileLoads` | classes/Config.php:34-68 | an existing file always loads, into a well-formed ordered array |
| `Configuration.RegistrySource` | classes/Config.php:107-134 | every registry entry comes from an enabled, complete `<P>_NAME` key, under lower-cased P |
| `Configuration.RegistryHasServer` | classes/Config.php:124 | such a key puts its server in the registry unless a later key collides |
| `Configuration.ServerFields` | classes/Config.php:124-133 | an entry's fields are copied from the environment; the query port defaults to the game port |
| `Configuration.ServerEntryCases` | classes/Config.php:108-122 | a key gives a server exactly when it ends in _NAME and its prefix is enabled and complete |
| `Configuration.ServerNeedsEnabledAndComplete` | classes/Config.php:115-122 | a disabled or incomplete prefix gives no server |
| `Configuration.DatabaseDefaults` | classes/Config.php:171-181 | without DB_* keys the connection settings are the documented defaults |
| `Configuration.RefreshIntervalRule` | classes/Config.php:188-192 | a truthy database setting wins; with no database, no setting, or a setting of "" or "0", REFRESH_INTERVAL, or 15 when that is absent |
| `StatusSink.UpsertSpec` | scripts/monitoring.php:85-101 | one row per server key, replaced whole; a failing query changes nothing |
| `StatusSink.UptimeSinceFirstSight` | api/enhanced-api.php:306-316 | the first lookup records the time and reports 0; a later one reports the seconds since the time read back, which is the recorded time itself for any PHP int |
| `StatusSink.UptimeKeepsRecords` | scripts/monitoring.php:126-136 | a lookup adds at most its own file and never rewrites one |
| `FleetApi.EnhancedAPI.constructor` | api/enhanced-api.php:78-83 | the configuration and database handle are stored |
| `FleetApi.EnhancedAPI.GetServerUptime` | api/enhanced-api.php:306-316 | the uptime files and result follow the uptime specification |
| `FleetApi.EnhancedAPI.UpdateServerStatus` | api/enhanced-api.php:318-343 | nothing without a database; else an 'online' row with the recorded uptime, unless the query fails |
| `FleetApi.EnhancedAPI.ReadServer` | api/enhanced-api.php:139-150 | open the session, then read players, ping and capacity, in that order |
| `FleetApi.EnhancedAPI.PollServer` | api/enhanced-api.php:138-186 | one loop body: the entry, the uptime and status stores as specified, the entry under its key |
| `FleetApi.EnhancedAPI.GetServers` | api/enhanced-api.php:128-202 | one entry per configured server under its key; the totals count online entries and their players |
| `FleetApi.EnhancedAPI.GetPlayerCount` | api/enhanced-api.php:271-281 | the total_players of a full poll |
| `FleetApi.PollEntries` | api/enhanced-api.php:137-186 | one entry per key in order, each 'online' or 'offline'; offline entries report 0 of 150 and no list |
| `FleetApi.PollIsolation` | api/enhanced-api.php:135-186 | entry i is 'online' iff server i's own session opened; a failed server gets the offline entry with its own message, a reachable one the online entry with its own players, ping and capacity, whatever the other servers did |
| `FleetApi.OnlineCountsReachable` | api/enhanced-api.php:137-168 | online_servers equals the number of servers whose session opened |
| `FleetApi.PollFrame` | api/enhanced-api.php:163-171 | the poll touches the uptime records of the polled keys only |
| `FleetApi.PollUptimeIsolated` | api/enhanced-api.php:163 | with distinct keys, an online entry's uptime is read from its own server's record as it stood before the poll |
| `FleetApi.OneEntryPerServer` | api/enhanced-api.php:189-193 | the response's keys are the configuration's keys, so total_servers counts the servers |
| `FleetApi.PlayersOnlineOnly` | api/enhanced-api.php:163-164 | total_players sums the online entries, which equals the sum over all entries |
| `FleetApi.RefusedServer` | api/enhanced-api.php:173-186 | a refusing server gets the offline entry with the connect error, and nothing is stored |
| `FleetApi.OnlineEntry` | api/enhanced-api.php:144-171 | an online entry's count is its list's length, its map the configured one, with no error |
| `FleetApi.NothingReachable` | api/enhanced-api.php:128-202 | with no server reachable nothing is online, no player is counted and no store changes |
| `FleetApi.HealthVerdict` | api/enhanced-api.php:250-304 | error exactly when the database is missing or failing; else warning exactly when no server is configured |
| `FleetApi.OverallOrder` | api/enhanced-api.php:258-262 | error beats warning beats success |
| `Monitoring.ServerMonitor.constructor` | scripts/monitoring.php:15-23 | no alerts, no logged events and no posts yet; the configuration, database and uptime files are given |
| `Monitoring.ServerMonitor.AddAlert` | scripts/monitoring.php:154-162 | one alert appended, nothing else changes |
| `Monitoring.ServerMonitor.CheckServerAlerts` | scripts/monitoring.php:107-124 | the alerts of the three rules are appended in rule order |
| `Monitoring.ServerMonitor.GetServerUptime` | scripts/monitoring.php:126-136 | the uptime files and result follow the uptime specification |
| `Monitoring.ServerMonitor.UpdateServerStatus` | scripts/monitoring.php:82-105 | the row is upserted; a failing query is swallowed |
| `Monitoring.ServerMonitor.Probe` | scripts/monitoring.php:49-57 | open the session, then read players and ping |
| `Monitoring.ServerMonitor.MonitorServer` | scripts/monitoring.php:44-80 | the new alerts, uptime files and rows are those of one monitoring step |
| `Monitoring.ServerMonitor.SendAlerts` | scripts/monitoring.php:164-187 | every alert in order to the event log when the database works, and one embed each when a webhook is set |
| `Monitoring.ServerMonitor.Run` | scripts/monitoring.php:25-42 | every configured server in order, then the dispatch of all alerts gathered |
| `Monitoring.AlertThresholds` | scripts/monitoring.php:107-124 | each rule fires exactly when its threshold is crossed (ping > 500, players >= 150, 19-23 h with < 5 players), in rule order |
| `Monitoring.FailedPoll` | scripts/monitoring.php:69-79 | a failed poll adds one 'Server Offline' alert and an offline row without uptime |
| `Monitoring.OfflineAlertsCount` | scripts/monitoring.php:25-80 | a cycle keeps the alerts it had and adds one 'Server Offline' alert per server it could not poll |
| `Monitoring.EmbedsPerAlert` | scripts/monitoring.php:189-202 | with a webhook, one embed per alert, red exactly for 'Server Offline'; without one, none |
| `ClientBase.FormatUptimeReadsBack` | js/base.js:60-65 | the text reads back as the uptime rounded down to its unit: seconds, minutes, or hours from a day on |
| `ClientBase.ApiClient.constructor` | js/base.js:14 | the shared cache starts empty |
| `ClientBase.ApiClient.ApiRequest` | js/base.js:116-156 | the cache, the dispatched errors and the outcome are those of the request specification |
| `ClientBase.RequestUrl` | js/base.js:125 | 'http' endpoints are fetched verbatim; others via the API script's endpoint parameter |
| `ClientBase.CacheHit` | js/base.js:117-122 | an entry younger than 300000 ms answers without the network and changes nothing |
| `ClientBase.CacheWrittenOnSuccess` | js/base.js:135-155 | the cache changes only on a successful fetch at its key; a failure dispatches its message |
| `ClientBase.ErrorStatusFails` | js/base.js:141-143 | a reply with status 'error' fails, with its own error text when it has one |
| `ClientBase.RepeatWithinTtl` | js/base.js:117-150 | after a successful request, the same request within five minutes returns the same data |
| `ClientBase.LocalStorage.StorageSet` | js/base.js:207-214 | stores the JSON of {value, timestamp, expiry} under the key |
| `ClientBase.LocalStorage.StorageGet` | js/base.js:216-231 | the stored value, or null for missing, unparseable or expired items; expired ones are removed |
| `ClientBase.ItemRoundTrip` | js/base.js:207-226 | every stored item text reads back as itself |
| `ClientBase.StoredValueLifetime` | js/base.js:207-231 | after set, get returns the value until the lifetime passes; then it removes the key and returns null |
| `ClientBase.RawTextIsNoItem` | js/base.js:216-230 | a text not written by storage.set, such as the raw theme, reads as null |
| `ClientBase.LocalStorage.Theme` | js/base.js:187-189 | the stored theme when one is set; never the empty name |
| `ClientBase.LocalStorage.SetTheme` | js/base.js:191-195 | the theme key holds the new name |
| `ClientBase.LocalStorage.ToggleTheme` | js/base.js:197-200 | dark becomes light, anything else dark |
| `ClientBase.ThemeToggleTwice` | js/base.js:197-200 | two toggles restore the theme exactly when it was dark or light |
| `Navigation.NavigationComponent.constructor` | js/navigation.js:6-28 | the menu starts closed and is shown closed; no event has fired |
| `Navigation.NavigationComponent.OpenMobileMenu` | js/navigation.js:120-139 | without menu or toggle nothing; else open, active classes, aria-expanded "true", body overflow hidden, one event |
| `Navigation.NavigationComponent.CloseMobileMenu` | js/navigation.js:141-154 | the reverse of opening, under the same guard |
| `Navigation.NavigationComponent.ToggleMobileMenu` | js/navigation.js:112-118 | close when open, open otherwise |
| `Navigation.NavigationComponent.SetActiveLink` | js/navigation.js:156-164 | afterwards exactly the clicked link's item is active among the links' items; other items are untouched |
| `Navigation.NavigationComponent.SetServerStatus` | js/navigation.js:192-223 | without dot or text nothing; else the class and text of the classification, and one event |
| `Navigation.NavigationComponent.UpdateStatus` | js/navigation.js:178-190 | the request goes through the shared client; with the badge present, a shown view sets the dot class and text and emits one 'server-status-updated' event; without the badge, or for a reply without meta, the badge and events are unchanged |
| `Navigation.UpdateView` | js/navigation.js:178-190 | a failed request shows 'Connection Error' as offline; a successful reply changes the badge exactly when it carries meta |
| `Navigation.StatusCases` | js/navigation.js:195-209 | error override; all online iff online == total > 0; partly iff online > 0 otherwise; offline iff online <= 0 |
| `Navigation.ToggleFlips` | js/navigation.js:112-154 | a toggle flips the flag and leaves the page showing it; without the elements nothing changes |
| `Navigation.ToggleTwice` | js/navigation.js:112-154 | two toggles restore the flag always and the whole state when it was shown consistently |
| `Navigation.OpenCloseIdempotent` | js/navigation.js:120-154 | opening twice is opening once, closing likewise |
| `Navigation.FetchFailureShowsError` | js/navigation.js:178-189 | a failed 'servers' request is the API script's reply, caches nothing and dispatches its error |

## Left out

- Sockets are byte streams. Connect timeouts, `stream_set_timeout`, partial writes and blocking are not modelled.
- `fread` with length 0 raises a ValueError in PHP. A ValueError is an `Error`, so no `catch (Exception)` catches it: not `getPlayerList`'s, not the `getServers` loop's, not `monitorServer`'s. In PHP, a reply declaring size 0 therefore aborts the whole `getServers` call or monitoring cycle. The model treats it as a lost packet instead, which gives an offline entry, an offline alert or a fallback value.
- Clocks are parameters: one `now` per poll, one hour of the day per cycle, and a measured ping.
- Dates in rows and alerts (`last_updated`, `timestamp`) are not modelled.
- The webhook POST is not part of this model. scripts/monitoring.php ends at line 202, after the embed is built.
- SQL is a map of `server_status` rows plus a failure flag. `error_log`, `logInfo` and `logError` output is not modelled.
- PDO construction and `initializeDatabase` are outside the model. The database is given as present or absent.
- Headers, CORS, `handleRequest` routing and `logRequest` are not modelled.
- Floats are kept as their text (`EFloat`). `getResponseTime` and `updateClusterHealth` compute with floats and are left out.
- Integer arithmetic is unbounded: PHP's overflow of `+` and `-` to float is not modelled. A size field or id above 2^32 is reduced to 32 bits, as pack('V') does.
- `(int)` of text saturates as in PHP 8: PHP_INT_MAX or PHP_INT_MIN beyond the int range, and 0 once the text overflows a double. The text's value is taken exactly, though. PHP reads text that does not fit an int as a double first, so text with more than 17 significant digits can round differently, for example "0.99999999999999999999" casts to 1 in PHP and to 0 here.
- `(int)` of a float-typed configuration value (text with a dot) beyond the int range is platform-dependent in PHP. The model applies the string cast's saturation to it.
- `strict_types` TypeErrors are not modelled. For example, an int `ip` or `rcon_password` is passed through its string conversion.
- Both pollers construct `\EnhancedArkRcon` and read `$playerData['count']`. The class is declared in namespace HyperAbyss, and `getPlayerList` returns an object, not an array. In PHP both raise an `Error` that `catch (Exception)` does not catch. The model follows the evident intent: the namespaced class and the object's `count`/`players`.
- `RconPacketType` declares the value 2 twice (EXECCOMMAND, AUTH_RESPONSE). The model uses raw codes.
- `getServerInfo`, `getRateLimit`, `getSecurity`, `getAnalytics`, `getDiscordStats`, `getInstance` (a memoised constructor) and the `Database` helpers are not part of this model.
- `description` in database server rows is not modelled.
- `Configuration.RegistryHasServer`: two `_NAME` keys whose prefixes lower-case alike share one registry entry. The later key wins and the lemma requires no such later key.
- `FleetApi.EnhancedAPI.GetServers`: the counters are incremented from each entry's status. The source increments them in the success branch, which is the same thing: `FleetApi.PollIsolation` proves an entry is 'online' exactly when its session opened, and `FleetApi.OnlineCountsReachable` that online_servers counts those servers.
- `Monitoring.ServerMonitor.CheckServerAlerts`: the capacity is always 150. Registry entries never carry `max_players`, so `?? 150` always applies.
- `ClientBase.LocalStorage.StorageGet`: only texts of the exact form `storage.set` writes are decoded. Any other JSON reads as null, like unparseable text. Expiry is a natural number; a negative expiry is not modelled.
- `ClientBase.ApiClient.ApiRequest`: the options are their JSON text. Headers and method overrides reach `fetch` only through that text. One clock reading serves both the freshness test and the cache timestamp.
- `ClientBase.FormatUptime`: whole seconds only. A fractional uptime prints decimals in JavaScript.
- `formatNumber`, `debounce`, `throttle`, `animateNumber`, the modal system and the performance marks in js/base.js are not part of this model.
- DOM details are not modelled: focus moves, the `theme-changed` event and the `data-theme` attribute, and the navbar's scroll, resize and click handlers. `updateStatus` only reaches the component through the API client.
- The API check's response time is left empty.

## Findings

| source | as written | input that shows it | evidently intended | confidence | as-written member | corrected member |
|---|---|---|---|---|---|---|
| classes/EnhancedArkRcon.php:79 | `$response['id'] === -1`, where the id comes from unsigned `unpack('V')` (line 120), so it is never -1 | the server answers AUTH with id -1: bytes FF FF FF FF decode to 4294967295, and the wrong password is accepted | reject the answer whose id is -1 as a signed 32-bit value, i.e. the word 0xFFFFFFFF | high (not executed) | `RconSession.AuthCheckAsWritten` | `RconSession.AuthCheck` |
