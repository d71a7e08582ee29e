/** The server endpoints of api/enhanced-api.php: the poll of every
    configured server with its offline fallback and counters, the uptime
    reference and status upsert it feeds, the health check and the player
    count. The network is a function from server key to the endpoint that
    server's RCON address reaches; the measured ping and the time are
    parameters. */
module FleetApi {
  import opened Wrappers
  import opened PhpText
  import opened PhpValues
  import opened Configuration
  import opened RconText
  import opened RconSession
  import opened StatusSink

  /** The ServerStatus enum; the API writes only the first two. */
  datatype ServerStatus = Online | Offline | Crashed | Restarting

  /** The ResponseStatus enum. */
  datatype ResponseStatus = SuccessStatus | ErrorStatus | WarningStatus

  /** The capacity an offline entry reports. */
  const OfflineCapacity: int := 150

  /** The timeout every session is opened with. */
  const RconTimeout: int := 10

  /** One element of `servers` in the response. */
  datatype ServerReport = ServerReport(
    key: string, name: EnvValue, ip: EnvValue, port: int, status: ServerStatus,
    online: int, max: int, list: seq<PlayerInfo>, mapName: EnvValue, ping: int,
    uptime: int, error: Option<string>)

  /** The `data` of the servers response. */
  datatype ServersResponse = ServersResponse(
    servers: PhpArray<ServerReport>, totalServers: int, onlineServers: int,
    totalPlayers: int, refreshInterval: int)

  /** What the session yields for one server: the constructor's exception,
      or the player list, ping and capacity read over it in that order. */
  datatype Reading = Unreachable(message: string) | Reachable(players: PlayerListResult, ping: int, maxPlayers: int)

  function ReadingOf(rec: ServerRecord, peer: Endpoint, measuredMs: int): Reading {
    match OpenSpec(Text(rec.rconPassword), peer)
    case Failure(e) => Unreachable(e)
    case Success(s0) =>
      var (s1, list) := ExecuteSpec(s0, "listplayers");
      var (s2, ping) := ExecuteSpec(s1, "GetGameLog");
      var (_, max) := ExecuteSpec(s2, "GetGameLog");
      Reachable(PlayerListOf(list), PingOf(ping, measuredMs), MaxPlayersOfReply(max))
  }

  /** The entry of a server whose session could not be opened. */
  function OfflineReport(key: string, rec: ServerRecord, message: string): ServerReport {
    ServerReport(key, rec.name, rec.ip, rec.port, Offline, 0, OfflineCapacity, [],
      rec.mapName, 0, 0, Some(message))
  }

  /** The entry of a server that answered; the map comes from the
      configuration, not from the server. */
  function OnlineReport(key: string, rec: ServerRecord, players: PlayerListResult, ping: int,
                        maxPlayers: int, uptime: int): ServerReport {
    ServerReport(key, rec.name, rec.ip, rec.port, Online, players.count, maxPlayers,
      players.players, rec.mapName, ping, uptime, None)
  }

  /** What the API keeps between calls: the uptime files and, when the
      database is there, the status table. */
  datatype ApiState = ApiState(files: UptimeFiles, db: Option<StatusDb>)

  /** updateServerStatus: nothing without a database; otherwise an upsert of
      an 'online' row whose uptime comes from the uptime reference, unless
      the query fails, which is logged and swallowed. */
  function StatusUpdateSpec(st: ApiState, key: string, players: int, ping: int, now: int): ApiState {
    match st.db
    case None => st
    case Some(db) =>
      if db.failure.Some? then st
      else
        var (files, up) := UptimeSpec(st.files, key, now);
        ApiState(files, Some(UpsertSpec(db, key, StatusRow("online", players, ping, Some(up)))))
  }

  /** One iteration of getServers' loop, given what the session yields. */
  function PollServerSpec(st: ApiState, key: string, rec: ServerRecord, reading: Reading, now: int)
    : (ApiState, ServerReport)
  {
    match reading
    case Unreachable(e) => (st, OfflineReport(key, rec, e))
    case Reachable(players, ping, maxPlayers) =>
      var (files, up) := UptimeSpec(st.files, key, now);
      (StatusUpdateSpec(ApiState(files, st.db), key, players.count, ping, now),
       OnlineReport(key, rec, players, ping, maxPlayers, up))
  }

  /** What the session of each configured server yields, by key (keys
      outside the registry are never polled). */
  function ReadingsOf(servers: PhpArray<ServerRecord>, net: string -> Endpoint, latency: string -> int)
    : string -> Reading
  {
    k => if k in servers.vals then ReadingOf(servers.vals[k], net(k), latency(k)) else Unreachable("")
  }

  lemma ReadingAt(servers: PhpArray<ServerRecord>, net: string -> Endpoint, latency: string -> int, key: string)
    requires key in servers.vals
    ensures ReadingsOf(servers, net, latency)(key) == ReadingOf(servers.vals[key], net(key), latency(key))
  {
  }

  /** getServers' loop over the given keys, in order. */
  function PollSpec(st: ApiState, servers: PhpArray<ServerRecord>, keys: seq<string>,
                    readings: string -> Reading, now: int): (ApiState, seq<ServerReport>)
    requires forall i :: 0 <= i < |keys| ==> keys[i] in servers.vals
    decreases |keys|
  {
    if |keys| == 0 then (st, [])
    else
      var n := |keys| - 1;
      var (st1, reports) := PollSpec(st, servers, keys[..n], readings, now);
      var (st2, report) := PollServerSpec(st1, keys[n], servers.vals[keys[n]], readings(keys[n]), now);
      (st2, reports + [report])
  }

  /** The entries of `$serverData`, each under its own key. */
  function Keyed(reports: seq<ServerReport>): (r: seq<(string, ServerReport)>)
    ensures |r| == |reports|
    ensures forall i :: 0 <= i < |reports| ==> r[i] == (reports[i].key, reports[i])
  {
    seq(|reports|, i requires 0 <= i < |reports| => (reports[i].key, reports[i]))
  }

  /** The number of entries with status 'online'. */
  function CountOnline(reports: seq<ServerReport>): (n: nat)
    ensures n <= |reports|
  {
    if |reports| == 0 then 0
    else CountOnline(reports[..|reports| - 1]) + (if reports[|reports| - 1].status == Online then 1 else 0)
  }

  /** The sum of the player counts of the 'online' entries. */
  function PlayersOnline(reports: seq<ServerReport>): int {
    if |reports| == 0 then 0
    else
      var last := reports[|reports| - 1];
      PlayersOnline(reports[..|reports| - 1]) + (if last.status == Online then last.online else 0)
  }

  /** The sum of the player counts of all entries. */
  function PlayersListed(reports: seq<ServerReport>): int {
    if |reports| == 0 then 0
    else PlayersListed(reports[..|reports| - 1]) + reports[|reports| - 1].online
  }

  /** in_array over the check statuses, worst first. */
  function Overall(checks: seq<Check>): ResponseStatus {
    if exists i :: 0 <= i < |checks| && checks[i].status == "error" then ErrorStatus
    else if exists i :: 0 <= i < |checks| && checks[i].status == "warning" then WarningStatus
    else SuccessStatus
  }

  /** One entry of the health report. The api check's response time comes
      from the clock and is left empty. */
  datatype Check = Check(status: string, message: string)

  class EnhancedAPI {
    const config: Config
    var uptimeFiles: UptimeFiles
    var pdo: Option<StatusDb>

    function State(): ApiState
      reads this
    {
      ApiState(uptimeFiles, pdo)
    }

    constructor (config: Config, pdo: Option<StatusDb>, files: UptimeFiles)
      ensures this.config == config && State() == ApiState(files, pdo)
    {
      this.config := config;
      this.pdo := pdo;
      uptimeFiles := files;
    }

    /** getServerUptime. */
    method GetServerUptime(key: string, now: int) returns (secs: int)
      modifies this
      ensures (uptimeFiles, secs) == UptimeSpec(old(uptimeFiles), key, now)
      ensures pdo == old(pdo)
    {
      if key !in uptimeFiles {
        uptimeFiles := uptimeFiles[key := IntToString(now)];
        return 0;
      }
      var start := IntOfString(uptimeFiles[key]);
      secs := now - start;
      KnownUptime(uptimeFiles, key, now);
    }

    /** updateServerStatus. */
    method UpdateServerStatus(key: string, players: int, ping: int, now: int)
      modifies this
      ensures State() == StatusUpdateSpec(old(State()), key, players, ping, now)
    {
      if pdo.None? {
        return;
      }
      if pdo.value.failure.Some? {
        return;
      }
      var up := GetServerUptime(key, now);
      pdo := Some(UpsertSpec(pdo.value, key, StatusRow("online", players, ping, Some(up))));
    }

    /** `new \EnhancedArkRcon(...)` and the three reads of the try block. */
    static method ReadServer(rec: ServerRecord, peer: Endpoint, measuredMs: int) returns (reading: Reading)
      ensures reading == ReadingOf(rec, peer, measuredMs)
    {
      var session := EnhancedArkRcon.Open(Text(rec.ip), rec.rconPort, Text(rec.rconPassword), RconTimeout, peer);
      if session.Failure? {
        return Unreachable(session.error);
      }
      var rcon := session.value;
      var players := rcon.GetPlayerList();
      var ping := rcon.GetPing(measuredMs);
      var maxPlayers := rcon.GetMaxPlayers();
      reading := Reachable(players, ping, maxPlayers);
    }

    /** The body of getServers' loop for one server: its entry, and the
        uptime and status stores updated when it answered. */
    method PollServer(key: string, rec: ServerRecord, peer: Endpoint, measuredMs: int, now: int)
      returns (report: ServerReport)
      modifies this
      ensures (State(), report) == PollServerSpec(old(State()), key, rec, ReadingOf(rec, peer, measuredMs), now)
      ensures report.key == key
    {
      var reading := ReadServer(rec, peer, measuredMs);
      if reading.Unreachable? {
        return OfflineReport(key, rec, reading.message);
      }
      var uptime := GetServerUptime(key, now);
      report := OnlineReport(key, rec, reading.players, reading.ping, reading.maxPlayers, uptime);
      UpdateServerStatus(key, reading.players.count, reading.ping, now);
    }

    /** getServers: one entry per configured server, the counters, and the
        refresh interval. */
    method GetServers(net: string -> Endpoint, latency: string -> int, now: int) returns (r: ServersResponse)
      requires config.Valid()
      modifies this
      ensures var (st, reports) := PollSpec(old(State()), config.servers, config.servers.keys,
                                            ReadingsOf(config.servers, net, latency), now);
        && State() == st
        && r.servers == PutAll(EmptyArray(), Keyed(reports))
        && r.servers.keys == config.servers.keys
        && r.totalServers == |config.servers.keys|
        && r.onlineServers == CountOnline(reports)
        && r.totalPlayers == PlayersOnline(reports)
        && r.refreshInterval == config.GetRefreshInterval()
    {
      var keys := config.servers.keys;
      var readings := ReadingsOf(config.servers, net, latency);
      var reports: seq<ServerReport> := [];
      var serverData: PhpArray<ServerReport> := EmptyArray();
      var totalPlayers := 0;
      var onlineServers := 0;
      var i := 0;
      while i < |keys|
        invariant 0 <= i <= |keys|
        invariant forall j :: 0 <= j < |keys| ==> keys[j] in config.servers.vals
        invariant (State(), reports) == PollSpec(old(State()), config.servers, keys[..i], readings, now)
        invariant serverData == PutAll(EmptyArray(), Keyed(reports))
        invariant onlineServers == CountOnline(reports)
        invariant totalPlayers == PlayersOnline(reports)
      {
        var key := keys[i];
        var rec := config.servers.vals[key];
        PollStep(old(State()), config.servers, keys, i, readings, now);
        ReadingAt(config.servers, net, latency, key);
        var report := PollServer(key, rec, net(key), latency(key), now);
        if report.status == Online {
          totalPlayers := totalPlayers + report.online;
          onlineServers := onlineServers + 1;
        }
        ReportStep(reports, report);
        serverData := Put(serverData, key, report);
        reports := reports + [report];
        i := i + 1;
      }
      assert keys[..i] == keys;
      OneEntryPerServer(old(State()), config.servers, keys, readings, now);
      r := ServersResponse(serverData, |serverData.keys|, onlineServers, totalPlayers, config.GetRefreshInterval());
    }

    /** getPlayerCount: the total_players of a full poll. */
    method GetPlayerCount(net: string -> Endpoint, latency: string -> int, now: int) returns (count: int)
      requires config.Valid()
      modifies this
      ensures var (st, reports) := PollSpec(old(State()), config.servers, config.servers.keys,
                                            ReadingsOf(config.servers, net, latency), now);
        State() == st && count == PlayersOnline(reports)
    {
      var servers := GetServers(net, latency, now);
      count := servers.totalPlayers;
    }

    /** checkDatabase. */
    function CheckDatabase(): Check
      reads this
    {
      match pdo
      case None => Check("error", "Database connection failed")
      case Some(db) =>
        if db.failure.None? then Check("healthy", "Database connected") else Check("error", db.failure.value)
    }

    /** checkConfig. */
    function CheckConfig(): Check
      reads this, config
    {
      var n := |config.servers.keys|;
      if n == 0 then Check("warning", "No servers configured")
      else Check("healthy", IntToString(n) + " servers configured")
    }

    /** getHealthCheck: the overall status and the three checks. */
    function HealthCheck(): (ResponseStatus, seq<Check>)
      reads this, config
    {
      var checks := [Check("healthy", ""), CheckDatabase(), CheckConfig()];
      (Overall(checks), checks)
    }
  }

  // ---------------------------------------------------------------------
  // Properties of the poll

  lemma PollStep(st: ApiState, servers: PhpArray<ServerRecord>, keys: seq<string>, i: nat,
                 readings: string -> Reading, now: int)
    requires i < |keys|
    requires forall j :: 0 <= j < |keys| ==> keys[j] in servers.vals
    ensures var (st1, reports) := PollSpec(st, servers, keys[..i], readings, now);
      var (st2, report) := PollServerSpec(st1, keys[i], servers.vals[keys[i]], readings(keys[i]), now);
      PollSpec(st, servers, keys[..i + 1], readings, now) == (st2, reports + [report])
  {
    assert keys[..i + 1][..i] == keys[..i];
  }

  lemma ReportStep(reports: seq<ServerReport>, report: ServerReport)
    ensures CountOnline(reports + [report]) == CountOnline(reports) + (if report.status == Online then 1 else 0)
    ensures PlayersOnline(reports + [report]) == PlayersOnline(reports) + (if report.status == Online then report.online else 0)
    ensures PutAll(EmptyArray(), Keyed(reports + [report]))
      == Put(PutAll(EmptyArray(), Keyed(reports)), report.key, report)
  {
    assert (reports + [report])[..|reports|] == reports;
    assert Keyed(reports + [report]) == Keyed(reports) + [(report.key, report)];
    PutAllStep(EmptyArray(), Keyed(reports), (report.key, report));
  }

  /** The poll yields one entry per key, in order, each under its key, and
      every entry is 'online' or 'offline'; an offline entry reports no
      players. */
  lemma PollEntries(st: ApiState, servers: PhpArray<ServerRecord>, keys: seq<string>,
                    readings: string -> Reading, now: int)
    requires forall i :: 0 <= i < |keys| ==> keys[i] in servers.vals
    ensures var reports := PollSpec(st, servers, keys, readings, now).1;
      && |reports| == |keys|
      && (forall i :: 0 <= i < |keys| ==> reports[i].key == keys[i])
      && (forall i :: 0 <= i < |keys| ==> reports[i].status == Online || reports[i].status == Offline)
      && (forall i :: 0 <= i < |keys| && reports[i].status == Offline ==>
            reports[i].online == 0 && reports[i].list == [] && reports[i].max == OfflineCapacity)
  {
    PollShapes(st, servers, keys, readings, now);
    var reports := PollSpec(st, servers, keys, readings, now).1;
    assert forall i :: 0 <= i < |keys| ==> EntryShape(reports[i], keys[i]);
  }

  /** An entry under `key`, 'online' or 'offline', reporting no players when offline. */
  predicate EntryShape(report: ServerReport, key: string) {
    && report.key == key
    && (report.status == Online || report.status == Offline)
    && (report.status == Offline ==> report.online == 0 && report.list == [] && report.max == OfflineCapacity)
  }

  lemma {:induction false} PollShapes(st: ApiState, servers: PhpArray<ServerRecord>, keys: seq<string>,
                                      readings: string -> Reading, now: int)
    requires forall i :: 0 <= i < |keys| ==> keys[i] in servers.vals
    ensures var reports := PollSpec(st, servers, keys, readings, now).1;
      |reports| == |keys| && forall i :: 0 <= i < |keys| ==> EntryShape(reports[i], keys[i])
  {
    if |keys| > 0 {
      var n := |keys| - 1;
      PollShapes(st, servers, keys[..n], readings, now);
      var (st1, earlier) := PollSpec(st, servers, keys[..n], readings, now);
      var report := PollServerSpec(st1, keys[n], servers.vals[keys[n]], readings(keys[n]), now).1;
      var all := earlier + [report];
      PollStep(st, servers, keys, n, readings, now);
      assert keys[..n + 1] == keys;
      ReportShape(st1, keys[n], servers.vals[keys[n]], readings(keys[n]), now);
      assert forall i :: 0 <= i < n ==> all[i] == earlier[i] && keys[..n][i] == keys[i];
    }
  }

  /** A single entry has the shape of every entry. */
  lemma ReportShape(st: ApiState, key: string, rec: ServerRecord, reading: Reading, now: int)
    ensures EntryShape(PollServerSpec(st, key, rec, reading, now).1, key)
  {
  }

  /** Every configured key gets exactly one entry: the response's keys are
      the configuration's keys, so total_servers counts the servers. */
  lemma OneEntryPerServer(st: ApiState, servers: PhpArray<ServerRecord>, keys: seq<string>,
                          readings: string -> Reading, now: int)
    requires servers.Valid() && keys == servers.keys
    ensures forall i :: 0 <= i < |keys| ==> keys[i] in servers.vals
    ensures PutAll(EmptyArray(), Keyed(PollSpec(st, servers, keys, readings, now).1)).keys == keys
  {
    assert forall i :: 0 <= i < |keys| ==> keys[i] in servers.vals by {
      forall i | 0 <= i < |keys| ensures keys[i] in servers.vals {
        assert keys[i] in servers.keys;
      }
    }
    var reports := PollSpec(st, servers, keys, readings, now).1;
    PollEntries(st, servers, keys, readings, now);
    PutAllFreshKeys(EmptyArray<ServerReport>(), Keyed(reports), keys);
  }

  /** total_players counts the players of the online entries only; since
      an offline entry reports none, that is also the sum over all
      entries. */
  lemma {:induction false} PlayersOnlineOnly(reports: seq<ServerReport>)
    requires forall i :: 0 <= i < |reports| && reports[i].status != Online ==> reports[i].online == 0
    ensures PlayersOnline(reports) == PlayersListed(reports)
  {
    if |reports| > 0 {
      PlayersOnlineOnly(reports[..|reports| - 1]);
    }
  }

  /** A server whose RCON port refuses the connection gets the offline
      entry carrying the connect error, and nothing is stored for it. */
  lemma RefusedServer(st: ApiState, key: string, rec: ServerRecord, errstr: string, errno: int,
                      measuredMs: int, now: int)
    ensures PollServerSpec(st, key, rec, ReadingOf(rec, Refuses(errstr, errno), measuredMs), now)
      == (st, OfflineReport(key, rec, "Failed to connect to RCON: " + errstr + " (" + IntToString(errno) + ")"))
  {
    OpenRefused(Text(rec.rconPassword), errstr, errno);
  }

  /** An online entry's player count is the length of its list, its map
      is the configured one, and it carries no error. */
  lemma OnlineEntry(st: ApiState, key: string, rec: ServerRecord, peer: Endpoint, measuredMs: int, now: int)
    requires ReadingOf(rec, peer, measuredMs).Reachable?
    ensures var report := PollServerSpec(st, key, rec, ReadingOf(rec, peer, measuredMs), now).1;
      && report.status == Online && report.online == |report.list|
      && report.mapName == rec.mapName && report.key == key && report.error.None?
  {
    var s0 := OpenSpec(Text(rec.rconPassword), peer).value;
    var (s1, list) := ExecuteSpec(s0, "listplayers");
    PlayerCountIsLength(list);
  }

  /** When no server can be reached, nothing is online, no player is
      counted and no store changes. */
  lemma {:induction false} NothingReachable(st: ApiState, servers: PhpArray<ServerRecord>, keys: seq<string>,
                                            readings: string -> Reading, now: int)
    requires forall i :: 0 <= i < |keys| ==> keys[i] in servers.vals
    requires forall i :: 0 <= i < |keys| ==> readings(keys[i]).Unreachable?
    ensures var (st2, reports) := PollSpec(st, servers, keys, readings, now);
      st2 == st && CountOnline(reports) == 0 && PlayersOnline(reports) == 0
  {
    if |keys| > 0 {
      NothingReachable(st, servers, keys[..|keys| - 1], readings, now);
    }
  }

  /** The number of keys whose session opened. */
  function CountReachable(keys: seq<string>, readings: string -> Reading): nat {
    if |keys| == 0 then 0
    else CountReachable(keys[..|keys| - 1], readings) + (if readings(keys[|keys| - 1]).Reachable? then 1 else 0)
  }

  /** Two uptime stores hold the same record, or none, for `k`. */
  predicate SameRecord(f1: UptimeFiles, f2: UptimeFiles, k: string) {
    (k in f1 <==> k in f2) && (k in f1 ==> f1[k] == f2[k])
  }

  /** Entry `report` is what server `key`'s own reading yields: 'online'
      exactly when its session opened, the offline entry with its own
      message when it failed, and otherwise the online entry with its own
      players, ping and capacity. */
  predicate EntryOf(report: ServerReport, key: string, rec: ServerRecord, reading: Reading) {
    && (report.status == Online <==> reading.Reachable?)
    && (reading.Unreachable? ==> report == OfflineReport(key, rec, reading.message))
    && (reading.Reachable? ==>
          report == OnlineReport(key, rec, reading.players, reading.ping, reading.maxPlayers, report.uptime))
  }

  /** getServers isolates every failure: entry i is server i's own entry,
      whatever the other servers did. */
  lemma {:induction false} PollIsolation(st: ApiState, servers: PhpArray<ServerRecord>, keys: seq<string>,
                                         readings: string -> Reading, now: int)
    requires forall i :: 0 <= i < |keys| ==> keys[i] in servers.vals
    ensures var reports := PollSpec(st, servers, keys, readings, now).1;
      && |reports| == |keys|
      && forall i :: 0 <= i < |keys| ==> EntryOf(reports[i], keys[i], servers.vals[keys[i]], readings(keys[i]))
  {
    if |keys| > 0 {
      var n := |keys| - 1;
      PollIsolation(st, servers, keys[..n], readings, now);
      var (st1, earlier) := PollSpec(st, servers, keys[..n], readings, now);
      var report := PollServerSpec(st1, keys[n], servers.vals[keys[n]], readings(keys[n]), now).1;
      var all := earlier + [report];
      PollStep(st, servers, keys, n, readings, now);
      assert keys[..n + 1] == keys;
      assert forall i :: 0 <= i < n ==> all[i] == earlier[i] && keys[..n][i] == keys[i];
    }
  }

  /** online_servers counts exactly the servers whose session opened. */
  lemma {:induction false} OnlineCountsReachable(st: ApiState, servers: PhpArray<ServerRecord>, keys: seq<string>,
                                                 readings: string -> Reading, now: int)
    requires forall i :: 0 <= i < |keys| ==> keys[i] in servers.vals
    ensures CountOnline(PollSpec(st, servers, keys, readings, now).1) == CountReachable(keys, readings)
  {
    if |keys| > 0 {
      var n := |keys| - 1;
      OnlineCountsReachable(st, servers, keys[..n], readings, now);
      var (st1, earlier) := PollSpec(st, servers, keys[..n], readings, now);
      var report := PollServerSpec(st1, keys[n], servers.vals[keys[n]], readings(keys[n]), now).1;
      PollStep(st, servers, keys, n, readings, now);
      assert keys[..n + 1] == keys;
      ReportStep(earlier, report);
    }
  }

  /** The poll touches the uptime records of the polled keys only. */
  lemma {:induction false} PollFrame(st: ApiState, servers: PhpArray<ServerRecord>, keys: seq<string>,
                                     readings: string -> Reading, now: int)
    requires forall i :: 0 <= i < |keys| ==> keys[i] in servers.vals
    ensures var st2 := PollSpec(st, servers, keys, readings, now).0;
      forall k :: k !in keys ==> SameRecord(st2.files, st.files, k)
  {
    if |keys| > 0 {
      var n := |keys| - 1;
      PollFrame(st, servers, keys[..n], readings, now);
      var st1 := PollSpec(st, servers, keys[..n], readings, now).0;
      var st2 := PollSpec(st, servers, keys, readings, now).0;
      PollStep(st, servers, keys, n, readings, now);
      assert keys[..n + 1] == keys;
      StepFiles(st1, keys[n], servers.vals[keys[n]], readings(keys[n]), now);
      forall k | k !in keys ensures SameRecord(st2.files, st.files, k) {
        assert k != keys[n] && k !in keys[..n];
      }
    }
  }

  /** One loop step touches the uptime record of its own key only. */
  lemma StepFiles(st: ApiState, key: string, rec: ServerRecord, reading: Reading, now: int)
    ensures var st2 := PollServerSpec(st, key, rec, reading, now).0;
      forall k :: k != key ==> SameRecord(st2.files, st.files, k)
  {
    if reading.Reachable? {
      var files := UptimeSpec(st.files, key, now).0;
      UptimeKeepsRecords(st.files, key, now);
      UptimeKeepsRecords(files, key, now);
      var st2 := StatusUpdateSpec(ApiState(files, st.db), key, reading.players.count, reading.ping, now);
      assert st2.files == files || st2.files == UptimeSpec(files, key, now).0;
    }
  }

  /** With distinct keys, as the registry's are, an online entry's uptime
      is read from its own server's record as it stood before the poll, so
      no other server changes any part of an entry. */
  lemma {:induction false} PollUptimeIsolated(st: ApiState, servers: PhpArray<ServerRecord>, keys: seq<string>,
                                               readings: string -> Reading, now: int)
    requires forall i :: 0 <= i < |keys| ==> keys[i] in servers.vals
    requires forall i, j :: 0 <= i < j < |keys| ==> keys[i] != keys[j]
    ensures var reports := PollSpec(st, servers, keys, readings, now).1;
      && |reports| == |keys|
      && forall i :: 0 <= i < |keys| && readings(keys[i]).Reachable? ==>
           reports[i].uptime == UptimeSpec(st.files, keys[i], now).1
  {
    PollShapes(st, servers, keys, readings, now);
    if |keys| > 0 {
      var n := |keys| - 1;
      PollUptimeIsolated(st, servers, keys[..n], readings, now);
      PollFrame(st, servers, keys[..n], readings, now);
      var (st1, earlier) := PollSpec(st, servers, keys[..n], readings, now);
      var report := PollServerSpec(st1, keys[n], servers.vals[keys[n]], readings(keys[n]), now).1;
      var all := earlier + [report];
      PollStep(st, servers, keys, n, readings, now);
      assert keys[..n + 1] == keys;
      assert UptimeSpec(st1.files, keys[n], now).1 == UptimeSpec(st.files, keys[n], now).1 by {
        assert keys[n] !in keys[..n];
        SameRecordUptime(st1.files, st.files, keys[n], now);
      }
      assert forall i :: 0 <= i < n ==> all[i] == earlier[i] && keys[..n][i] == keys[i];
    }
  }

  /** The uptime read for a key depends on that key's record only. */
  lemma SameRecordUptime(f1: UptimeFiles, f2: UptimeFiles, key: string, now: int)
    requires SameRecord(f1, f2, key)
    ensures UptimeSpec(f1, key, now).1 == UptimeSpec(f2, key, now).1
  {
  }

  /** The health verdict: error exactly when the database is missing or
      failing, else warning exactly when no server is configured. */
  lemma HealthVerdict(api: EnhancedAPI)
    ensures var dbOk := api.pdo.Some? && api.pdo.value.failure.None?;
      && (api.HealthCheck().0 == ErrorStatus <==> !dbOk)
      && (api.HealthCheck().0 == WarningStatus <==> dbOk && |api.config.servers.keys| == 0)
      && (api.HealthCheck().0 == SuccessStatus <==> dbOk && |api.config.servers.keys| > 0)
  {
    var checks := api.HealthCheck().1;
    assert checks[1] == api.CheckDatabase();
    assert checks[2] == api.CheckConfig();
    var n := |api.config.servers.keys|;
    if n > 0 {
      assert api.CheckConfig().status == "healthy";
    }
  }

  /** The fold: error beats warning beats success. */
  lemma OverallOrder(checks: seq<Check>)
    ensures Overall(checks) == ErrorStatus <==> exists i :: 0 <= i < |checks| && checks[i].status == "error"
    ensures Overall(checks) == SuccessStatus <==>
      forall i :: 0 <= i < |checks| ==> checks[i].status != "error" && checks[i].status != "warning"
  {
  }
}
