/** The ServerMonitor of scripts/monitoring.php: one poll of every
    configured server, the alerts it raises, and their dispatch to the
    event log and to Discord. As in the API, the network is a function from
    server key to endpoint, and the measured ping, the time and the hour of
    the day are parameters. */
module Monitoring {
  import opened Wrappers
  import opened PhpText
  import opened PhpValues
  import opened Configuration
  import opened RconText
  import opened RconSession
  import opened StatusSink

  const PingLimit: int := 500
  /** `$config['max_players'] ?? 150`: the registry never sets max_players. */
  const DefaultCapacity: int := 150
  const PeakStart: int := 19
  const PeakEnd: int := 23
  const LowActivityLimit: int := 5

  const OfflineColour: int := 15158332
  const WarningColour: int := 16776960

  const ServerOffline: string := "Server Offline"
  const HighPing: string := "High Ping"
  const ServerFull: string := "Server Full"
  const LowActivity: string := "Low Activity"

  /** The bytes in front of an embed's title, as the script's literal holds
      them: the siren emoji's UTF-8 read as Windows-1252 and encoded again
      ("ðŸš¨"). PHP copies them into the title unchanged. */
  const Siren: string := "\U{C3}\U{B0}\U{C5}\U{B8}\U{C5}\U{A1}\U{C2}\U{A8}"

  /** An element of `$alerts`; its timestamp comes from the clock and is
      left out. */
  datatype Alert = Alert(serverKey: string, kind: string, message: string)

  /** The embed sendDiscordAlert builds. */
  datatype Embed = Embed(title: string, description: string, colour: int)

  /** What the monitor's session yields for one server: the constructor's
      exception, or the player list and the ping, read in that order. */
  datatype Probe = Down(message: string) | Up(players: PlayerListResult, ping: int)

  function ProbeOf(rec: ServerRecord, peer: Endpoint, measuredMs: int): Probe {
    match OpenSpec(Text(rec.rconPassword), peer)
    case Failure(e) => Down(e)
    case Success(s0) =>
      var (s1, list) := ExecuteSpec(s0, "listplayers");
      var (_, ping) := ExecuteSpec(s1, "GetGameLog");
      Up(PlayerListOf(list), PingOf(ping, measuredMs))
  }

  /** checkServerAlerts: the alerts one successful poll raises, in the
      order the rules are tested. */
  function ServerAlerts(key: string, rec: ServerRecord, count: int, ping: int, hour: int): seq<Alert> {
    var name := Text(rec.name);
    (if ping > PingLimit
     then [Alert(key, HighPing, "Server " + name + " has high ping: " + IntToString(ping) + "ms")] else [])
    + (if count >= DefaultCapacity
       then [Alert(key, ServerFull, "Server " + name + " is at capacity: " + IntToString(count) + " players")] else [])
    + (if PeakStart <= hour <= PeakEnd && count < LowActivityLimit
       then [Alert(key, LowActivity, "Server " + name + " has low activity during peak hours: "
                                      + IntToString(count) + " players")] else [])
  }

  /** The alert of a failed poll. */
  function OfflineAlert(key: string, rec: ServerRecord, message: string): Alert {
    Alert(key, ServerOffline, "Server " + Text(rec.name) + " is not responding: " + message)
  }

  /** What a monitoring cycle changes before dispatch: the alert list, the
      uptime files and the database. */
  datatype MonitorState = MonitorState(alerts: seq<Alert>, files: UptimeFiles, db: StatusDb)

  /** monitorServer. On success the row's uptime is read before the query
      runs, so the uptime reference is written even when the query fails. */
  function MonitorSpec(st: MonitorState, key: string, rec: ServerRecord, probe: Probe, now: int, hour: int)
    : MonitorState
  {
    match probe
    case Down(e) =>
      MonitorState(st.alerts + [OfflineAlert(key, rec, e)], st.files,
        UpsertSpec(st.db, key, StatusRow("offline", 0, 0, None)))
    case Up(players, ping) =>
      var (files, up) := UptimeSpec(st.files, key, now);
      MonitorState(st.alerts + ServerAlerts(key, rec, players.count, ping, hour), files,
        UpsertSpec(st.db, key, StatusRow("online", players.count, ping, Some(up))))
  }

  /** What the session of each configured server yields, by key. */
  function ProbesOf(servers: PhpArray<ServerRecord>, net: string -> Endpoint, latency: string -> int)
    : string -> Probe
  {
    k => if k in servers.vals then ProbeOf(servers.vals[k], net(k), latency(k)) else Down("")
  }

  /** run's loop over the given keys, in order. */
  function RunSpec(st: MonitorState, servers: PhpArray<ServerRecord>, keys: seq<string>,
                   probes: string -> Probe, now: int, hour: int): MonitorState
    requires forall i :: 0 <= i < |keys| ==> keys[i] in servers.vals
    decreases |keys|
  {
    if |keys| == 0 then st
    else
      var n := |keys| - 1;
      MonitorSpec(RunSpec(st, servers, keys[..n], probes, now, hour), keys[n], servers.vals[keys[n]],
        probes(keys[n]), now, hour)
  }

  /** One more key of the loop is one more monitoring step. */
  lemma RunStep(st: MonitorState, servers: PhpArray<ServerRecord>, keys: seq<string>, i: nat,
                probes: string -> Probe, now: int, hour: int)
    requires i < |keys| && forall j :: 0 <= j < |keys| ==> keys[j] in servers.vals
    ensures RunSpec(st, servers, keys[..i + 1], probes, now, hour)
      == MonitorSpec(RunSpec(st, servers, keys[..i], probes, now, hour), keys[i], servers.vals[keys[i]],
                     probes(keys[i]), now, hour)
  {
    assert keys[..i + 1][..i] == keys[..i];
  }

  lemma ProbeAt(servers: PhpArray<ServerRecord>, net: string -> Endpoint, latency: string -> int, key: string)
    requires key in servers.vals
    ensures ProbesOf(servers, net, latency)(key) == ProbeOf(servers.vals[key], net(key), latency(key))
  {
  }

  /** sendDiscordAlert's embed, when a webhook is configured. */
  function EmbedOf(webhook: Option<EnvValue>, alert: Alert): Option<Embed> {
    if webhook.None? || !Truthy(webhook.value) then None
    else Some(Embed(Siren + " " + alert.kind + " Alert", alert.message,
                    if alert.kind == ServerOffline then OfflineColour else WarningColour))
  }

  /** The embeds sendAlerts posts for a list of alerts, in order. */
  function EmbedsOf(webhook: Option<EnvValue>, alerts: seq<Alert>): seq<Embed> {
    if |alerts| == 0 then []
    else
      var n := |alerts| - 1;
      EmbedsOf(webhook, alerts[..n]) + (match EmbedOf(webhook, alerts[n]) case None => [] case Some(e) => [e])
  }

  /** The number of alerts of a kind. */
  function CountKind(alerts: seq<Alert>, kind: string): nat {
    if |alerts| == 0 then 0
    else CountKind(alerts[..|alerts| - 1], kind) + (if alerts[|alerts| - 1].kind == kind then 1 else 0)
  }

  /** The number of keys whose poll fails. */
  function CountDown(keys: seq<string>, probes: string -> Probe): nat {
    if |keys| == 0 then 0
    else CountDown(keys[..|keys| - 1], probes) + (if probes(keys[|keys| - 1]).Down? then 1 else 0)
  }

  class ServerMonitor {
    const config: Config
    var alerts: seq<Alert>
    var uptimeFiles: UptimeFiles
    var db: StatusDb
    /** The alerts logged to event_logs. */
    var eventLog: seq<Alert>
    /** The embeds posted to the webhook. */
    var posted: seq<Embed>

    function State(): MonitorState
      reads this
    {
      MonitorState(alerts, uptimeFiles, db)
    }

    constructor (config: Config, db: StatusDb, files: UptimeFiles)
      ensures this.config == config && State() == MonitorState([], files, db)
      ensures eventLog == [] && posted == []
    {
      this.config := config;
      this.db := db;
      uptimeFiles := files;
      alerts := [];
      eventLog := [];
      posted := [];
    }

    /** addAlert: one record at the end. */
    method AddAlert(key: string, kind: string, message: string)
      modifies this
      ensures alerts == old(alerts) + [Alert(key, kind, message)]
      ensures uptimeFiles == old(uptimeFiles) && db == old(db)
      ensures eventLog == old(eventLog) && posted == old(posted)
    {
      alerts := alerts + [Alert(key, kind, message)];
    }

    /** checkServerAlerts: the three rules, each a conditional append. */
    method CheckServerAlerts(key: string, rec: ServerRecord, count: int, ping: int, hour: int)
      modifies this
      ensures alerts == old(alerts) + ServerAlerts(key, rec, count, ping, hour)
      ensures uptimeFiles == old(uptimeFiles) && db == old(db)
      ensures eventLog == old(eventLog) && posted == old(posted)
    {
      var name := Text(rec.name);
      if ping > PingLimit {
        AddAlert(key, HighPing, "Server " + name + " has high ping: " + IntToString(ping) + "ms");
      }
      if count >= DefaultCapacity {
        AddAlert(key, ServerFull, "Server " + name + " is at capacity: " + IntToString(count) + " players");
      }
      if PeakStart <= hour <= PeakEnd && count < LowActivityLimit {
        AddAlert(key, LowActivity, "Server " + name + " has low activity during peak hours: "
                                   + IntToString(count) + " players");
      }
    }

    /** getServerUptime. */
    method GetServerUptime(key: string, now: int) returns (secs: int)
      modifies this
      ensures (uptimeFiles, secs) == UptimeSpec(old(uptimeFiles), key, now)
      ensures alerts == old(alerts) && db == old(db)
      ensures eventLog == old(eventLog) && posted == old(posted)
    {
      if key !in uptimeFiles {
        uptimeFiles := uptimeFiles[key := IntToString(now)];
        return 0;
      }
      var start := IntOfString(uptimeFiles[key]);
      secs := now - start;
      KnownUptime(uptimeFiles, key, now);
    }

    /** updateServerStatus: the upsert, its failure logged and swallowed. */
    method UpdateServerStatus(key: string, row: StatusRow)
      modifies this
      ensures db == UpsertSpec(old(db), key, row)
      ensures alerts == old(alerts) && uptimeFiles == old(uptimeFiles)
      ensures eventLog == old(eventLog) && posted == old(posted)
    {
      if db.failure.Some? {
        return;
      }
      db := db.(rows := db.rows[key := row]);
    }

    /** `new \EnhancedArkRcon(...)` and the two reads of monitorServer. */
    static method Probe(rec: ServerRecord, peer: Endpoint, measuredMs: int) returns (p: Probe)
      ensures p == ProbeOf(rec, peer, measuredMs)
    {
      var session := EnhancedArkRcon.Open(Text(rec.ip), rec.rconPort, Text(rec.rconPassword), 10, peer);
      if session.Failure? {
        return Down(session.error);
      }
      var rcon := session.value;
      var players := rcon.GetPlayerList();
      var ping := rcon.GetPing(measuredMs);
      p := Up(players, ping);
    }

    /** monitorServer. */
    method MonitorServer(key: string, rec: ServerRecord, peer: Endpoint, measuredMs: int, now: int, hour: int)
      modifies this
      ensures State() == MonitorSpec(old(State()), key, rec, ProbeOf(rec, peer, measuredMs), now, hour)
      ensures eventLog == old(eventLog) && posted == old(posted)
    {
      var probe := Probe(rec, peer, measuredMs);
      if probe.Down? {
        UpdateServerStatus(key, StatusRow("offline", 0, 0, None));
        AddAlert(key, ServerOffline, "Server " + Text(rec.name) + " is not responding: " + probe.message);
        return;
      }
      var up := GetServerUptime(key, now);
      UpdateServerStatus(key, StatusRow("online", probe.players.count, probe.ping, Some(up)));
      CheckServerAlerts(key, rec, probe.players.count, probe.ping, hour);
    }

    /** sendAlerts: every alert in order, to the event log (when the
        database works) and to the webhook (when one is configured). */
    method SendAlerts()
      modifies this
      ensures eventLog == old(eventLog) + (if db.failure.None? then alerts else [])
      ensures posted == old(posted) + EmbedsOf(Lookup(config.env, "DISCORD_WEBHOOK_URL"), alerts)
      ensures State() == old(State())
    {
      if |alerts| == 0 {
        return;
      }
      var webhook := Lookup(config.env, "DISCORD_WEBHOOK_URL");
      var i := 0;
      while i < |alerts|
        invariant 0 <= i <= |alerts|
        invariant State() == old(State())
        invariant eventLog == old(eventLog) + (if db.failure.None? then alerts[..i] else [])
        invariant posted == old(posted) + EmbedsOf(webhook, alerts[..i])
      {
        var alert := alerts[i];
        if db.failure.None? {
          eventLog := eventLog + [alert];
        }
        assert alerts[..i + 1][..i] == alerts[..i];
        var embed := EmbedOf(webhook, alert);
        if embed.Some? {
          posted := posted + [embed.value];
        }
        i := i + 1;
      }
      assert alerts[..i] == alerts;
    }

    /** run: every configured server in order, then the dispatch. */
    method Run(net: string -> Endpoint, latency: string -> int, now: int, hour: int)
      requires config.Valid()
      modifies this
      ensures var st := RunSpec(old(State()), config.servers, config.servers.keys,
                                ProbesOf(config.servers, net, latency), now, hour);
        && State() == st
        && eventLog == old(eventLog) + (if st.db.failure.None? then st.alerts else [])
        && posted == old(posted) + EmbedsOf(Lookup(config.env, "DISCORD_WEBHOOK_URL"), st.alerts)
    {
      var keys := config.servers.keys;
      var probes := ProbesOf(config.servers, net, latency);
      var i := 0;
      while i < |keys|
        invariant 0 <= i <= |keys|
        invariant forall j :: 0 <= j < |keys| ==> keys[j] in config.servers.vals
        invariant State() == RunSpec(old(State()), config.servers, keys[..i], probes, now, hour)
        invariant eventLog == old(eventLog) && posted == old(posted)
      {
        var key := keys[i];
        var rec := config.servers.vals[key];
        RunStep(old(State()), config.servers, keys, i, probes, now, hour);
        ProbeAt(config.servers, net, latency, key);
        MonitorServer(key, rec, net(key), latency(key), now, hour);
        i := i + 1;
      }
      assert keys[..i] == keys;
      SendAlerts();
    }
  }

  // ---------------------------------------------------------------------
  // Properties of a cycle

  /** Each rule fires exactly when its threshold is crossed, the alerts
      come in rule order, and all are about the polled server. */
  lemma AlertThresholds(key: string, rec: ServerRecord, count: int, ping: int, hour: int)
    ensures var alerts := ServerAlerts(key, rec, count, ping, hour);
      && |alerts| <= 3
      && (forall i :: 0 <= i < |alerts| ==> alerts[i].serverKey == key && alerts[i].kind != ServerOffline)
      && ((exists i :: 0 <= i < |alerts| && alerts[i].kind == HighPing) <==> ping > PingLimit)
      && ((exists i :: 0 <= i < |alerts| && alerts[i].kind == ServerFull) <==> count >= DefaultCapacity)
      && ((exists i :: 0 <= i < |alerts| && alerts[i].kind == LowActivity)
           <==> PeakStart <= hour <= PeakEnd && count < LowActivityLimit)
      && (|alerts| > 0 && alerts[0].kind != HighPing ==> ping <= PingLimit)
      && ((|alerts| > 0 && alerts[|alerts| - 1].kind != LowActivity)
          ==> !(PeakStart <= hour <= PeakEnd && count < LowActivityLimit))
  {
    var a := ServerAlerts(key, rec, count, ping, hour);
    var name := Text(rec.name);
    var p := if ping > PingLimit
      then [Alert(key, HighPing, "Server " + name + " has high ping: " + IntToString(ping) + "ms")] else [];
    var f := if count >= DefaultCapacity
      then [Alert(key, ServerFull, "Server " + name + " is at capacity: " + IntToString(count) + " players")] else [];
    var l := if PeakStart <= hour <= PeakEnd && count < LowActivityLimit
      then [Alert(key, LowActivity, "Server " + name + " has low activity during peak hours: "
                                    + IntToString(count) + " players")] else [];
    assert a == p + f + l;
    if ping > PingLimit { assert a[0] == p[0]; }
    if count >= DefaultCapacity { assert a[|p|] == f[0]; }
    if PeakStart <= hour <= PeakEnd && count < LowActivityLimit { assert a[|a| - 1] == l[0]; }
  }

  /** A failed poll appends exactly one 'Server Offline' alert and writes an
      offline row with no players, no ping and no uptime. */
  lemma FailedPoll(st: MonitorState, key: string, rec: ServerRecord, message: string, now: int, hour: int)
    ensures var st2 := MonitorSpec(st, key, rec, Down(message), now, hour);
      && st2.alerts == st.alerts + [OfflineAlert(key, rec, message)]
      && st2.files == st.files
      && (st.db.failure.None? ==> st2.db.rows[key] == StatusRow("offline", 0, 0, None))
  {
  }

  lemma {:induction false} CountKindConcat(a: seq<Alert>, b: seq<Alert>, kind: string)
    ensures CountKind(a + b, kind) == CountKind(a, kind) + CountKind(b, kind)
  {
    if |b| > 0 {
      var n := |b| - 1;
      assert (a + b)[..|a| + n] == a + b[..n];
      CountKindConcat(a, b[..n], kind);
    } else {
      assert a + b == a;
    }
  }

  lemma NoOfflineAmongThresholds(key: string, rec: ServerRecord, count: int, ping: int, hour: int)
    ensures CountKind(ServerAlerts(key, rec, count, ping, hour), ServerOffline) == 0
  {
    var a := ServerAlerts(key, rec, count, ping, hour);
    AlertThresholds(key, rec, count, ping, hour);
    NoKindNoCount(a, ServerOffline);
  }

  lemma {:induction false} NoKindNoCount(a: seq<Alert>, kind: string)
    requires forall i :: 0 <= i < |a| ==> a[i].kind != kind
    ensures CountKind(a, kind) == 0
  {
    if |a| > 0 {
      NoKindNoCount(a[..|a| - 1], kind);
    }
  }

  /** A cycle keeps the alerts it started with, and adds one 'Server
      Offline' alert per server that could not be polled. */
  lemma {:induction false} OfflineAlertsCount(st: MonitorState, servers: PhpArray<ServerRecord>, keys: seq<string>,
                                              probes: string -> Probe, now: int, hour: int)
    requires forall i :: 0 <= i < |keys| ==> keys[i] in servers.vals
    ensures var st2 := RunSpec(st, servers, keys, probes, now, hour);
      && |st2.alerts| >= |st.alerts| && st2.alerts[..|st.alerts|] == st.alerts
      && CountKind(st2.alerts, ServerOffline) == CountKind(st.alerts, ServerOffline) + CountDown(keys, probes)
  {
    if |keys| > 0 {
      var n := |keys| - 1;
      OfflineAlertsCount(st, servers, keys[..n], probes, now, hour);
      var mid := RunSpec(st, servers, keys[..n], probes, now, hour);
      StepAlerts(mid, keys[n], servers.vals[keys[n]], probes(keys[n]), now, hour);
      var st2 := RunSpec(st, servers, keys, probes, now, hour);
      assert st2 == MonitorSpec(mid, keys[n], servers.vals[keys[n]], probes(keys[n]), now, hour);
      assert st2.alerts[..|st.alerts|] == st2.alerts[..|mid.alerts|][..|st.alerts|];
    }
  }

  /** One monitoring step keeps the alerts and adds a 'Server Offline' one
      exactly when the poll failed. */
  lemma StepAlerts(st: MonitorState, key: string, rec: ServerRecord, probe: Probe, now: int, hour: int)
    ensures var st2 := MonitorSpec(st, key, rec, probe, now, hour);
      && |st2.alerts| >= |st.alerts| && st2.alerts[..|st.alerts|] == st.alerts
      && CountKind(st2.alerts, ServerOffline) == CountKind(st.alerts, ServerOffline) + (if probe.Down? then 1 else 0)
  {
    match probe
    case Down(e) =>
      var a := [OfflineAlert(key, rec, e)];
      CountKindConcat(st.alerts, a, ServerOffline);
      assert CountKind(a, ServerOffline) == 1 by {
        assert a[..0] == [];
      }
      assert (st.alerts + a)[..|st.alerts|] == st.alerts;
    case Up(players, ping) =>
      var a := ServerAlerts(key, rec, players.count, ping, hour);
      CountKindConcat(st.alerts, a, ServerOffline);
      NoOfflineAmongThresholds(key, rec, players.count, ping, hour);
      assert (st.alerts + a)[..|st.alerts|] == st.alerts;
  }

  /** With a webhook configured every alert gets one embed, in order, red
      for 'Server Offline' and yellow otherwise; without one nothing is
      posted. */
  lemma {:induction false} EmbedsPerAlert(webhook: Option<EnvValue>, alerts: seq<Alert>)
    ensures webhook.None? || !Truthy(webhook.value) ==> EmbedsOf(webhook, alerts) == []
    ensures webhook.Some? && Truthy(webhook.value) ==>
      && |EmbedsOf(webhook, alerts)| == |alerts|
      && forall i :: 0 <= i < |alerts| ==>
           && EmbedsOf(webhook, alerts)[i].description == alerts[i].message
           && (EmbedsOf(webhook, alerts)[i].colour == OfflineColour <==> alerts[i].kind == ServerOffline)
  {
    if |alerts| > 0 {
      EmbedsPerAlert(webhook, alerts[..|alerts| - 1]);
    }
  }
}
