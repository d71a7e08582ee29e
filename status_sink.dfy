/** The two stores the pollers write: the uptime reference files
    (logs/uptime_<key>.dat, written by getServerUptime in api/enhanced-api.php
    and scripts/monitoring.php) and the server_status table they upsert
    into. The directory is a map from server key to the file's text, the
    table a map from server_key to its row. */
module StatusSink {
  import opened Wrappers
  import opened PhpText
  import opened PhpValues

  /** The uptime reference files, by server key. */
  type UptimeFiles = map<string, string>

  /** getServerUptime at time `now`: a key seen for the first time gets a
      file holding `now` and an uptime of 0; a known key reads its file
      back and reports the seconds since. */
  function UptimeSpec(files: UptimeFiles, key: string, now: int): (UptimeFiles, int) {
    if key !in files then (files[key := IntToString(now)], 0)
    else (files, now - IntOfString(files[key]))
  }

  /** One row of server_status. The monitor's offline row has no uptime
      (None), as it leaves 'uptime_seconds' out. */
  datatype StatusRow = StatusRow(status: string, players: int, ping: int, uptime: Option<int>)

  /** The database as the pollers see it: the server_status table, and
      the message every query fails with when it is unusable. */
  datatype StatusDb = StatusDb(rows: map<string, StatusRow>, failure: Option<string>)

  /** INSERT ... ON DUPLICATE KEY UPDATE on server_status: one row per
      server_key, replaced whole; a failing query changes nothing. */
  function UpsertSpec(db: StatusDb, key: string, row: StatusRow): (r: StatusDb)
    ensures r.failure == db.failure
    ensures db.failure.None? ==> key in r.rows && r.rows[key] == row
    ensures db.failure.Some? ==> r.rows == db.rows
    ensures forall k :: k != key ==> (k in r.rows <==> k in db.rows)
    ensures forall k :: k != key && k in db.rows ==> r.rows[k] == db.rows[k]
  {
    if db.failure.Some? then db else db.(rows := db.rows[key := row])
  }

  /** A known key reads its file back and changes no file. */
  lemma KnownUptime(files: UptimeFiles, key: string, now: int)
    requires key in files
    ensures UptimeSpec(files, key, now) == (files, now - IntOfString(files[key]))
  {
  }

  /** The first lookup of a key records the time and reports 0; a later
      lookup reports the seconds since that first one, and leaves the
      record as it was. (A clock reading is a PHP int, which reads back
      from its file unchanged.) */
  lemma UptimeSinceFirstSight(files: UptimeFiles, key: string, t0: int, t1: int)
    requires key !in files
    ensures var (f1, u0) := UptimeSpec(files, key, t0);
      && u0 == 0 && key in f1
      && UptimeSpec(f1, key, t1) == (f1, t1 - SaturatingCast(t0))
      && (IsPhpInt(t0) ==> UptimeSpec(f1, key, t1) == (f1, t1 - t0))
  {
    IntOfDecimal(t0);
  }

  /** A lookup adds at most its own key, and never changes a record that
      exists. */
  lemma UptimeKeepsRecords(files: UptimeFiles, key: string, now: int)
    ensures var f := UptimeSpec(files, key, now).0;
      && f.Keys == files.Keys + {key}
      && (forall k :: k in files ==> f[k] == files[k])
  {
  }
}
