/** The browser utilities of js/base.js that the pages build on: the uptime
    text, the cached API request, the expiring localStorage items and the
    colour theme. Text is a sequence of characters; the clock and the
    server's replies are parameters. */
module ClientBase {
  import opened Wrappers
  import opened PhpText

  // ---------------------------------------------------------------------
  // formatUptime

  /** `utils.formatUptime` for a whole number of seconds. */
  function FormatUptime(seconds: int): string {
    if seconds < 60 then IntToString(seconds) + "s"
    else if seconds < 3600 then NatToString(seconds / 60) + "m"
    else if seconds < 86400 then NatToString(seconds / 3600) + "h " + NatToString(seconds % 3600 / 60) + "m"
    else NatToString(seconds / 86400) + "d " + NatToString(seconds % 86400 / 3600) + "h"
  }

  /** The seconds one unit letter stands for. */
  function UnitSeconds(unit: char): nat {
    if unit == 's' then 1 else if unit == 'm' then 60 else if unit == 'h' then 3600 else 86400
  }

  /** The seconds one part such as "12h" stands for. */
  function PartValue(part: string): Option<nat> {
    if |part| >= 2 && (forall i :: 0 <= i < |part| - 1 ==> IsDigit(part[i]))
       && part[|part| - 1] in {'s', 'm', 'h', 'd'}
    then Some(DigitsValue(part[..|part| - 1]) * UnitSeconds(part[|part| - 1]))
    else None
  }

  /** Reads an uptime text back: one part, or two separated by a space. */
  function ReadUptime(text: string): Option<nat> {
    var parts := Split(text, ' ');
    if |parts| == 1 then PartValue(parts[0])
    else if |parts| == 2 && PartValue(parts[0]).Some? && PartValue(parts[1]).Some?
    then Some(PartValue(parts[0]).value + PartValue(parts[1]).value)
    else None
  }

  /** The precision of the text for an uptime: seconds below a minute,
      minutes below a day, hours from then on. */
  function Granularity(seconds: int): nat {
    if seconds < 60 then 1 else if seconds < 86400 then 60 else 3600
  }

  lemma PartOf(n: nat, unit: char)
    requires unit in {'s', 'm', 'h', 'd'}
    ensures ' ' !in NatToString(n) + [unit]
    ensures PartValue(NatToString(n) + [unit]) == Some(n * UnitSeconds(unit))
  {
    var p := NatToString(n) + [unit];
    assert p[..|p| - 1] == NatToString(n);
    DigitsValueOfNatToString(n);
  }

  lemma TwoParts(a: nat, u: char, b: nat, v: char)
    requires u in {'s', 'm', 'h', 'd'} && v in {'s', 'm', 'h', 'd'}
    ensures var r := ReadUptime(NatToString(a) + [u] + " " + NatToString(b) + [v]);
      r.Some? && r.value == a * UnitSeconds(u) + b * UnitSeconds(v)
  {
    var p := NatToString(a) + [u];
    var q := NatToString(b) + [v];
    PartOf(a, u);
    PartOf(b, v);
    var t := NatToString(a) + [u] + " " + NatToString(b) + [v];
    assert Join([p, q], ' ') == t;
    SplitJoin([p, q], ' ');
    ReadTwo(t, p, q);
  }

  lemma ReadTwo(t: string, p: string, q: string)
    requires Split(t, ' ') == [p, q] && PartValue(p).Some? && PartValue(q).Some?
    ensures ReadUptime(t) == Some(PartValue(p).value + PartValue(q).value)
  {
  }

  lemma ReadsBackBelowHour(seconds: int)
    requires 0 <= seconds < 3600
    ensures var r := ReadUptime(FormatUptime(seconds));
      r.Some? && r.value <= seconds < r.value + Granularity(seconds)
  {
    var n: nat := if seconds < 60 then seconds else seconds / 60;
    var u := if seconds < 60 then 's' else 'm';
    PartOf(n, u);
    assert FormatUptime(seconds) == NatToString(n) + [u];
    SplitJoin([NatToString(n) + [u]], ' ');
    assert Split(FormatUptime(seconds), ' ') == [NatToString(n) + [u]];
    assert ReadUptime(FormatUptime(seconds)).value == n * UnitSeconds(u);
    if seconds >= 60 {
      assert seconds == n * 60 + seconds % 60;
    }
  }

  lemma ReadsBackBelowDay(seconds: int)
    requires 3600 <= seconds < 86400
    ensures var r := ReadUptime(FormatUptime(seconds));
      r.Some? && r.value <= seconds < r.value + Granularity(seconds)
  {
    var h, m := seconds / 3600, seconds % 3600 / 60;
    assert FormatUptime(seconds) == NatToString(h) + ['h'] + " " + NatToString(m) + ['m'];
    TwoParts(h, 'h', m, 'm');
    Bracket(seconds, 3600, 60);
  }

  lemma ReadsBackDays(seconds: int)
    requires 86400 <= seconds
    ensures var r := ReadUptime(FormatUptime(seconds));
      r.Some? && r.value <= seconds < r.value + Granularity(seconds)
  {
    var d, h := seconds / 86400, seconds % 86400 / 3600;
    assert FormatUptime(seconds) == NatToString(d) + ['d'] + " " + NatToString(h) + ['h'];
    TwoParts(d, 'd', h, 'h');
    Bracket(seconds, 86400, 3600);
  }

  /** Whole big units then whole small units of `x` fall short of it by
      less than one small unit. */
  lemma Bracket(x: nat, big: nat, small: nat)
    requires 0 < small <= big
    ensures var lower := x / big * big + x % big / small * small;
      lower <= x < lower + small
  {
    assert x == x / big * big + x % big;
    assert x % big == x % big / small * small + x % big % small;
  }

  /** Reading the text of a non-negative uptime back gives the uptime
      rounded down to the text's precision. */
  lemma FormatUptimeReadsBack(seconds: int)
    requires seconds >= 0
    ensures var r := ReadUptime(FormatUptime(seconds));
      r.Some? && r.value <= seconds < r.value + Granularity(seconds)
  {
    if seconds < 3600 {
      ReadsBackBelowHour(seconds);
    } else if seconds < 86400 {
      ReadsBackBelowDay(seconds);
    } else {
      ReadsBackDays(seconds);
    }
  }

  // ---------------------------------------------------------------------
  // apiRequest

  const ApiUrl: string := "/api/enhanced-api.php"
  /** A cached reply is served for five minutes. */
  const CacheTtl: int := 300000

  /** The parts of a reply's JSON the request inspects; `body` stands for
      the whole decoded value handed back to the caller. */
  datatype Payload = Payload(status: Option<string>, error: Option<string>, body: string)

  /** The body of an HTTP reply: JSON, or text `response.json()` rejects. */
  datatype Body = Parsed(payload: Payload) | Malformed(message: string)

  /** What `fetch` yields: a network failure, or a reply. */
  datatype Reply =
    | Unreachable(reason: string)
    | Answered(ok: bool, code: int, statusText: string, body: Body)

  datatype CacheEntry = CacheEntry(data: Payload, timestamp: int)

  /** The address an endpoint is fetched from. */
  function UrlOf(endpoint: string): string {
    if StartsWith(endpoint, "http") then endpoint else ApiUrl + "?endpoint=" + endpoint
  }

  /** The cache key: the endpoint, a dash, and the options as JSON text. */
  function CacheKey(endpoint: string, optionsJson: string): string {
    endpoint + "-" + optionsJson
  }

  predicate Fresh(cache: map<string, CacheEntry>, key: string, now: int) {
    key in cache && now - cache[key].timestamp < CacheTtl
  }

  /** The data of a reply, or the message of the error thrown for it. */
  function ReplyOutcome(reply: Reply): Result<Payload, string> {
    match reply
    case Unreachable(reason) => Failure(reason)
    case Answered(ok, code, statusText, body) =>
      if !ok then Failure("HTTP " + IntToString(code) + ": " + statusText)
      else match body
        case Malformed(message) => Failure(message)
        case Parsed(p) =>
          if p.status == Some("error")
          then Failure(if p.error.Some? && p.error.value != "" then p.error.value else "API request failed")
          else Success(p)
  }

  /** One request: the cache, the 'api-error' events dispatched, and the
      outcome after it. */
  function RequestSpec(cache: map<string, CacheEntry>, errors: seq<string>, endpoint: string,
                       optionsJson: string, now: int, fetch: (string, string) -> Reply)
    : (map<string, CacheEntry>, seq<string>, Result<Payload, string>)
  {
    var key := CacheKey(endpoint, optionsJson);
    if Fresh(cache, key, now) then (cache, errors, Success(cache[key].data))
    else match ReplyOutcome(fetch(UrlOf(endpoint), optionsJson))
      case Success(p) => (cache[key := CacheEntry(p, now)], errors, Success(p))
      case Failure(e) => (cache, errors + [e], Failure(e))
  }

  /** The shared `HyperAbyss.cache` and the events it dispatches. */
  class ApiClient {
    var cache: map<string, CacheEntry>
    /** The detail of every 'api-error' event, in order. */
    var apiErrors: seq<string>

    constructor ()
      ensures cache == map[] && apiErrors == []
    {
      cache := map[];
      apiErrors := [];
    }

    /** `utils.apiRequest`. */
    method ApiRequest(endpoint: string, optionsJson: string, now: int, fetch: (string, string) -> Reply)
      returns (r: Result<Payload, string>)
      modifies this
      ensures (cache, apiErrors, r) == RequestSpec(old(cache), old(apiErrors), endpoint, optionsJson, now, fetch)
    {
      var key := CacheKey(endpoint, optionsJson);
      if key in cache && now - cache[key].timestamp < CacheTtl {
        return Success(cache[key].data);
      }
      var url := if StartsWith(endpoint, "http") then endpoint else ApiUrl + "?endpoint=" + endpoint;
      var reply := fetch(url, optionsJson);
      if reply.Unreachable? {
        r := Failure(reply.reason);
      } else if !reply.ok {
        r := Failure("HTTP " + IntToString(reply.code) + ": " + reply.statusText);
      } else if reply.body.Malformed? {
        r := Failure(reply.body.message);
      } else {
        var data := reply.body.payload;
        if data.status == Some("error") {
          r := Failure(if data.error.Some? && data.error.value != "" then data.error.value else "API request failed");
        } else {
          cache := cache[key := CacheEntry(data, now)];
          r := Success(data);
        }
      }
      if r.Failure? {
        apiErrors := apiErrors + [r.error];
      }
    }
  }

  /** Endpoints that are full addresses are fetched as they are; the others
      go through the API script, which receives them as its endpoint
      parameter. */
  lemma RequestUrl(endpoint: string)
    ensures StartsWith(endpoint, "http") ==> UrlOf(endpoint) == endpoint
    ensures !StartsWith(endpoint, "http") ==>
      && StartsWith(UrlOf(endpoint), ApiUrl + "?endpoint=")
      && UrlOf(endpoint)[|ApiUrl + "?endpoint="|..] == endpoint
  {
  }

  /** A fresh entry answers without the network: the outcome is the cached
      data whatever the server would reply, and nothing changes. */
  lemma CacheHit(cache: map<string, CacheEntry>, errors: seq<string>, endpoint: string, optionsJson: string,
                 now: int, fetch1: (string, string) -> Reply, fetch2: (string, string) -> Reply)
    requires Fresh(cache, CacheKey(endpoint, optionsJson), now)
    ensures RequestSpec(cache, errors, endpoint, optionsJson, now, fetch1)
         == RequestSpec(cache, errors, endpoint, optionsJson, now, fetch2)
         == (cache, errors, Success(cache[CacheKey(endpoint, optionsJson)].data))
  {
  }

  /** The cache changes only on a successful fetch, and then only at the
      request's key; a failure leaves it as it was and dispatches exactly
      its message. */
  lemma CacheWrittenOnSuccess(cache: map<string, CacheEntry>, errors: seq<string>, endpoint: string,
                              optionsJson: string, now: int, fetch: (string, string) -> Reply)
    ensures var (c, e, r) := RequestSpec(cache, errors, endpoint, optionsJson, now, fetch);
      var key := CacheKey(endpoint, optionsJson);
      && (r.Failure? ==> c == cache && e == errors + [r.error])
      && (r.Success? ==> e == errors && key in c && c[key].data == r.value)
      && (c != cache ==> r.Success? && !Fresh(cache, key, now) && c == cache[key := CacheEntry(r.value, now)])
      && (r.Success? && !Fresh(cache, key, now) ==> r == ReplyOutcome(fetch(UrlOf(endpoint), optionsJson)))
  {
  }

  /** A reply whose status is 'error' is never cached, and fails with its
      own error text when it has one. */
  lemma ErrorStatusFails(p: Payload, code: int, statusText: string)
    requires p.status == Some("error")
    ensures ReplyOutcome(Answered(true, code, statusText, Parsed(p))).Failure?
    ensures p.error.Some? && p.error.value != "" ==>
      ReplyOutcome(Answered(true, code, statusText, Parsed(p))) == Failure(p.error.value)
  {
  }

  /** After a successful request, the same request within five minutes is
      answered from the cache with the same data, whatever the server
      would reply then. */
  lemma RepeatWithinTtl(cache: map<string, CacheEntry>, errors: seq<string>, endpoint: string,
                        optionsJson: string, t0: int, t1: int,
                        fetch0: (string, string) -> Reply, fetch1: (string, string) -> Reply)
    requires t0 <= t1 < t0 + CacheTtl
    requires RequestSpec(cache, errors, endpoint, optionsJson, t0, fetch0).2.Success?
    requires !Fresh(cache, CacheKey(endpoint, optionsJson), t0)
    ensures var (c, e, r) := RequestSpec(cache, errors, endpoint, optionsJson, t0, fetch0);
      RequestSpec(c, e, endpoint, optionsJson, t1, fetch1) == (c, e, r)
  {
  }

  // ---------------------------------------------------------------------
  // storage

  /** What `utils.storage.set` stores: the value as JSON text, the time it
      was stored, and the lifetime in milliseconds (`null` for none). */
  datatype StoredItem = StoredItem(value: string, timestamp: nat, expiry: Option<nat>)

  const ValueMarker: string := "{\"value\":"
  const TimestampMarker: string := ",\"timestamp\":"
  const ExpiryMarker: string := ",\"expiry\":"

  function ExpiryText(expiry: Option<nat>): string {
    if expiry.None? then "null" else NatToString(expiry.value)
  }

  /** JSON.stringify of the item, keys in the order the object is built. */
  function EncodeItem(item: StoredItem): string {
    ValueMarker + item.value + TimestampMarker + NatToString(item.timestamp)
      + ExpiryMarker + ExpiryText(item.expiry) + "}"
  }

  predicate EndsWith(s: string, suffix: string) {
    |suffix| <= |s| && s[|s| - |suffix|..] == suffix
  }

  /** Length of the run of decimal digits a text ends with. */
  function DigitTail(s: string): (n: nat)
    ensures n <= |s|
    ensures forall i :: |s| - n <= i < |s| ==> IsDigit(s[i])
    ensures n < |s| ==> !IsDigit(s[|s| - n - 1])
  {
    if |s| > 0 && IsDigit(s[|s| - 1]) then 1 + DigitTail(s[..|s| - 1]) else 0
  }

  /** The number a text ends with, after the given key: the text before
      the key and the number. */
  function ReadNumber(s: string, marker: string): Option<(string, nat)> {
    var n := DigitTail(s);
    var front := s[..|s| - n];
    var digits := s[|s| - n..];
    assert forall i :: 0 <= i < |digits| ==> IsDigit(digits[i]) by {
      forall i | 0 <= i < |digits| ensures IsDigit(digits[i]) {
        assert digits[i] == s[|s| - n + i];
      }
    }
    if n > 0 && EndsWith(front, marker)
    then Some((front[..|front| - |marker|], DigitsValue(digits)))
    else None
  }

  const NullExpiry: string := ",\"expiry\":null"

  /** The lifetime a text ends with: the text before it, and the lifetime. */
  function ReadExpiry(body: string): Option<(string, Option<nat>)> {
    if EndsWith(body, NullExpiry) then Some((body[..|body| - |NullExpiry|], None))
    else match ReadNumber(body, ExpiryMarker)
      case None => None
      case Some((front, e)) => Some((front, Some(e)))
  }

  /** JSON.parse of a stored text, for the texts `storage.set` writes; any
      other text is treated as unparseable. */
  function DecodeItem(s: string): Option<StoredItem> {
    if !(StartsWith(s, ValueMarker) && |s| > |ValueMarker| && s[|s| - 1] == '}') then None
    else match ReadExpiry(s[|ValueMarker|..|s| - 1])
      case None => None
      case Some((rest, expiry)) =>
        match ReadNumber(rest, TimestampMarker)
        case None => None
        case Some((value, t)) => Some(StoredItem(value, t, expiry))
  }

  /** Whether an item has outlived its lifetime at `now`; a lifetime of
      0, like none, never ends. */
  predicate Expired(item: StoredItem, now: int) {
    item.expiry.Some? && item.expiry.value != 0 && now > item.timestamp + item.expiry.value
  }

  /** `utils.storage.get`: the stored value, or null (None) for a missing,
      unparseable or expired item; an expired item is removed. */
  function StorageGetSpec(items: map<string, string>, key: string, now: int): (map<string, string>, Option<string>) {
    if key !in items then (items, None)
    else match DecodeItem(items[key])
      case None => (items, None)
      case Some(item) => if Expired(item, now) then (items - {key}, None) else (items, Some(item.value))
  }

  /** The theme the page uses when `theme` holds the stored one. */
  function ToggledTheme(theme: string): string {
    if theme == "dark" then "light" else "dark"
  }

  /** The browser's localStorage, as `utils.storage` and `utils.theme` use it. */
  class LocalStorage {
    var items: map<string, string>

    constructor (items: map<string, string>)
      ensures this.items == items
    {
      this.items := items;
    }

    /** `utils.storage.set`. */
    method StorageSet(key: string, valueJson: string, expiry: Option<nat>, now: nat)
      modifies this
      ensures items == old(items)[key := EncodeItem(StoredItem(valueJson, now, expiry))]
    {
      var text := ValueMarker + valueJson + TimestampMarker + NatToString(now)
        + ExpiryMarker + (if expiry.None? then "null" else NatToString(expiry.value)) + "}";
      items := items[key := text];
    }

    /** `utils.storage.get`. */
    method StorageGet(key: string, now: int) returns (v: Option<string>)
      modifies this
      ensures (items, v) == StorageGetSpec(old(items), key, now)
    {
      if key !in items {
        return None;
      }
      var item := DecodeItem(items[key]);
      if item.None? {
        return None;
      }
      var it := item.value;
      if it.expiry.Some? && it.expiry.value != 0 && now > it.timestamp + it.expiry.value {
        items := items - {key};
        return None;
      }
      v := Some(it.value);
    }

    /** `utils.theme.get`: the stored theme, dark when there is none. */
    function Theme(): (t: string)
      reads this
      ensures t != ""
      ensures "theme" in items && items["theme"] != "" ==> t == items["theme"]
    {
      if "theme" in items && items["theme"] != "" then items["theme"] else "dark"
    }

    /** `utils.theme.set`; the page attribute and the event are not modelled. */
    method SetTheme(theme: string)
      modifies this
      ensures items == old(items)["theme" := theme]
    {
      items := items["theme" := theme];
    }

    /** `utils.theme.toggle`. */
    method ToggleTheme()
      modifies this
      ensures items == old(items)["theme" := ToggledTheme(old(Theme()))]
      ensures Theme() == ToggledTheme(old(Theme()))
    {
      var current := Theme();
      SetTheme(if current == "dark" then "light" else "dark");
    }
  }

  /** A text ending in a key and a number reads back as the text before
      the key and the number. */
  lemma ReadNumberOf(front: string, marker: string, n: nat)
    requires |marker| > 0 && !IsDigit(marker[|marker| - 1])
    ensures ReadNumber(front + marker + NatToString(n), marker) == Some((front, n))
  {
    var d := NatToString(n);
    var s := front + marker + d;
    assert s[|s| - |d| - 1] == marker[|marker| - 1];
    assert DigitTail(s) == |d|;
    assert s[..|s| - |d|] == front + marker;
    assert s[|s| - |d|..] == d;
    DigitsValueOfNatToString(n);
  }

  lemma ReadExpiryOf(front: string, expiry: Option<nat>)
    ensures ReadExpiry(front + ExpiryMarker + ExpiryText(expiry)) == Some((front, expiry))
  {
    var body := front + ExpiryMarker + ExpiryText(expiry);
    if expiry.None? {
      assert body == front + NullExpiry;
      assert body[..|body| - |NullExpiry|] == front;
    } else {
      var d := NatToString(expiry.value);
      assert body[|body| - 1] == d[|d| - 1];
      assert !EndsWith(body, NullExpiry);
      ReadNumberOf(front, ExpiryMarker, expiry.value);
    }
  }

  /** Every item `storage.set` writes reads back as itself. */
  lemma ItemRoundTrip(item: StoredItem)
    ensures DecodeItem(EncodeItem(item)) == Some(item)
  {
    var s := EncodeItem(item);
    var head := item.value + TimestampMarker + NatToString(item.timestamp);
    assert s == ValueMarker + (head + ExpiryMarker + ExpiryText(item.expiry)) + "}";
    assert StartsWith(s, ValueMarker);
    assert s[|ValueMarker|..|s| - 1] == head + ExpiryMarker + ExpiryText(item.expiry);
    ReadExpiryOf(head, item.expiry);
    ReadNumberOf(item.value, TimestampMarker, item.timestamp);
  }

  /** After `storage.set`, `storage.get` returns the stored value until the
      lifetime has passed; then it removes the key and returns null. */
  lemma StoredValueLifetime(items: map<string, string>, key: string, valueJson: string,
                            expiry: Option<nat>, t0: nat, now: int)
    ensures var stored := items[key := EncodeItem(StoredItem(valueJson, t0, expiry))];
      var (after, v) := StorageGetSpec(stored, key, now);
      && (expiry.None? || expiry.value == 0 || now <= t0 + expiry.value ==> v == Some(valueJson) && after == stored)
      && (expiry.Some? && expiry.value != 0 && now > t0 + expiry.value ==> v.None? && key !in after)
  {
    ItemRoundTrip(StoredItem(valueJson, t0, expiry));
  }

  /** A text not written by `storage.set`, such as the raw theme name
      `utils.theme.set` stores, reads as null. */
  lemma RawTextIsNoItem(items: map<string, string>, key: string, now: int)
    requires key in items && !StartsWith(items[key], "{")
    ensures StorageGetSpec(items, key, now) == (items, None)
  {
    NoBraceNoMarker(items[key]);
  }

  lemma NoBraceNoMarker(s: string)
    requires !StartsWith(s, "{")
    ensures !StartsWith(s, ValueMarker)
  {
    if |s| >= |ValueMarker| {
      assert s[..1] == s[..|ValueMarker|][..1];
    }
  }

  /** Toggling twice restores the theme exactly when it is dark or light;
      any other stored name becomes dark, then light. */
  lemma ThemeToggleTwice(theme: string)
    ensures ToggledTheme(ToggledTheme(theme)) == theme <==> theme == "dark" || theme == "light"
    ensures ToggledTheme(theme) in {"dark", "light"}
  {
  }
}
