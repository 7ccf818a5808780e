/** Latency averages, cooldowns and the cached availability score of each city, as functions on values. */
module CooldownSpec {
  import opened Common

  type Key = string

  const UNAVAILABLE := -1
  const NO_DATA := 0
  const POOR := 1
  const EXCELLENT := 4
  const REDUNDANCY := 3
  const EXCELLENT_LATENCY := 30

  /** A city of the server list; country codes are compared in one letter case. */
  datatype City = City(country: string, code: string, name: string, servers: seq<Key>)

  /** Each server is in one city; a country has no two cities of one code or of one name; cities are named. */
  ghost predicate ValidDirectory(dir: seq<City>)
  {
    && (forall c, d, k :: 0 <= c < |dir| && 0 <= d < |dir| && k in dir[c].servers && k in dir[d].servers ==> c == d)
    && (forall c, d :: 0 <= c < d < |dir| && dir[c].country == dir[d].country ==>
          dir[c].code != dir[d].code && dir[c].name != dir[d].name)
    && (forall c :: 0 <= c < |dir| ==> dir[c].name != "")
  }

  /** `scores` has one entry per city; `timer` is when the cooldown timer fires, in milliseconds; cooldowns expire
      at the given second. */
  datatype Index = Index(
    latency: map<Key, nat>,
    sum: int,
    cooldown: map<Key, int>,
    scores: seq<int>,
    timer: Option<int>)

  function CityOf(dir: seq<City>, key: Key): (r: Option<nat>)
    ensures r.Some? ==> r.value < |dir| && key in dir[r.value].servers
    ensures r.None? ==> forall c :: 0 <= c < |dir| ==> key !in dir[c].servers
  {
    if dir == [] then None
    else if key in dir[|dir| - 1].servers then Some(|dir| - 1)
    else CityOf(dir[..|dir| - 1], key)
  }

  // ---- scores ----

  /** A server is usable unless an unexpired cooldown is recorded for it. */
  predicate OnCooldown(cooldown: map<Key, int>, key: Key, now: int)
  {
    key in cooldown && cooldown[key] > now
  }

  function ActiveServers(servers: seq<Key>, cooldown: map<Key, int>, now: int): nat
  {
    if servers == [] then 0
    else ActiveServers(servers[..|servers| - 1], cooldown, now)
         + if OnCooldown(cooldown, servers[|servers| - 1], now) then 0 else 1
  }

  function BaseScore(city: City, cooldown: map<Key, int>, origin: string, now: int): int
  {
    var active := ActiveServers(city.servers, cooldown, now);
    if active == 0 then UNAVAILABLE
    else POOR + (if active >= REDUNDANCY then 1 else 0)
              + (if origin != "" && origin == city.country then 1 else 0)
  }

  /** The mean, rounded up. */
  function CeilDiv(sum: int, n: nat): int
  {
    if n == 0 then 0 else (sum + n - 1) / n
  }

  /** Number and total of the measured latencies of some servers. */
  function Samples(servers: seq<Key>, latency: map<Key, nat>): (r: (nat, nat))
    ensures r.0 == 0 ==> r.1 == 0
  {
    if servers == [] then (0, 0)
    else
      var (n, total) := Samples(servers[..|servers| - 1], latency);
      var key := servers[|servers| - 1];
      var rtt := if key in latency then latency[key] else 0;
      if rtt > 0 then (n + 1, total + rtt) else (n, total)
  }

  function CityLatency(city: City, latency: map<Key, nat>): int
  {
    var (n, total) := Samples(city.servers, latency);
    CeilDiv(total, n)
  }

  function Score(city: City, ix: Index, origin: string, now: int): int
  {
    var base := BaseScore(city, ix.cooldown, origin, now);
    var average := CityLatency(city, ix.latency);
    if base <= UNAVAILABLE || average == 0 || average >= CeilDiv(ix.sum, |ix.latency|) then base
    else
      var score := base + if average < EXCELLENT_LATENCY then 2 else 1;
      if score > EXCELLENT then EXCELLENT else score
  }

  function Rescore(ix: Index, dir: seq<City>, key: Key, origin: string, now: int): Index
    requires |ix.scores| == |dir|
  {
    match CityOf(dir, key)
    case None => ix
    case Some(c) => ix.(scores := ix.scores[c := Score(dir[c], ix, origin, now)])
  }

  // ---- the timer ----

  /** Milliseconds until the timer fires, or -1 if it is not armed. */
  function RemainingTime(timer: Option<int>, nowMs: int): int
  {
    if timer.None? then -1 else if timer.value <= nowMs then 0 else timer.value - nowMs
  }

  /** Arming with a negative interval only disarms. */
  function StartTimer(interval: int, nowMs: int): Option<int>
  {
    if interval < 0 then None else Some(nowMs + interval)
  }

  function Reschedule(timer: Option<int>, timeout: int, nowMs: int): Option<int>
  {
    var next := RemainingTime(timer, nowMs);
    if next <= 0 || timeout < next then StartTimer(timeout, nowMs) else timer
  }

  // ---- operations ----

  function SetLatency(ix: Index, dir: seq<City>, key: Key, msec: nat, origin: string, nowMs: nat): Index
    requires |ix.scores| == |dir|
  {
    var was := if key in ix.latency then ix.latency[key] else 0;
    Rescore(ix.(sum := ix.sum - was + msec, latency := ix.latency[key := msec]), dir, key, origin, nowMs / 1000)
  }

  function SetCooldown(ix: Index, dir: seq<City>, key: Key, timeout: int, origin: string, nowMs: nat): Index
    requires |ix.scores| == |dir|
  {
    var now := nowMs / 1000;
    var cooldown := if timeout <= 0 then ix.cooldown - {key} else ix.cooldown[key := now + timeout];
    Rescore(ix.(cooldown := cooldown), dir, key, origin, now).(timer := Reschedule(ix.timer, timeout, nowMs))
  }

  function FindCity(dir: seq<City>, country: string, code: string): (r: Option<nat>)
    ensures r.Some? ==> r.value < |dir| && dir[r.value].country == country && dir[r.value].code == code
    ensures r.None? ==> forall c :: 0 <= c < |dir| ==> dir[c].country != country || dir[c].code != code
  {
    if dir == [] then None
    else if dir[|dir| - 1].country == country && dir[|dir| - 1].code == code then Some(|dir| - 1)
    else FindCity(dir[..|dir| - 1], country, code)
  }

  function CoolAll(cooldown: map<Key, int>, servers: seq<Key>, expire: int): map<Key, int>
  {
    if servers == [] then cooldown
    else CoolAll(cooldown, servers[..|servers| - 1], expire)[servers[|servers| - 1] := expire]
  }

  function SetCityCooldown(ix: Index, dir: seq<City>, country: string, code: string, timeout: int, nowMs: nat): Index
    requires |ix.scores| == |dir|
  {
    match FindCity(dir, country, code)
    case None => ix
    case Some(c) =>
      ix.(cooldown := CoolAll(ix.cooldown, dir[c].servers, nowMs / 1000 + timeout),
          scores := ix.scores[c := UNAVAILABLE],
          timer := Reschedule(ix.timer, timeout, nowMs))
  }

  /** The cooldowns that have not expired. */
  function Unexpired(cooldown: map<Key, int>, now: int): map<Key, int>
  {
    map k | k in cooldown && cooldown[k] > now :: cooldown[k]
  }

  predicate IsEarliest(cooldown: map<Key, int>, t: int)
  {
    (exists k <- cooldown :: cooldown[k] == t) && forall k <- cooldown :: t <= cooldown[k]
  }

  /** What the timer leaves: expired cooldowns gone, cities that lost one rescored, and the timer armed for the
      earliest expiry left. */
  ghost predicate Cleared(ix: Index, ix': Index, dir: seq<City>, origin: string, nowMs: nat)
  {
    var now := nowMs / 1000;
    && |ix.scores| == |dir| == |ix'.scores|
    && ix'.cooldown == Unexpired(ix.cooldown, now)
    && ix'.latency == ix.latency && ix'.sum == ix.sum
    && (forall c :: 0 <= c < |dir| ==>
          ix'.scores[c] == if exists k <- dir[c].servers :: k in ix.cooldown && ix.cooldown[k] <= now
                           then Score(dir[c], ix', origin, now) else ix.scores[c])
    && (if ix'.cooldown == map[] then ix'.timer == None
        else exists t :: IsEarliest(ix'.cooldown, t) && ix'.timer == Some(nowMs + t - now))
  }
}
