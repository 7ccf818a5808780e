/** The latency and cooldown index: an object over a fixed server list, changed in place. */
module CooldownIndex {
  import opened Common
  import opened CooldownSpec

  class LatencyIndex {
    const dir: seq<City>
    var latency: map<Key, nat>
    var sum: int
    var cooldown: map<Key, int>
    var scores: seq<int>
    var timer: Option<int>

    function View(): Index
      reads this
    {
      Index(latency, sum, cooldown, scores, timer)
    }

    ghost predicate Valid()
      reads this
    {
      |scores| == |dir| && ValidDirectory(dir)
    }

    constructor (cities: seq<City>)
      requires ValidDirectory(cities)
      ensures Valid() && dir == cities
      ensures View() == Index(map[], 0, map[], seq(|cities|, i => NO_DATA), None)
    {
      dir := cities;
      latency, sum, cooldown, timer := map[], 0, map[], None;
      scores := seq(|cities|, i => NO_DATA);
    }

    method BaseCityScore(city: City, origin: string, now: int) returns (score: int)
      ensures score == BaseScore(city, cooldown, origin, now)
    {
      var active, i := 0, 0;
      while i < |city.servers|
        invariant 0 <= i <= |city.servers|
        invariant active == ActiveServers(city.servers[..i], cooldown, now)
      {
        assert city.servers[..i + 1][..i] == city.servers[..i];
        if city.servers[i] !in cooldown || cooldown[city.servers[i]] <= now {
          active := active + 1;
        }
        i := i + 1;
      }
      assert city.servers[..i] == city.servers;
      if active == 0 {
        return UNAVAILABLE;
      }
      score := POOR;
      if active >= REDUNDANCY {
        score := score + 1;
      }
      if origin != "" && origin == city.country {
        score := score + 1;
      }
      if score > EXCELLENT {
        score := EXCELLENT;
      }
    }

    method CityAverage(city: City) returns (average: int)
      ensures average == CityLatency(city, latency)
    {
      var samples, i := 0, 0;
      average := 0;
      while i < |city.servers|
        invariant 0 <= i <= |city.servers|
        invariant (samples, average) == Samples(city.servers[..i], latency)
      {
        assert city.servers[..i + 1][..i] == city.servers[..i];
        var rtt := if city.servers[i] in latency then latency[city.servers[i]] else 0;
        if rtt > 0 {
          average := average + rtt;
          samples := samples + 1;
        }
        i := i + 1;
      }
      assert city.servers[..i] == city.servers;
      if samples > 0 {
        average := (average + samples - 1) / samples;
      }
    }

    method UpdateConnectionScore(key: Key, origin: string, now: int)
      requires Valid()
      modifies this`scores
      ensures Valid() && View() == Rescore(old(View()), dir, key, origin, now)
    {
      var c := CityOf(dir, key);
      if c.None? {
        return;
      }
      var city := dir[c.value];
      var average := CityAverage(city);
      var score := BaseCityScore(city, origin, now);
      if score <= UNAVAILABLE || average == 0 {
        scores := scores[c.value := score];
        return;
      }
      if average < CeilDiv(sum, |latency|) {
        score := score + 1;
        if average < EXCELLENT_LATENCY {
          score := score + 1;
        }
      }
      if score > EXCELLENT {
        score := EXCELLENT;
      }
      scores := scores[c.value := score];
    }

    method SetLatency(key: Key, msec: nat, origin: string, nowMs: nat)
      requires Valid()
      modifies this
      ensures Valid() && View() == CooldownSpec.SetLatency(old(View()), dir, key, msec, origin, nowMs)
    {
      sum := sum - if key in latency then latency[key] else 0;
      sum := sum + msec;
      latency := latency[key := msec];
      UpdateConnectionScore(key, origin, nowMs / 1000);
    }

    method SetCooldown(key: Key, timeout: int, origin: string, nowMs: nat)
      requires Valid()
      modifies this
      ensures Valid() && View() == CooldownSpec.SetCooldown(old(View()), dir, key, timeout, origin, nowMs)
    {
      if timeout <= 0 {
        cooldown := cooldown - {key};
      } else {
        cooldown := cooldown[key := nowMs / 1000 + timeout];
      }
      UpdateConnectionScore(key, origin, nowMs / 1000);
      var next := RemainingTime(timer, nowMs);
      if next <= 0 || timeout < next {
        timer := StartTimer(timeout, nowMs);
      }
    }

    method SetCityCooldown(country: string, code: string, timeout: int, nowMs: nat)
      requires Valid()
      modifies this
      ensures Valid() && View() == CooldownSpec.SetCityCooldown(old(View()), dir, country, code, timeout, nowMs)
    {
      var c := FindCity(dir, country, code);
      if c.None? {
        return;
      }
      var servers, i := dir[c.value].servers, 0;
      while i < |servers|
        invariant 0 <= i <= |servers| && Valid()
        invariant cooldown == CoolAll(old(cooldown), servers[..i], nowMs / 1000 + timeout)
        invariant latency == old(latency) && sum == old(sum) && scores == old(scores) && timer == old(timer)
      {
        assert servers[..i + 1][..i] == servers[..i];
        cooldown := cooldown[servers[i] := nowMs / 1000 + timeout];
        i := i + 1;
      }
      assert servers[..i] == servers;
      scores := scores[c.value := UNAVAILABLE];
      var next := RemainingTime(timer, nowMs);
      if next <= 0 || timeout < next {
        timer := StartTimer(timeout, nowMs);
      }
    }

    /** One recorded cooldown has expired. */
    method ExpireOne(key: Key, origin: string, now: int, ghost visit: Visit)
      requires Valid() && key in visit.was && visit.was[key] <= now && visit.Matches(View(), dir, origin, now)
      modifies this`cooldown, this`scores
      ensures Valid() && visit.Including(key).Matches(View(), dir, origin, now)
    {
      cooldown := cooldown - {key};
      SameScores(dir, View(), visit.Final(now), origin, now);
      LostStep(dir, visit.done, visit.was, now, key);
      UpdateConnectionScore(key, origin, now);
    }

    /** The timer has fired: visit the recorded cooldowns in any order. */
    method ClearCooldowns(origin: string, nowMs: nat)
      requires Valid()
      modifies this
      ensures Valid() && Cleared(old(View()), View(), dir, origin, nowMs)
    {
      var now, next := nowMs / 1000, 0;
      timer := None;
      ghost var visit := Visit(View(), {});
      var todo := cooldown.Keys;
      while todo != {}
        invariant Valid() && todo + visit.done == visit.was.Keys && todo !! visit.done
        invariant visit.start == old(View()).(timer := None)
        invariant visit.Matches(View(), dir, origin, now)
        invariant NextIs(visit.was, visit.done, now, next)
        decreases todo
      {
        var key :| key in todo;
        todo := todo - {key};
        NextStep(visit.was, visit.done, now, next, key);
        var expiration := cooldown[key];
        if expiration > now {
          if next == 0 || expiration < next {
            next := expiration;
          }
          PassOver(visit, View(), dir, origin, now, key);
        } else {
          ExpireOne(key, origin, now, visit);
        }
        visit := visit.Including(key);
      }
      Conclude(visit, old(View()), View(), dir, origin, nowMs, next);
      if next > now {
        timer := Some(nowMs + (next - now));
      }
    }
  }

  /** How far a visit of the recorded cooldowns has come. */
  datatype Visit = Visit(start: Index, done: set<Key>)
  {
    const was := start.cooldown

    ghost function Final(now: int): Index { start.(cooldown := Unexpired(was, now)) }

    ghost function Including(key: Key): Visit { this.(done := done + {key}) }

    /** Visited expired cooldowns are gone and their cities rescored; nothing else has changed. */
    ghost predicate Matches(ix: Index, dir: seq<City>, origin: string, now: int)
    {
      && |ix.scores| == |start.scores| == |dir|
      && ix.cooldown == Left(was, done, now)
      && ix.latency == start.latency && ix.sum == start.sum && ix.timer == start.timer
      && forall c :: 0 <= c < |dir| ==>
           ix.scores[c] == if Lost(dir[c], done, was, now) then Score(dir[c], Final(now), origin, now)
                           else start.scores[c]
    }
  }

  lemma PassOver(v: Visit, ix: Index, dir: seq<City>, origin: string, now: int, key: Key)
    requires ValidDirectory(dir) && key in v.was && v.was[key] > now && v.Matches(ix, dir, origin, now)
    ensures v.Including(key).Matches(ix, dir, origin, now)
  {
    LostStep(dir, v.done, v.was, now, key);
  }

  /** Once every cooldown has been visited, arming the timer for the earliest one left completes the clearing. */
  lemma Conclude(v: Visit, before: Index, ix: Index, dir: seq<City>, origin: string, nowMs: nat, next: int)
    requires v.done == v.was.Keys && v.Matches(ix, dir, origin, nowMs / 1000)
    requires v.start == before.(timer := None) && NextIs(v.was, v.done, nowMs / 1000, next)
    ensures var now := nowMs / 1000;
            Cleared(before, if next > now then ix.(timer := Some(nowMs + (next - now))) else ix, dir, origin, nowMs)
  {
    var now := nowMs / 1000;
    var ix' := if next > now then ix.(timer := Some(nowMs + (next - now))) else ix;
    LastNext(v.was, now, next);
    assert ix'.cooldown == Unexpired(v.was, now);
    SameScores(dir, v.Final(now), ix', origin, now);
    forall c | 0 <= c < |dir|
      ensures Lost(dir[c], v.done, v.was, now) <==> exists k <- dir[c].servers :: k in v.was && v.was[k] <= now
    {
    }
  }

  /** The cooldowns recorded after the ones in `done` have been visited. */
  function Left(was: map<Key, int>, done: set<Key>, now: int): map<Key, int>
  {
    map k | k in was && (k !in done || was[k] > now) :: was[k]
  }

  /** The city has lost a cooldown among those visited. */
  ghost predicate Lost(city: City, done: set<Key>, was: map<Key, int>, now: int)
  {
    exists k <- city.servers :: k in done && k in was && was[k] <= now
  }

  lemma LostStep(dir: seq<City>, done: set<Key>, was: map<Key, int>, now: int, key: Key)
    requires ValidDirectory(dir) && key in was
    ensures forall c :: 0 <= c < |dir| ==>
              (Lost(dir[c], done + {key}, was, now)
               <==> Lost(dir[c], done, was, now) || (was[key] <= now && CityOf(dir, key) == Some(c)))
  {
    forall c | 0 <= c < |dir|
      ensures Lost(dir[c], done + {key}, was, now)
         <==> Lost(dir[c], done, was, now) || (was[key] <= now && CityOf(dir, key) == Some(c))
    {
      assert key in dir[c].servers <==> CityOf(dir, key) == Some(c);
    }
  }

  /** `next` is the earliest unexpired cooldown visited, or zero if there is none. */
  ghost predicate NextIs(was: map<Key, int>, done: set<Key>, now: int, next: int)
    requires done <= was.Keys
  {
    if next == 0 then forall k <- done :: was[k] <= now
    else next > now && (exists k <- done :: was[k] == next) && forall k <- done :: was[k] <= now || next <= was[k]
  }

  lemma NextStep(was: map<Key, int>, done: set<Key>, now: int, next: int, key: Key)
    requires done <= was.Keys && key in was && NextIs(was, done, now, next) && now >= 0
    ensures NextIs(was, done + {key}, now,
                   if was[key] > now && (next == 0 || was[key] < next) then was[key] else next)
  {
    var done' := done + {key};
    assert key in done';
    if next != 0 {
      var k :| k in done && was[k] == next;
      assert k in done';
    }
  }

  lemma LastNext(was: map<Key, int>, now: int, next: int)
    requires NextIs(was, was.Keys, now, next) && now >= 0
    ensures next == 0 ==> Unexpired(was, now) == map[]
    ensures next != 0 ==> next > now && Unexpired(was, now) != map[] && IsEarliest(Unexpired(was, now), next)
  {
    if next != 0 {
      var k :| k in was.Keys && was[k] == next;
      assert k in Unexpired(was, now);
    }
  }

  lemma {:induction false} SameActive(servers: seq<Key>, a: map<Key, int>, b: map<Key, int>, now: int)
    requires forall k :: OnCooldown(a, k, now) <==> OnCooldown(b, k, now)
    ensures ActiveServers(servers, a, now) == ActiveServers(servers, b, now)
    decreases |servers|
  {
    if servers != [] {
      SameActive(servers[..|servers| - 1], a, b, now);
    }
  }

  /** Forgetting expired cooldowns changes no score. */
  lemma SameScores(dir: seq<City>, ix: Index, ix': Index, origin: string, now: int)
    requires ix.latency == ix'.latency && ix.sum == ix'.sum
    requires forall k :: OnCooldown(ix.cooldown, k, now) <==> OnCooldown(ix'.cooldown, k, now)
    ensures forall city <- dir :: Score(city, ix, origin, now) == Score(city, ix', origin, now)
  {
    forall city | city in dir ensures Score(city, ix, origin, now) == Score(city, ix', origin, now) {
      SameActive(city.servers, ix.cooldown, ix'.cooldown, now);
    }
  }
}
